/** The linear wizard of `MultiStepForm`: a current step index moved by
    Next, Previous and a click on a progress circle, a per-step validity flag
    gating the forward buttons, and form data keyed by step id. */
module Wizard {
  import opened Wrappers

  /** One entry of the `steps` prop; the rendered component is left out. */
  datatype Step = Step(id: string, title: string, isValid: Option<bool>)

  /** `currentStep` and `formData`. */
  datatype State<D> = State(current: nat, formData: map<string, D>)

  /** `useState(0)` and `useState({})`. */
  function Initial<D>(): State<D> {
    State(0, map[])
  }

  /** The index names a step, or is the initial 0 of a wizard without steps. */
  predicate InRange<D>(steps: seq<Step>, st: State<D>) {
    st.current < |steps| || st.current == 0
  }

  /** `currentStep === steps.length - 1`. */
  predicate IsLastStep<D>(steps: seq<Step>, st: State<D>) {
    st.current == |steps| - 1
  }

  /** `steps[currentStep]?.isValid ?? true`: only an explicit `false` on an
      existing step makes it invalid. */
  function IsCurrentStepValid<D>(steps: seq<Step>, st: State<D>): (r: bool)
    ensures r <==> !(st.current < |steps| && steps[st.current].isValid == Some(false))
  {
    if st.current < |steps| then
      match steps[st.current].isValid
      case Some(b) => b
      case None => true
    else true
  }

  /** `goToNext`: one step forward unless on the last step. */
  function GoToNext<D>(steps: seq<Step>, st: State<D>): (r: State<D>)
    ensures InRange(steps, st) ==> InRange(steps, r)
    ensures InRange(steps, st) && |steps| > 0 && !IsLastStep(steps, st) ==>
              r == st.(current := st.current + 1)
    ensures IsLastStep(steps, st) ==> r == st
    ensures r.formData == st.formData
  {
    if st.current < |steps| - 1 then st.(current := st.current + 1) else st
  }

  /** `goToPrevious`: one step back unless on the first step. */
  function GoToPrevious<D>(steps: seq<Step>, st: State<D>): (r: State<D>)
    ensures InRange(steps, st) ==> InRange(steps, r)
    ensures st.current > 0 ==> r.current + 1 == st.current && r.formData == st.formData
    ensures st.current == 0 ==> r == st
  {
    if st.current > 0 then st.(current := st.current - 1) else st
  }

  /** `goToStep(k)`: any existing step, whatever the validity of the steps
      in between; any other `k` is ignored. */
  function GoToStep<D>(steps: seq<Step>, st: State<D>, k: int): (r: State<D>)
    ensures InRange(steps, st) ==> InRange(steps, r)
    ensures 0 <= k < |steps| ==> r.current == k && r.formData == st.formData
    ensures !(0 <= k < |steps|) ==> r == st
  {
    if 0 <= k < |steps| then st.(current := k) else st
  }

  /** `updateFormData(data)`: writes the entry keyed by the current step's id
      and nothing else. With no current step, `steps[currentStep].id` throws,
      which is `None` here. */
  function UpdateFormData<D>(steps: seq<Step>, st: State<D>, data: D): (r: Option<State<D>>)
    ensures r.None? <==> st.current >= |steps|
    ensures r.Some? ==>
              var id := steps[st.current].id;
              && r.value.current == st.current
              && r.value.formData.Keys == st.formData.Keys + {id}
              && r.value.formData[id] == data
              && (forall k :: k in st.formData && k != id ==> r.value.formData[k] == st.formData[k])
  {
    if st.current < |steps| then
      Some(st.(formData := st.formData[steps[st.current].id := data]))
    else None
  }

  /** The "Suivant" button: shown when not on the last step, enabled only
      when the current step is valid. */
  function ClickNext<D>(steps: seq<Step>, st: State<D>): (r: State<D>)
    ensures !IsCurrentStepValid(steps, st) ==> r == st
    ensures IsLastStep(steps, st) ==> r == st
    ensures r != st ==> r.current == st.current + 1
    ensures st.current + 1 < |steps| && IsCurrentStepValid(steps, st) ==> r == st.(current := st.current + 1)
    ensures InRange(steps, st) ==> InRange(steps, r)
  {
    if !IsLastStep(steps, st) && IsCurrentStepValid(steps, st) then GoToNext(steps, st) else st
  }

  /** The "Terminer" button: shown only on the last step, enabled only when
      it is valid; pressing it hands the form data to `onComplete`. */
  function ClickComplete<D>(steps: seq<Step>, st: State<D>): (r: Option<map<string, D>>)
    ensures r.Some? <==> IsLastStep(steps, st) && IsCurrentStepValid(steps, st)
    ensures r.Some? ==> r.value == st.formData
  {
    if IsLastStep(steps, st) && IsCurrentStepValid(steps, st) then Some(st.formData) else None
  }

  /** A navigation action of the user. */
  datatype Nav = Next | Previous | Jump(k: int)

  /** One navigation action, through the same handlers as the buttons. */
  function Apply<D>(steps: seq<Step>, st: State<D>, a: Nav): State<D> {
    match a
    case Next => ClickNext(steps, st)
    case Previous => GoToPrevious(steps, st)
    case Jump(k) => GoToStep(steps, st, k)
  }

  /** A session: the actions applied in order. */
  function Run<D>(steps: seq<Step>, st: State<D>, actions: seq<Nav>): State<D>
    decreases |actions|
  {
    if |actions| == 0 then st else Run(steps, Apply(steps, st, actions[0]), actions[1..])
  }

  /** Starting from step 0, no sequence of actions leaves `[0, steps.length)`. */
  lemma {:induction false} RunStaysInRange<D>(steps: seq<Step>, actions: seq<Nav>)
    ensures InRange(steps, Run(steps, Initial<D>(), actions))
  {
    RunPreservesInRange(steps, Initial<D>(), actions);
  }

  /** Every action preserves `InRange`, hence every session does. */
  lemma {:induction false} RunPreservesInRange<D>(steps: seq<Step>, st: State<D>, actions: seq<Nav>)
    requires InRange(steps, st)
    ensures InRange(steps, Run(steps, st, actions))
    decreases |actions|
  {
    if |actions| > 0 {
      RunPreservesInRange(steps, Apply(steps, st, actions[0]), actions[1..]);
    }
  }

  /** The footer shows "Suivant" on every step but the last and "Terminer"
      on the last: on a valid step of a non-empty wizard exactly one of the
      two acts. */
  lemma OneButtonActs<D>(steps: seq<Step>, st: State<D>)
    requires InRange(steps, st) && |steps| > 0 && IsCurrentStepValid(steps, st)
    ensures ClickNext(steps, st) != st <==> ClickComplete(steps, st).None?
    ensures ClickComplete(steps, st).Some? <==> IsLastStep(steps, st)
  {
  }

  /** Previous undoes Next whenever Next moved. */
  lemma PreviousUndoesNext<D>(steps: seq<Step>, st: State<D>)
    requires InRange(steps, st) && |steps| > 0 && !IsLastStep(steps, st)
    ensures GoToPrevious(steps, GoToNext(steps, st)) == st
  {
  }

  /** The progress circles ignore validity: while Next is blocked on an
      invalid step, a click on the following circle still moves there. */
  lemma JumpSkipsInvalidStep<D>(steps: seq<Step>, st: State<D>)
    requires st.current + 1 < |steps| && steps[st.current].isValid == Some(false)
    ensures ClickNext(steps, st) == st
    ensures GoToStep(steps, st, st.current + 1).current == st.current + 1
  {
  }
}
