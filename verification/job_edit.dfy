/** The job-post edit modal (`JobEditModal`): a form over one `JobPost`
    with free-text fields and two editable lists, requirements and skills. */
module JobEdit {
  import opened Wrappers
  import opened Text
  import Seqs

  /** The card's record; the last three fields are optional in it. */
  datatype JobPost = JobPost(
    id: string,
    title: string,
    description: string,
    requirements: seq<string>,
    skills: seq<string>,
    experience: string,
    location: Option<string>,
    contractType: Option<string>,
    salary: Option<string>)

  /** The form: the post being edited and the two "add" inputs. */
  datatype Form = Form(data: JobPost, newRequirement: string, newSkill: string)

  /** The form the modal mounts with: every field empty. */
  function Initial(): Form {
    Form(JobPost("", "", "", [], [], "", Some(""), Some(""), Some("")), "", "")
  }

  /** The effect on `jobPost`: a post given to the modal replaces the form's
      data; a null one leaves the form as it was. The inputs are kept. */
  function ReceiveJobPost(f: Form, jobPost: Option<JobPost>): (r: Form)
    ensures jobPost.Some? ==> r.data == jobPost.value
    ensures jobPost.None? ==> r == f
    ensures r.newRequirement == f.newRequirement && r.newSkill == f.newSkill
  {
    if jobPost.Some? then f.(data := jobPost.value) else f
  }

  /** The six text inputs wired to `handleInputChange`. */
  datatype Field = Title | Description | Experience | Location | ContractType | Salary

  /** A field as the inputs read it: absent optional fields read as `None`. */
  function FieldValue(p: JobPost, field: Field): Option<string> {
    match field
    case Title => Some(p.title)
    case Description => Some(p.description)
    case Experience => Some(p.experience)
    case Location => p.location
    case ContractType => p.contractType
    case Salary => p.salary
  }

  /** `handleInputChange(field, value)`: that field takes the typed value as
      is (no trimming), everything else stays. */
  function SetField(p: JobPost, field: Field, value: string): (r: JobPost)
    ensures FieldValue(r, field) == Some(value)
    ensures forall g: Field :: g != field ==> FieldValue(r, g) == FieldValue(p, g)
    ensures r.id == p.id && r.requirements == p.requirements && r.skills == p.skills
  {
    match field
    case Title => p.(title := value)
    case Description => p.(description := value)
    case Experience => p.(experience := value)
    case Location => p.(location := Some(value))
    case ContractType => p.(contractType := Some(value))
    case Salary => p.(salary := Some(value))
  }

  /** `addRequirement` / `addSkill` on one list and its input: a non-blank
      input is appended trimmed and the input cleared; a blank one changes
      nothing. */
  function AddItem(list: seq<string>, input: string): (r: (seq<string>, string))
    ensures !IsBlank(input) ==> r.0 == list + [Trim(input)] && r.1 == ""
    ensures IsBlank(input) ==> r == (list, input)
  {
    var t := Trim(input);
    if t != [] then (list + [t], "") else (list, input)
  }

  /** An item is kept in the form the add buttons produce it: trimmed and
      not empty. */
  ghost predicate Clean(item: string) {
    item != [] && Trim(item) == item
  }

  ghost predicate AllClean(list: seq<string>) {
    forall i :: 0 <= i < |list| ==> Clean(list[i])
  }

  /** Whatever is typed, the items the add button appends are clean. */
  lemma AddItemKeepsClean(list: seq<string>, input: string)
    requires AllClean(list)
    ensures AllClean(AddItem(list, input).0)
  {
    if !IsBlank(input) {
      var t := Trim(input);
      TrimIdempotent(input);
      assert Clean(t);
      var r := AddItem(list, input).0;
      assert r == list + [t];
      forall i | 0 <= i < |r| ensures Clean(r[i]) {
        if i < |list| {
          assert r[i] == list[i];
        } else {
          assert r[i] == t;
        }
      }
    }
  }

  /** `removeRequirement(index)` / `removeSkill(index)` keep every item whose
      position differs from `index`; an index outside the list drops none. */
  lemma RemoveAtKeepsClean(list: seq<string>, index: int)
    requires AllClean(list)
    ensures AllClean(Seqs.RemoveAt(list, index))
  {
    var r := Seqs.RemoveAt(list, index);
    forall k | 0 <= k < |r| ensures Clean(r[k]) {
      var j := Seqs.RemoveAtSource(list, index, k);
      assert Clean(list[j]);
    }
  }

  /** Removing the item just added gives back the list before the add. */
  lemma RemoveUndoesAdd(list: seq<string>, input: string)
    requires !IsBlank(input)
    ensures Seqs.RemoveAt(AddItem(list, input).0, |list|) == list
  {
    var l := AddItem(list, input).0;
    assert l[..|list|] == list;
  }

  function AddRequirement(f: Form): (r: Form)
    ensures r.data.requirements == AddItem(f.data.requirements, f.newRequirement).0
    ensures r.newRequirement == AddItem(f.data.requirements, f.newRequirement).1
    ensures r.data.(requirements := f.data.requirements) == f.data && r.newSkill == f.newSkill
  {
    var (list, input) := AddItem(f.data.requirements, f.newRequirement);
    f.(data := f.data.(requirements := list), newRequirement := input)
  }

  function AddSkill(f: Form): (r: Form)
    ensures r.data.skills == AddItem(f.data.skills, f.newSkill).0
    ensures r.newSkill == AddItem(f.data.skills, f.newSkill).1
    ensures r.data.(skills := f.data.skills) == f.data && r.newRequirement == f.newRequirement
  {
    var (list, input) := AddItem(f.data.skills, f.newSkill);
    f.(data := f.data.(skills := list), newSkill := input)
  }

  function RemoveRequirement(f: Form, index: int): (r: Form)
    ensures 0 <= index < |f.data.requirements| ==>
              |r.data.requirements| == |f.data.requirements| - 1
              && r.data.requirements == f.data.requirements[..index] + f.data.requirements[index + 1..]
    ensures !(0 <= index < |f.data.requirements|) ==> r == f
    ensures r.data.(requirements := f.data.requirements) == f.data
  {
    f.(data := f.data.(requirements := Seqs.RemoveAt(f.data.requirements, index)))
  }

  function RemoveSkill(f: Form, index: int): (r: Form)
    ensures 0 <= index < |f.data.skills| ==>
              |r.data.skills| == |f.data.skills| - 1
              && r.data.skills == f.data.skills[..index] + f.data.skills[index + 1..]
    ensures !(0 <= index < |f.data.skills|) ==> r == f
    ensures r.data.(skills := f.data.skills) == f.data
  {
    f.(data := f.data.(skills := Seqs.RemoveAt(f.data.skills, index)))
  }

  /** What the user can do while the modal is open. `Save` is `handleSave`,
      which passes the form's data to `onSave` unchanged. */
  datatype Event =
    | Input(field: Field, value: string)
    | TypeRequirement(text: string)
    | TypeSkill(text: string)
    | AddRequirementClick
    | RemoveRequirementClick(index: int)
    | AddSkillClick
    | RemoveSkillClick(index: int)

  function Apply(f: Form, e: Event): Form {
    match e
    case Input(field, value) => f.(data := SetField(f.data, field, value))
    case TypeRequirement(text) => f.(newRequirement := text)
    case TypeSkill(text) => f.(newSkill := text)
    case AddRequirementClick => AddRequirement(f)
    case RemoveRequirementClick(i) => RemoveRequirement(f, i)
    case AddSkillClick => AddSkill(f)
    case RemoveSkillClick(i) => RemoveSkill(f, i)
  }

  function Run(f: Form, events: seq<Event>): Form
    decreases |events|
  {
    if events == [] then f else Run(Apply(f, events[0]), events[1..])
  }

  /** One event keeps the id and the cleanliness of both lists. */
  lemma ApplyKeepsIdAndCleanLists(f: Form, e: Event)
    requires AllClean(f.data.requirements) && AllClean(f.data.skills)
    ensures Apply(f, e).data.id == f.data.id
    ensures AllClean(Apply(f, e).data.requirements) && AllClean(Apply(f, e).data.skills)
  {
    match e {
      case AddRequirementClick => AddItemKeepsClean(f.data.requirements, f.newRequirement);
      case AddSkillClick => AddItemKeepsClean(f.data.skills, f.newSkill);
      case RemoveRequirementClick(i) => RemoveAtKeepsClean(f.data.requirements, i);
      case RemoveSkillClick(i) => RemoveAtKeepsClean(f.data.skills, i);
      case Input(field, value) =>
        assert Apply(f, e).data.requirements == f.data.requirements;
        assert Apply(f, e).data.skills == f.data.skills;
      case TypeRequirement(_) =>
      case TypeSkill(_) =>
    }
  }

  /** An edit session never changes the post's id, and when the post came
      in with clean lists, the lists `onSave` receives are clean too. */
  lemma {:induction false} SessionKeepsIdAndCleanLists(f: Form, events: seq<Event>)
    requires AllClean(f.data.requirements) && AllClean(f.data.skills)
    ensures Run(f, events).data.id == f.data.id
    ensures AllClean(Run(f, events).data.requirements) && AllClean(Run(f, events).data.skills)
    decreases |events|
  {
    if events != [] {
      ApplyKeepsIdAndCleanLists(f, events[0]);
      SessionKeepsIdAndCleanLists(Apply(f, events[0]), events[1..]);
    }
  }
}
