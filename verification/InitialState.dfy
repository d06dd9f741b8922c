/** The initial state of a definition in one of its shapes (packages/runtime-core/src/loop-execution.ts). */
module InitialState {
  import opened Prelude

  /** A state of a state map, with the targets of its events; a target that is not a string is `None`. */
  datatype Entry = Entry(name: string, targets: seq<Option<string>>)

  /** A field of an object: missing or null, something that is no string, or a string. */
  datatype Field = Missing | NotText | TextField(text: string)

  /** The first element of a list of states: a string, an object with ids, or anything else. */
  datatype Element = Text(text: string) | StateObject(stateId: Field, id: Field) | OtherElement

  datatype States = NoStates | StateList(elements: seq<Element>) | StateMap(entries: seq<Entry>)

  datatype RawDefinition = NotAnObject | Definition(initialState: Option<string>, states: States)

  predicate Leads(e: Entry, name: string) {
    exists j :: 0 <= j < |e.targets| && e.targets[j].Some? && Trim(e.targets[j].value) != "" && Trim(e.targets[j].value) == name
  }

  /** Some event leads to the state. */
  predicate Targeted(entries: seq<Entry>, name: string) {
    exists i :: 0 <= i < |entries| && Leads(entries[i], name)
  }

  predicate HasName(entries: seq<Entry>, name: string) {
    exists i :: 0 <= i < |entries| && entries[i].name == name
  }

  lemma HasNameMeans(entries: seq<Entry>, name: string)
    ensures HasName(entries, name) <==> exists e :: e in entries && e.name == name
  {
    if HasName(entries, name) {
      var i :| 0 <= i < |entries| && entries[i].name == name;
      assert entries[i] in entries;
    }
  }

  /** The state that a map of states is entered in. */
  ghost predicate IsEntry(entries: seq<Entry>, r: Option<string>) {
    if entries == [] then r.None?
    else if (exists e :: e in entries && e.name == "idle") && !Targeted(entries, "idle") then r == Some("idle")
    else if forall i | 0 <= i < |entries| :: Targeted(entries, entries[i].name) then r == Some(entries[0].name)
    else exists i :: 0 <= i < |entries| && FirstUntargeted(entries, i) && r == Some(entries[i].name)
  }

  predicate FirstUntargeted(entries: seq<Entry>, i: nat) {
    i < |entries| && !Targeted(entries, entries[i].name) && forall k | 0 <= k < i :: Targeted(entries, entries[k].name)
  }

  /** Collects the targets, and takes "idle" or the first state that is none of them. */
  method InitialStateFromXStateLike(entries: seq<Entry>) returns (r: Option<string>)
    ensures IsEntry(entries, r)
  {
    var targets := CollectTargets(entries);
    HasNameMeans(entries, "idle");
    if HasName(entries, "idle") && "idle" !in targets {
      return Some("idle");
    }
    for i := 0 to |entries|
      invariant forall k | 0 <= k < i :: entries[k].name in targets
    {
      if entries[i].name !in targets {
        FirstUntargetedIsEntry(entries, i);
        return Some(entries[i].name);
      }
    }
    return if entries == [] then None else Some(entries[0].name);
  }

  lemma FirstUntargetedIsEntry(entries: seq<Entry>, i: nat)
    requires FirstUntargeted(entries, i)
    requires !(HasName(entries, "idle") && !Targeted(entries, "idle"))
    ensures IsEntry(entries, Some(entries[i].name))
  {
    HasNameMeans(entries, "idle");
  }

  method CollectTargets(entries: seq<Entry>) returns (targets: set<string>)
    ensures forall name :: name in targets <==> Targeted(entries, name)
  {
    targets := {};
    for i := 0 to |entries|
      invariant forall name :: name in targets <==> exists k :: 0 <= k < i && Leads(entries[k], name)
    {
      ghost var before := targets;
      var e := entries[i];
      for j := 0 to |e.targets|
        invariant forall name :: name in targets <==>
          name in before
          || exists k :: 0 <= k < j && e.targets[k].Some? && Trim(e.targets[k].value) != "" && Trim(e.targets[k].value) == name
      {
        if e.targets[j].Some? && Trim(e.targets[j].value) != "" {
          targets := targets + {Trim(e.targets[j].value)};
        }
      }
    }
  }

  /** A string that is not blank, trimmed. */
  function Usable(s: Option<string>): Option<string> {
    if s.Some? && Trim(s.value) != "" then Some(Trim(s.value)) else None
  }

  function OfElement(e: Element): Option<string> {
    match e
    case Text(text) => Usable(Some(text))
    case StateObject(stateId, id) =>
      // a field that is there is taken even when it is no string
      var field := if stateId.Missing? then id else stateId;
      if field.TextField? then Usable(Some(field.text)) else None
    case OtherElement => None
  }

  /** Something is left of the text when it is trimmed, and that is the answer. */
  ghost predicate Left(text: string, r: Option<string>) {
    Trim(text) != "" && r == Some(Trim(text))
  }

  /** What a list of states gives: a string or the `stateId`, or for want of one the `id`, of its first element. */
  ghost predicate GivenByList(elements: seq<Element>, r: Option<string>) {
    if elements != [] && elements[0].Text? && Trim(elements[0].text) != "" then Left(elements[0].text, r)
    else if elements != [] && elements[0].StateObject? && elements[0].stateId.TextField? && Trim(elements[0].stateId.text) != "" then
      Left(elements[0].stateId.text, r)
    else if elements != [] && elements[0].StateObject? && elements[0].stateId == Missing
            && elements[0].id.TextField? && Trim(elements[0].id.text) != "" then
      Left(elements[0].id.text, r)
    else r.None?
  }

  /** An explicit initial state comes first, then the first of a list of states, then the entry of a map. */
  method ParseInitialState(d: RawDefinition) returns (r: Option<string>)
    ensures d == NotAnObject ==> r == None
    ensures d.Definition? && d.initialState.Some? && Trim(d.initialState.value) != "" ==> Left(d.initialState.value, r)
    ensures d.Definition? && (d.initialState.None? || Trim(d.initialState.value) == "") ==>
      match d.states
      case NoStates => r == None
      case StateList(elements) => GivenByList(elements, r)
      case StateMap(entries) => IsEntry(entries, r)
  {
    if d.NotAnObject? {
      return None;
    }
    if d.initialState.Some? && Trim(d.initialState.value) != "" {
      return Some(Trim(d.initialState.value));
    }
    match d.states
    case NoStates => return None;
    case StateList(elements) => return if elements == [] then None else OfElement(elements[0]);
    case StateMap(entries) => r := InitialStateFromXStateLike(entries);
  }
}
