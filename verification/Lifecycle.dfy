/** The life of a temporary resource under an arbitrary sequence of operations: creation, external
    replacement, publication, cleanup and release, with an entry budget kept beside it.

    Entries are identified by what they are, so renaming one keeps its identity. What the library may
    answer is fixed by the contract of its temporary resources: a publication succeeds only from an
    owned source that is still the one created, and a removal takes whatever is found under the
    resource's path, but only after the identity check has passed. */
module Lifecycle {
  import opened Wrappers
  import opened Disk

  type Id = nat

  const MAX_OPERATIONS: nat := 64
  const MAX_ENTRIES: nat := 256

  datatype SourceState = Owned | CleanupRequired | Indeterminate | Released
  datatype FailureState = NotPublished | Published | Unknown
  datatype CleanupLimits = FullBudget | NoEntries | NoDepth | NoPathBytes

  /** The guard of one temporary resource. `body` is the created entity `top` with all it holds;
      `occupant` is what is found under its path, and `sandbox` the private directory around it with
      any name left behind there. */
  datatype Guard = Guard(
    serial: nat, isFile: bool, source: SourceState, replaced: bool, content: seq<Byte>, writable: bool,
    limits: CleanupLimits, top: Id, body: set<Id>, occupant: set<Id>, sandbox: set<Id>)

  /** One publication: of which resource, in what state it was, and what was published. */
  datatype Event = Event(
    serial: nat, from: SourceState, replaced: bool, isFile: bool, content: seq<Byte>, bytes: map<Id, seq<Byte>>)

  /** `used` holds every entry there ever was; new entries are none of them. */
  datatype State = State(
    remaining: nat, current: Option<Guard>, entries: map<Id, seq<Byte>>,
    published: map<Id, seq<Byte>>, replacements: map<Id, seq<Byte>>, writer: Option<Id>,
    created: nat, events: seq<Event>, used: set<Id>)

  /** What happens in one operation: the choices of the environment and the answers of the library. */
  datatype Answer =
    | Nothing
    | Creates(sandbox: Id, top: Id, payload: Id)
    | Replaces(entry: Id, inner: Id)
    | Succeeds(residue: Option<Id>, removed: set<Id>)
    | Fails(failure: FailureState, residue: Option<Id>, removed: set<Id>, after: CleanupRun)
    | Cleans(run: CleanupRun)
    | Drops(run: CleanupRun)
    | Grows(added: set<Id>, leaf: Id)
    | Writes(entry: Id)

  /** The native outcomes of one cleanup, and the entries it removed. */
  datatype CleanupRun = CleanupRun(queryFails: bool, removeFails: bool, releaseFails: bool, removed: set<Id>)

  const PAYLOAD: seq<Byte> := Bytes("original fuzz resource")
  const REPLACEMENT: seq<Byte> := Bytes("replacement must survive")
  const RETAINED: seq<Byte> := Bytes("retained")

  function Bytes(text: string): seq<Byte> { seq(|text|, i requires 0 <= i < |text| => text[i] as int % 256) }

  // ---- The library ----

  /** `cleanup`: refused without authority; an owned source is removed only if its path still names it. */
  function Cleanup(source: SourceState, replaced: bool, n: CleanupRun): (bool, SourceState) {
    match source
    case Indeterminate => (false, Indeterminate)
    case Released => (true, Released)
    case CleanupRequired => if n.releaseFails then (false, CleanupRequired) else (true, Released)
    case Owned =>
      if n.queryFails || replaced then (false, Indeterminate)
      else if n.removeFails then (false, Owned)
      else if n.releaseFails then (false, CleanupRequired)
      else (true, Released)
  }

  /** What the source is after a failed publication. */
  function AfterFailure(g: Guard, op: nat, failure: FailureState): SourceState {
    match failure
    case Published => CleanupRequired
    case Unknown => Indeterminate
    case NotPublished =>
      if g.source != Owned then g.source
      else if g.replaced && op != 10 then Indeterminate
      else Owned
  }

  /** The entries a cleanup gets to: nothing without authority or when the identity check stops it;
      otherwise whatever is under the path of an owned source, and then the sandbox. */
  function Reach(g: Guard, n: CleanupRun): set<Id> {
    match g.source
    case Indeterminate => {}
    case Released => {}
    case CleanupRequired => g.sandbox
    case Owned =>
      if n.queryFails || g.replaced then {}
      else if n.removeFails then g.occupant
      else g.occupant + g.sandbox
  }

  /** A failing removal leaves at least the top of the tree, a successful one nothing of it. */
  predicate MayClean(g: Guard, n: CleanupRun) {
    && n.removed <= Reach(g, n)
    && (Cleanup(g.source, g.replaced, n) == (false, Owned) ==> g.top !in n.removed)
    && (g.source == Owned && !n.queryFails && !g.replaced && !n.removeFails ==> g.occupant <= n.removed)
  }

  predicate Conflicts(s: State, op: nat) { op == 7 && s.remaining >= 1 }

  /** Whether the library may give this answer. A publication needs an owned source that was not
      replaced; where everything is in order it succeeds. It may leave one name of its own behind. */
  predicate MayPublish(s: State, g: Guard, op: nat, selector: nat, a: Answer) {
    && (a.Succeeds? || a.Fails?)
    && (a.residue.Some? ==> a.residue.value !in s.used)
    && a.removed <= g.sandbox
    && (a.Succeeds? ==> g.source == Owned && !g.replaced && !Conflicts(s, op) && op != 10)
    && (op == 2 && selector % 3 == 0 && g.source == Owned && !g.replaced && g.limits == FullBudget ==> a.Succeeds?)
    && (a.Fails? && (g.source != Owned || g.replaced || Conflicts(s, op) || op == 10) ==> a.failure == NotPublished)
    && (a.Fails? && a.failure == NotPublished ==> a.residue == None && a.removed == {})
    && (a.Fails? && a.failure == Published ==> MayClean(Retained(g, a), a.after))
  }

  // ---- The operations ----

  function Remove(entries: map<Id, seq<Byte>>, ids: set<Id>): map<Id, seq<Byte>> { entries - ids }

  function Add(entries: map<Id, seq<Byte>>, id: Option<Id>): map<Id, seq<Byte>> {
    if id.Some? then entries[id.value := []] else entries
  }

  /** A guard after publication: the entity has left its path, and a leftover name may be in the sandbox. */
  function Retained(g: Guard, a: Answer): Guard
    requires a.Fails?
  {
    g.(source := AfterFailure(g, 0, a.failure), writable := false, occupant := {},
       sandbox := g.sandbox + if a.residue.Some? then {a.residue.value} else {})
  }

  function Create(s: State, isFile: bool, a: Answer): State
    requires a.Creates? && s.remaining >= 4
  {
    var body := if isFile then {a.top} else {a.top, a.payload};
    var g := Guard(s.created, isFile, Owned, false, PAYLOAD, true, FullBudget, a.top, body, body, {a.sandbox});
    var entries := s.entries[a.sandbox := []];
    s.(remaining := s.remaining - 4, current := Some(g), created := s.created + 1,
       used := s.used + {a.sandbox, a.top, a.payload},
       entries := if isFile then entries[a.top := PAYLOAD] else entries[a.top := []][a.payload := PAYLOAD])
  }

  /** The original moves away and something else takes its path. */
  function Replace(s: State, g: Guard, a: Answer): State
    requires a.Replaces? && s.remaining >= 2
  {
    var marker := if g.isFile then a.entry else a.inner;
    s.(remaining := s.remaining - 2,
       current := Some(g.(replaced := true, occupant := {a.entry, marker})),
       entries := s.entries[a.entry := []][marker := REPLACEMENT],
       replacements := s.replacements[marker := REPLACEMENT],
       used := s.used + {a.entry, a.inner})
  }

  /** What a publication of this guard publishes. */
  function Body(s: State, g: Guard): map<Id, seq<Byte>> { map i | i in g.body && i in s.entries :: s.entries[i] }

  function Record(s: State, g: Guard): State {
    s.(published := s.published + Body(s, g),
       events := s.events + [Event(g.serial, g.source, g.replaced, g.isFile, g.content, Body(s, g))])
  }

  function Publish(s: State, g: Guard, op: nat, a: Answer): State
    requires a.Succeeds? || a.Fails?
  {
    var t := s.(remaining := if Conflicts(s, op) then s.remaining - 1 else s.remaining,
                used := s.used + if a.residue.Some? then {a.residue.value} else {});
    if a.Succeeds? then
      Record(t, g).(current := None, entries := Add(Remove(t.entries, a.removed), a.residue))
    else if a.failure == Published then
      // The guard of what has been published may clean its sandbox, never the target.
      CleanUp(Record(t, g).(current := Some(Retained(g, a)), entries := Add(Remove(t.entries, a.removed), a.residue)),
              Retained(g, a), Cleans(a.after))
    else if a.failure == Unknown then
      t.(current := Some(Retained(g, a)), entries := Add(Remove(t.entries, a.removed), a.residue))
    else if op == 10 && g.source == Owned && g.writable && g.isFile then
      t.(current := Some(g.(content := g.content + RETAINED)),
         entries := t.entries[g.top := g.content + RETAINED])
    else
      t.(current := Some(g.(source := AfterFailure(g, op, NotPublished), writable := g.writable && op == 10)))
  }

  function CleanUp(s: State, g: Guard, a: Answer): State
    requires a.Cleans?
  {
    s.(current := Some(g.(source := Cleanup(g.source, g.replaced, a.run).1, writable := false,
                          occupant := g.occupant - a.run.removed, sandbox := g.sandbox - a.run.removed)),
       entries := Remove(s.entries, a.run.removed))
  }

  function Grow(s: State, g: Guard, a: Answer): State
    requires a.Grows? && s.remaining >= |a.added|
  {
    s.(remaining := s.remaining - |a.added|,
       current := Some(g.(body := g.body + a.added, occupant := g.occupant + a.added)),
       used := s.used + a.added,
       entries := map i | i in s.entries.Keys + a.added ::
         if i in a.added then (if i == a.leaf then PAYLOAD else []) else s.entries[i])
  }

  function Depth(selector: nat): nat { selector % 13 + 1 }

  predicate Publishes(op: nat) { op == 2 || op == 3 || op == 7 || op == 9 || op == 10 }

  function LimitsFor(selector: nat): CleanupLimits {
    match selector % 4
    case 0 => NoEntries
    case 1 => NoDepth
    case 2 => NoPathBytes
    case _ => FullBudget
  }

  /** Whether this answer fits the operation in this state. */
  predicate Permits(s: State, op: nat, selector: nat, a: Answer) {
    if op == 12 && s.remaining >= 3 then
      a.Writes? && (if s.writer.Some? then s.writer == Some(a.entry) else a.entry !in s.used)
    else if op == 0 && s.current.None? && s.remaining >= 4 then
      a.Creates? && {a.sandbox, a.top, a.payload} !! s.used
      && a.sandbox != a.top && a.sandbox != a.payload && a.top != a.payload
    else if op == 11 || op == 12 || op == 13 || op == 0 || s.current.None? then a == Nothing
    else
      var g := s.current.value;
      if op == 1 && g.source == Owned && s.remaining >= 2 && !g.replaced then
        a.Replaces? && a.entry !in s.used && a.inner !in s.used && a.entry != a.inner
      else if Publishes(op) then MayPublish(s, g, op, selector, a)
      else if op == 4 then a.Cleans? && MayClean(g, a.run)
      else if op == 5 then
        // Dropping a guard is one silent cleanup within its limits.
        a.Drops? && MayClean(g, a.run)
        && (g.source == Owned && !g.replaced && g.limits == FullBudget && !a.run.queryFails ==>
              g.occupant <= a.run.removed)
        && (g.source == Owned && !g.isFile && g.limits == NoEntries ==> a.run.removed * g.occupant == {})
      else if op == 8 && CanGrow(s, g, selector) then
        a.Grows? && |a.added| == Depth(selector) + 1 && a.added !! s.used && a.leaf in a.added
      else a == Nothing
  }

  predicate CanGrow(s: State, g: Guard, selector: nat) {
    !g.isFile && g.source == Owned && !g.replaced && g.top in s.entries && s.remaining > Depth(selector)
  }

  /** One operation of the input. */
  function Step(s: State, op: nat, selector: nat, a: Answer): State
    requires Permits(s, op, selector, a)
  {
    if op == 12 && s.remaining >= 3 then
      s.(remaining := s.remaining - 3, writer := Some(a.entry), entries := s.entries[a.entry := PAYLOAD],
         used := s.used + {a.entry})
    else if op == 13 then
      s.(writer := None, entries := Remove(s.entries, if s.writer.Some? then {s.writer.value} else {}))
    else if op == 0 && s.current.None? && s.remaining >= 4 then Create(s, selector % 2 == 0, a)
    else if op == 11 || op == 12 || op == 0 || s.current.None? then s
    else
      var g := s.current.value;
      if op == 1 && g.source == Owned && s.remaining >= 2 && !g.replaced then Replace(s, g, a)
      else if Publishes(op) then Publish(s, g, op, a)
      else if op == 4 then CleanUp(s, g, a)
      else if op == 5 then s.(current := None, entries := Remove(s.entries, a.run.removed))
      else if op == 6 && !g.isFile then s.(current := Some(g.(limits := LimitsFor(selector))))
      else if op == 8 && CanGrow(s, g, selector) then Grow(s, g, a)
      else s
  }

  const Start: State := State(MAX_ENTRIES - 2, None, map[0 := []], map[], map[], None, 0, [], {0})
}
