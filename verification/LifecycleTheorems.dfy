/** What holds after every sequence of operations on temporary resources. */
module LifecycleTheorems {
  import opened Wrappers
  import opened Disk
  import opened Lifecycle

  // ---- The invariant ----

  /** Entries that the current guard might still charge for: one name that a publication leaves behind. */
  function Spare(s: State): nat { if s.current.Some? && s.current.value.source == Owned then 1 else 0 }

  /** There are never more entries than were paid for, and the directory the harness starts with. */
  predicate Paid(s: State) {
    s.remaining <= MAX_ENTRIES - 2 && |s.entries| + Spare(s) <= 1 + (MAX_ENTRIES - 2 - s.remaining)
  }

  /** `kept` is there, byte for byte. */
  predicate Holds(entries: map<Id, seq<Byte>>, kept: map<Id, seq<Byte>>) {
    forall i | i in kept :: i in entries && entries[i] == kept[i]
  }

  /** The guard has no hold on what was published or put in place by others. */
  predicate Separate(s: State) {
    && s.published.Keys !! s.replacements.Keys
    && (s.writer.Some? ==>
          s.writer.value in s.entries && s.writer.value !in s.published && s.writer.value !in s.replacements)
    && (s.current.Some? ==>
          var g := s.current.value;
          && g.sandbox !! s.published.Keys && g.sandbox !! s.replacements.Keys && g.body !! s.replacements.Keys
          && (g.source == Owned ==> g.body !! s.published.Keys)
          && (!g.replaced ==> g.occupant <= g.body)
          && g.sandbox !! g.body
          && (s.writer.Some? ==> s.writer.value !in g.sandbox && s.writer.value !in g.body))
  }

  predicate Used(s: State) {
    && s.entries.Keys <= s.used
    && (s.current.Some? ==> s.current.value.body <= s.used && s.current.value.sandbox <= s.used)
  }

  /** An owned file has exactly the bytes that were written to it. */
  predicate Faithful(s: State) {
    s.current.Some? && s.current.value.isFile && s.current.value.source == Owned ==>
      var g := s.current.value;
      g.body == {g.top} && g.top in s.entries && s.entries[g.top] == g.content
  }

  /** Each resource publishes at most once, from an owned source that was not replaced, and what it
      published then is still what counts as published. */
  ghost predicate Logged(s: State) {
    && (forall k | 0 <= k < |s.events| :: Proper(s, s.events[k]))
    && (forall j, k | 0 <= j < k < |s.events| :: s.events[j].serial != s.events[k].serial)
    && (s.current.Some? ==> s.current.value.serial < s.created)
    && (s.current.Some? && s.current.value.source == Owned ==>
          forall k | 0 <= k < |s.events| :: s.events[k].serial != s.current.value.serial)
  }

  ghost predicate Proper(s: State, e: Event) {
    && e.serial < s.created && e.from == Owned && !e.replaced
    && (e.isFile ==> exists i :: e.bytes == map[i := e.content])
    && Holds(s.published, e.bytes)
  }

  ghost predicate Inv(s: State) {
    Paid(s) && Holds(s.entries, s.published) && Holds(s.entries, s.replacements) && Separate(s) && Used(s)
    && Faithful(s) && Logged(s)
  }

  // ---- Counting ----

  lemma {:induction false} SubsetCount(a: set<Id>, b: set<Id>)
    requires a <= b
    ensures |a| <= |b|
    decreases a
  {
    if a != {} {
      var x :| x in a;
      SubsetCount(a - {x}, b - {x});
    }
  }

  lemma RemoveCount(m: map<Id, seq<Byte>>, ids: set<Id>)
    ensures |Remove(m, ids)| <= |m|
  {
    assert |Remove(m, ids)| == |Remove(m, ids).Keys| && |m| == |m.Keys|;
    SubsetCount(Remove(m, ids).Keys, m.Keys);
  }

  lemma PutCount(m: map<Id, seq<Byte>>, i: Id, bytes: seq<Byte>)
    ensures |m[i := bytes]| <= |m| + 1
    ensures i in m ==> |m[i := bytes]| == |m|
  {
    assert m[i := bytes].Keys == m.Keys + {i};
    assert |m[i := bytes]| == |m[i := bytes].Keys| && |m| == |m.Keys|;
    if i in m { assert m.Keys + {i} == m.Keys; }
  }

  // ---- Preservation, operation by operation ----

  lemma KeepsCreate(s: State, isFile: bool, a: Answer)
    requires Inv(s) && s.current.None? && s.remaining >= 4 && a.Creates?
    requires {a.sandbox, a.top, a.payload} !! s.used
    requires a.sandbox != a.top && a.sandbox != a.payload && a.top != a.payload
    ensures Inv(Create(s, isFile, a))
  {
    PutCount(s.entries, a.sandbox, []);
    PutCount(s.entries[a.sandbox := []], a.top, PAYLOAD);
    PutCount(s.entries[a.sandbox := []], a.top, []);
    PutCount(s.entries[a.sandbox := []][a.top := []], a.payload, PAYLOAD);
  }

  lemma KeepsReplace(s: State, g: Guard, a: Answer)
    requires Inv(s) && s.current == Some(g) && g.source == Owned && s.remaining >= 2 && !g.replaced && a.Replaces?
    requires a.entry !in s.used && a.inner !in s.used && a.entry != a.inner
    ensures Inv(Replace(s, g, a))
  {
    PutCount(s.entries, a.entry, []);
    PutCount(s.entries[a.entry := []], if g.isFile then a.entry else a.inner, REPLACEMENT);
  }

  lemma KeepsCleanUp(s: State, g: Guard, a: Answer)
    requires Inv(s) && s.current == Some(g) && a.Cleans? && MayClean(g, a.run)
    ensures Inv(CleanUp(s, g, a))
  {
    RemoveCount(s.entries, a.run.removed);
    CleanUpHolds(s, g, a);
    CleanUpLeaves(s, g, a);
  }

  lemma CleanUpHolds(s: State, g: Guard, a: Answer)
    requires Inv(s) && s.current == Some(g) && a.Cleans? && MayClean(g, a.run)
    ensures var t := CleanUp(s, g, a); Holds(t.entries, t.published) && Holds(t.entries, t.replacements) && Separate(t)
  {}

  lemma CleanUpLeaves(s: State, g: Guard, a: Answer)
    requires Inv(s) && s.current == Some(g) && a.Cleans? && MayClean(g, a.run)
    ensures var t := CleanUp(s, g, a); Used(t) && Faithful(t) && Logged(t)
  {}

  lemma KeepsGrow(s: State, g: Guard, selector: nat, a: Answer)
    requires Inv(s) && s.current == Some(g) && CanGrow(s, g, selector)
    requires a.Grows? && |a.added| == Depth(selector) + 1 && a.added !! s.used && a.leaf in a.added
    ensures Inv(Grow(s, g, a))
  {
    var t := Grow(s, g, a);
    assert t.entries.Keys == s.entries.Keys + a.added;
    assert |t.entries| == |t.entries.Keys| && |s.entries| == |s.entries.Keys|;
  }

  lemma KeepsDrop(s: State, g: Guard, run: CleanupRun)
    requires Inv(s) && s.current == Some(g) && MayClean(g, run)
    ensures Inv(s.(current := None, entries := Remove(s.entries, run.removed)))
  {
    RemoveCount(s.entries, run.removed);
  }

  lemma KeepsWrite(s: State, i: Id)
    requires Inv(s) && s.remaining >= 3 && (if s.writer.Some? then s.writer == Some(i) else i !in s.used)
    ensures Inv(s.(remaining := s.remaining - 3, writer := Some(i), entries := s.entries[i := PAYLOAD],
                   used := s.used + {i}))
  {
    PutCount(s.entries, i, PAYLOAD);
  }

  lemma KeepsDelete(s: State)
    requires Inv(s)
    ensures Inv(s.(writer := None, entries := Remove(s.entries, if s.writer.Some? then {s.writer.value} else {})))
  {
    RemoveCount(s.entries, if s.writer.Some? then {s.writer.value} else {});
  }

  // ---- Publication ----

  lemma BodyIsNew(s: State, g: Guard)
    requires Inv(s) && s.current == Some(g) && g.source == Owned
    ensures Holds(s.entries, s.published + Body(s, g)) && (s.published + Body(s, g)).Keys !! s.replacements.Keys
    ensures Holds(s.published + Body(s, g), s.published)
    ensures g.isFile ==> Body(s, g) == map[g.top := g.content]
  {}

  /** Recording a publication: the body was nobody else's, so nothing recorded before is overwritten. */
  lemma KeepsRecord(s: State, g: Guard, t: State)
    requires Logged(s) && s.current == Some(g) && g.source == Owned && !g.replaced
    requires Holds(s.published + Body(s, g), s.published) && (g.isFile ==> Body(s, g) == map[g.top := g.content])
    requires t.published == Record(s, g).published && t.events == Record(s, g).events && t.created == s.created
    requires t.current.Some? ==> t.current.value.serial == g.serial && t.current.value.source != Owned
    ensures Logged(t)
  {
    forall k | 0 <= k < |t.events| ensures Proper(t, t.events[k]) {
      if k < |s.events| {
        assert Proper(s, s.events[k]) && t.events[k] == s.events[k];
      } else {
        assert t.events[k].bytes == Body(s, g);
      }
    }
  }

  lemma AddCount(m: map<Id, seq<Byte>>, i: Option<Id>)
    ensures |Add(m, i)| <= |m| + if i.Some? then 1 else 0
  {
    if i.Some? { PutCount(m, i.value, []); }
  }

  /** Removing one's own entries and leaving one new name behind disturbs nothing that is kept. */
  lemma HoldsOn(entries: map<Id, seq<Byte>>, kept: map<Id, seq<Byte>>, removed: set<Id>, residue: Option<Id>)
    requires Holds(entries, kept) && removed !! kept.Keys && (residue.Some? ==> residue.value !in kept)
    ensures Holds(Add(Remove(entries, removed), residue), kept)
  {}

  /** The state in which the library has just published, with or without its guard. */
  predicate JustPublished(s: State, g: Guard, a: Answer, t: State) {
    && s.current == Some(g) && g.source == Owned && !g.replaced
    && (a.Succeeds? || a.Fails?) && a.removed <= g.sandbox && (a.residue.Some? ==> a.residue.value !in s.used)
    && s.remaining >= t.remaining
    && t == Record(s, g).(remaining := t.remaining, current := t.current,
         entries := Add(Remove(s.entries, a.removed), a.residue),
         used := s.used + if a.residue.Some? then {a.residue.value} else {})
    && (t.current == None || (a.Fails? && a.failure == Published && t.current == Some(Retained(g, a))))
  }

  lemma PublishedHolds(s: State, g: Guard, a: Answer, t: State)
    requires Inv(s) && JustPublished(s, g, a, t)
    ensures Holds(t.entries, t.published) && Holds(t.entries, t.replacements)
  {
    BodyIsNew(s, g);
    HoldsOn(s.entries, t.published, a.removed, a.residue);
    HoldsOn(s.entries, s.replacements, a.removed, a.residue);
  }

  lemma PublishedSeparate(s: State, g: Guard, a: Answer, t: State)
    requires Inv(s) && JustPublished(s, g, a, t)
    ensures Separate(t) && Used(t)
  {}

  lemma PublishedPaid(s: State, g: Guard, a: Answer, t: State)
    requires Paid(s) && JustPublished(s, g, a, t)
    ensures Paid(t)
  {
    RemoveCount(s.entries, a.removed);
    AddCount(Remove(s.entries, a.removed), a.residue);
  }

  lemma PublishedLogged(s: State, g: Guard, a: Answer, t: State)
    requires Inv(s) && JustPublished(s, g, a, t)
    ensures Logged(t)
  {
    BodyIsNew(s, g);
    KeepsRecord(s, g, t);
  }

  lemma KeepsPublished(s: State, g: Guard, a: Answer, t: State)
    requires Inv(s) && JustPublished(s, g, a, t)
    ensures Inv(t)
  {
    PublishedHolds(s, g, a, t);
    PublishedSeparate(s, g, a, t);
    PublishedPaid(s, g, a, t);
    PublishedLogged(s, g, a, t);
  }

  lemma KeepsPublishing(s: State, g: Guard, op: nat, selector: nat, a: Answer)
    requires Inv(s) && s.current == Some(g) && MayPublish(s, g, op, selector, a)
    requires a.Succeeds? || a.failure == Published
    ensures Inv(Publish(s, g, op, a))
  {
    var remaining := if Conflicts(s, op) then s.remaining - 1 else s.remaining;
    var t := Record(s, g).(remaining := remaining, current := if a.Succeeds? then None else Some(Retained(g, a)),
      entries := Add(Remove(s.entries, a.removed), a.residue),
      used := s.used + if a.residue.Some? then {a.residue.value} else {});
    KeepsPublished(s, g, a, t);
    if a.Fails? { KeepsCleanUp(t, Retained(g, a), Cleans(a.after)); }
  }

  /** What happened is not known: the guard loses all authority. */
  lemma KeepsUnknownFailure(s: State, g: Guard, op: nat, selector: nat, a: Answer)
    requires Inv(s) && s.current == Some(g) && MayPublish(s, g, op, selector, a) && a.Fails? && a.failure == Unknown
    ensures Inv(Publish(s, g, op, a))
  {
    var t := Publish(s, g, op, a);
    HoldsOn(s.entries, s.published, a.removed, a.residue);
    HoldsOn(s.entries, s.replacements, a.removed, a.residue);
    RemoveCount(s.entries, a.removed);
    AddCount(Remove(s.entries, a.removed), a.residue);
    SameLog(s, t);
  }

  lemma SameLog(s: State, t: State)
    requires Logged(s) && t.events == s.events && t.published == s.published && t.created == s.created
    requires t.current.Some? ==> s.current.Some? && t.current.value.serial == s.current.value.serial
    requires t.current.Some? && t.current.value.source == Owned ==> s.current.value.source == Owned
    ensures Logged(t)
  {
    assert forall k | 0 <= k < |s.events| :: Proper(s, s.events[k]) ==> Proper(t, s.events[k]);
  }

  lemma KeepsUnpublished(s: State, g: Guard, op: nat, selector: nat, a: Answer)
    requires Inv(s) && s.current == Some(g) && MayPublish(s, g, op, selector, a)
    requires a.Fails? && a.failure == NotPublished
    ensures Inv(Publish(s, g, op, a))
  {
    if g.top in s.entries { PutCount(s.entries, g.top, g.content + RETAINED); }
    SameLog(s, Publish(s, g, op, a));
  }

  lemma KeepsStep(s: State, op: nat, selector: nat, a: Answer)
    requires Inv(s) && Permits(s, op, selector, a)
    ensures Inv(Step(s, op, selector, a))
  {
    if op == 12 && s.remaining >= 3 {
      KeepsWrite(s, a.entry);
    } else if op == 13 {
      KeepsDelete(s);
    } else if op == 0 && s.current.None? && s.remaining >= 4 {
      KeepsCreate(s, selector % 2 == 0, a);
    } else if op != 11 && op != 12 && op != 0 && s.current.Some? {
      KeepsGuarded(s, s.current.value, op, selector, a);
    }
  }

  lemma KeepsGuarded(s: State, g: Guard, op: nat, selector: nat, a: Answer)
    requires Inv(s) && s.current == Some(g) && Permits(s, op, selector, a)
    requires op != 11 && op != 12 && op != 13 && op != 0
    ensures Inv(Step(s, op, selector, a))
  {
    if op == 1 && g.source == Owned && s.remaining >= 2 && !g.replaced {
      KeepsReplace(s, g, a);
    } else if Publishes(op) {
      if a.Succeeds? || a.failure == Published { KeepsPublishing(s, g, op, selector, a); }
      else if a.failure == Unknown { KeepsUnknownFailure(s, g, op, selector, a); }
      else { KeepsUnpublished(s, g, op, selector, a); }
    } else if op == 4 {
      KeepsCleanUp(s, g, a);
    } else if op == 5 {
      KeepsDrop(s, g, a.run);
    } else if op == 8 && CanGrow(s, g, selector) {
      KeepsGrow(s, g, selector, a);
    }
  }

  // ---- Whole runs ----

  datatype Op = Op(code: nat, selector: nat, answer: Answer)

  ghost predicate StepsAt(states: seq<State>, ops: seq<Op>, k: nat) {
    && k < |ops| && k + 1 < |states|
    && Permits(states[k], ops[k].code % 14, ops[k].selector, ops[k].answer)
    && states[k + 1] == Step(states[k], ops[k].code % 14, ops[k].selector, ops[k].answer)
  }

  /** The states that a sequence of operations goes through. */
  ghost predicate IsRun(states: seq<State>, ops: seq<Op>) {
    |states| == |ops| + 1 && states[0] == Start && forall k: nat :: k < |ops| ==> StepsAt(states, ops, k)
  }

  lemma {:induction false} RunKeeps(states: seq<State>, ops: seq<Op>, k: nat)
    requires IsRun(states, ops) && k < |states|
    ensures Inv(states[k])
  {
    if k > 0 {
      RunKeeps(states, ops, k - 1);
      assert StepsAt(states, ops, k - 1);
      KeepsAt(states, ops, k - 1);
    } else {
      StartsWell();
    }
  }

  lemma StartsWell()
    ensures Inv(Start)
  {}

  lemma KeepsAt(states: seq<State>, ops: seq<Op>, k: nat)
    requires StepsAt(states, ops, k) && Inv(states[k])
    ensures Inv(states[k + 1])
  {
    KeepsStep(states[k], ops[k].code % 14, ops[k].selector, ops[k].answer);
  }

  /** In every run each resource is published at most once, and only while it was owned and had not been
      replaced; a published file has exactly the bytes that were written to it. */
  lemma PublishesAtMostOnce(states: seq<State>, ops: seq<Op>, n: nat)
    requires IsRun(states, ops) && n < |states|
    ensures forall j, k | 0 <= j < k < |states[n].events| :: states[n].events[j].serial != states[n].events[k].serial
    ensures forall k | 0 <= k < |states[n].events| ::
      && states[n].events[k].from == Owned && !states[n].events[k].replaced
      && (states[n].events[k].isFile ==> exists i :: states[n].events[k].bytes == map[i := states[n].events[k].content])
  {
    RunKeeps(states, ops, n);
    forall k | 0 <= k < |states[n].events|
      ensures states[n].events[k].from == Owned && !states[n].events[k].replaced
      ensures states[n].events[k].isFile ==>
        exists i :: states[n].events[k].bytes == map[i := states[n].events[k].content]
    {
      assert Proper(states[n], states[n].events[k]);
    }
  }

  /** The remaining budget never goes below zero, and the whole tree stays below the limit. */
  lemma StaysWithinBudget(states: seq<State>, ops: seq<Op>, n: nat)
    requires IsRun(states, ops) && n < |states|
    ensures |states[n].entries| <= 1 + (MAX_ENTRIES - 2 - states[n].remaining) < MAX_ENTRIES
  {
    RunKeeps(states, ops, n);
  }

  // ---- Nothing published or put in place by others is ever altered ----

  predicate Grown(s: State, t: State) {
    Holds(t.published, s.published) && Holds(t.replacements, s.replacements)
  }

  lemma StepGrows(s: State, op: nat, selector: nat, a: Answer)
    requires Inv(s) && Permits(s, op, selector, a)
    ensures Grown(s, Step(s, op, selector, a))
  {
    if s.current.Some? && s.current.value.source == Owned { BodyIsNew(s, s.current.value); }
  }

  lemma GrowsAt(states: seq<State>, ops: seq<Op>, k: nat)
    requires IsRun(states, ops) && k < |ops|
    ensures Grown(states[k], states[k + 1])
  {
    RunKeeps(states, ops, k);
    assert StepsAt(states, ops, k);
    StepGrows(states[k], ops[k].code % 14, ops[k].selector, ops[k].answer);
  }

  lemma HoldsAt(states: seq<State>, ops: seq<Op>, k: nat)
    requires IsRun(states, ops) && k < |states|
    ensures Holds(states[k].entries, states[k].published) && Holds(states[k].entries, states[k].replacements)
  {
    RunKeeps(states, ops, k);
  }

  /** Whatever was published or put in place by others at some point of a run is there, byte for byte,
      at every later point. */
  lemma {:induction false} PublishedIsForever(states: seq<State>, ops: seq<Op>, j: nat, k: nat)
    requires IsRun(states, ops) && j <= k < |states|
    ensures Grown(states[j], states[k])
    ensures Holds(states[k].entries, states[j].published) && Holds(states[k].entries, states[j].replacements)
  {
    HoldsAt(states, ops, k);
    if j < k {
      PublishedIsForever(states, ops, j, k - 1);
      GrowsAt(states, ops, k - 1);
    }
  }

  // ---- Source states ----

  /** Where a source can go: ownership is never regained, and without authority or duty it stays so. */
  predicate MayBecome(a: SourceState, b: SourceState) {
    match a
    case Owned => true
    case CleanupRequired => b == CleanupRequired || b == Released
    case Indeterminate => b == Indeterminate
    case Released => b == Released
  }

  /** The resource is no longer there. */
  predicate Gone(s: State, serial: nat) {
    serial < s.created && !(s.current.Some? && s.current.value.serial == serial)
  }

  lemma StepMoves(s: State, op: nat, selector: nat, a: Answer, serial: nat)
    requires Permits(s, op, selector, a) && serial < s.created
    requires s.current.Some? ==> s.current.value.serial < s.created
    ensures Moved(s, Step(s, op, selector, a), serial)
  {}

  predicate Moved(s: State, t: State, serial: nat) {
    && t.created >= s.created
    && (Gone(s, serial) ==> Gone(t, serial))
    && (s.current.Some? && s.current.value.serial == serial ==>
          || Gone(t, serial)
          || (t.current.Some? && t.current.value.serial == serial
                && MayBecome(s.current.value.source, t.current.value.source)))
  }

  /** Over any stretch of a run a resource either is gone for good or has moved as above. */
  lemma {:induction false} SourceNeverReturns(states: seq<State>, ops: seq<Op>, j: nat, k: nat)
    requires IsRun(states, ops) && j <= k < |states| && states[j].current.Some?
    ensures Moved(states[j], states[k], states[j].current.value.serial)
  {
    if j < k {
      SourceNeverReturns(states, ops, j, k - 1);
      assert states[j].current.value.serial < states[j].created by { RunKeeps(states, ops, j); }
      MovesAt(states, ops, k - 1, states[j].current.value.serial);
    }
  }

  lemma MovesAt(states: seq<State>, ops: seq<Op>, k: nat, serial: nat)
    requires IsRun(states, ops) && k < |ops| && serial < states[k].created
    ensures Moved(states[k], states[k + 1], serial)
  {
    RunKeeps(states, ops, k);
    assert StepsAt(states, ops, k);
    StepMoves(states[k], ops[k].code % 14, ops[k].selector, ops[k].answer, serial);
  }

  // ---- The library's cleanup against the model of the harness ----

  /** What an independent model expects after a cleanup, from what can be seen outside. */
  function ExpectedAfterCleanup(previous: SourceState, replaced: bool, ok: bool, sourceExists: bool): SourceState {
    if ok then Released
    else if previous == Indeterminate || replaced then Indeterminate
    else if !sourceExists then CleanupRequired
    else previous
  }

  /** The library meets it, as long as the query for the identity of the source does not itself fail. */
  lemma CleanupAsExpected(g: Guard, entries: map<Id, seq<Byte>>, n: CleanupRun)
    requires MayClean(g, n) && (g.source == Owned ==> !n.queryFails)
    requires g.replaced ==> g.source == Owned || g.source == Indeterminate
    requires g.source == Owned && !g.replaced ==> g.top in entries && g.top in g.occupant
    ensures var (ok, after) := Cleanup(g.source, g.replaced, n);
      after == ExpectedAfterCleanup(g.source, g.replaced, ok, g.replaced || g.top in Remove(entries, n.removed))
  {}

  // ---- The same over whole runs ----

  /** An owned resource that was not replaced is there under its path; replacing needed an owned one. */
  predicate InPlace(s: State) {
    s.current.Some? ==>
      var g := s.current.value;
      && (g.source == Owned && !g.replaced ==> g.top in g.occupant && g.top in s.entries)
      && (g.replaced ==> g.source == Owned || g.source == Indeterminate)
  }

  lemma KeepsInPlace(s: State, op: nat, selector: nat, a: Answer)
    requires Inv(s) && InPlace(s) && Permits(s, op, selector, a)
    ensures InPlace(Step(s, op, selector, a))
  {
    if s.current.Some? && Publishes(op) {
      PublishInPlace(s, s.current.value, op, selector, a);
    } else if s.current.Some? && op == 4 {
      CleanUpInPlace(s, s.current.value, a);
    } else {
      OtherInPlace(s, op, selector, a);
    }
  }

  lemma PublishInPlace(s: State, g: Guard, op: nat, selector: nat, a: Answer)
    requires Inv(s) && InPlace(s) && s.current == Some(g) && Publishes(op) && MayPublish(s, g, op, selector, a)
    ensures InPlace(Publish(s, g, op, a))
  {}

  lemma CleanUpInPlace(s: State, g: Guard, a: Answer)
    requires InPlace(s) && s.current == Some(g) && a.Cleans? && MayClean(g, a.run)
    ensures InPlace(CleanUp(s, g, a))
  {}

  lemma OtherInPlace(s: State, op: nat, selector: nat, a: Answer)
    requires Inv(s) && InPlace(s) && Permits(s, op, selector, a)
    requires s.current.Some? ==> !Publishes(op) && op != 4
    ensures InPlace(Step(s, op, selector, a))
  {}

  lemma {:induction false} RunInPlace(states: seq<State>, ops: seq<Op>, k: nat)
    requires IsRun(states, ops) && k < |states|
    ensures InPlace(states[k])
  {
    if k > 0 {
      RunInPlace(states, ops, k - 1);
      RunKeeps(states, ops, k - 1);
      InPlaceAt(states, ops, k - 1);
    }
  }

  lemma InPlaceAt(states: seq<State>, ops: seq<Op>, k: nat)
    requires IsRun(states, ops) && k < |ops| && Inv(states[k]) && InPlace(states[k])
    ensures InPlace(states[k + 1])
  {
    assert StepsAt(states, ops, k);
    KeepsInPlace(states[k], ops[k].code % 14, ops[k].selector, ops[k].answer);
  }

  /** What is left of a guard `g` after its publication has failed. Without authority, or asked for something
      senseless, it is what it was; where something else took its place it has lost its authority; otherwise
      it owns what it owned, has its sandbox left to clean, or cannot know. */
  predicate LeftAs(s: State, g: Guard, op: nat, failure: FailureState, released: bool, t: State) {
    && t.current.Some?
    && var u := t.current.value;
    && u.serial == g.serial && u.top == g.top && u.isFile == g.isFile && u.replaced == g.replaced
    && (failure == NotPublished ==> t.published == s.published && t.events == s.events)
    && (if g.source != Owned || op == 10 then failure == NotPublished && u.source == g.source
        else if g.replaced then failure == NotPublished && u.source == Indeterminate
        else match failure
          case NotPublished => u.source == Owned && u.occupant == g.occupant && t.entries == s.entries
          case Published => u.source == if released then Released else CleanupRequired
          case Unknown => u.source == Indeterminate)
    && u.content == (if op == 10 && g.source == Owned && g.writable && g.isFile then g.content + RETAINED
                     else g.content)
    && (u.writable <==> g.writable && op == 10)
  }

  lemma FailureLeaves(s: State, g: Guard, op: nat, selector: nat, a: Answer)
    requires MayPublish(s, g, op, selector, a) && a.Fails?
    ensures LeftAs(s, g, op, a.failure, !a.after.releaseFails, Publish(s, g, op, a))
  {}

  /** In every run: after each failed publication the resource is what an observer expects. */
  lemma FailureAsExpected(states: seq<State>, ops: seq<Op>, k: nat)
    requires IsRun(states, ops) && k < |ops| && states[k].current.Some?
    requires Publishes(ops[k].code % 14) && ops[k].answer.Fails?
    ensures var (g, a) := (states[k].current.value, ops[k].answer);
      LeftAs(states[k], g, ops[k].code % 14, a.failure, !a.after.releaseFails, states[k + 1])
    ensures var g := states[k].current.value;
      g.source == Owned && !g.replaced && ops[k].answer.failure == NotPublished ==>
        g.top in states[k + 1].entries && g.top in states[k + 1].current.value.occupant
  {
    assert StepsAt(states, ops, k);
    FailureLeaves(states[k], states[k].current.value, ops[k].code % 14, ops[k].selector, ops[k].answer);
    RunInPlace(states, ops, k + 1);
  }

  /** In every run: after each successful publication the resource is handed over, and what it held is
      published as it was. */
  lemma SuccessPublishes(states: seq<State>, ops: seq<Op>, k: nat)
    requires IsRun(states, ops) && k < |ops| && states[k].current.Some?
    requires Publishes(ops[k].code % 14) && ops[k].answer.Succeeds?
    ensures states[k + 1].current == None && |states[k + 1].events| == |states[k].events| + 1
    ensures var (s, t, g) := (states[k], states[k + 1], states[k].current.value);
      && t.events[|s.events|].serial == g.serial
      && (forall i | i in g.body && i in s.entries ::
            i in t.published && t.published[i] == s.entries[i] && i in t.entries && t.entries[i] == s.entries[i])
      && (g.isFile ==> g.top in t.published && t.published[g.top] == g.content)
  {
    assert StepsAt(states, ops, k);
    RunKeeps(states, ops, k);
    HoldsAt(states, ops, k + 1);
  }

  /** In every run: no other operation moves a resource; it is replaced exactly when something else takes the
      path of an owned one. */
  lemma OthersLeaveIt(states: seq<State>, ops: seq<Op>, k: nat)
    requires IsRun(states, ops) && k < |ops| && states[k].current.Some?
    requires var op := ops[k].code % 14; !Publishes(op) && op != 4 && op != 5
    ensures states[k + 1].current.Some?
    ensures var (s, g, u, op) := (states[k], states[k].current.value, states[k + 1].current.value, ops[k].code % 14);
      && u.serial == g.serial && u.source == g.source && u.content == g.content && u.writable == g.writable
      && (u.replaced <==> g.replaced || (op == 1 && g.source == Owned && s.remaining >= 2))
      && (u.limits != g.limits ==> op == 6 && !g.isFile)
  {
    assert StepsAt(states, ops, k);
  }

  /** A cleanup succeeds exactly if there is nothing to do, or the guard may do it and no call fails. */
  predicate CanClean(g: Guard, n: CleanupRun) {
    match g.source
    case Indeterminate => false
    case Released => true
    case CleanupRequired => !n.releaseFails
    case Owned => !g.replaced && !n.queryFails && !n.removeFails && !n.releaseFails
  }

  /** In every run: after each cleanup whose identity query works the resource is what an observer expects;
      a query that fails costs an owned resource its authority. */
  lemma CleanupEndsAsExpected(states: seq<State>, ops: seq<Op>, k: nat)
    requires IsRun(states, ops) && k < |ops| && states[k].current.Some?
    requires ops[k].code % 14 == 4 && ops[k].answer.Cleans?
    ensures states[k + 1].current.Some?
    ensures var (g, u, n) := (states[k].current.value, states[k + 1].current.value, ops[k].answer.run);
      && u.serial == g.serial && !u.writable && u.content == g.content && u.replaced == g.replaced
      && u.source ==
           if g.source == Owned && n.queryFails then Indeterminate
           else ExpectedAfterCleanup(g.source, g.replaced, CanClean(g, n), g.replaced || g.top in states[k + 1].entries)
  {
    assert StepsAt(states, ops, k);
    RunInPlace(states, ops, k);
    var g, n := states[k].current.value, ops[k].answer.run;
    if g.source != Owned || !n.queryFails { CleanupAsExpected(g, states[k].entries, n); }
  }

  // ---- The loop ----

  /** Operation `i` of the input: two bytes each, a missing second byte is zero. */
  function Decode(data: seq<Byte>, i: nat, a: Answer): Op
    requires 2 * i < |data|
  {
    Op(data[2 * i], if 2 * i + 1 < |data| then data[2 * i + 1] else 0, a)
  }

  /** Runs at most 64 operations of the input, as long as the library answers within its contract, and
      then drops the resource that is left, which the library does as `last` says. */
  method RunModel(data: seq<Byte>, answers: seq<Answer>, last: CleanupRun)
    returns (s: State, dropped: bool, ghost states: seq<State>, ghost ops: seq<Op>)
    ensures IsRun(states, ops) && s == states[|ops|]
    ensures var n := if dropped then |ops| - 1 else |ops|;
      && 0 <= n <= MAX_OPERATIONS
      && (forall k | 0 <= k < n :: 2 * k < |data| && k < |answers| && ops[k] == Decode(data, k, answers[k]))
      && (dropped ==> ops[n] == Op(5, 0, Drops(last)) && s.current == None)
      && (!dropped && s.current.Some? ==> !Permits(s, 5, 0, Drops(last)))
    ensures |s.entries| < MAX_ENTRIES
    ensures forall k | 0 <= k < |states| ::
      Holds(s.entries, states[k].published) && Holds(s.entries, states[k].replacements)
  {
    s, states, ops := RunOperations(data, answers);
    s, dropped, states, ops := DropLast(s, last, states, ops);
    AllPreserved(states, ops);
  }

  /** The resource that is left goes out of scope. */
  method DropLast(s: State, last: CleanupRun, ghost states: seq<State>, ghost ops: seq<Op>)
    returns (t: State, dropped: bool, ghost all: seq<State>, ghost done: seq<Op>)
    requires IsRun(states, ops) && s == states[|ops|]
    ensures IsRun(all, done) && t == all[|done|]
    ensures if dropped then done == ops + [Op(5, 0, Drops(last))] && t.current == None
            else done == ops && t == s && (s.current.Some? ==> !Permits(s, 5, 0, Drops(last)))
  {
    t, all, done := s, states, ops;
    dropped := s.current.Some? && Permits(s, 5, 0, Drops(last));
    if dropped {
      t := Step(s, 5, 0, Drops(last));
      RunOn(states, ops, Op(5, 0, Drops(last)), t);
      all, done := states + [t], ops + [Op(5, 0, Drops(last))];
    }
  }

  method RunOperations(data: seq<Byte>, answers: seq<Answer>)
    returns (s: State, ghost states: seq<State>, ghost ops: seq<Op>)
    ensures IsRun(states, ops) && s == states[|ops|] && |ops| <= MAX_OPERATIONS
    ensures forall k | 0 <= k < |ops| :: 2 * k < |data| && k < |answers| && ops[k] == Decode(data, k, answers[k])
  {
    s := Start;
    states, ops := [s], [];
    var index := 0;
    while 2 * index < |data| && index < MAX_OPERATIONS && index < |answers|
      invariant index == |ops| <= MAX_OPERATIONS && index <= |answers| && IsRun(states, ops) && s == states[|ops|]
      invariant forall k | 0 <= k < |ops| :: 2 * k < |data| && k < |answers| && ops[k] == Decode(data, k, answers[k])
    {
      var op := Decode(data, index, answers[index]);
      if !Permits(s, op.code % 14, op.selector, op.answer) { break; }
      var t := Step(s, op.code % 14, op.selector, op.answer);
      RunOn(states, ops, op, t);
      states, ops := states + [t], ops + [op];
      s := t;
      index := index + 1;
    }
  }

  lemma AllPreserved(states: seq<State>, ops: seq<Op>)
    requires IsRun(states, ops)
    ensures var s := states[|ops|];
      && |s.entries| < MAX_ENTRIES
      && forall k | 0 <= k < |states| ::
           Holds(s.entries, states[k].published) && Holds(s.entries, states[k].replacements)
  {
    StaysWithinBudget(states, ops, |ops|);
    forall k: nat | k < |states|
      ensures Holds(states[|ops|].entries, states[k].published)
      ensures Holds(states[|ops|].entries, states[k].replacements)
    {
      PublishedIsForever(states, ops, k, |ops|);
    }
  }

  lemma RunOn(states: seq<State>, ops: seq<Op>, op: Op, t: State)
    requires IsRun(states, ops) && Permits(states[|ops|], op.code % 14, op.selector, op.answer)
    requires t == Step(states[|ops|], op.code % 14, op.selector, op.answer)
    ensures IsRun(states + [t], ops + [op])
  {
    forall k: nat | k < |ops + [op]| ensures StepsAt(states + [t], ops + [op], k) {
      if k < |ops| { assert StepsAt(states, ops, k); }
    }
  }
}
