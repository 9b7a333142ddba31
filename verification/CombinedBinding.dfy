/** Bindings attached to a reader one after the other: verification does not depend on how they nest. */
module CombinedBinding {
  import opened Wrappers
  import opened Disk
  import PathBinding

  type Verified = PathBinding.Verified
  const ERROR: Verified := PathBinding.Error
  const CHANGED: Verified := PathBinding.Verdict(PathBinding.Changed)
  const MISSING: Verified := PathBinding.Verdict(PathBinding.Missing)
  const UNCHANGED: Verified := PathBinding.Verdict(PathBinding.Unchanged)

  /** What verifying one binding would find, and its own deadline. */
  datatype Leaf = Leaf(found: Verified, deadline: Option<nat>)

  datatype Binding = Single(leaf: Leaf) | Combined(bindings: seq<Binding>)

  // ---- Reference definitions ----

  function Leaves(b: Binding): seq<Leaf> {
    match b
    case Single(leaf) => [leaf]
    case Combined(bs) => LeavesOf(bs)
  }

  function LeavesOf(bs: seq<Binding>): seq<Leaf> {
    if bs == [] then [] else Leaves(bs[0]) + LeavesOf(bs[1..])
  }

  predicate Decisive(v: Verified) { v == ERROR || v == CHANGED }

  /** One pass from left to right: the first error or change wins; otherwise anything missing is
      missing. */
  function Pass(leaves: seq<Leaf>, missing: bool): Verified {
    if leaves == [] then if missing then MISSING else UNCHANGED
    else if Decisive(leaves[0].found) then leaves[0].found
    else Pass(leaves[1..], missing || leaves[0].found == MISSING)
  }

  function Earlier(a: Option<nat>, b: Option<nat>): Option<nat> {
    if a.None? then b else if b.None? || a.value <= b.value then a else b
  }

  function EarliestLeaf(leaves: seq<Leaf>): Option<nat> {
    if leaves == [] then None else Earlier(leaves[0].deadline, EarliestLeaf(leaves[1..]))
  }

  // ---- The program ----

  function Deadline(b: Binding): Option<nat> {
    match b
    case Single(leaf) => leaf.deadline
    case Combined(bs) => DeadlineOf(bs)
  }

  /** The least of the deadlines that are set. */
  function DeadlineOf(bs: seq<Binding>): Option<nat> {
    if bs == [] then None else Earlier(Deadline(bs[0]), DeadlineOf(bs[1..]))
  }

  /** Verifies the parts in order, and stops at the first error or change. The result is that of one
      pass over all leaves, however deeply they are nested. */
  method VerifyUntil(b: Binding) returns (r: Verified)
    ensures r == Pass(Leaves(b), false)
    decreases b
  {
    match b
    case Single(leaf) =>
      assert leaf.found.Verdict? ==>
        leaf.found.verification.Unchanged? || Decisive(leaf.found) || leaf.found == MISSING;
      return leaf.found;
    case Combined(bindings) =>
      var missing := false;
      for i := 0 to |bindings|
        invariant Pass(LeavesOf(bindings), false) == Pass(LeavesOf(bindings[i..]), missing)
      {
        var found := VerifyUntil(bindings[i]);
        assert bindings[i..][1..] == bindings[i + 1..];
        PassOver(Leaves(bindings[i]), LeavesOf(bindings[i + 1..]), missing);
        if found == ERROR || found == CHANGED { return found; }
        missing := missing || found == MISSING;
      }
      return if missing then MISSING else UNCHANGED;
  }

  /** `with_binding`. */
  function Attach(existing: Option<Binding>, b: Binding): Binding {
    match existing
    case None => b
    case Some(first) => Combined([first, b])
  }

  function AttachAll(bs: seq<Binding>): Option<Binding>
    decreases |bs|
  {
    if bs == [] then None else Some(Attach(AttachAll(bs[..|bs| - 1]), bs[|bs| - 1]))
  }

  // ---- Laws ----

  /** A pass over two parts: the first decides if it can, and otherwise leaves what is missing. */
  lemma {:induction false} PassOver(a: seq<Leaf>, b: seq<Leaf>, missing: bool)
    ensures Pass(a + b, missing) ==
      if Decisive(Pass(a, false)) then Pass(a, false) else Pass(b, missing || Pass(a, false) == MISSING)
    decreases |a|
  {
    PassFlag(a, missing);
    if a == [] {
      assert a + b == b;
    } else {
      assert (a + b)[0] == a[0] && (a + b)[1..] == a[1..] + b;
      PassOver(a[1..], b, missing || a[0].found == MISSING);
      PassFlag(a[1..], a[0].found == MISSING);
    }
  }

  /** Something missing before only matters if nothing decides. */
  lemma {:induction false} PassFlag(a: seq<Leaf>, missing: bool)
    ensures Pass(a, missing) == if Decisive(Pass(a, false)) then Pass(a, false)
      else if missing || Pass(a, false) == MISSING then MISSING else UNCHANGED
    decreases |a|
  {
    if a != [] {
      PassFlag(a[1..], missing || a[0].found == MISSING);
      PassFlag(a[1..], a[0].found == MISSING);
    }
  }

  /** What one pass means: the first leaf that is an error or a change, or else missing if any leaf is. */
  lemma {:induction false} PassMeans(leaves: seq<Leaf>, missing: bool)
    ensures var r := Pass(leaves, missing);
      if exists i :: 0 <= i < |leaves| && Decisive(leaves[i].found)
      then exists i :: 0 <= i < |leaves| && Decisive(leaves[i].found) && r == leaves[i].found
             && forall j | 0 <= j < i :: !Decisive(leaves[j].found)
      else r == if missing || exists i :: 0 <= i < |leaves| && leaves[i].found == MISSING then MISSING else UNCHANGED
    decreases |leaves|
  {
    if leaves != [] && !Decisive(leaves[0].found) {
      var rest, flag := leaves[1..], missing || leaves[0].found == MISSING;
      PassMeans(rest, flag);
      if exists i :: 0 <= i < |rest| && Decisive(rest[i].found) {
        var i :| 0 <= i < |rest| && Decisive(rest[i].found) && Pass(rest, flag) == rest[i].found
          && forall j | 0 <= j < i :: !Decisive(rest[j].found);
        assert Decisive(leaves[i + 1].found);
        assert forall j | 0 <= j < i + 1 :: !Decisive(leaves[j].found) by {
          forall j | 0 <= j < i + 1 ensures !Decisive(leaves[j].found) {
            if j > 0 { assert leaves[j] == rest[j - 1]; }
          }
        }
      } else {
        assert forall i | 0 < i < |leaves| :: leaves[i] == rest[i - 1];
        assert forall i | 0 <= i < |rest| :: rest[i] == leaves[i + 1];
      }
    }
  }

  /** So the result of any nesting is unchanged exactly if every leaf is, an error or a change exactly if the
      first leaf that is neither unchanged nor missing is that, and missing exactly otherwise. */
  lemma PassDecides(leaves: seq<Leaf>)
    ensures Pass(leaves, false) == UNCHANGED <==> forall i | 0 <= i < |leaves| :: leaves[i].found == UNCHANGED
    ensures Pass(leaves, false) == ERROR <==> FirstIs(leaves, ERROR)
    ensures Pass(leaves, false) == CHANGED <==> FirstIs(leaves, CHANGED)
    ensures Pass(leaves, false) == MISSING <==>
      && (forall i | 0 <= i < |leaves| :: leaves[i].found == UNCHANGED || leaves[i].found == MISSING)
      && exists i :: 0 <= i < |leaves| && leaves[i].found == MISSING
  {
    PassMeans(leaves, false);
    forall i | 0 <= i < |leaves| ensures Known(leaves[i].found) { EveryVerdict(leaves[i].found); }
  }

  /** The first leaf that is neither unchanged nor missing is `v`. */
  ghost predicate FirstIs(leaves: seq<Leaf>, v: Verified) {
    exists i :: 0 <= i < |leaves| && leaves[i].found == v
      && forall j | 0 <= j < i :: leaves[j].found == UNCHANGED || leaves[j].found == MISSING
  }

  predicate Known(v: Verified) { v == ERROR || v == CHANGED || v == MISSING || v == UNCHANGED }

  lemma EveryVerdict(v: Verified)
    ensures Known(v)
  {
    match v
    case Error =>
    case Verdict(x) => assert x.Changed? || x.Missing? || x.Unchanged?;
  }

  /** The deadline of any nesting is the earliest of its leaves. */
  lemma {:induction false} DeadlineIsEarliest(b: Binding)
    ensures Deadline(b) == EarliestLeaf(Leaves(b))
    decreases b
  {
    match b
    case Single(leaf) => assert Leaves(b)[1..] == [];
    case Combined(bs) => DeadlineOfIsEarliest(bs);
  }

  lemma {:induction false} DeadlineOfIsEarliest(bs: seq<Binding>)
    ensures DeadlineOf(bs) == EarliestLeaf(LeavesOf(bs))
    decreases bs
  {
    if bs != [] {
      DeadlineIsEarliest(bs[0]);
      DeadlineOfIsEarliest(bs[1..]);
      EarliestOver(Leaves(bs[0]), LeavesOf(bs[1..]));
    }
  }

  lemma {:induction false} EarliestOver(a: seq<Leaf>, b: seq<Leaf>)
    ensures EarliestLeaf(a + b) == Earlier(EarliestLeaf(a), EarliestLeaf(b))
    decreases |a|
  {
    if a == [] {
      assert a + b == b;
    } else {
      assert (a + b)[0] == a[0] && (a + b)[1..] == a[1..] + b;
      EarliestOver(a[1..], b);
    }
  }

  /** The earliest deadline is one of the deadlines and no later than any. */
  lemma {:induction false} EarliestMeans(leaves: seq<Leaf>, i: nat)
    requires i < |leaves| && leaves[i].deadline.Some?
    ensures EarliestLeaf(leaves).Some? && EarliestLeaf(leaves).value <= leaves[i].deadline.value
    ensures exists k :: 0 <= k < |leaves| && EarliestLeaf(leaves) == leaves[k].deadline
    decreases |leaves|
  {
    var rest := leaves[1..];
    if i > 0 {
      EarliestMeans(rest, i - 1);
      var k :| 0 <= k < |rest| && EarliestLeaf(rest) == rest[k].deadline;
      assert leaves[k + 1] == rest[k];
    } else if EarliestLeaf(rest).Some? {
      EarliestIsSome(rest);
    }
  }

  lemma {:induction false} EarliestIsSome(leaves: seq<Leaf>)
    requires EarliestLeaf(leaves).Some?
    ensures exists k :: 0 <= k < |leaves| && EarliestLeaf(leaves) == leaves[k].deadline
    decreases |leaves|
  {
    if EarliestLeaf(leaves) != leaves[0].deadline {
      EarliestIsSome(leaves[1..]);
      var k :| 0 <= k < |leaves[1..]| && EarliestLeaf(leaves[1..]) == leaves[1..][k].deadline;
      assert leaves[k + 1] == leaves[1..][k];
    }
  }

  /** Attaching bindings one by one nests them to the left, and the leaves come in the order attached. */
  lemma {:induction false} AttachedLeaves(bs: seq<Binding>)
    requires bs != []
    ensures Leaves(AttachAll(bs).value) == LeavesOf(bs)
    decreases |bs|
  {
    var rest, last := bs[..|bs| - 1], bs[|bs| - 1];
    assert bs == rest + [last];
    LeavesConcat(rest, [last]);
    assert LeavesOf([last]) == Leaves(last) by { assert [last][1..] == []; }
    if rest != [] {
      AttachedLeaves(rest);
      var first := AttachAll(rest).value;
      assert LeavesOf([first, last]) == Leaves(first) + LeavesOf([last]) by { assert [first, last][1..] == [last]; }
    } else {
      assert LeavesOf(rest) == [];
    }
  }

  lemma {:induction false} LeavesConcat(a: seq<Binding>, b: seq<Binding>)
    ensures LeavesOf(a + b) == LeavesOf(a) + LeavesOf(b)
    decreases |a|
  {
    if a == [] {
      assert a + b == b;
    } else {
      assert (a + b)[0] == a[0] && (a + b)[1..] == a[1..] + b;
      LeavesConcat(a[1..], b);
    }
  }
}
