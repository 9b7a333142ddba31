/** The in-place append: a chain of boxes is walked to its end, and the new chain is hung onto it. */
module CleanupChain {
  import opened Wrappers
  import opened Disk
  import opened FileError

  class Box {
    const head: Error      // the error without its own chain
    var next: Box?

    constructor (head: Error)
      requires head.cleanup == None
      ensures this.head == head && next == null
    {
      this.head := head;
      next := null;
    }
  }

  ghost function HeadsOf(boxes: seq<Box>): (heads: seq<Error>)
    ensures |heads| == |boxes| && forall i :: 0 <= i < |boxes| ==> heads[i] == boxes[i].head
  {
    seq(|boxes|, i requires 0 <= i < |boxes| => boxes[i].head)
  }

  ghost predicate Distinct(boxes: seq<Box>) {
    forall i, j :: 0 <= i < j < |boxes| ==> boxes[i] != boxes[j]
  }

  lemma DistinctConcat(a: seq<Box>, b: seq<Box>)
    requires Distinct(a) && Distinct(b) && Apart(a, b)
    ensures Distinct(a + b)
  {}

  ghost predicate Apart(a: seq<Box>, b: seq<Box>) {
    forall i, j :: 0 <= i < |a| && 0 <= j < |b| ==> a[i] != b[j]
  }

  /** An error that owns its cleanup chain. */
  class OwnedError {
    const first: Box
    ghost var boxes: seq<Box>   // all boxes of the chain, in order

    ghost predicate Strung()
      reads this, boxes
    {
      && boxes != [] && boxes[0] == first
      && Distinct(boxes)
      && (forall i :: 0 <= i < |boxes| - 1 ==> boxes[i].next == boxes[i + 1])
      && boxes[|boxes| - 1].next == null
    }

    ghost predicate Valid()
      reads this, boxes
    { Strung() && Bare(Heads()) }

    /** The error that the boxes hold. */
    ghost function Value(): Error
      reads this, boxes
      requires Valid()
    { Unchain(Heads()) }

    ghost function Heads(): seq<Error>
      reads this
    { HeadsOf(boxes) }

    constructor (head: Error)
      requires head.cleanup == None
      ensures Valid() && Value() == head && fresh(boxes)
    {
      first := new Box(head);
      new;
      boxes := [first];
    }

    /** Walks to the end of the chain. */
    method LastBox() returns (slot: Box)
      requires Strung()
      ensures slot == boxes[|boxes| - 1]
    {
      slot := first;
      ghost var i := 0;
      while slot.next != null
        invariant 0 <= i < |boxes| && slot == boxes[i]
        invariant slot.next == if i == |boxes| - 1 then null else boxes[i + 1]
        decreases |boxes| - i
      {
        slot := slot.next;
        i := i + 1;
      }
    }

    /** Hangs another chain onto the last box. */
    method Hang(cleanup: OwnedError)
      requires Strung() && cleanup.Strung()
      requires cleanup != this && Apart(boxes, cleanup.boxes)
      modifies this, boxes[|boxes| - 1]
      ensures Strung() && boxes == old(boxes) + cleanup.boxes
      ensures unchanged(cleanup) && unchanged(set b | b in cleanup.boxes)
    {
      var slot := LastBox();
      ghost var n := |boxes|;
      slot.next := cleanup.first;
      DistinctConcat(boxes, cleanup.boxes);
      boxes := boxes + cleanup.boxes;
      assert forall i :: n <= i < |boxes| ==> boxes[i] == cleanup.boxes[i - n];
    }

    /** Appends another error with its own chain, and takes it over. */
    method WithAdditionalCleanupError(cleanup: OwnedError)
      requires Valid() && cleanup.Valid()
      requires cleanup != this && Apart(boxes, cleanup.boxes)
      modifies this, boxes[|boxes| - 1]
      ensures Valid() && boxes == old(boxes) + cleanup.boxes
      ensures unchanged(cleanup) && unchanged(set b | b in cleanup.boxes)
      ensures Value() == Append(old(Value()), old(cleanup.Value()))
      ensures Owners(Value()) == Owners(old(Value())) + Owners(old(cleanup.Value()))
    {
      ghost var before, more := Heads(), cleanup.Heads();
      HeadsConcat(boxes, cleanup.boxes);
      AppendedValue(before, more);
      Hang(cleanup);
      assert Heads() == before + more;
    }
  }

  lemma HeadsConcat(a: seq<Box>, b: seq<Box>)
    ensures HeadsOf(a + b) == HeadsOf(a) + HeadsOf(b)
  {}

  /** Boxes in a row hold the error that `Append` gives, so nothing that is owned is lost. */
  lemma AppendedValue(a: seq<Error>, b: seq<Error>)
    requires Bare(a) && Bare(b)
    ensures Bare(a + b) && Unchain(a + b) == Append(Unchain(a), Unchain(b))
    ensures Owners(Unchain(a + b)) == Owners(Unchain(a)) + Owners(Unchain(b))
  {
    UnchainChain(a);
    UnchainChain(b);
    AppendConcatenates(Unchain(a), Unchain(b));
    ChainUnchain(Append(Unchain(a), Unchain(b)));
    AppendConserves(Unchain(a), Unchain(b));
  }
}
