/** The bracketed read: observe, collect, observe again, and accept only if nothing seems to have
    changed. With a change stamp that every write advances, an accepted result is the whole file at
    one instant; without that it need not be. */
module ConsistentRead {
  import opened Wrappers
  import opened Disk
  import opened Stream
  import opened Collectors

  datatype Observation = Observation(identity: Option<nat>, length: nat, native: Option<Native>)

  datatype Snapshot = Snapshot(bytes: seq<Byte>, before: Observation, after: Observation)

  datatype Failure = QueryFailed | TooLong | CollectFailed(error: Error) | ChangedDuringRead
  datatype Outcome = Taken(snapshot: Snapshot) | Rejected(failure: Failure)

  /** What queries on the handle can learn, and which of the two queries fail. */
  datatype Queries = Queries(identity: Option<nat>, details: bool, firstFails: bool, secondFails: bool)

  // ---- Comparing observations ----

  function NativeMatch(left: Native, right: Native): bool {
    match (left, right)
    case (Unix(_, _, _, _), Unix(_, _, _, _)) =>
      && left.modifiedSeconds == right.modifiedSeconds && left.modifiedNanos == right.modifiedNanos
      && left.changedSeconds == right.changedSeconds && left.changedNanos == right.changedNanos
    case (Windows(_, _), Windows(_, _)) =>
      left.lastWriteTime == right.lastWriteTime && left.changeTime == right.changeTime
    case _ => false
  }

  function ObservationsMatch(before: Observation, after: Observation, count: nat): bool {
    if before.identity.None? || after.identity.None? || before.identity != after.identity then false
    else if before.length != after.length || before.length != count then false
    else if before.native.None? || after.native.None? then false
    else NativeMatch(before.native.value, after.native.value)
  }

  /** Matching means: the same complete observation twice, of a file as long as what was read. */
  lemma MatchMeans(before: Observation, after: Observation, count: nat)
    ensures ObservationsMatch(before, after, count) <==>
      before == after && before.identity.Some? && before.native.Some? && before.length == count
  {}

  // ---- The protocol ----

  /** Observes the handle; what is scripted before the next pause has happened by then. */
  function Observe(s: Handle, q: Queries): (r: (Observation, Handle))
    ensures r.0 == Observation(q.identity, |r.1.data|, if q.details then Some(r.1.native) else None)
    ensures r.1.pos == s.pos && r.1.lies == s.lies && r.1.failures == s.failures && r.1.writes >= s.writes
    ensures r.1.writes == s.writes ==> r.1.data == s.data && r.1.native == s.native
    decreases |s.script|
  {
    if s.script != [] && s.script[0].Written? then
      Observe(s.Later().(data := s.script[0].data, native := s.script[0].native, writes := s.writes + 1), q)
    else
      (Observation(q.identity, |s.data|, if q.details then Some(s.native) else None),
       if s.script != [] && s.script[0].Pause? then s.Later() else s)
  }

  function ReadConsistent(s: Handle, q: Queries, maximum: nat, reserve: Reserver): (r: (Outcome, Handle)) {
    if q.firstFails then (Rejected(QueryFailed), s)
    else
      var (before, s1) := Observe(s, q);
      if before.length > maximum then (Rejected(TooLong), s1)
      else
        var (collected, s2) := Limited(s1, [], Some(maximum), reserve);
        if collected.Err? then (Rejected(CollectFailed(collected.error)), s2)
        else if q.secondFails then (Rejected(QueryFailed), s2)
        else
          var (after, s3) := Observe(s2, q);
          if ObservationsMatch(before, after, |collected.value|)
          then (Taken(Snapshot(collected.value, before, after)), s3)
          else (Rejected(ChangedDuringRead), s3)
  }

  method ReadConsistentWithOptions(input: Source, q: Queries, maximum: nat, reserve: Reserver) returns (r: Outcome)
    modifies input
    ensures (r, input.s) == ReadConsistent(old(input.s), q, maximum, reserve)
  {
    if q.firstFails { return Rejected(QueryFailed); }
    var (before, s1) := Observe(input.s, q);
    input.s := s1;
    if before.length > maximum { return Rejected(TooLong); }
    var collected, _ := CollectLimited(input, Some(maximum), reserve);
    if collected.Err? { return Rejected(CollectFailed(collected.error)); }
    if q.secondFails { return Rejected(QueryFailed); }
    var (after, s3) := Observe(input.s, q);
    input.s := s3;
    if !ObservationsMatch(before, after, |collected.value|) { return Rejected(ChangedDuringRead); }
    return Taken(Snapshot(collected.value, before, after));
  }

  // ---- Change stamps ----

  /** A strictly later change time on the same platform. */
  predicate After(a: Native, b: Native) {
    match (a, b)
    case (Unix(_, _, _, _), Unix(_, _, _, _)) =>
      a.changedSeconds < b.changedSeconds || (a.changedSeconds == b.changedSeconds && a.changedNanos < b.changedNanos)
    case (Windows(_, _), Windows(_, _)) => a.changeTime < b.changeTime
    case _ => false
  }

  /** Every write that is going to happen advances the change stamp. */
  predicate Advancing(native: Native, script: seq<Event>)
    decreases |script|
  {
    script != [] ==>
      if script[0].Written? then After(native, script[0].native) && Advancing(script[0].native, script[1..])
      else Advancing(native, script[1..])
  }

  /** `t` is `s` some steps later: its stamp is the same if nobody wrote in between, and later if
      somebody did. */
  ghost predicate Progress(s: Handle, t: Handle) {
    && t.writes >= s.writes && Advancing(t.native, t.script)
    && (if t.writes == s.writes then t.native == s.native && t.data == s.data else After(s.native, t.native))
  }

  lemma ProgressTrans(s: Handle, t: Handle, u: Handle)
    requires Progress(s, t) && Progress(t, u)
    ensures Progress(s, u)
  {}

  lemma {:induction false} ReadProgress(s: Handle, request: nat)
    requires Advancing(s.native, s.script)
    ensures Progress(s, Read(s, request).1)
    decreases |s.script|
  {
    if s.script != [] {
      match s.script[0]
      case Written(data, native) =>
        ReadProgress(s.Later().(data := data, native := native, writes := s.writes + 1), request);
      case Pause => ReadProgress(s.Later(), request);
      case _ =>
    }
  }

  lemma {:induction false} RetryProgress(s: Handle, request: nat)
    requires Advancing(s.native, s.script)
    ensures Progress(s, ReadRetrying(s, request).1)
    decreases |s.script|
  {
    ReadProgress(s, request);
    var (reply, t) := Read(s, request);
    if reply.Interrupt? { RetryProgress(t, request); }
  }

  lemma {:induction false} LimitedProgress(s: Handle, output: seq<Byte>, maximum: Option<nat>, reserve: Reserver)
    requires Collectors.Fits(|output|, maximum) && Advancing(s.native, s.script)
    ensures Progress(s, Limited(s, output, maximum, reserve).1)
    decreases |s.script|, |s.Rest()|
  {
    if maximum == Some(|output|) {
      ReadProgress(s, 1);
      var (reply, t) := Read(s, 1);
      if reply.Interrupt? { LimitedProgress(t, output, maximum, reserve); }
    } else if reserve(|output|, Request(|output|, maximum)) {
      RetryProgress(s, Request(|output|, maximum));
      var (reply, t) := ReadRetrying(s, Request(|output|, maximum));
      if reply.Got? && reply.bytes != [] { LimitedProgress(t, output + reply.bytes, maximum, reserve); }
    }
  }

  lemma {:induction false} ObserveProgress(s: Handle, q: Queries)
    requires Advancing(s.native, s.script)
    ensures Progress(s, Observe(s, q).1)
    decreases |s.script|
  {
    if s.script != [] && s.script[0].Written? {
      ObserveProgress(s.Later().(data := s.script[0].data, native := s.script[0].native, writes := s.writes + 1), q);
    }
  }

  // ---- Main results ----

  /** If every write advances the stamp, an accepted snapshot is the whole file as it was at the first
      observation, and nobody wrote between the two observations. */
  lemma SnapshotIsOneInstant(s: Handle, q: Queries, maximum: nat, reserve: Reserver)
    requires s.pos == 0 && Advancing(s.native, s.script)
    requires ReadConsistent(s, q, maximum, reserve).0.Taken?
    ensures var (first, (r, t)) := (Observe(s, q).1, ReadConsistent(s, q, maximum, reserve));
      && r.snapshot.bytes == first.data == t.data
      && t.writes == first.writes
      && |r.snapshot.bytes| <= maximum
      && r.snapshot.before == r.snapshot.after
  {
    var (before, s1) := Observe(s, q);
    var (collected, s2) := Limited(s1, [], Some(maximum), reserve);
    var (after, s3) := Observe(s2, q);
    ObserveProgress(s, q);
    LimitedProgress(s1, [], Some(maximum), reserve);
    ObserveProgress(s2, q);
    ProgressTrans(s1, s2, s3);
    MatchMeans(before, after, |collected.value|);
    assert s3.writes == s1.writes;
    LimitedIsWhole(s1, [], Some(maximum), reserve);
    LimitedConsumes(s1, [], Some(maximum), reserve);
    assert s1.Rest() == s1.data;
  }

  /** A write that lands between the two observations is never missed. */
  lemma WriteIsNoticed(s: Handle, q: Queries, maximum: nat, reserve: Reserver)
    requires s.pos == 0 && Advancing(s.native, s.script)
    requires ReadConsistent(s, q, maximum, reserve).1.writes > Observe(s, q).1.writes
    ensures ReadConsistent(s, q, maximum, reserve).0.Rejected?
  {
    if ReadConsistent(s, q, maximum, reserve).0.Taken? {
      SnapshotIsOneInstant(s, q, maximum, reserve);
    }
  }

  /** Each rejection has its cause, and each cause is reported: a query or a call that fails, a file that is
      too long when it is first observed, a lie of the input, and a change only if somebody did write or the
      observations are incomplete. */
  lemma OutcomeHasCause(s: Handle, q: Queries, maximum: nat, reserve: Reserver)
    requires s.pos == 0
    ensures var (first, (r, t)) := (Observe(s, q).1, ReadConsistent(s, q, maximum, reserve));
      && (q.firstFails || q.secondFails ==> r.Rejected?)
      && (r == Rejected(QueryFailed) ==> q.firstFails || q.secondFails)
      && (r == Rejected(TooLong) <==> !q.firstFails && |first.data| > maximum)
      && (r == Rejected(TooLong) ==> t == first) && r != Rejected(CollectFailed(Panic))
      && (r == Rejected(CollectFailed(ReadError)) <==> t.failures > s.failures)
      && (r == Rejected(CollectFailed(DataCorruption)) ==> t.lies > s.lies)
      && (t.lies > s.lies ==> r.Rejected? && r.failure.CollectFailed?)
      && (r == Rejected(ChangedDuringRead) && q.identity.Some? && q.details ==> t.writes > first.writes)
  {
    if !q.firstFails {
      var (before, s1) := Observe(s, q);
      LimitedTruthful(s1, [], Some(maximum), reserve);
      LimitedIsWhole(s1, [], Some(maximum), reserve);
      var (collected, s2) := Limited(s1, [], Some(maximum), reserve);
      if collected.Ok? && s2.writes == s1.writes {
        assert collected.value == s1.Rest() == s1.data;
      }
    }
  }

  /** If every write advances the stamp, a write between the observations is reported as a change, or as too
      many bytes if the file has outgrown the maximum, unless something failed or lied. */
  lemma ChangeIsReported(s: Handle, q: Queries, maximum: nat, reserve: Reserver)
    requires s.pos == 0 && Advancing(s.native, s.script) && Grants(reserve) && !q.firstFails && !q.secondFails
    requires var t := ReadConsistent(s, q, maximum, reserve).1;
      t.writes > Observe(s, q).1.writes && t.failures == s.failures && t.lies == s.lies
    ensures var r := ReadConsistent(s, q, maximum, reserve).0;
      r == Rejected(ChangedDuringRead) || r == Rejected(CollectFailed(ResourceLimit))
  {
    WriteIsNoticed(s, q, maximum, reserve);
    OutcomeHasCause(s, q, maximum, reserve);
    OnlyChangeIsLeft(ReadConsistent(s, q, maximum, reserve).0);
  }

  lemma OnlyChangeIsLeft(r: Outcome)
    requires r.Rejected? && r.failure != QueryFailed && r.failure != TooLong
    requires r.failure.CollectFailed? ==> r.failure.error == ResourceLimit || r.failure.error == DataCorruption
    requires r != Rejected(CollectFailed(DataCorruption))
    ensures r == Rejected(ChangedDuringRead) || r == Rejected(CollectFailed(ResourceLimit))
  {}

  /** Left alone, a file is read exactly when it is no longer than the maximum. */
  lemma QuietReadSucceeds(s: Handle, q: Queries, maximum: nat, reserve: Reserver)
    requires s.pos == 0 && Calm(s.script) && Grants(reserve)
    requires q.identity.Some? && q.details && !q.firstFails && !q.secondFails
    ensures var r := ReadConsistent(s, q, maximum, reserve).0;
      if |s.data| <= maximum then r.Taken? && r.snapshot.bytes == s.data else r == Rejected(TooLong)
  {
    var (before, s1) := Observe(s, q);
    assert Calm(s1.script);
    if |s.data| <= maximum {
      LimitedExactly(s1, Some(maximum), reserve);
      LimitedDecides(s1, [], Some(maximum), reserve);
      LimitedIsWhole(s1, [], Some(maximum), reserve);
      assert s1.Rest() == s.data;
      LimitedCalm(s1, [], Some(maximum), reserve);
    }
  }

  lemma {:induction false} LimitedCalm(s: Handle, output: seq<Byte>, maximum: Option<nat>, reserve: Reserver)
    requires Collectors.Fits(|output|, maximum) && Calm(s.script)
    ensures Calm(Limited(s, output, maximum, reserve).1.script)
    decreases |s.script|, |s.Rest()|
  {
    if maximum == Some(|output|) {
      CalmRead(s, 1);
      var (reply, t) := Read(s, 1);
      if reply.Interrupt? { LimitedCalm(t, output, maximum, reserve); }
    } else if reserve(|output|, Request(|output|, maximum)) {
      CalmRetry(s, Request(|output|, maximum));
      var (reply, t) := ReadRetrying(s, Request(|output|, maximum));
      if reply.bytes != [] { LimitedCalm(t, output + reply.bytes, maximum, reserve); }
    }
  }

  /** A write within the granularity of the stamp can go unnoticed: a file that holds 1 2 and then
      3 4 is accepted as 1 4, which it never held. */
  lemma TornWithoutAdvance(stamp: Native, q: Queries, reserve: Reserver)
    requires Grants(reserve) && q.identity.Some? && q.details && !q.firstFails && !q.secondFails
    ensures
      var s := Handle([1, 2], 0, stamp, 0, 0, 0, [Short(0), Written([3, 4], stamp)]);
      var r := ReadConsistent(s, q, 2, reserve).0;
      r.Taken? && r.snapshot.bytes == [1, 4]
  {
    var s := Handle([1, 2], 0, stamp, 0, 0, 0, [Short(0), Written([3, 4], stamp)]);
    assert Observe(s, q).1 == s;
    TornCollection(stamp, reserve);
    assert Observe(Handle([3, 4], 2, stamp, 1, 0, 0, []), q).1.native == stamp;
  }

  lemma TornCollection(stamp: Native, reserve: Reserver)
    requires Grants(reserve)
    ensures Limited(Handle([1, 2], 0, stamp, 0, 0, 0, [Short(0), Written([3, 4], stamp)]), [], Some(2), reserve) ==
      (Ok([1, 4]), Handle([3, 4], 2, stamp, 1, 0, 0, []))
  {
    var s := Handle([1, 2], 0, stamp, 0, 0, 0, [Short(0), Written([3, 4], stamp)]);
    FirstHalf(stamp);
    assert [] + [1] == [1];
    assert Limited(s, [], Some(2), reserve) == Limited(ReadRetrying(s, 2).1, [1], Some(2), reserve);
    TornRest(stamp, reserve);
  }

  lemma TornRest(stamp: Native, reserve: Reserver)
    requires Grants(reserve)
    ensures Limited(Handle([1, 2], 1, stamp, 0, 0, 0, [Written([3, 4], stamp)]), [1], Some(2), reserve) ==
      (Ok([1, 4]), Handle([3, 4], 2, stamp, 1, 0, 0, []))
  {
    SecondHalf(stamp);
    assert [1] + [4] == [1, 4];
  }

  lemma FirstHalf(stamp: Native)
    ensures ReadRetrying(Handle([1, 2], 0, stamp, 0, 0, 0, [Short(0), Written([3, 4], stamp)]), 2) ==
      (Got([1]), Handle([1, 2], 1, stamp, 0, 0, 0, [Written([3, 4], stamp)]))
  {
    var s := Handle([1, 2], 0, stamp, 0, 0, 0, [Short(0), Written([3, 4], stamp)]);
    assert s.Later().Rest()[..1] == [1];
  }

  lemma SecondHalf(stamp: Native)
    ensures ReadRetrying(Handle([1, 2], 1, stamp, 0, 0, 0, [Written([3, 4], stamp)]), 1) ==
      (Got([4]), Handle([3, 4], 2, stamp, 1, 0, 0, []))
  {
    var u := Handle([3, 4], 1, stamp, 1, 0, 0, []);
    assert u.Rest()[..1] == [4];
    assert Read(u, 1) == (Got([4]), u.(pos := 2));
  }
}
