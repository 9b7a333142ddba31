/** A file as a reader with an open handle sees it: its bytes may be rewritten by others between two
    native calls, and a native call may deliver less than asked for, be interrupted or fail. */
module Stream {
  import opened Wrappers
  import opened Disk

  /** The native timestamps that belong to one platform. */
  datatype Native =
    | Unix(modifiedSeconds: int, modifiedNanos: int, changedSeconds: int, changedNanos: int)
    | Windows(lastWriteTime: int, changeTime: int)

  datatype Event =
    | Interrupted
    | Fails
    | Short(more: nat)                        // delivers at most `more + 1` bytes
    | Overclaims(excess: nat)                 // reports more bytes than were asked for
    | Written(data: seq<Byte>, native: Native)  // someone else rewrites the file
    | Pause                                   // what follows happens after the next observation

  /** An open handle at a position. `script` is what is going to happen, in order; after it, every call
      is served in full. `writes` counts the rewrites so far, `lies` the calls that reported more bytes
      than were asked for, and `failures` the calls that failed. */
  datatype Handle = Handle(
    data: seq<Byte>, pos: nat, native: Native, writes: nat, lies: nat, failures: nat, script: seq<Event>)
  {
    function Rest(): seq<Byte> { if pos <= |data| then data[pos..] else [] }

    function Later(): Handle
      requires script != []
    { this.(script := script[1..]) }

    function Deliver(n: nat): (r: (Reply, Handle))
      requires n <= |Rest()|
    { (Got(Rest()[..n]), this.(pos := pos + n)) }
  }

  datatype Reply = Got(bytes: seq<Byte>) | Interrupt | Failed | Overclaimed(count: nat)

  function Min(a: nat, b: nat): nat { if a <= b then a else b }

  /** One native read of at most `request` bytes. */
  function Read(s: Handle, request: nat): (r: (Reply, Handle))
    ensures |r.1.script| <= |s.script|
    ensures s.script != [] ==> |r.1.script| < |s.script|
    ensures s.script == [] ==>
      r.0.Got? && r.1 == s.(pos := s.pos + |r.0.bytes|) && |r.1.Rest()| == |s.Rest()| - |r.0.bytes|
    ensures r.0.Got? ==> |r.0.bytes| <= request && r.1.pos == s.pos + |r.0.bytes|
    ensures !r.0.Got? ==> r.1.pos == s.pos
    ensures r.1.lies == s.lies + if r.0.Overclaimed? then 1 else 0
    ensures r.1.failures == s.failures + if r.0.Failed? then 1 else 0
    ensures r.0.Overclaimed? ==> r.0.count > request && !Honest(s.script)
    ensures Honest(s.script) ==> Honest(r.1.script)
    decreases |s.script|
  {
    if s.script == [] then s.Deliver(Min(request, |s.Rest()|))
    else match s.script[0]
      case Interrupted => (Interrupt, s.Later())
      case Fails => (Failed, s.Later().(failures := s.failures + 1))
      case Short(more) => s.Later().Deliver(Min(Min(request, more + 1), |s.Rest()|))
      case Overclaims(excess) => (Overclaimed(request + 1 + excess), s.Later().(lies := s.lies + 1))
      case Written(data, native) =>
        Read(s.Later().(data := data, native := native, writes := s.writes + 1), request)
      case Pause => Read(s.Later(), request)
  }

  /** Reads again for as long as the call is interrupted. */
  function ReadRetrying(s: Handle, request: nat): (r: (Reply, Handle))
    ensures !r.0.Interrupt?
    ensures |r.1.script| <= |s.script|
    ensures s.script != [] ==> |r.1.script| < |s.script|
    ensures s.script == [] ==>
      r.0.Got? && r.1 == s.(pos := s.pos + |r.0.bytes|) && |r.1.Rest()| == |s.Rest()| - |r.0.bytes|
    ensures r.0.Got? ==> |r.0.bytes| <= request && r.1.pos == s.pos + |r.0.bytes|
    ensures !r.0.Got? ==> r.1.pos == s.pos
    ensures r.1.lies == s.lies + if r.0.Overclaimed? then 1 else 0
    ensures r.1.failures == s.failures + if r.0.Failed? then 1 else 0
    ensures r.0.Overclaimed? ==> r.0.count > request && !Honest(s.script)
    ensures Honest(s.script) ==> Honest(r.1.script)
    decreases |s.script|
  {
    var (reply, t) := Read(s, request);
    if reply.Interrupt? then ReadRetrying(t, request) else (reply, t)
  }

  // ---- What the next calls may meet ----

  /** No error, no lie and no rewrite: only short reads and interruptions. */
  predicate Calm(script: seq<Event>) {
    forall i | 0 <= i < |script| :: script[i].Interrupted? || script[i].Short? || script[i].Pause?
  }

  /** No call reports more bytes than were asked for. */
  predicate Honest(script: seq<Event>) {
    forall i | 0 <= i < |script| :: !script[i].Overclaims?
  }

  /** A call that meets no rewrite delivers the next bytes of the file, and none only at its end. */
  ghost predicate Sees(s: Handle, request: nat, reply: Reply, t: Handle) {
    && t.writes >= s.writes
    && (t.writes == s.writes ==> t.data == s.data && t.native == s.native)
    && (t.writes == s.writes && reply.Got? ==>
          && reply.bytes + t.Rest() == s.Rest()
          && (request > 0 && reply.bytes == [] ==> s.Rest() == []))
    && (t.writes == s.writes && !reply.Got? ==> t.Rest() == s.Rest())
  }

  lemma {:induction false} ReadSees(s: Handle, request: nat)
    ensures Sees(s, request, Read(s, request).0, Read(s, request).1)
    decreases |s.script|
  {
    if s.script != [] {
      match s.script[0]
      case Written(data, native) =>
        ReadSees(s.Later().(data := data, native := native, writes := s.writes + 1), request);
      case Pause => ReadSees(s.Later(), request);
      case _ =>
    }
  }

  lemma {:induction false} RetrySees(s: Handle, request: nat)
    ensures Sees(s, request, ReadRetrying(s, request).0, ReadRetrying(s, request).1)
    decreases |s.script|
  {
    ReadSees(s, request);
    var (reply, t) := Read(s, request);
    if reply.Interrupt? {
      RetrySees(t, request);
    }
  }

  /** On a calm stream no read fails and nothing changes. */
  lemma {:induction false} CalmRead(s: Handle, request: nat)
    requires Calm(s.script)
    ensures var (reply, t) := Read(s, request);
      (reply.Got? || reply.Interrupt?) && t.writes == s.writes && Calm(t.script)
    decreases |s.script|
  {
    if s.script != [] && s.script[0].Pause? {
      CalmRead(s.Later(), request);
    }
  }

  lemma {:induction false} CalmRetry(s: Handle, request: nat)
    requires Calm(s.script)
    ensures var (reply, t) := ReadRetrying(s, request);
      reply.Got? && t.writes == s.writes && Calm(t.script)
    decreases |s.script|
  {
    CalmRead(s, request);
    var (reply, t) := Read(s, request);
    if reply.Interrupt? { CalmRetry(t, request); }
  }

  lemma {:induction false} ReadFails(s: Handle, request: nat)
    ensures var (reply, t) := Read(s, request);
      (reply.Failed? || Fails in t.script ==> Fails in s.script)
    decreases |s.script|
  {
    if s.script != [] {
      match s.script[0]
      case Written(data, native) =>
        ReadFails(s.Later().(data := data, native := native, writes := s.writes + 1), request);
      case Pause => ReadFails(s.Later(), request);
      case _ =>
    }
  }

  lemma {:induction false} RetryFails(s: Handle, request: nat)
    ensures var (reply, t) := ReadRetrying(s, request);
      (reply.Failed? || Fails in t.script ==> Fails in s.script)
    decreases |s.script|
  {
    ReadFails(s, request);
    var (reply, t) := Read(s, request);
    if reply.Interrupt? { RetryFails(t, request); }
  }
}
