/** The two bounded collectors: one reads through the end of the input or fails, the other stops at a
    byte maximum. Each loop is proved to compute the function beside it, and the functions are proved
    to meet exact specifications for every input. */
module Collectors {
  import opened Wrappers
  import opened Disk
  import opened Stream

  const BLOCK_SIZE: nat := 8 * 1024

  /** `Panic` stands for a slice past the end of the read buffer, which aborts the call. */
  datatype Error = ResourceLimit | DataCorruption | ReadError | Panic

  /** Whether the buffer can grow from one length by so many bytes. */
  type Reserver = (nat, nat) -> bool

  // ---- Reference definitions ----

  predicate Fits(length: nat, maximum: Option<nat>) { maximum.Some? ==> length <= maximum.value }

  /** How many bytes the collector asks for next. */
  function Request(length: nat, maximum: Option<nat>): (n: nat)
    requires Fits(length, maximum)
    ensures n <= BLOCK_SIZE
    ensures maximum != Some(length) ==> n > 0 && Fits(length + n, maximum)
  {
    match maximum
    case Some(limit) => if limit == length then 1 else Min(BLOCK_SIZE, limit - length)
    case None => BLOCK_SIZE
  }

  /** Collects through the end; at the maximum a one-byte probe tells the end from growth. */
  function Limited(s: Handle, output: seq<Byte>, maximum: Option<nat>, reserve: Reserver)
    : (r: (Result<seq<Byte>, Error>, Handle))
    requires Fits(|output|, maximum)
    decreases |s.script|, |s.Rest()|
  {
    if maximum == Some(|output|) then
      var (reply, t) := Read(s, 1);
      match reply
      case Got(bytes) => (if bytes == [] then Ok(output) else Err(ResourceLimit), t)
      case Overclaimed(_) => (Err(ResourceLimit), t)
      case Interrupt => Limited(t, output, maximum, reserve)
      case Failed => (Err(ReadError), t)
    else if !reserve(|output|, Request(|output|, maximum)) then (Err(ResourceLimit), s)
    else
      var (reply, t) := ReadRetrying(s, Request(|output|, maximum));
      match reply
      case Got(bytes) => if bytes == [] then (Ok(output), t) else Limited(t, output + bytes, maximum, reserve)
      case Overclaimed(_) => (Err(DataCorruption), t)
      case _ => (Err(ReadError), t)
  }

  /** The read buffer after a call that delivered these bytes. */
  function Filled(buffer: seq<Byte>, bytes: seq<Byte>): (r: seq<Byte>)
    requires |bytes| <= |buffer|
    ensures |r| == |buffer| && r[..|bytes|] == bytes
  { bytes + buffer[|bytes|..] }

  const Blank: seq<Byte> := seq(BLOCK_SIZE, _ => 0)

  /** Collects until the end or the maximum, whichever comes first. What a call reports is taken from the
      buffer unchecked: an input that reports too much gets whatever the buffer holds. */
  function Prefix(s: Handle, output: seq<Byte>, buffer: seq<Byte>, maximum: nat, reserve: Reserver)
    : (r: (Result<seq<Byte>, Error>, Handle))
    requires |buffer| == BLOCK_SIZE
    decreases |s.script|, |s.Rest()|
  {
    if |output| >= maximum then (Ok(output), s)
    else
      var (reply, t) := Read(s, Min(maximum - |output|, BLOCK_SIZE));
      match reply
      case Interrupt => Prefix(t, output, buffer, maximum, reserve)
      case Failed => (Err(ReadError), t)
      case Overclaimed(count) =>
        if !reserve(|output|, count) then (Err(ResourceLimit), t)
        else if count > BLOCK_SIZE then (Err(Panic), t)
        else Prefix(t, output + buffer[..count], buffer, maximum, reserve)
      case Got(bytes) =>
        if bytes == [] then (Ok(output), t)
        else if !reserve(|output|, |bytes|) then (Err(ResourceLimit), t)
        else Prefix(t, output + bytes, Filled(buffer, bytes), maximum, reserve)
  }

  // ---- The loops ----

  class Source {
    var s: Handle

    constructor (s: Handle)
      ensures this.s == s
    {
      this.s := s;
    }

    method ReadOnce(request: nat) returns (reply: Reply)
      modifies this
      ensures (reply, s) == Stream.Read(old(s), request)
    {
      var (r, t) := Stream.Read(s, request);
      s := t;
      return r;
    }

    method ReadAgain(request: nat) returns (reply: Reply)
      modifies this
      ensures (reply, s) == ReadRetrying(old(s), request)
    {
      reply := ReadOnce(request);
      while reply.Interrupt?
        invariant ReadRetrying(old(s), request) == if reply.Interrupt? then ReadRetrying(s, request) else (reply, s)
        decreases |s.script|, reply.Interrupt?
      {
        reply := ReadOnce(request);
      }
    }
  }

  /** The limited collector; `peak` is the largest length its buffer was ever given. */
  method CollectLimited(input: Source, maximum: Option<nat>, reserve: Reserver)
    returns (r: Result<seq<Byte>, Error>, peak: nat)
    modifies input
    ensures (r, input.s) == Limited(old(input.s), [], maximum, reserve)
    ensures Fits(peak, maximum)
    ensures r.Ok? ==> |r.value| <= peak
  {
    var output: seq<Byte> := [];
    peak := 0;
    while true
      invariant |output| <= peak && Fits(peak, maximum)
      invariant Limited(old(input.s), [], maximum, reserve) == Limited(input.s, output, maximum, reserve)
      decreases |input.s.script|, |input.s.Rest()|
    {
      var request := Request(|output|, maximum);
      if maximum == Some(|output|) {
        var probe := input.ReadOnce(request);
        match probe {
          case Got(bytes) => return if bytes == [] then Ok(output) else Err(ResourceLimit), peak;
          case Overclaimed(_) => return Err(ResourceLimit), peak;
          case Interrupt => continue;
          case Failed => return Err(ReadError), peak;
        }
      }
      if !reserve(|output|, request) {
        return Err(ResourceLimit), peak;
      }
      if |output| + request > peak { peak := |output| + request; }
      var reply := input.ReadAgain(request);
      match reply {
        case Got(bytes) =>
          if bytes == [] {
            return Ok(output), peak;
          }
          output := output + bytes;
        case Overclaimed(_) => return Err(DataCorruption), peak;
        case _ => return Err(ReadError), peak;
      }
    }
  }

  method CollectPrefix(input: Source, maximum: nat, reserve: Reserver) returns (r: Result<seq<Byte>, Error>)
    modifies input
    ensures (r, input.s) == Prefix(old(input.s), [], Blank, maximum, reserve)
  {
    var result: seq<Byte> := [];
    var buffer := Blank;
    while |result| < maximum
      invariant |buffer| == BLOCK_SIZE
      invariant Prefix(old(input.s), [], Blank, maximum, reserve) == Prefix(input.s, result, buffer, maximum, reserve)
      decreases |input.s.script|, |input.s.Rest()|
    {
      var reply := input.ReadOnce(Min(maximum - |result|, BLOCK_SIZE));
      var count := 0;
      match reply {
        case Interrupt => continue;
        case Failed => return Err(ReadError);
        case Overclaimed(claimed) => count := claimed;
        case Got(bytes) => count, buffer := |bytes|, Filled(buffer, bytes);
      }
      if count == 0 { break; }
      if !reserve(|result|, count) {
        return Err(ResourceLimit);
      }
      if count > BLOCK_SIZE {
        return Err(Panic);
      }
      result := result + buffer[..count];
    }
    return Ok(result);
  }

  // ---- Exact specifications ----

  ghost predicate Grants(reserve: Reserver) { forall n, k :: reserve(n, k) }

  /** Whatever happens: at most one byte more than the maximum is consumed. */
  lemma {:induction false} LimitedConsumes(s: Handle, output: seq<Byte>, maximum: Option<nat>, reserve: Reserver)
    requires Fits(|output|, maximum)
    ensures var (r, t) := Limited(s, output, maximum, reserve);
      && (maximum.Some? ==> |output| + t.pos - s.pos <= maximum.value + 1)
      && (r.Ok? ==> t.pos - s.pos == |r.value| - |output| && output <= r.value && Fits(|r.value|, maximum))
    decreases |s.script|, |s.Rest()|
  {
    if maximum == Some(|output|) {
      var (reply, t) := Read(s, 1);
      if reply.Interrupt? { LimitedConsumes(t, output, maximum, reserve); }
    } else if reserve(|output|, Request(|output|, maximum)) {
      var (reply, t) := ReadRetrying(s, Request(|output|, maximum));
      if reply.Got? && reply.bytes != [] { LimitedConsumes(t, output + reply.bytes, maximum, reserve); }
    }
  }

  lemma Regroup(a: seq<Byte>, b: seq<Byte>, c: seq<Byte>)
    ensures a + b + c == a + (b + c)
  {}

  /** A success during which nobody rewrote the file delivers all that was left of it. */
  lemma {:induction false} LimitedIsWhole(s: Handle, output: seq<Byte>, maximum: Option<nat>, reserve: Reserver)
    requires Fits(|output|, maximum)
    ensures var (r, t) := Limited(s, output, maximum, reserve);
      && t.writes >= s.writes
      && (t.writes == s.writes ==> t.data == s.data && t.native == s.native)
      && (r.Ok? && t.writes == s.writes ==> r.value == output + s.Rest())
    decreases |s.script|, |s.Rest()|
  {
    if maximum == Some(|output|) {
      ReadSees(s, 1);
      var (reply, t) := Read(s, 1);
      if reply.Interrupt? {
        LimitedIsWhole(t, output, maximum, reserve);
      } else if reply.Got? && reply.bytes == [] && t.writes == s.writes {
        assert output + s.Rest() == output;
      }
    } else if reserve(|output|, Request(|output|, maximum)) {
      RetrySees(s, Request(|output|, maximum));
      var (reply, t) := ReadRetrying(s, Request(|output|, maximum));
      if reply.Got? && reply.bytes != [] {
        LimitedIsWhole(t, output + reply.bytes, maximum, reserve);
        Regroup(output, reply.bytes, t.Rest());
      } else if reply.Got? && t.writes == s.writes {
        assert output + s.Rest() == output;
      }
    }
  }

  lemma {:induction false} LimitedDecides(s: Handle, output: seq<Byte>, maximum: Option<nat>, reserve: Reserver)
    requires Fits(|output|, maximum) && Calm(s.script) && Grants(reserve)
    ensures var (r, t) := Limited(s, output, maximum, reserve);
      && t.writes == s.writes
      && (r.Ok? <==> Fits(|output| + |s.Rest()|, maximum))
      && (r.Err? ==> r.error == ResourceLimit)
    decreases |s.script|, |s.Rest()|
  {
    if maximum == Some(|output|) {
      ReadSees(s, 1);
      CalmRead(s, 1);
      var (reply, t) := Read(s, 1);
      if reply.Interrupt? {
        LimitedDecides(t, output, maximum, reserve);
      } else {
        assert |s.Rest()| == |reply.bytes| + |t.Rest()|;
      }
    } else {
      var request := Request(|output|, maximum);
      RetrySees(s, request);
      CalmRetry(s, request);
      var (reply, t) := ReadRetrying(s, request);
      assert |s.Rest()| == |reply.bytes| + |t.Rest()|;
      if reply.bytes != [] { LimitedDecides(t, output + reply.bytes, maximum, reserve); }
    }
  }

  /** However a calm input is cut into short reads and interruptions, the result is the whole content
      exactly when it fits, and a resource-limit error exactly when it does not. */
  lemma LimitedExactly(s: Handle, maximum: Option<nat>, reserve: Reserver)
    requires Calm(s.script) && Grants(reserve)
    ensures Limited(s, [], maximum, reserve).0 ==
      if Fits(|s.Rest()|, maximum) then Ok(s.Rest()) else Err(ResourceLimit)
  {
    LimitedDecides(s, [], maximum, reserve);
    LimitedIsWhole(s, [], maximum, reserve);
    assert [] + s.Rest() == s.Rest();
  }

  /** Every error has its cause: an overclaiming input, a failing call, or (with memory to spare and
      nobody rewriting the file) more bytes than the maximum. */
  lemma {:induction false} LimitedErrs(s: Handle, output: seq<Byte>, maximum: Option<nat>, reserve: Reserver)
    requires Fits(|output|, maximum)
    ensures var (r, t) := Limited(s, output, maximum, reserve);
      && (r == Err(DataCorruption) ==> !Honest(s.script))
      && (r == Err(ReadError) ==> Fails in s.script)
      && (r == Err(ResourceLimit) && Honest(s.script) && Grants(reserve) && t.writes == s.writes ==>
            !Fits(|output| + |s.Rest()|, maximum))
    decreases |s.script|, |s.Rest()|
  {
    LimitedIsWhole(s, output, maximum, reserve);
    if maximum == Some(|output|) {
      ReadSees(s, 1);
      ReadFails(s, 1);
      var (reply, t) := Read(s, 1);
      if reply.Interrupt? {
        LimitedErrs(t, output, maximum, reserve);
        LimitedIsWhole(t, output, maximum, reserve);
      } else if reply.Got? && t.writes == s.writes {
        assert |s.Rest()| == |reply.bytes| + |t.Rest()|;
      }
    } else if reserve(|output|, Request(|output|, maximum)) {
      var request := Request(|output|, maximum);
      RetrySees(s, request);
      RetryFails(s, request);
      var (reply, t) := ReadRetrying(s, request);
      if reply.Got? && reply.bytes != [] {
        if t.writes == s.writes { assert |s.Rest()| == |reply.bytes| + |t.Rest()|; }
        LimitedErrs(t, output + reply.bytes, maximum, reserve);
        LimitedIsWhole(t, output + reply.bytes, maximum, reserve);
      }
    }
  }

  /** The prefix collector returns exactly the first bytes, up to the maximum. */
  lemma {:induction false} PrefixExactly(s: Handle, output: seq<Byte>, buffer: seq<Byte>, maximum: nat,
                                         reserve: Reserver)
    requires Calm(s.script) && Grants(reserve) && |output| <= maximum && |buffer| == BLOCK_SIZE
    ensures Prefix(s, output, buffer, maximum, reserve).0 == Ok(FirstBytes(output, s.Rest(), maximum))
    decreases |s.script|, |s.Rest()|
  {
    if |output| < maximum {
      var request := Min(maximum - |output|, BLOCK_SIZE);
      ReadSees(s, request);
      CalmRead(s, request);
      var (reply, t) := Read(s, request);
      if reply.Interrupt? {
        PrefixExactly(t, output, buffer, maximum, reserve);
      } else if reply.bytes != [] {
        PrefixExactly(t, output + reply.bytes, Filled(buffer, reply.bytes), maximum, reserve);
        FirstBytesOn(output, reply.bytes, t.Rest(), maximum);
      }
    }
  }

  /** For every input, whatever it does: a call that fails is always reported and nothing else is reported
      as one, only a buffer that cannot grow is a resource limit, and a success during which nobody rewrote
      the file and no call lied is exactly the first bytes, up to the maximum. */
  lemma {:induction false} PrefixTruthful(s: Handle, output: seq<Byte>, buffer: seq<Byte>, maximum: nat,
                                          reserve: Reserver)
    requires |buffer| == BLOCK_SIZE
    ensures var (r, t) := Prefix(s, output, buffer, maximum, reserve);
      && t.writes >= s.writes && t.lies >= s.lies
      && t.failures == s.failures + (if r == Err(ReadError) then 1 else 0)
      && (r == Err(ResourceLimit) ==> !Grants(reserve)) && r != Err(DataCorruption)
      && (r.Ok? && t.writes == s.writes && t.lies == s.lies && |output| <= maximum ==>
            r.value == FirstBytes(output, s.Rest(), maximum) && t.pos == s.pos + |r.value| - |output|)
    decreases |s.script|, |s.Rest()|
  {
    if |output| < maximum {
      var request := Min(maximum - |output|, BLOCK_SIZE);
      ReadSees(s, request);
      var (reply, t) := Read(s, request);
      if reply.Interrupt? {
        PrefixTruthful(t, output, buffer, maximum, reserve);
      } else if reply.Overclaimed? && reserve(|output|, reply.count) && reply.count <= BLOCK_SIZE {
        PrefixTruthful(t, output + buffer[..reply.count], buffer, maximum, reserve);
      } else if reply.Got? && reply.bytes != [] && reserve(|output|, |reply.bytes|) {
        PrefixTruthful(t, output + reply.bytes, Filled(buffer, reply.bytes), maximum, reserve);
        FirstBytesOn(output, reply.bytes, t.Rest(), maximum);
      }
    }
  }

  /** For every input: the limited collector reports a failing call, the probe at the maximum included, and
      nothing else as one; after a call that lied it never succeeds. */
  lemma {:induction false} LimitedTruthful(s: Handle, output: seq<Byte>, maximum: Option<nat>, reserve: Reserver)
    requires Fits(|output|, maximum)
    ensures var (r, t) := Limited(s, output, maximum, reserve);
      && t.failures == s.failures + (if r == Err(ReadError) then 1 else 0)
      && t.lies >= s.lies && (r.Ok? ==> t.lies == s.lies) && r != Err(Panic)
      && (r == Err(DataCorruption) ==> t.lies == s.lies + 1)
    decreases |s.script|, |s.Rest()|
  {
    if maximum == Some(|output|) {
      var (reply, t) := Read(s, 1);
      if reply.Interrupt? { LimitedTruthful(t, output, maximum, reserve); }
    } else if reserve(|output|, Request(|output|, maximum)) {
      var (reply, t) := ReadRetrying(s, Request(|output|, maximum));
      if reply.Got? && reply.bytes != [] { LimitedTruthful(t, output + reply.bytes, maximum, reserve); }
    }
  }

  /** The buffer cannot grow past `cap`. */
  ghost predicate Caps(reserve: Reserver, cap: nat) { forall n: nat, k: nat :: n + k > cap ==> !reserve(n, k) }

  /** Neither collector ever holds more than its buffer can: what does not fit is an error. */
  lemma {:induction false} LimitedWithinMemory(s: Handle, output: seq<Byte>, maximum: Option<nat>, reserve: Reserver,
                                               cap: nat)
    requires Fits(|output|, maximum) && Caps(reserve, cap) && |output| <= cap
    ensures var r := Limited(s, output, maximum, reserve).0; r.Ok? ==> |r.value| <= cap
    decreases |s.script|, |s.Rest()|
  {
    if maximum == Some(|output|) {
      var (reply, t) := Read(s, 1);
      if reply.Interrupt? { LimitedWithinMemory(t, output, maximum, reserve, cap); }
    } else if reserve(|output|, Request(|output|, maximum)) {
      var (reply, t) := ReadRetrying(s, Request(|output|, maximum));
      if reply.Got? && reply.bytes != [] { LimitedWithinMemory(t, output + reply.bytes, maximum, reserve, cap); }
    }
  }

  lemma {:induction false} PrefixWithinMemory(s: Handle, output: seq<Byte>, buffer: seq<Byte>, maximum: nat,
                                              reserve: Reserver, cap: nat)
    requires |buffer| == BLOCK_SIZE && Caps(reserve, cap) && |output| <= cap
    ensures var r := Prefix(s, output, buffer, maximum, reserve).0; r.Ok? ==> |r.value| <= cap
    decreases |s.script|, |s.Rest()|
  {
    if |output| < maximum {
      var (reply, t) := Read(s, Min(maximum - |output|, BLOCK_SIZE));
      if reply.Interrupt? {
        PrefixWithinMemory(t, output, buffer, maximum, reserve, cap);
      } else if reply.Overclaimed? && reserve(|output|, reply.count) && reply.count <= BLOCK_SIZE {
        PrefixWithinMemory(t, output + buffer[..reply.count], buffer, maximum, reserve, cap);
      } else if reply.Got? && reply.bytes != [] && reserve(|output|, |reply.bytes|) {
        PrefixWithinMemory(t, output + reply.bytes, Filled(buffer, reply.bytes), maximum, reserve, cap);
      }
    }
  }

  lemma FirstBytesOn(output: seq<Byte>, bytes: seq<Byte>, rest: seq<Byte>, maximum: nat)
    requires |output| + |bytes| <= maximum
    ensures FirstBytes(output, bytes + rest, maximum) == FirstBytes(output + bytes, rest, maximum)
  {
    Regroup(output, bytes, rest);
  }

  /** For every input: the prefix stays within the maximum exactly if no call reported more bytes than were
      asked for, and only such a call makes the collector panic. */
  lemma {:induction false} PrefixBounded(s: Handle, output: seq<Byte>, buffer: seq<Byte>, maximum: nat,
                                         reserve: Reserver)
    requires |buffer| == BLOCK_SIZE && |output| <= maximum
    ensures var (r, t) := Prefix(s, output, buffer, maximum, reserve);
      && (r.Ok? ==> (|r.value| <= maximum <==> t.lies == s.lies))
      && (r == Err(Panic) ==> t.lies > s.lies)
      && (t.lies > s.lies ==> !Honest(s.script))
    decreases |s.script|, |s.Rest()|
  {
    if |output| < maximum {
      var (reply, t) := Read(s, Min(maximum - |output|, BLOCK_SIZE));
      if reply.Interrupt? {
        PrefixBounded(t, output, buffer, maximum, reserve);
      } else if reply.Got? && reply.bytes != [] && reserve(|output|, |reply.bytes|) {
        PrefixBounded(t, output + reply.bytes, Filled(buffer, reply.bytes), maximum, reserve);
      }
    }
  }

  /** An input that reports too much: the prefix of at most one byte has two, which the file never held. */
  lemma PrefixOverrun(native: Native, reserve: Reserver)
    requires Grants(reserve)
    ensures var s := Handle([], 0, native, 0, 0, 0, [Overclaims(0)]);
      Prefix(s, [], Blank, 1, reserve).0 == Ok([0, 0])
  {
    var s := Handle([], 0, native, 0, 0, 0, [Overclaims(0)]);
    assert Read(s, 1) == (Overclaimed(2), s.Later().(lies := 1));
    assert [] + Blank[..2] == [0, 0];
  }

  function FirstBytes(output: seq<Byte>, rest: seq<Byte>, maximum: nat): seq<Byte>
    requires |output| <= maximum
  {
    (output + rest)[..Min(maximum, |output| + |rest|)]
  }

  /** On one and the same input, with any interruptions, errors and rewrites in it, a success of the
      limited collector is also the result of the prefix collector. */
  lemma {:induction false} CollectorsAgree(s: Handle, output: seq<Byte>, buffer: seq<Byte>, maximum: nat,
                                           reserve: Reserver, reservePrefix: Reserver)
    requires Grants(reservePrefix) && |output| <= maximum && |buffer| == BLOCK_SIZE
    requires Limited(s, output, Some(maximum), reserve).0.Ok?
    ensures Prefix(s, output, buffer, maximum, reservePrefix).0 == Limited(s, output, Some(maximum), reserve).0
    decreases |s.script|, |s.Rest()|
  {
    if |output| < maximum {
      var request := Request(|output|, Some(maximum));
      var (reply, t) := Read(s, request);
      if reply.Interrupt? {
        CollectorsAgree(t, output, buffer, maximum, reserve, reservePrefix);
      } else if reply.Got? && reply.bytes != [] {
        CollectorsAgree(t, output + reply.bytes, Filled(buffer, reply.bytes), maximum, reserve, reservePrefix);
      }
    } else {
      LimitedConsumes(s, output, Some(maximum), reserve);
      assert Limited(s, output, Some(maximum), reserve).0.value == output;
    }
  }
}
