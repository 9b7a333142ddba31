/** Structured errors: an owned chain of cleanup errors, nested recovery sources, and the private
    resources that errors own until someone takes them over. */
module FileError {
  import opened Wrappers
  import opened Disk

  datatype ErrorKind =
    | InvalidPath | InvalidOptions | InvalidState | NotFound | AlreadyExists | NotDirectory | IsDirectory
    | TypeConflict | PermissionDenied | Unsupported | RequirementNotMet | ResourceLimit | DataCorruption
    | InvalidEncoding | ChangedDuringRead | PublicationIncomplete | Indeterminate | Io

  datatype IoKind =
    | IoNotFound | IoAlreadyExists | IoNotADirectory | IoIsADirectory | IoPermissionDenied | IoInvalidInput
    | IoInvalidData | IoUnsupported | IoOutOfMemory | IoStorageFull | IoQuotaExceeded | IoOther(code: nat)

  datatype IoError = IoError(kind: IoKind, code: nat)
  datatype LimitError = LimitError(code: nat)

  /** A private temporary resource; whoever owns it has to clean it up. */
  type Owner = nat

  datatype Source =
    | Encoding(detail: nat)
    | Native(io: IoError)
    | PathCodec(detail: nat)
    | Limit(limit: LimitError)
    | Recovery(error: Error)

  /** `context` stands for the operation, the paths, the reason and the effect, which are only carried. */
  datatype Error = Error(
    kind: ErrorKind, context: nat, source: Option<Source>, cleanup: Option<Error>, recovery: Option<Owner>)

  // ---- The cleanup chain ----

  /** The chain as a list: this error and then its cleanup errors, each without its own chain. */
  function Chain(e: Error): seq<Error> {
    [e.(cleanup := None)] + match e.cleanup case None => [] case Some(c) => Chain(c)
  }

  function Unchain(heads: seq<Error>): Error
    requires heads != []
  {
    heads[0].(cleanup := if |heads| == 1 then None else Some(Unchain(heads[1..])))
  }

  /** Adds `last` at the end of the chain of `e`. */
  function Append(e: Error, last: Error): Error {
    e.(cleanup := Some(match e.cleanup case None => last case Some(c) => Append(c, last)))
  }

  lemma {:induction false} ChainUnchain(e: Error)
    ensures Chain(e) != [] && Unchain(Chain(e)) == e
    decreases e
  {
    match e.cleanup
    case None =>
    case Some(c) =>
      ChainUnchain(c);
      assert Chain(e)[1..] == Chain(c);
  }

  /** Errors without chains of their own. */
  predicate Bare(heads: seq<Error>) { heads != [] && forall i | 0 <= i < |heads| :: heads[i].cleanup == None }

  lemma {:induction false} UnchainChain(heads: seq<Error>)
    requires Bare(heads)
    ensures Chain(Unchain(heads)) == heads
    decreases |heads|
  {
    if |heads| > 1 {
      UnchainChain(heads[1..]);
      assert heads == [heads[0]] + heads[1..];
    }
  }

  /** The chain of an appended error is the old chain followed by the new one with its own chain. */
  lemma {:induction false} AppendConcatenates(e: Error, last: Error)
    ensures Chain(Append(e, last)) == Chain(e) + Chain(last)
    decreases e
  {
    match e.cleanup
    case None =>
    case Some(c) =>
      AppendConcatenates(c, last);
      assert [e.(cleanup := None)] + (Chain(c) + Chain(last)) == ([e.(cleanup := None)] + Chain(c)) + Chain(last);
  }

  lemma {:induction false} AppendAssociates(a: Error, b: Error, c: Error)
    ensures Append(Append(a, b), c) == Append(a, Append(b, c))
    decreases a
  {
    match a.cleanup
    case None =>
    case Some(rest) => AppendAssociates(rest, b, c);
  }

  // ---- Who owns what ----

  function Owners(e: Error): multiset<Owner> {
    (if e.recovery.Some? then multiset{e.recovery.value} else multiset{})
    + SourceOwners(e.source)
    + (match e.cleanup case None => multiset{} case Some(c) => Owners(c))
  }

  function SourceOwners(s: Option<Source>): multiset<Owner> {
    if s.Some? && s.value.Recovery? then Owners(s.value.error) else multiset{}
  }

  function CleanupOwners(e: Error): multiset<Owner> {
    match e.cleanup case None => multiset{} case Some(c) => Owners(c)
  }

  /** Appending neither loses an owner nor invents one. */
  lemma {:induction false} AppendConserves(e: Error, last: Error)
    ensures Owners(Append(e, last)) == Owners(e) + Owners(last)
    decreases e
  {
    match e.cleanup
    case None =>
    case Some(c) => AppendConserves(c, last);
  }

  /** Replaces the whole cleanup chain. */
  function WithCleanupError(e: Error, c: Error): Error { e.(cleanup := Some(c)) }

  /** Replacing keeps every owner exactly when the replaced chain had none. */
  lemma ReplacingConserves(e: Error, c: Error)
    ensures Owners(WithCleanupError(e, c)) == Owners(e) + Owners(c) <==> CleanupOwners(e) == multiset{}
  {
    var kept := Owners(e.(cleanup := None));
    assert Owners(e) == kept + CleanupOwners(e);
    assert Owners(WithCleanupError(e, c)) == kept + Owners(c);
    assert |kept + Owners(c)| == |kept| + |Owners(c)|;
    assert |kept + CleanupOwners(e) + Owners(c)| == |kept| + |CleanupOwners(e)| + |Owners(c)|;
  }

  /** Hands over the owner of this error, and of this error only. */
  function IntoTempRecoveryParts(e: Error): (Error, Option<Owner>) { (e.(recovery := None), e.recovery) }

  lemma TransferMovesOneOwner(e: Error)
    ensures var (rest, owner) := IntoTempRecoveryParts(e);
      && Owners(e) == Owners(rest) + (if owner.Some? then multiset{owner.value} else multiset{})
      && rest.recovery == None && rest.(recovery := e.recovery) == e
      && IntoTempRecoveryParts(rest) == (rest, None)
  {}

  /** An error that owns something becomes a source as a whole; any other gives up its source. */
  function IntoSource(e: Error): Option<Source> {
    if e.recovery.Some? then Some(Recovery(e)) else e.source
  }

  /** Every owner survives the conversion exactly when the error itself owns something or nothing in its
      cleanup chain does. */
  lemma IntoSourceConserves(e: Error)
    ensures SourceOwners(IntoSource(e)) == Owners(e) <==> e.recovery.Some? || CleanupOwners(e) == multiset{}
  {
    if e.recovery.None? {
      assert Owners(e) == SourceOwners(e.source) + CleanupOwners(e);
      assert |SourceOwners(e.source) + CleanupOwners(e)| == |SourceOwners(e.source)| + |CleanupOwners(e)|;
    }
  }

  /** A cleanup error's owner is dropped with it when the primary error is turned into its source. */
  lemma IntoSourceDropsOwner(owner: Owner, io: IoError)
    ensures
      var cleanup := Error(ErrorKind.Io, 0, None, None, Some(owner));
      var e := Error(ErrorKind.Io, 0, Some(Native(io)), Some(cleanup), None);
      owner in Owners(e) && SourceOwners(IntoSource(e)) == multiset{}
  {
    var cleanup := Error(ErrorKind.Io, 0, None, None, Some(owner));
    assert Owners(cleanup) == multiset{owner};
  }

  // ---- Accessors ----

  function NativeError(e: Error): Option<IoError> {
    match e.source
    case Some(Native(io)) => Some(io)
    case Some(Recovery(inner)) => NativeError(inner)
    case _ => None
  }

  function LimitOf(e: Error): Option<LimitError> {
    match e.source
    case Some(Limit(limit)) => Some(limit)
    case Some(Recovery(inner)) => LimitOf(inner)
    case _ => None
  }

  /** The standard kind of an error without a source. */
  function StandardKind(kind: ErrorKind): IoKind {
    match kind
    case AlreadyExists => IoAlreadyExists
    case InvalidPath => IoInvalidInput
    case InvalidOptions => IoInvalidInput
    case InvalidState => IoInvalidInput
    case NotDirectory => IoNotADirectory
    case IsDirectory => IoIsADirectory
    case NotFound => IoNotFound
    case PermissionDenied => IoPermissionDenied
    case DataCorruption => IoInvalidData
    case InvalidEncoding => IoInvalidData
    case RequirementNotMet => IoUnsupported
    case Unsupported => IoUnsupported
    case _ => IoOther(0)
  }

  function StandardIoKind(e: Error): IoKind {
    match e.source
    case Some(Native(io)) => io.kind
    case Some(Encoding(_)) => IoInvalidData
    case Some(Recovery(inner)) => StandardIoKind(inner)
    case Some(PathCodec(_)) => IoInvalidInput
    case Some(Limit(_)) => IoOther(0)
    case None => StandardKind(e.kind)
  }

  function Classify(io: IoError): ErrorKind {
    match io.kind
    case IoNotFound => NotFound
    case IoAlreadyExists => AlreadyExists
    case IoNotADirectory => NotDirectory
    case IoIsADirectory => IsDirectory
    case IoPermissionDenied => PermissionDenied
    case IoInvalidInput => InvalidPath
    case IoInvalidData => DataCorruption
    case IoUnsupported => Unsupported
    case IoOutOfMemory => ResourceLimit
    case IoStorageFull => ResourceLimit
    case IoQuotaExceeded => ResourceLimit
    case IoOther(_) => ErrorKind.Io
  }

  /** Kinds that tell what happened to the namespace rather than why. */
  predicate TellsEffect(kind: ErrorKind) { kind == PublicationIncomplete || kind == Indeterminate }

  function CauseKind(e: Error): Option<ErrorKind> {
    if !TellsEffect(e.kind) then Some(e.kind)
    else
      match e.source
      case Some(Encoding(_)) => Some(InvalidEncoding)
      case Some(Recovery(inner)) => CauseKind(inner)
      case Some(Native(io)) => Some(Classify(io))
      case Some(Limit(_)) => Some(ResourceLimit)
      case Some(PathCodec(_)) => Some(InvalidPath)
      case None => None
  }

  /** `e` inside as many recovery errors as there are shells, the first outermost; each shell keeps
      everything but its source. */
  function Wrapped(shells: seq<Error>, e: Error): Error {
    if shells == [] then e else shells[0].(source := Some(Recovery(Wrapped(shells[1..], e))))
  }

  /** The native source, the resource limit and the standard kind are seen through any number of
      recovery errors. */
  lemma {:induction false} AccessorsSeeThrough(shells: seq<Error>, e: Error)
    ensures NativeError(Wrapped(shells, e)) == NativeError(e)
    ensures LimitOf(Wrapped(shells, e)) == LimitOf(e)
    ensures StandardIoKind(Wrapped(shells, e)) == StandardIoKind(e)
    decreases |shells|
  {
    if shells != [] { AccessorsSeeThrough(shells[1..], e); }
  }

  /** The cause is that of the outermost error that does not merely tell an effect. */
  lemma {:induction false} CauseSeesThroughEffects(shells: seq<Error>, e: Error)
    ensures CauseKind(Wrapped(shells, e)) ==
      match FirstCause(shells) case None => CauseKind(e) case Some(kind) => Some(kind)
    decreases |shells|
  {
    if shells != [] { CauseSeesThroughEffects(shells[1..], e); }
  }

  function FirstCause(shells: seq<Error>): Option<ErrorKind> {
    if shells == [] then None
    else if !TellsEffect(shells[0].kind) then Some(shells[0].kind)
    else FirstCause(shells[1..])
  }

  /** Not wrapped around another error. */
  predicate Innermost(e: Error) { e.source.None? || !e.source.value.Recovery? }

  /** Every error is some innermost one inside recovery errors, and the accessors say what that one's source
      is: a native failure, a limit, or the standard kind that goes with either, with the kind of encoding or
      with its own kind if there is no source. */
  lemma {:induction false} InnermostSpeaks(e: Error) returns (shells: seq<Error>, core: Error)
    ensures e == Wrapped(shells, core) && Innermost(core)
    ensures NativeError(e) ==
      if core.source.Some? && core.source.value.Native? then Some(core.source.value.io) else None
    ensures LimitOf(e) == if core.source.Some? && core.source.value.Limit? then Some(core.source.value.limit) else None
    ensures core.source == None ==> StandardIoKind(e) == StandardKind(core.kind)
    ensures NativeError(e).Some? ==> StandardIoKind(e) == NativeError(e).value.kind
    ensures core.source.Some? && core.source.value.Encoding? ==> StandardIoKind(e) == IoInvalidData
    ensures core.source.Some? && core.source.value.PathCodec? ==> StandardIoKind(e) == IoInvalidInput
    ensures LimitOf(e).Some? ==> StandardIoKind(e) == IoOther(0)
    decreases e
  {
    if Innermost(e) {
      shells, core := [], e;
    } else {
      var inner, c := InnermostSpeaks(e.source.value.error);
      shells, core := [e] + inner, c;
      assert shells[1..] == inner;
    }
  }

  /** The cause of an error that tells nothing but effects all the way in is that of the innermost source. */
  lemma CauseOfEffects(shells: seq<Error>, core: Error)
    requires Innermost(core) && FirstCause(shells + [core]) == None
    ensures CauseKind(Wrapped(shells, core)) ==
      if core.source == None then None
      else match core.source.value
        case Encoding(_) => Some(InvalidEncoding)
        case Native(io) => Some(Classify(io))
        case PathCodec(_) => Some(InvalidPath)
        case Limit(_) => Some(ResourceLimit)
  {
    FirstCauseOver(shells, core);
    CauseSeesThroughEffects(shells, core);
  }

  lemma {:induction false} FirstCauseOver(shells: seq<Error>, core: Error)
    ensures FirstCause(shells + [core]) == None <==> FirstCause(shells) == None && TellsEffect(core.kind)
    decreases |shells|
  {
    if shells != [] {
      FirstCauseOver(shells[1..], core);
      assert (shells + [core])[1..] == shells[1..] + [core];
    } else {
      assert (shells + [core])[1..] == [];
    }
  }

  /** Standard kinds that have a kind of error of their own. */
  predicate Distinguished(kind: IoKind) {
    !kind.IoOutOfMemory? && !kind.IoStorageFull? && !kind.IoQuotaExceeded? && !kind.IoOther?
  }

  /** Classifying a standard kind and going back gives the kind again, wherever there is a kind of its own;
      the others are lost. */
  lemma ClassifyRoundTrips(io: IoError)
    ensures StandardKind(Classify(io)) == if Distinguished(io.kind) then io.kind else IoOther(0)
    ensures Classify(io) == ResourceLimit <==>
      io.kind.IoOutOfMemory? || io.kind.IoStorageFull? || io.kind.IoQuotaExceeded?
    ensures Classify(io) == ErrorKind.Io <==> io.kind.IoOther?
  {}

  /** Turning an error into a source and wrapping that again keeps the native failure and the limit, and the
      standard kind if there was a source or an owner; an error that owns something keeps its owners. */
  lemma RewrappingKeeps(e: Error, outer: Error)
    ensures var again := outer.(source := IntoSource(e));
      && NativeError(again) == NativeError(e) && LimitOf(again) == LimitOf(e)
      && (e.recovery.Some? || e.source.Some? ==> StandardIoKind(again) == StandardIoKind(e))
      && (e.recovery.Some? ==> Owners(e) <= Owners(again) && IntoSource(e) == Some(Recovery(e)))
      && (e.recovery.None? && e.source.None? ==> again.source == None)
  {}

  /** An error from a native failure keeps the exact standard kind. */
  function FromIo(context: nat, io: IoError, limit: Option<LimitError>): Error {
    if limit.Some? then Error(ResourceLimit, context, Some(Limit(limit.value)), None, None)
    else Error(Classify(io), context, Some(Native(io)), None, None)
  }

  lemma NativeKindSurvives(context: nat, io: IoError, shells: seq<Error>)
    ensures StandardIoKind(Wrapped(shells, FromIo(context, io, None))) == io.kind
    ensures NativeError(Wrapped(shells, FromIo(context, io, None))) == Some(io)
  {
    AccessorsSeeThrough(shells, FromIo(context, io, None));
  }
}
