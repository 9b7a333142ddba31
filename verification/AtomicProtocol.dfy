/** The atomic publication protocol of the Host and Rooted writers as a transition system.

    A state holds the file system, the staging guard (handle open, name armed), the point the
    writer has reached, and what it last told its caller. Each transition is one call by the
    owner, one native call that succeeds or fails, or one step of another actor, so a sequence
    of actions is one interleaving. A native call that fails changes nothing. */
module AtomicProtocol {
  import opened Wrappers
  import opened Disk

  datatype Platform = Host | RootedUnix | RootedWindows
  datatype Requirement = NotRequired | Preferred | Required
  datatype MetadataPolicy = PreserveExisting | UseStaging

  datatype Stage =
    | PrepareParent
    | InspectDestination
    | ReadDestinationMetadata
    | ApplyDestinationMetadata
    | SyncTemporaryFile
    | ReplaceDestination
    | SyncParent

  datatype DestinationState = Unchanged | Replaced | Missing

  datatype Failure = Failure(
    stage: Stage, destination: DestinationState, cleanupFailed: bool, parentSyncFailed: bool)

  /** What is fixed when the writer is created. `dirs[0]` is a directory that already existed,
      `steps[i]` names `dirs[i + 1]` inside `dirs[i]`, and the last `created` directories are the
      ones that were missing and had to be created. */
  datatype Config = Config(
    platform: Platform,
    dirs: seq<Ino>, steps: seq<Name>, created: nat,
    destName: Name, stagingName: Name, staged: Ino, identityKnown: bool,
    existed: bool, regular: bool,
    durability: Requirement, fileSync: Requirement, policy: MetadataPolicy)
  {
    ghost predicate Valid() {
      && |dirs| == |steps| + 1
      && created <= |steps|
      && destName != stagingName
      && (forall i :: 0 <= i < |steps| ==> dirs[i] != dirs[|steps|])
      && (regular ==> existed)
    }

    function Parent(): Ino
      requires |dirs| == |steps| + 1
    { dirs[|steps|] }

    function Dest(): Entry
      requires |dirs| == |steps| + 1
    { Entry(Parent(), destName) }

    function Staging(): Entry
      requires |dirs| == |steps| + 1
    { Entry(Parent(), stagingName) }

    /** The entry that names `dirs[i + 1]`. */
    function Link(i: nat): Entry
      requires |dirs| == |steps| + 1 && i < |steps|
    { Entry(dirs[i], steps[i]) }

    ghost predicate IsLink(e: Entry)
      requires |dirs| == |steps| + 1
    { exists i :: 0 <= i < |steps| && e == Link(i) }

    function Unix(): bool { platform != RootedWindows }

    /** The strongest of the two requests decides how the staging file is synchronized. */
    function StagingSync(): Requirement {
      if durability == Required || fileSync == Required then Required
      else if durability == Preferred || fileSync == Preferred then Preferred
      else NotRequired
    }
  }

  /** Why the staging name is being removed. */
  datatype Cleanup =
    | ForAbort
    | ForDrop
    | ForFinalize(failure: Failure)
    | ForRecovery(synced: bool, destination: DestinationState)

  /** Why the parent chain is being synchronized: after an installation, after an installation
      whose leftover staging name was removed, or while reporting that it could not be removed. */
  datatype SyncReason = AfterInstall | AfterRecovery | WhileFailing

  datatype Point =
    | Idle
    | Observing
    | Applying(seen: Option<Ino>)
    | Syncing(seen: Option<Ino>)
    | Verifying(seen: Option<Ino>, synced: bool)
    | Mismatched
    | Installing(synced: bool)
    | Linking(synced: bool)
    | Unlinking(synced: bool, failures: nat)
    | Checking(why: Cleanup)
    | Removing(why: Cleanup)
    | SyncingParents(at: nat, synced: bool, reason: SyncReason)
    | Done

  datatype Reply =
    | NoReply
    | Committed(durable: bool, fileSynced: bool)
    | Failed(failure: Failure, retained: bool)
    | Aborted
    | AbortFailed

  /** What happened so far; never consulted by the protocol itself. */
  datatype History = History(
    original: Option<Ino>,        // what the destination named when the writer was created
    quiet: bool,                  // no update of the destination path was still in flight then
    accepted: seq<Byte>,          // bytes accepted by all writes
    installs: nat,                // installations that took effect
    published: Option<Ino>,       // the inode the installation put at the destination
    copied: Option<nat>,          // the destination metadata copied onto staging in this attempt
    attempted: bool,              // an installation was attempted
    finalized: bool,              // the owner gave up on the writer in a consuming commit
    destTouched: bool,            // another actor rebound the destination
    destWindow: bool,             // ... since the installation, if there was one
    stagingTouched: bool,         // another actor rebound the staging name
    stolen: bool,                 // ... before the installation took it
    foreignRemoved: bool)         // the writer took away a staging name bound to another inode

  datatype State = State(
    disk: Disk, open: bool, armed: bool, point: Point, reply: Reply, h: History)

  /** A step of some other actor: rebinding any name outside the parent chain, writing to any inode
      but the private staging one, or flushing anything. */
  datatype Outside =
    | OBind(e: Entry, i: Ino)
    | OUnbind(e: Entry)
    | OCreate(e: Entry, i: Ino, node: Inode)
    | OStore(i: Ino, data: seq<Byte>, meta: nat)
    | OFlushDir(dir: Ino)
    | OFlushFile(i: Ino)

  datatype Action =
    | Write(bytes: seq<Byte>)
    | Commit
    | Abort
    | Drop
    | Finalize
    | Succeed
    | Fail
    | Unsupported
    | FailMidway(meta: nat)
    | Other(step: Outside)

  /** Nothing new about the start or about what others did. */
  ghost predicate SameTouch(g: History, h: History) {
    && h.original == g.original && h.quiet == g.quiet
    && h.destTouched == g.destTouched && h.stagingTouched == g.stagingTouched
  }

  /** ... and nothing installed. */
  ghost predicate SameInstall(g: History, h: History) {
    && SameTouch(g, h) && h.installs == g.installs && h.published == g.published
    && h.stolen == g.stolen && h.destWindow == g.destWindow
  }

  /** ... and nothing accepted or taken away; a new attempt forgets the metadata it copied. */
  ghost predicate SameWork(g: History, h: History) {
    && SameInstall(g, h) && h.accepted == g.accepted && h.foreignRemoved == g.foreignRemoved
    && (h.copied == g.copied || h.copied == None)
  }

  /** A step that accepts no bytes, installs nothing and leaves the destination alone. */
  ghost predicate Steady(cfg: Config, s: State, t: State)
    requires cfg.Valid()
  {
    && t.h.accepted == s.h.accepted && SameInstall(s.h, t.h)
    && t.disk.Cur(cfg.Dest()) == s.disk.Cur(cfg.Dest())
  }

  /** A step that installs what the staging name names. */
  ghost predicate Takes(cfg: Config, s: State, t: State)
    requires cfg.Valid()
  {
    && t.disk.inodes == s.disk.inodes && SameTouch(s.h, t.h)
    && t.h.stolen == s.h.stagingTouched && t.h.published == s.disk.Cur(cfg.Staging()) && t.h.copied == s.h.copied
    && !t.h.destWindow
  }

  /** Past the attempt to install, or not in an attempt at all. */
  predicate Late(p: Point) { p.Idle? || p.Unlinking? || p.Checking? || p.SyncingParents? || p.Done? }

  /** The attempt is over: the owner has the writer back, or it is gone or being dropped. */
  predicate Over(p: Point) { p.Idle? || p.Done? || p == Checking(ForDrop) }

  /** ... or only the parent chain is left to be synchronized. */
  predicate Ending(p: Point) { Over(p) || p.SyncingParents? }

  /** Whether the staging file has already been through its synchronization step. */
  predicate PastSync(p: Point) {
    p.Verifying? || p.Installing? || p.Linking? || p.Unlinking? || p.SyncingParents?
  }

  /** The stages that know whether the staging file was synchronized. */
  predicate Flagged(p: Point) { PastSync(p) || ((p.Checking? || p.Removing?) && p.why.ForRecovery?) }

  function Flag(p: Point): bool
    requires Flagged(p)
  {
    if PastSync(p) then p.synced else p.why.synced
  }

  /** From `p` to `q`: the knowledge is carried on. */
  predicate CarriesFlag(p: Point, q: Point) { Flagged(q) ==> Flagged(p) && Flag(q) == Flag(p) }

  // ---- Caller-visible ends of an attempt ----

  function Report(stage: Stage, destination: DestinationState): Failure {
    Failure(stage, destination, false, false)
  }

  /** Dropping the writer: an armed guard tries to remove its name once more, in silence. */
  function Release(s: State, reply: Reply): (t: State)
    ensures t.disk == s.disk && t.h == s.h
    ensures Over(t.point)
  {
    s.(reply := reply, point := if s.armed then Checking(ForDrop) else Done)
  }

  /** An attempt ends in failure: the writer goes back to its owner while the staging handle is
      open (Unix) or the staging name is armed (Windows), and is dropped otherwise. */
  function EndFailed(cfg: Config, s: State, f: Failure): (t: State)
    ensures t.disk == s.disk && t.h == s.h
    ensures Over(t.point)
  {
    if (if cfg.Unix() then s.open else s.armed)
    then s.(point := Idle, reply := Failed(f, true))
    else Release(s, Failed(f, false))
  }

  function EndCommitted(s: State, durable: bool, synced: bool): (t: State)
    ensures t.disk == s.disk && t.h == s.h
    ensures Over(t.point)
  {
    Release(s, Committed(durable, synced))
  }

  // ---- Installation ----

  /** The staging name moves to the destination; renaming one link over another link to the same
      inode succeeds and changes nothing. */
  function Rename(cfg: Config, d: Disk): Disk
    requires cfg.Valid() && cfg.Staging() in d.names
  {
    if d.Cur(cfg.Dest()) == d.Cur(cfg.Staging()) then d
    else d.Rebind(cfg.Dest(), d.Cur(cfg.Staging())).Rebind(cfg.Staging(), None)
  }

  function Installed(cfg: Config, s: State, d: Disk): State
    requires cfg.Valid()
  {
    s.(disk := d,
       h := s.h.(installs := s.h.installs + 1,
                 published := s.disk.Cur(cfg.Staging()),
                 destWindow := false,
                 stolen := s.h.stagingTouched,
                 foreignRemoved := s.h.foreignRemoved
                   || (s.disk.Cur(cfg.Staging()) != Some(cfg.staged) && d.Cur(cfg.Staging()) == None)))
  }

  /** The installation consumed the staging name: disarm and go on to the parent chain. */
  function AfterInstalled(cfg: Config, s: State, synced: bool): (t: State)
    ensures t.disk == s.disk && t.h == s.h
    ensures Ending(t.point)
    ensures CarriesFlag(Installing(synced), t.point)
  {
    var u := s.(open := false, armed := false);
    if !cfg.Unix() || cfg.durability == NotRequired then EndCommitted(u, false, synced)
    else u.(point := SyncingParents(|cfg.steps|, synced, AfterInstall))
  }

  predicate RenameCanSucceed(cfg: Config, d: Disk)
    requires cfg.Valid()
  {
    && cfg.Staging() in d.names
    && (cfg.Dest() in d.names ==>
          cfg.existed && d.names[cfg.Dest()] in d.inodes && d.inodes[d.names[cfg.Dest()]].kind != Directory)
  }

  function InstallFailed(cfg: Config, s: State, synced: bool): (t: State)
    ensures t.disk == s.disk && t.h == s.h
    ensures Late(t.point)
    ensures CarriesFlag(Installing(synced), t.point)
  {
    if cfg.Unix() then s.(point := Checking(ForRecovery(synced, Unchanged)))
    else EndFailed(cfg, s, Report(ReplaceDestination, Unchanged))
  }

  // ---- Removal of the staging name ----

  function StartCleanup(cfg: Config, s: State, why: Cleanup): (t: State)
    ensures t.disk == s.disk && t.h == s.h
    ensures Late(t.point)
  {
    s.(open := s.open && !cfg.Unix(), point := Checking(why), reply := NoReply)
  }

  function CleanupDone(cfg: Config, s: State, why: Cleanup): (t: State)
    ensures t.disk == s.disk && t.h == s.h
    ensures Ending(t.point)
    ensures CarriesFlag(Checking(why), t.point)
  {
    var u := s.(open := false, armed := false);
    match why
    case ForAbort => u.(point := Idle, reply := Aborted)
    case ForDrop => u.(point := Done)
    case ForFinalize(f) => Release(u, Failed(f, false))
    case ForRecovery(synced, destination) =>
      if destination == Replaced then
        if cfg.durability == NotRequired then EndCommitted(u, false, synced)
        else u.(point := SyncingParents(|cfg.steps|, synced, AfterRecovery))
      else EndFailed(cfg, u, Report(ReplaceDestination, destination))
  }

  function CleanupFailed(cfg: Config, s: State, why: Cleanup): (t: State)
    ensures t.disk == s.disk && t.h == s.h
    ensures Ending(t.point)
    ensures CarriesFlag(Checking(why), t.point)
  {
    match why
    case ForAbort => s.(point := Idle, reply := AbortFailed)
    case ForDrop => s.(point := Done)
    case ForFinalize(f) => Release(s, Failed(f.(cleanupFailed := true), false))
    case ForRecovery(synced, destination) =>
      if destination == Replaced && cfg.durability != NotRequired
      then s.(point := SyncingParents(|cfg.steps|, synced, WhileFailing))
      else EndFailed(cfg, s, Failure(ReplaceDestination, destination, true, false))
  }

  function RemoveStaging(cfg: Config, s: State): (t: State)
    requires cfg.Valid()
    ensures Steady(cfg, s, t)
    ensures t.disk.inodes == s.disk.inodes
    ensures t.h.copied == s.h.copied
  {
    s.(disk := s.disk.Rebind(cfg.Staging(), None),
       h := s.h.(foreignRemoved := s.h.foreignRemoved || s.disk.Cur(cfg.Staging()) != Some(cfg.staged)))
  }

  // ---- Transitions ----

  function BytesOf(a: Action): seq<Byte> { if a.Write? then a.bytes else [] }

  // ---- Calls by the owner of the writer ----

  function Accept(cfg: Config, s: State, bytes: seq<Byte>): (t: State)
    requires cfg.staged in s.disk.inodes
    ensures t.disk.names == s.disk.names && SameInstall(s.h, t.h)
  {
    var node := s.disk.inodes[cfg.staged];
    s.(disk := s.disk.Store(cfg.staged, node.data + bytes, node.meta),
       h := s.h.(accepted := s.h.accepted + bytes))
  }

  /** Rooted Windows refuses required durability before any attempt. */
  function StartAttempt(cfg: Config, s: State): (t: State)
    ensures t.disk == s.disk && SameWork(s.h, t.h)
    ensures t.reply.Failed? ==> t.reply.failure.destination == Unchanged
  {
    if cfg.platform == RootedWindows && cfg.durability == Required
    then s.(reply := Failed(Report(PrepareParent, Unchanged), true))
    else s.(point := Observing, reply := NoReply, h := s.h.(copied := None))
  }

  function StartAbort(cfg: Config, s: State): (t: State)
    ensures t.disk == s.disk && SameWork(s.h, t.h)
    ensures t.reply.Failed? ==> t.reply.failure.destination == Unchanged
  {
    if s.armed then StartCleanup(cfg, s, ForAbort) else s.(open := false, reply := Aborted)
  }

  function StartDrop(cfg: Config, s: State): (t: State)
    ensures t.disk == s.disk && SameWork(s.h, t.h)
    ensures t.reply.Failed? ==> t.reply.failure.destination == Unchanged
  {
    if s.armed then StartCleanup(cfg, s, ForDrop) else s.(open := false, point := Done, reply := NoReply)
  }

  /** A consuming commit cleans up after an unchanged destination, and otherwise abandons staging;
      on Windows abandoning does nothing, and the drop that follows removes it. */
  function StartFinalize(cfg: Config, s: State, f: Failure): (t: State)
    ensures t.disk == s.disk && SameWork(s.h, t.h)
    ensures t.reply.Failed? ==> t.reply.failure.destination == f.destination
  {
    var u := s.(h := s.h.(finalized := true));
    if f.destination == Unchanged then StartCleanup(cfg, u, ForFinalize(f))
    else Release(u.(open := false, armed := s.armed && !cfg.Unix()), Failed(f, false))
  }

  function CallerStep(cfg: Config, s: State, a: Action): (r: Option<State>)
    requires cfg.Valid() && cfg.staged in s.disk.inodes
    ensures r.Some? ==> r.value.h.accepted == s.h.accepted + BytesOf(a)
    ensures r.Some? ==> r.value.h.foreignRemoved == s.h.foreignRemoved
    ensures r.Some? ==> r.value.disk.names == s.disk.names && SameInstall(s.h, r.value.h)
    ensures r.Some? ==> r.value.h.copied == s.h.copied || r.value.h.copied == None
  {
    if s.point != Idle then None
    else match a
      case Write(bytes) => if s.open then Some(Accept(cfg, s, bytes)) else None
      case Commit => if s.open && s.armed then Some(StartAttempt(cfg, s)) else None
      case Abort =>
        // A Host writer whose staging is gone has no staging path left to report.
        if !s.armed && cfg.platform == Host then None else Some(StartAbort(cfg, s))
      case Drop => Some(StartDrop(cfg, s))
      case Finalize =>
        // Only a Rooted writer has a consuming commit.
        if s.reply.Failed? && cfg.platform != Host then Some(StartFinalize(cfg, s, s.reply.failure)) else None
      case _ => None
  }

  // ---- Native calls that succeed, point by point ----

  /** Nothing was copied, or it is the metadata of the file that was looked at. */
  predicate CopiesSeen(d: Disk, seen: Option<Ino>, copied: Option<nat>) {
    copied.Some? ==> seen.Some? && seen.value in d.inodes && copied.value == d.inodes[seen.value].meta
  }

  function Observe(cfg: Config, s: State): (t: State)
    requires cfg.Valid()
    ensures t.disk == s.disk && t.h == s.h
    ensures Over(t.point) || t.point == Applying(if cfg.regular then s.disk.Cur(cfg.Dest()) else None)
  {
    var d := s.disk;
    if !cfg.regular then s.(point := Applying(None))
    else if cfg.Dest() !in d.names || d.names[cfg.Dest()] !in d.inodes then
      EndFailed(cfg, s, Report(ReadDestinationMetadata, if cfg.Unix() then Missing else Unchanged))
    else if d.inodes[d.names[cfg.Dest()]].kind != Regular then
      EndFailed(cfg, s, Report(ReadDestinationMetadata, Unchanged))
    else s.(point := Applying(d.Cur(cfg.Dest())))
  }

  function ApplyMetadata(cfg: Config, s: State, seen: Option<Ino>): (t: State)
    requires cfg.Valid() && cfg.staged in s.disk.inodes
    ensures Steady(cfg, s, t) && t.h.foreignRemoved == s.h.foreignRemoved
    ensures CopiesSeen(s.disk, seen, t.h.copied)
    ensures t.point == Syncing(seen)
  {
    var d := s.disk;
    if seen.Some? && cfg.policy == PreserveExisting && seen.value in d.inodes then
      s.(disk := d.Store(cfg.staged, d.inodes[cfg.staged].data, d.inodes[seen.value].meta),
         point := Syncing(seen), h := s.h.(copied := Some(d.inodes[seen.value].meta)))
    else s.(point := Syncing(seen), h := s.h.(copied := None))
  }

  function SyncStaging(cfg: Config, s: State, seen: Option<Ino>): (t: State)
    requires cfg.Valid() && cfg.staged in s.disk.inodes
    ensures Steady(cfg, s, t) && t.h.foreignRemoved == s.h.foreignRemoved
    ensures t.h.copied == s.h.copied
    ensures t.point == Verifying(seen, cfg.StagingSync() != NotRequired)
  {
    if cfg.StagingSync() == NotRequired then s.(point := Verifying(seen, false))
    else s.(disk := s.disk.SyncFile(cfg.staged), point := Verifying(seen, true))
  }

  /** Verification passes exactly when the destination still names the observed inode. */
  function Verify(cfg: Config, s: State, seen: Option<Ino>, synced: bool): (t: State)
    requires cfg.Valid()
    ensures t.disk == s.disk && Steady(cfg, s, t) && t.h.foreignRemoved == s.h.foreignRemoved
    ensures t.h.copied == s.h.copied
    ensures Over(t.point) || t.point.Mismatched? || t.point == Installing(synced)
    ensures t.point.Installing? && seen.Some? ==> s.disk.Cur(cfg.Dest()) == seen
  {
    var cur := s.disk.Cur(cfg.Dest());
    if seen == None || cur == seen then
      s.(open := s.open && !cfg.Unix(), point := Installing(synced),
         h := s.h.(attempted := true))
    else if cfg.Unix() then s.(point := Mismatched)
    else if cur == None then EndFailed(cfg, s, Report(ReadDestinationMetadata, Unchanged))
    else EndFailed(cfg, s, Report(ReplaceDestination, Unchanged))
  }

  function ClassifyMismatch(cfg: Config, s: State): (t: State)
    requires cfg.Valid()
    ensures t.disk == s.disk && t.h == s.h
    ensures Over(t.point)
  {
    EndFailed(cfg, s,
      Report(ReplaceDestination, if s.disk.Cur(cfg.Dest()) == None then Missing else Unchanged))
  }

  function Install(cfg: Config, s: State, synced: bool): (t: Option<State>)
    requires cfg.Valid()
    ensures t.Some? ==> t.value.h.accepted == s.h.accepted && t.value.h.installs == s.h.installs + 1
    ensures t.Some? ==> Takes(cfg, s, t.value)
    ensures t.Some? ==> Ending(t.value.point)
    ensures t.Some? ==> CarriesFlag(Installing(synced), t.value.point)
  {
    if !RenameCanSucceed(cfg, s.disk) then None
    else Some(AfterInstalled(cfg, Installed(cfg, s, Rename(cfg, s.disk)), synced))
  }

  function LinkStaging(cfg: Config, s: State, synced: bool): (t: Option<State>)
    requires cfg.Valid()
    ensures t.Some? ==> t.value.h.accepted == s.h.accepted && t.value.h.foreignRemoved == s.h.foreignRemoved
    ensures t.Some? ==> t.value.h.installs == s.h.installs + 1
    ensures t.Some? ==> Takes(cfg, s, t.value)
    ensures t.Some? ==> t.value.point == Unlinking(synced, 0)
    ensures t.Some? ==> CarriesFlag(Installing(synced), t.value.point)
  {
    var d := s.disk;
    if cfg.Staging() !in d.names || cfg.Dest() in d.names then None
    else
      Some(Installed(cfg, s, d.Rebind(cfg.Dest(), d.Cur(cfg.Staging()))).(point := Unlinking(synced, 0)))
  }

  /** A staging name that is already gone counts as removed. */
  function UnlinkStaging(cfg: Config, s: State, synced: bool): (t: State)
    requires cfg.Valid()
    ensures Steady(cfg, s, t)
    ensures t.disk.inodes == s.disk.inodes
    ensures Ending(t.point)
    ensures t.h.copied == s.h.copied
    ensures CarriesFlag(Installing(synced), t.point)
  {
    AfterInstalled(cfg, if cfg.Staging() in s.disk.names then RemoveStaging(cfg, s) else s, synced)
  }

  /** The identity check that precedes removal. Windows checks and deletes through one handle, and
      leaves alone and forgets an entry that is not its own; a Host guard treats a name that is no
      regular file as gone, a Rooted one refuses it. */
  function CheckStaging(cfg: Config, s: State, why: Cleanup): (t: State)
    requires cfg.Valid()
    ensures Steady(cfg, s, t) && t.h.foreignRemoved == s.h.foreignRemoved
    ensures t.disk.inodes == s.disk.inodes
    ensures Ending(t.point) || t.point == Removing(why)
    ensures t.h.copied == s.h.copied
    ensures CarriesFlag(Checking(why), t.point)
    ensures t.point.Removing? ==> t.disk == s.disk && s.disk.Cur(cfg.Staging()) == Some(cfg.staged)
  {
    var d := s.disk;
    var cur := d.Cur(cfg.Staging());
    if cfg.platform == RootedWindows then
      CleanupDone(cfg, if cur == Some(cfg.staged) then RemoveStaging(cfg, s) else s, why)
    else if cfg.platform == RootedUnix && !cfg.identityKnown then CleanupFailed(cfg, s, why)
    else if cur == None then CleanupDone(cfg, s, why)
    else if cur.value !in d.inodes || d.inodes[cur.value].kind != Regular then
      if cfg.platform == Host then CleanupDone(cfg, s, why) else CleanupFailed(cfg, s, why)
    else if cfg.identityKnown && cur == Some(cfg.staged) then
      s.(point := Removing(why))
    else CleanupFailed(cfg, s, why)
  }

  function RemoveChecked(cfg: Config, s: State, why: Cleanup): (t: Option<State>)
    requires cfg.Valid()
    ensures t.Some? ==> Steady(cfg, s, t.value)
    ensures t.Some? ==> t.value.disk.inodes == s.disk.inodes
    ensures t.Some? ==> Ending(t.value.point)
    ensures t.Some? ==> t.value.h.copied == s.h.copied
    ensures t.Some? ==> CarriesFlag(Checking(why), t.value.point)
  {
    var d := s.disk;
    var cur := d.Cur(cfg.Staging());
    if cur == None || cur.value !in d.inodes || d.inodes[cur.value].kind == Directory then None
    else Some(CleanupDone(cfg, RemoveStaging(cfg, s), why))
  }

  /** One directory of the parent chain, the closest first. */
  function SyncParentStep(cfg: Config, s: State, at: nat, synced: bool, reason: SyncReason): (t: Option<State>)
    requires cfg.Valid()
    ensures t.Some? ==> Steady(cfg, s, t.value) && t.value.h.foreignRemoved == s.h.foreignRemoved
    ensures t.Some? ==> t.value.disk.inodes == s.disk.inodes
    ensures t.Some? ==> Ending(t.value.point)
    ensures t.Some? ==> t.value.h.copied == s.h.copied
    ensures t.Some? ==> CarriesFlag(Installing(synced), t.value.point)
  {
    if at >= |cfg.dirs| then None
    else
      var u := s.(disk := s.disk.SyncDir(cfg.dirs[at]));
      if at + cfg.created > |cfg.steps| && at > 0 then
        Some(u.(point := SyncingParents(at - 1, synced, reason)))
      else if reason == WhileFailing then
        Some(EndFailed(cfg, u, Failure(ReplaceDestination, Replaced, true, false)))
      else Some(EndCommitted(u, synced, synced))
  }

  /** Where a call that succeeds leads. */
  predicate MayFollow(p: Point, q: Point) {
    match p
    case Observing => Over(q) || q.Applying?
    case Applying(seen) => q == Syncing(seen)
    case Syncing(seen) => q.Verifying? && q.seen == seen
    case Verifying(_, synced) => Over(q) || q.Mismatched? || q == Installing(synced)
    case Mismatched => Over(q)
    case Linking(synced) => q == Unlinking(synced, 0)
    case Checking(why) => Ending(q) || q == Removing(why)
    case _ => Ending(q)
  }

  function SucceedStep(cfg: Config, s: State): (r: Option<State>)
    requires cfg.Valid() && cfg.staged in s.disk.inodes
    ensures r.Some? ==> MayFollow(s.point, r.value.point)
    ensures r.Some? ==> r.value.h.accepted == s.h.accepted
  {
    match s.point
    case Observing => Some(Observe(cfg, s))
    case Applying(seen) => Some(ApplyMetadata(cfg, s, seen))
    case Syncing(seen) => Some(SyncStaging(cfg, s, seen))
    case Verifying(seen, synced) => Some(Verify(cfg, s, seen, synced))
    case Mismatched => Some(ClassifyMismatch(cfg, s))
    case Installing(synced) => Install(cfg, s, synced)
    case Linking(synced) => LinkStaging(cfg, s, synced)
    case Unlinking(synced, _) => Some(UnlinkStaging(cfg, s, synced))
    case Checking(why) => Some(CheckStaging(cfg, s, why))
    case Removing(why) => RemoveChecked(cfg, s, why)
    case SyncingParents(at, synced, reason) => SyncParentStep(cfg, s, at, synced, reason)
    case _ => None
  }

  /** The pending native call fails; `midway` is the metadata a failed copy may leave on staging. */
  function FailStep(cfg: Config, s: State, midway: Option<nat>): (r: Option<State>)
    requires cfg.Valid() && cfg.staged in s.disk.inodes
    ensures r.Some? ==> Steady(cfg, s, r.value) && r.value.h == s.h
  {
    if midway.Some? && !s.point.Applying? then None
    else match s.point
      case Observing =>
        if cfg.regular then Some(EndFailed(cfg, s, Report(ReadDestinationMetadata, Unchanged))) else None
      case Applying(seen) =>
        if seen.Some? && cfg.policy == PreserveExisting then
          var t := if midway.None? then s
                   else s.(disk := s.disk.Store(cfg.staged, s.disk.inodes[cfg.staged].data, midway.value));
          Some(EndFailed(cfg, t, Report(ApplyDestinationMetadata, Unchanged)))
        else None
      case Syncing(seen) =>
        if cfg.StagingSync() == Required then Some(EndFailed(cfg, s, Report(SyncTemporaryFile, Unchanged)))
        else Some(s.(point := Verifying(seen, false)))
      case Verifying(seen, _) =>
        if seen == None then None
        else Some(EndFailed(cfg, s,
          Report(if cfg.Unix() then ReplaceDestination else ReadDestinationMetadata, Unchanged)))
      case Mismatched => Some(EndFailed(cfg, s, Report(ReplaceDestination, Unchanged)))
      case Installing(synced) => Some(InstallFailed(cfg, s, synced))
      case Linking(synced) => Some(InstallFailed(cfg, s, synced))
      case Unlinking(synced, failures) =>
        if failures == 0 then Some(s.(point := Unlinking(synced, 1)))
        else Some(s.(point := Checking(ForRecovery(synced, Replaced))))
      case Checking(why) => Some(CleanupFailed(cfg, s, why))
      case Removing(why) => Some(CleanupFailed(cfg, s, why))
      case SyncingParents(_, synced, reason) =>
        if reason == WhileFailing then
          Some(EndFailed(cfg, s, Failure(ReplaceDestination, Replaced, true, true)))
        else if cfg.durability == Preferred then Some(EndCommitted(s, false, synced))
        else Some(EndFailed(cfg, s, Report(SyncParent, Replaced)))
      case _ => None
  }

  predicate Allowed(cfg: Config, d: Disk, o: Outside)
    requires cfg.Valid()
  {
    match o
    case OBind(e, i) => i in d.inodes && i != cfg.staged && !Chained(cfg, e)
    case OUnbind(e) => !Chained(cfg, e)
    case OCreate(e, i, _) => i !in d.inodes && !Chained(cfg, e)
    case OStore(i, _, _) => i in d.inodes && i != cfg.staged
    case OFlushDir(_) => true
    case OFlushFile(i) => i in d.inodes
  }

  /** Executable form of `IsLink`. */
  predicate Chained(cfg: Config, e: Entry)
    requires cfg.Valid()
    ensures Chained(cfg, e) <==> cfg.IsLink(e)
  {
    exists i | 0 <= i < |cfg.steps| :: e == cfg.Link(i)
  }

  function Touch(cfg: Config, h: History, e: Entry): History
    requires cfg.Valid()
  {
    if e == cfg.Dest() then h.(destTouched := true, destWindow := true)
    else if e == cfg.Staging() then h.(stagingTouched := true)
    else h
  }

  function OutsideDisk(d: Disk, o: Outside): Disk {
    match o
    case OBind(e, i) => d.Rebind(e, Some(i))
    case OUnbind(e) => d.Rebind(e, None)
    case OCreate(e, i, node) => d.Create(e, i, node)
    case OStore(i, data, meta) => if i in d.inodes then d.Store(i, data, meta) else d
    case OFlushDir(dir) => d.SyncDir(dir)
    case OFlushFile(i) => if i in d.inodes then d.SyncFile(i) else d
  }

  function OutsideHistory(cfg: Config, h: History, o: Outside): (r: History)
    requires cfg.Valid()
    ensures r.accepted == h.accepted && r.foreignRemoved == h.foreignRemoved
  {
    if o.OBind? || o.OUnbind? || o.OCreate? then Touch(cfg, h, o.e) else h
  }

  function OutsideStep(cfg: Config, s: State, o: Outside): Option<State>
    requires cfg.Valid()
  {
    if Allowed(cfg, s.disk, o)
    then Some(s.(disk := OutsideDisk(s.disk, o), h := OutsideHistory(cfg, s.h, o)))
    else None
  }

  function Next(cfg: Config, s: State, a: Action): Option<State>
    requires cfg.Valid() && cfg.staged in s.disk.inodes
  {
    match a
    case Succeed => SucceedStep(cfg, s)
    case Fail => FailStep(cfg, s, None)
    case FailMidway(meta) => FailStep(cfg, s, Some(meta))
    case Unsupported =>
      // `renameat2` without no-replace support falls back to link and unlink.
      if s.point.Installing? && !cfg.existed && cfg.Unix()
      then Some(s.(point := Linking(s.point.synced))) else None
    case Other(step) => OutsideStep(cfg, s, step)
    case _ => CallerStep(cfg, s, a)
  }

  /** One transition. */
  ghost predicate Steps(cfg: Config, s: State, a: Action, t: State) {
    cfg.Valid() && cfg.staged in s.disk.inodes && Next(cfg, s, a) == Some(t)
  }

  ghost predicate StepAt(cfg: Config, states: seq<State>, run: seq<Action>, k: nat) {
    k < |run| && k + 1 < |states| && Steps(cfg, states[k], run[k], states[k + 1])
  }

  /** A whole interleaving: the states that the actions of `run` go through. */
  ghost predicate Trace(cfg: Config, states: seq<State>, run: seq<Action>) {
    |states| == |run| + 1 && forall k: nat :: k < |run| ==> StepAt(cfg, states, run, k)
  }
}
