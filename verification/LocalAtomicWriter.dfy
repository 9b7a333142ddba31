/** The Unix atomic writer as the program that runs: an object whose methods make native calls one
    after the other while other actors interleave. Every state it goes through belongs to a run of
    the protocol, so what holds of all runs holds of this object. */
module LocalAtomicWriter {
  import opened Wrappers
  import opened Disk
  import opened AtomicProtocol
  import opened AtomicInvariant
  import opened AtomicBegin
  import opened AtomicTheorems
  import opened AtomicHistory
  import opened AtomicProgress

  /** What a successful commit achieved. */
  datatype Synced = Synced(durable: bool, fileSynced: bool)

  class Writer {
    const cfg: Config
    var disk: Disk      // the file system the native calls act on
    var open: bool      // whether the staging handle is held
    var armed: bool     // whether the staging name is still to be cleaned up

    ghost var point: Point
    ghost var reply: Reply
    ghost var h: History
    ghost var wrote: seq<Byte>   // all bytes its owner has written
    ghost var calm: bool         // no native call reported an error and nobody interfered in this call
    ghost var commits: bool      // ... which is a commit
    ghost var from: State        // that began here

    ghost function Now(): State
      reads this
    {
      State(disk, open, armed, point, reply, h)
    }

    /** The object is in a state that some run of the protocol reaches. */
    ghost predicate Valid()
      reads this
    {
      && cfg.Unix() && Usable(cfg, Now()) && Reached(cfg, Now()) && h.accepted == wrote
      && (calm && commits ==> CalmlyReached(cfg, from, Now()))
    }

    /** An attempt is over before its installation: the owner has the writer back. */
    ghost predicate HandedBack(f: Failure)
      reads this
    {
      point.Idle? && open && armed && reply == Failed(f, true)
    }

    constructor (req: Request, d: Disk)
      requires Fits(req, d) && Creatable(req, d) && req.platform != RootedWindows
      ensures Valid() && Begin(req, d) == Ready(cfg, Now())
      ensures point.Idle? && open && armed && wrote == [] && AsAsked(req, cfg) && Knows(req, d, cfg)
    {
      BeginsExactly(req, d);
      var begun := Begin(req, d);
      cfg := begun.cfg;
      disk, open, armed := begun.state.disk, begun.state.open, begun.state.armed;
      point, reply, h, wrote := begun.state.point, begun.state.reply, begun.state.h, [];
      from, calm, commits := begun.state, false, false;
      BeginEstablishes(req, d);
      BeginKnows(req, d);
      IsUsable(begun.cfg, begun.state);
    }

    /** Records the action that the executable fields have just performed. */
    ghost method Follow(s: State, a: Action)
      requires cfg.Unix() && Usable(cfg, s) && Reached(cfg, s)
      requires if a.Write? then wrote == s.h.accepted + a.bytes else wrote == s.h.accepted
      requires calm && commits ==> CalmlyReached(cfg, from, s) && Calmly(cfg, s, a)
      requires Next(cfg, s, a).Some?
      requires Now() == Next(cfg, s, a).value.(point := s.point, reply := s.reply, h := s.h)
      modifies this`point, this`reply, this`h
      ensures Valid() && Now() == Next(cfg, s, a).value
    {
      var t := Next(cfg, s, a).value;
      Moves(cfg, s, a, t);
      FollowTo(s, a, t);
    }

    /** The same for a step that is known by its result. */
    ghost method FollowTo(s: State, a: Action, t: State)
      requires cfg.Unix() && Reached(cfg, s) && Trace(cfg, [s, t], [a])
      requires wrote == t.h.accepted
      requires calm && commits ==> CalmlyReached(cfg, from, s) && Calmly(cfg, s, a)
      requires Now() == t.(point := point, reply := reply, h := h)
      modifies this`point, this`reply, this`h
      ensures Valid() && Now() == t
    {
      point, reply, h := t.point, t.reply, t.h;
      assert Now() == t;
      Follows(cfg, from, calm && commits, s, a, t);
    }

    /** One step of another actor. */
    method Interfere(o: Outside)
      requires Valid() && Allowed(cfg, disk, o)
      modifies this`disk, this`point, this`reply, this`h, this`calm
      ensures Valid() && point == old(point) && reply == old(reply)
      ensures h.installs == old(h.installs) && (calm ==> old(calm) && disk == old(disk))
    {
      ghost var s := Now();
      disk, calm := OutsideDisk(disk, o), false;
      OutsideMoves(cfg, s, o);
      FollowTo(s, Other(o), s.(disk := disk, h := OutsideHistory(cfg, h, o)));
    }

    /** Any number of steps of other actors. */
    method Others()
      requires Valid()
      modifies this`disk, this`point, this`reply, this`h, this`calm
      ensures Valid() && point == old(point) && reply == old(reply)
      ensures h.installs == old(h.installs) && (calm ==> old(calm) && disk == old(disk))
    {
      var n: nat := *;
      while n > 0
        invariant Valid() && point == old(point) && reply == old(reply)
        invariant h.installs == old(h.installs) && (calm ==> old(calm) && disk == old(disk))
      {
        var o: Outside := *;
        if Allowed(cfg, disk, o) { Interfere(o); }
        n := n - 1;
      }
    }

    /** Whether the next native call reports an error of its own. */
    method NativeError() returns (failed: bool)
      requires Valid()
      modifies this`disk, this`point, this`reply, this`h, this`calm
      ensures Valid() && point == old(point) && reply == old(reply)
      ensures h.installs == old(h.installs) && (calm ==> old(calm) && disk == old(disk) && !failed)
    {
      Others();
      failed := *;
      if failed { calm := false; }
    }

    /** Appends to the private staging file. */
    method Write(bytes: seq<Byte>)
      requires Valid() && point.Idle? && open
      modifies this
      ensures Valid() && point.Idle? && open
      ensures wrote == old(wrote) + bytes && disk.inodes[cfg.staged].data == wrote
    {
      Others();
      calm := false;
      ghost var s := Now();
      var node := disk.inodes[cfg.staged];
      disk := disk.Store(cfg.staged, node.data + bytes, node.meta);
      wrote := wrote + bytes;
      Follow(s, AtomicProtocol.Write(bytes));
    }

    /** Observes the current regular destination, if there has to be one. */
    method OpenDestinationForCommit() returns (r: Result<Option<Ino>, Failure>)
      requires Valid() && point.Observing?
      modifies this`disk, this`point, this`reply, this`h, this`calm
      ensures Valid() && open && armed
      ensures r.Ok? ==> point == Applying(r.value) && r.value.Some? == cfg.regular
      ensures r.Err? ==> HandedBack(r.error) && r.error.stage == ReadDestinationMetadata
      ensures r.Err? && r.error.destination == Missing ==> cfg.Dest() !in disk.names
    {
      var failed := NativeError();
      ghost var s := Now();
      if !cfg.regular {
        r := Ok(None);
        Follow(s, Succeed);
      } else if failed {
        r := Err(Report(ReadDestinationMetadata, Unchanged));
        Follow(s, Fail);
      } else if cfg.Dest() !in disk.names {
        r := Err(Report(ReadDestinationMetadata, Missing));
        Follow(s, Succeed);
      } else if disk.inodes[disk.names[cfg.Dest()]].kind != Regular {
        r := Err(Report(ReadDestinationMetadata, Unchanged));
        Follow(s, Succeed);
      } else {
        r := Ok(Some(disk.names[cfg.Dest()]));
        Follow(s, Succeed);
      }
    }

    /** Copies strict metadata from an opened destination onto staging. */
    method ApplyDestinationMetadata(seen: Option<Ino>) returns (r: Result<(), Failure>)
      requires Valid() && point == Applying(seen)
      modifies this`disk, this`point, this`reply, this`h, this`calm
      ensures Valid() && open && armed
      ensures r.Ok? ==> point == Syncing(seen)
      ensures r.Ok? && seen.Some? && cfg.policy == PreserveExisting ==>
        disk.inodes[cfg.staged].meta == disk.inodes[seen.value].meta
      ensures r.Err? ==> HandedBack(r.error) && r.error == Report(Stage.ApplyDestinationMetadata, Unchanged)
    {
      var failed := NativeError();
      ghost var s := Now();
      if seen.None? || cfg.policy == UseStaging {
        Follow(s, Succeed);
        r := Ok(());
      } else if failed {
        FailMetadataCopy(seen);
        r := Err(Report(Stage.ApplyDestinationMetadata, Unchanged));
      } else {
        disk := disk.Store(cfg.staged, disk.inodes[cfg.staged].data, disk.inodes[seen.value].meta);
        Follow(s, Succeed);
        r := Ok(());
      }
    }

    /** A failing copy may leave any metadata on staging. */
    method FailMetadataCopy(seen: Option<Ino>)
      requires Valid() && point == Applying(seen) && seen.Some? && cfg.policy == PreserveExisting && !calm
      modifies this`disk, this`point, this`reply, this`h, this`calm
      ensures Valid() && HandedBack(Report(Stage.ApplyDestinationMetadata, Unchanged))
    {
      ghost var s := Now();
      var leftover: nat := *;
      disk := disk.Store(cfg.staged, disk.inodes[cfg.staged].data, leftover);
      Follow(s, FailMidway(leftover));
    }

    /** Synchronizes the staging file as the stronger of the two requests demands. */
    method SyncTemporaryFile(seen: Option<Ino>) returns (r: Result<bool, Failure>)
      requires Valid() && point == Syncing(seen)
      modifies this`disk, this`point, this`reply, this`h, this`calm
      ensures Valid() && open && armed
      ensures r.Ok? ==> point == Verifying(seen, r.value)
      ensures r.Ok? && r.value ==> cfg.StagingSync() != NotRequired && disk.inodes[cfg.staged].durable
      ensures r.Ok? && cfg.StagingSync() == Required ==> r.value
      ensures r.Err? ==> HandedBack(r.error) && r.error == Report(Stage.SyncTemporaryFile, Unchanged)
      ensures r.Err? ==> cfg.StagingSync() == Required
    {
      var failed := NativeError();
      ghost var s := Now();
      match cfg.StagingSync() {
        case NotRequired =>
          Follow(s, Succeed);
          r := Ok(false);
        case Preferred =>
          if failed {
            Follow(s, Fail);
          } else {
            disk := disk.SyncFile(cfg.staged);
            Follow(s, Succeed);
          }
          r := Ok(!failed);
        case Required =>
          if failed {
            Follow(s, Fail);
            r := Err(Report(Stage.SyncTemporaryFile, Unchanged));
          } else {
            disk := disk.SyncFile(cfg.staged);
            Follow(s, Succeed);
            r := Ok(true);
          }
      }
    }

    /** Rechecks that the destination still is what was observed; on success the staging handle is
        closed for installation. */
    method VerifyDestinationForCommit(seen: Option<Ino>, synced: bool) returns (r: Result<(), Failure>)
      requires Valid() && point == Verifying(seen, synced)
      modifies this`disk, this`open, this`point, this`reply, this`h, this`calm
      ensures Valid() && armed
      ensures r.Ok? ==> point == Installing(synced) && !open && (seen.Some? ==> disk.Cur(cfg.Dest()) == seen)
      ensures r.Err? ==> HandedBack(r.error) && r.error.stage == ReplaceDestination
      ensures r.Err? && r.error.destination == Missing ==> cfg.Dest() !in disk.names
    {
      var failed := NativeError();
      ghost var s := Now();
      if seen.None? || (!failed && disk.Cur(cfg.Dest()) == seen) {
        open := false;
        Follow(s, Succeed);
        return Ok(());
      }
      if failed {
        Follow(s, Fail);
        return Err(Report(ReplaceDestination, Unchanged));
      }
      Follow(s, Succeed);
      var f := ClassifyMismatch();
      return Err(f);
    }

    /** A second look decides whether the changed destination is gone. */
    method ClassifyMismatch() returns (f: Failure)
      requires Valid() && point.Mismatched?
      modifies this`disk, this`point, this`reply, this`h, this`calm
      ensures Valid() && HandedBack(f) && f.stage == ReplaceDestination
      ensures f.destination == Missing ==> cfg.Dest() !in disk.names
    {
      var failed := NativeError();
      ghost var s := Now();
      if failed {
        Follow(s, Fail);
        return Report(ReplaceDestination, Unchanged);
      }
      Follow(s, Succeed);
      return Report(ReplaceDestination, if cfg.Dest() in disk.names then Unchanged else Missing);
    }

    /** Removes the staging name if it still names the staged inode. */
    method Cleanup(ghost why: AtomicProtocol.Cleanup) returns (ok: bool)
      requires Valid() && point == Checking(why)
      modifies this`disk, this`open, this`armed, this`point, this`reply, this`h, this`calm
      ensures Valid()
      ensures ok ==> Now() == CleanupDone(cfg, Now().(reply := old(reply)), why)
      ensures ok ==> disk.Cur(cfg.Staging()) != Some(cfg.staged)
      ensures !ok ==> Now() == CleanupFailed(cfg, Now().(reply := old(reply), open := false, armed := true), why)
      ensures calm ==> old(calm) && ok == Removes(cfg, old(disk))
    {
      var failed := NativeError();
      if failed {
        ghost var s := Now();
        CheckMoves(cfg, s);
        CleanupSettles(cfg, s, why);
        FollowTo(s, Fail, CleanupFailed(cfg, s, why));
        return false;
      }
      ok := CheckAndRemove(why);
    }

    method CheckAndRemove(ghost why: AtomicProtocol.Cleanup) returns (ok: bool)
      requires Valid() && point == Checking(why)
      modifies this`disk, this`open, this`armed, this`point, this`reply, this`h, this`calm
      ensures Valid()
      ensures ok ==> Now() == CleanupDone(cfg, Now().(reply := old(reply)), why)
      ensures ok ==> disk.Cur(cfg.Staging()) != Some(cfg.staged)
      ensures !ok ==> Now() == CleanupFailed(cfg, Now().(reply := old(reply), open := false, armed := true), why)
      ensures calm ==> old(calm) && ok == Removes(cfg, old(disk))
    {
      ghost var s := Now();
      CheckMoves(cfg, s);
      CleanupSettles(cfg, s, why);
      var decided := CheckIdentity();
      if decided.None? {
        FollowTo(s, Succeed, s.(point := Removing(why)));
        ok := RemoveChecked(why);
      } else if decided.value {
        open, armed := false, false;
        FollowTo(s, Succeed, CleanupDone(cfg, s, why));
        ok := true;
      } else {
        FollowTo(s, Succeed, CleanupFailed(cfg, s, why));
        ok := false;
      }
    }

    /** What the identity check decides at once: already gone, refused, or (None) remove the name. */
    method CheckIdentity() returns (decided: Option<bool>)
      requires Valid() && point.Checking?
      ensures match decided
        case None =>
          && CheckStaging(cfg, Now(), point.why) == Now().(point := Removing(point.why))
          && Removable(cfg, disk)
        case Some(true) =>
          && CheckStaging(cfg, Now(), point.why) == CleanupDone(cfg, Now(), point.why)
          && disk.Cur(cfg.Staging()) != Some(cfg.staged)
        case Some(false) => CheckStaging(cfg, Now(), point.why) == CleanupFailed(cfg, Now(), point.why)
      ensures decided != Some(false) <==> Removes(cfg, disk)
    {
      if cfg.platform == RootedUnix && !cfg.identityKnown {
        return Some(false);
      }
      if cfg.Staging() !in disk.names {
        return Some(true);
      }
      var current := disk.names[cfg.Staging()];
      if disk.inodes[current].kind != Regular {
        return Some(cfg.platform == Host);
      }
      return if cfg.identityKnown && current == cfg.staged then None else Some(false);
    }

    method RemoveChecked(ghost why: AtomicProtocol.Cleanup) returns (ok: bool)
      requires Valid() && point == Removing(why)
      modifies this`disk, this`open, this`armed, this`point, this`reply, this`h, this`calm
      ensures Valid()
      ensures ok ==> Now() == CleanupDone(cfg, Now().(reply := old(reply)), why)
      ensures ok ==> disk.Cur(cfg.Staging()) != Some(cfg.staged)
      ensures !ok ==> Now() == CleanupFailed(cfg, Now().(reply := old(reply), open := false, armed := true), why)
      ensures calm ==> old(calm) && ok == old(Removable(cfg, disk))
    {
      var failed := NativeError();
      if failed || !Removable(cfg, disk) {
        ghost var s := Now();
        ghost var t := RemoveFails(cfg, s);
        CannotRemove(cfg, s);
        FollowTo(s, Fail, t);
        return false;
      }
      TakeAway(why);
      return true;
    }

    method TakeAway(ghost why: AtomicProtocol.Cleanup)
      requires Valid() && point == Removing(why) && Removable(cfg, disk)
      modifies this`disk, this`open, this`armed, this`point, this`reply, this`h
      ensures Valid() && Now() == CleanupDone(cfg, Now().(reply := old(reply)), why)
      ensures disk.Cur(cfg.Staging()) == None
    {
      ghost var s := Now();
      ghost var t := RemoveMoves(cfg, s);
      disk := disk.Rebind(cfg.Staging(), None);
      open, armed := false, false;
      FollowTo(s, Succeed, t);
    }

    /** Synchronizes the destination's directory and then the parent of every directory that was
        created for it, the closest first. */
    method SyncParentChain(ghost synced: bool, ghost reason: SyncReason) returns (ok: bool)
      requires Valid() && point == SyncingParents(|cfg.steps|, synced, reason)
      modifies this`disk, this`point, this`reply, this`h, this`calm
      ensures Valid() && !open
      ensures reply == ParentReply(cfg, ok, synced, reason)
      ensures point == if reason == WhileFailing then Checking(ForDrop) else Done
      ensures ok ==> SyncedBelow(cfg, Now(), |cfg.steps| - cfg.created - 1)
      ensures calm ==> old(calm) && ok
    {
      var at := |cfg.steps|;
      while true
        invariant Valid()
        invariant |cfg.steps| - cfg.created <= at <= |cfg.steps|
        invariant point == SyncingParents(at, synced, reason) && (calm ==> old(calm))
        decreases at
      {
        var ended := SyncOneParent(at, synced, reason);
        if ended.Some? {
          return ended.value;
        }
        at := at - 1;
      }
    }

    /** One directory of the chain; nothing if there are more to come, and otherwise how it ended. */
    method SyncOneParent(at: nat, ghost synced: bool, ghost reason: SyncReason) returns (ended: Option<bool>)
      requires Valid() && point == SyncingParents(at, synced, reason)
      requires |cfg.steps| - cfg.created <= at <= |cfg.steps|
      modifies this`disk, this`point, this`reply, this`h, this`calm
      ensures Valid() && !open
      ensures ended.None? ==> at + cfg.created > |cfg.steps| && point == SyncingParents(at - 1, synced, reason)
      ensures ended.Some? ==> reply == ParentReply(cfg, ended.value, synced, reason)
      ensures ended.Some? ==> point == if reason == WhileFailing then Checking(ForDrop) else Done
      ensures ended == Some(true) ==> SyncedBelow(cfg, Now(), |cfg.steps| - cfg.created - 1)
      ensures calm ==> old(calm) && ended != Some(false)
    {
      var failed := NativeError();
      if failed {
        ghost var s := Now();
        ParentSyncMoves(cfg, s);
        FollowTo(s, Fail, ParentsDone(cfg, s, false));
        return Some(false);
      }
      var last := FlushParent(at, synced, reason);
      return if last then Some(true) else None;
    }

    method FlushParent(at: nat, ghost synced: bool, ghost reason: SyncReason) returns (last: bool)
      requires Valid() && point == SyncingParents(at, synced, reason)
      requires |cfg.steps| - cfg.created <= at <= |cfg.steps|
      modifies this`disk, this`point, this`reply, this`h
      ensures Valid() && !open
      ensures !last ==> at + cfg.created > |cfg.steps| && point == SyncingParents(at - 1, synced, reason)
      ensures last ==> reply == ParentReply(cfg, true, synced, reason)
      ensures last ==> point == if reason == WhileFailing then Checking(ForDrop) else Done
      ensures last ==> SyncedBelow(cfg, Now(), |cfg.steps| - cfg.created - 1)
    {
      ghost var s := Now();
      ParentSyncMoves(cfg, s);
      disk := disk.SyncDir(cfg.dirs[at]);
      last := at + cfg.created == |cfg.steps|;
      if last {
        ChainIsSynced(cfg, s);
        FollowTo(s, Succeed, ParentsDone(cfg, s.(disk := disk), true));
      } else {
        FollowTo(s, Succeed, s.(disk := disk, point := SyncingParents(at - 1, synced, reason)));
      }
    }

    /** Installs staging, cleans up after a failed installation, and synchronizes the parent chain.
        The result says whether the namespace is durable. */
    method InstallAndSyncParent(synced: bool) returns (r: Result<bool, Failure>)
      requires Valid() && point == Installing(synced)
      modifies this`disk, this`open, this`armed, this`point, this`reply, this`h, this`calm
      ensures Valid() && !open
      ensures r.Ok? ==>
        point == Done && reply == Committed(cfg.durability != NotRequired && synced && r.value, synced)
      ensures r.Err? ==>
        reply == Failed(r.error, false) && point == if armed then Checking(ForDrop) else Done
      ensures calm ==> old(calm) && (r.Ok? <==> !Blocked(cfg, old(disk)))
    {
      var installed := InstallAtomicFile(synced);
      match installed
      case Ok(_) =>
        if cfg.durability == NotRequired {
          return Ok(false);
        }
        var ok := SyncParentChain(synced, AfterInstall);
        r := ParentOutcome(ok);
      case Err(f) =>
        r := RecoverInstallError(synced, f.destination);
    }

    /** A failed synchronization of the parent chain matters when durability is required. */
    function ParentOutcome(ok: bool): Result<bool, Failure> {
      if ok || cfg.durability == Preferred then Ok(ok)
      else Err(Report(SyncParent, Replaced))
    }

    /** Puts the staged file at the destination: over whatever is there if a destination existed,
        and otherwise without ever replacing an entry. */
    method InstallAtomicFile(synced: bool) returns (r: Result<(), Failure>)
      requires Valid() && point == Installing(synced)
      modifies this`disk, this`open, this`armed, this`point, this`reply, this`h, this`calm
      ensures Valid() && !open
      ensures r.Ok? ==> h.installs == old(h.installs) + 1
      ensures r.Ok? ==> Now() == AfterInstalled(cfg, Now().(reply := old(reply)), synced)
      ensures r.Err? ==> armed && reply == old(reply) && point == Checking(ForRecovery(synced, r.error.destination))
      ensures r.Err? ==> h.installs == old(h.installs) + if r.error.destination == Replaced then 1 else 0
      ensures r.Err? ==> r.error.destination != Missing
      ensures calm ==> old(calm) && (r.Ok? <==> !Blocked(cfg, old(disk)))
      ensures calm && r.Err? ==> r.error.destination == Unchanged
    {
      Others();
      var supported: bool := *;
      if !cfg.existed && !supported {
        FallBack(synced);
        r := LinkThenUnlink(synced);
      } else {
        r := RenameStaging(synced);
      }
    }

    /** The kernel cannot rename without replacing. */
    ghost method FallBack(synced: bool)
      requires Valid() && point == Installing(synced) && !cfg.existed
      modifies this`point, this`reply, this`h
      ensures Valid() && Now() == old(Now()).(point := Linking(synced))
    {
      Follow(Now(), Unsupported);
    }

    method RenameStaging(synced: bool) returns (r: Result<(), Failure>)
      requires Valid() && point == Installing(synced)
      modifies this`disk, this`open, this`armed, this`point, this`reply, this`h, this`calm
      ensures Valid() && !open
      ensures r.Ok? ==> h.installs == old(h.installs) + 1
      ensures r.Ok? ==> Now() == AfterInstalled(cfg, Now().(reply := old(reply)), synced)
      ensures r.Err? ==> r.error.destination == Unchanged && h.installs == old(h.installs)
      ensures r.Err? ==> armed && reply == old(reply) && point == Checking(ForRecovery(synced, Unchanged))
      ensures calm ==> old(calm) && (r.Ok? <==> !Blocked(cfg, old(disk)))
    {
      var failed := NativeError();
      ghost var s := Now();
      if failed || !RenameCanSucceed(cfg, disk) {
        InstallFails(cfg, s);
        CannotRename(cfg, s);
        FollowTo(s, Fail, s.(point := Checking(ForRecovery(synced, Unchanged))));
        return Err(Report(ReplaceDestination, Unchanged));
      }
      MoveStaging(synced);
      return Ok(());
    }

    method MoveStaging(ghost synced: bool)
      requires Valid() && point == Installing(synced) && RenameCanSucceed(cfg, disk)
      modifies this`disk, this`open, this`armed, this`point, this`reply, this`h
      ensures Valid() && !open && h.installs == old(h.installs) + 1
      ensures Now() == AfterInstalled(cfg, Now().(reply := old(reply)), synced)
    {
      ghost var s := Now();
      ghost var t := InstallMoves(cfg, s);
      disk := Rename(cfg, disk);
      open, armed := false, false;
      FollowTo(s, Succeed, t);
    }

    /** Publishes a second link at the destination, then removes the staging name in two tries. */
    method LinkThenUnlink(synced: bool) returns (r: Result<(), Failure>)
      requires Valid() && point == Linking(synced)
      modifies this`disk, this`open, this`armed, this`point, this`reply, this`h, this`calm
      ensures Valid() && !open
      ensures r.Ok? ==> h.installs == old(h.installs) + 1
      ensures r.Ok? ==> Now() == AfterInstalled(cfg, Now().(reply := old(reply)), synced)
      ensures r.Err? ==> armed && reply == old(reply) && point == Checking(ForRecovery(synced, r.error.destination))
      ensures r.Err? ==> h.installs == old(h.installs) + if r.error.destination == Replaced then 1 else 0
      ensures r.Err? ==> r.error.destination != Missing
      ensures calm ==> old(calm) && (r.Ok? <==> !Blocked(cfg, old(disk)))
      ensures calm && r.Err? ==> r.error.destination == Unchanged
    {
      var linked := LinkStagingName(synced);
      if !linked {
        return Err(Report(ReplaceDestination, Unchanged));
      }
      var tries := 0;
      while tries < 2
        invariant Valid() && tries <= 2 && armed && !open && reply == old(reply)
        invariant h.installs == old(h.installs) + 1
        invariant calm ==> old(calm) && tries == 0 && !Blocked(cfg, old(disk))
        invariant point == if tries < 2 then Unlinking(synced, tries) else Checking(ForRecovery(synced, Replaced))
      {
        var unlinked := UnlinkStagingName(synced, tries);
        if unlinked {
          return Ok(());
        }
        tries := tries + 1;
      }
      return Err(Report(ReplaceDestination, Replaced));
    }

    method LinkStagingName(synced: bool) returns (ok: bool)
      requires Valid() && point == Linking(synced)
      modifies this`disk, this`point, this`reply, this`h, this`calm
      ensures Valid() && reply == old(reply)
      ensures h.installs == old(h.installs) + if ok then 1 else 0
      ensures point == if ok then Unlinking(synced, 0) else Checking(ForRecovery(synced, Unchanged))
      ensures calm ==> old(calm) && (ok <==> !Blocked(cfg, old(disk)))
    {
      var failed := NativeError();
      if failed || cfg.Staging() !in disk.names || cfg.Dest() in disk.names {
        CannotLink(cfg, Now());
        Follow(Now(), Fail);
        return false;
      }
      PublishLink(synced);
      return true;
    }

    method PublishLink(ghost synced: bool)
      requires Valid() && point == Linking(synced) && cfg.Staging() in disk.names && cfg.Dest() !in disk.names
      modifies this`disk, this`point, this`reply, this`h
      ensures Valid() && reply == old(reply) && h.installs == old(h.installs) + 1 && point == Unlinking(synced, 0)
    {
      ghost var s := Now();
      disk := disk.Rebind(cfg.Dest(), disk.Cur(cfg.Staging()));
      Follow(s, Succeed);
    }

    method UnlinkStagingName(synced: bool, ghost tries: nat) returns (ok: bool)
      requires Valid() && point == Unlinking(synced, tries) && tries < 2
      modifies this`disk, this`open, this`armed, this`point, this`reply, this`h, this`calm
      ensures Valid() && h.installs == old(h.installs) && !open
      ensures ok ==> Now() == AfterInstalled(cfg, Now().(reply := old(reply)), synced)
      ensures !ok ==> armed && reply == old(reply)
      ensures !ok ==> point == if tries == 0 then Unlinking(synced, 1) else Checking(ForRecovery(synced, Replaced))
      ensures calm ==> old(calm) && ok
    {
      var failed := NativeError();
      if failed {
        ghost var s := Now();
        UnlinkMoves(cfg, s);
        FollowTo(s, Fail, UnlinkFailed(s));
        return false;
      }
      DropStagingName(synced);
      return true;
    }

    /** A staging name that is already gone counts as unlinked. */
    method DropStagingName(ghost synced: bool)
      requires Valid() && point.Unlinking? && point.synced == synced && point.failures < 2
      modifies this`disk, this`open, this`armed, this`point, this`reply, this`h
      ensures Valid() && h.installs == old(h.installs) && !open
      ensures Now() == AfterInstalled(cfg, Now().(reply := old(reply)), synced)
    {
      ghost var s := Now();
      UnlinkMoves(cfg, s);
      ghost var left := if cfg.Staging() in disk.names then AtomicProtocol.RemoveStaging(cfg, s) else s;
      if cfg.Staging() in disk.names { disk := disk.Rebind(cfg.Staging(), None); }
      open, armed := false, false;
      InstalledSettles(cfg, left, synced);
      FollowTo(s, Succeed, AfterInstalled(cfg, left, synced));
    }

    /** After a failed installation: staging is removed; if the destination was replaced all the same,
        the write counts as successful exactly when that worked. */
    method RecoverInstallError(synced: bool, destination: DestinationState) returns (r: Result<bool, Failure>)
      requires Valid() && point == Checking(ForRecovery(synced, destination)) && destination != Missing
      modifies this`disk, this`open, this`armed, this`point, this`reply, this`h, this`calm
      ensures Valid() && !open
      ensures r.Ok? ==>
        point == Done && reply == Committed(cfg.durability != NotRequired && synced && r.value, synced)
      ensures r.Err? ==>
        reply == Failed(r.error, false) && point == if armed then Checking(ForDrop) else Done
      ensures calm ==> old(calm)
      ensures destination == Unchanged ==> r.Err?
    {
      var cleaned := Cleanup(ForRecovery(synced, destination));
      if destination != Replaced {
        return Err(Failure(ReplaceDestination, destination, !cleaned, false));
      }
      if cfg.durability == NotRequired {
        return if cleaned then Ok(false)
               else Err(Failure(ReplaceDestination, Replaced, true, false));
      }
      var ok := SyncParentChain(synced, if cleaned then AfterRecovery else WhileFailing);
      return if cleaned then ParentOutcome(ok)
             else Err(Failure(ReplaceDestination, Replaced, true, !ok));
    }

    /** One attempt: observe, copy metadata, synchronize staging, verify, install, synchronize parents. */
    method CommitAttempt() returns (r: Result<Synced, Failure>)
      requires Valid() && point.Observing?
      modifies this`disk, this`open, this`armed, this`point, this`reply, this`h, this`calm
      ensures Valid()
      ensures r.Ok? ==> point == Done && !open && reply == Committed(r.value.durable, r.value.fileSynced)
      ensures r.Err? && open ==> HandedBack(r.error)
      ensures r.Err? && !open ==>
        reply == Failed(r.error, false) && point == if armed then Checking(ForDrop) else Done
    {
      var seen := OpenDestinationForCommit();
      if seen.Err? { return Err(seen.error); }
      var applied := ApplyDestinationMetadata(seen.value);
      if applied.Err? { return Err(applied.error); }
      var synced := SyncTemporaryFile(seen.value);
      if synced.Err? { return Err(synced.error); }
      var verified := VerifyDestinationForCommit(seen.value, synced.value);
      if verified.Err? { return Err(verified.error); }
      var parent := InstallAndSyncParent(synced.value);
      if parent.Err? { return Err(parent.error); }
      return Ok(Synced(cfg.durability != NotRequired && synced.value && parent.value, synced.value));
    }

    ghost method BeginAttempt()
      requires Valid() && point.Idle? && open
      modifies this`point, this`reply, this`h, this`calm, this`commits, this`from
      ensures Valid() && point.Observing? && calm && commits && from == old(Now())
    {
      calm := false;
      Follow(Now(), Commit);
      from, calm, commits := old(Now()), true, true;
      CalmlyBegun(cfg, from);
    }

    /** Commits once. On failure the owner gets the writer back exactly when the staging handle is
        still open, with the destination untouched by it and all accepted bytes still staged;
        otherwise the writer is dropped. Success means that what the staging name named
        was published, which is the file with the accepted bytes unless someone had rebound that name. */
    method CommitRecoverable() returns (r: Result<Synced, Failure>, retained: bool)
      requires Valid() && point.Idle? && open
      modifies this`disk, this`open, this`armed, this`point, this`reply, this`h, this`calm, this`commits, this`from
      ensures Valid() && disk.inodes[cfg.staged].data == wrote
      ensures retained <==> r.Err? && open
      ensures retained ==> point.Idle? && armed && h.installs == 0 && reply == Failed(r.error, true)
      ensures !retained ==> point == Done && !open
      ensures r.Err? ==> (r.error.destination == Replaced <==> h.installs == 1)
      ensures r.Ok? ==> h.installs == 1 && !armed && reply == Committed(r.value.durable, r.value.fileSynced)
      ensures r.Ok? ==> (h.published == Some(cfg.staged) <==> !h.stolen)
      ensures r.Err? && !retained && armed ==> r.error.cleanupFailed
      ensures r.Ok? && cfg.durability == Required ==> r.value.durable
      ensures r.Ok? && r.value.durable ==> disk.inodes[cfg.staged].durable && cfg.durability != NotRequired
      ensures calm ==>
        if Committable(cfg, old(disk)) then
          && r.Ok? && Committed(r.value.durable, r.value.fileSynced) == Achieved(cfg)
          && disk.Cur(cfg.Dest()) == old(disk.Cur(cfg.Staging()))
        else r.Err? && Refusal(cfg, old(disk), reply)
    {
      BeginAttempt();
      r := CommitAttempt();
      retained := r.Err? && open;
      if r.Err? && !open && armed {
        var _ := Cleanup(ForDrop);
      }
      Told(cfg, Now());
      if calm { EndsCalmly(cfg, old(Now()), Now()); }
    }

    /** Removes staging without touching the destination; after a failure the owner may try again. A
        Rooted writer may be aborted again after that, a Host writer has no staging path left to name. */
    method Abort() returns (ok: bool)
      requires Valid() && point.Idle? && (armed || cfg.platform != Host)
      modifies this`disk, this`open, this`armed, this`point, this`reply, this`h, this`calm, this`commits
      ensures Valid() && point.Idle? && !open && h.installs == 0
      ensures ok ==> !armed && reply == Aborted && (old(armed) ==> disk.Cur(cfg.Staging()) != Some(cfg.staged))
      ensures !ok ==> armed && reply == AbortFailed
      ensures !old(armed) ==> ok && disk == old(disk)
      ensures calm && old(armed) ==> ok == Removes(cfg, old(disk))
    {
      open, calm, commits := false, true, false;
      Follow(Now().(open := old(open)), AtomicProtocol.Abort);
      ok := true;
      if armed { ok := Cleanup(ForAbort); }
      Told(cfg, Now());
    }

    /** What dropping the writer does: one silent attempt to remove what it still owns. */
    method Drop()
      requires Valid() && point.Idle?
      modifies this`disk, this`open, this`armed, this`point, this`reply, this`h, this`calm, this`commits
      ensures Valid() && point == Done && !open && h.installs == 0
      ensures calm && old(armed) && Removes(cfg, old(disk)) ==> !armed && disk.Cur(cfg.Staging()) != Some(cfg.staged)
    {
      open, calm, commits := false, true, false;
      Follow(Now().(open := old(open)), AtomicProtocol.Drop);
      if armed { var _ := Cleanup(ForDrop); }
      Told(cfg, Now());
    }
  }

  /** Creates a writer, or says at which stage the request was refused. */
  method NewWriter(req: Request, d: Disk) returns (r: Result<Writer, Stage>)
    requires Fits(req, d) && req.platform != RootedWindows
    ensures r.Ok? <==> Creatable(req, d)
    ensures r.Ok? ==> fresh(r.value) && r.value.Valid() && Begin(req, d) == Ready(r.value.cfg, r.value.Now())
    ensures r.Ok? ==> AsAsked(req, r.value.cfg) && Knows(req, d, r.value.cfg)
    ensures r.Err? ==> r.error == if ParentsPrepare(req, d) then InspectDestination else PrepareParent
  {
    BeginsExactly(req, d);
    var begun := Begin(req, d);
    if begun.Refused? {
      return Err(begun.stage);
    }
    var writer := new Writer(req, d);
    return Ok(writer);
  }

  /** What is true when control is back with the owner. */
  lemma Told(cfg: Config, s: State)
    requires Reached(cfg, s) && cfg.Unix() && (s.point.Idle? || s.point.Done?)
    ensures cfg.staged in s.disk.inodes && s.disk.inodes[cfg.staged].data == s.h.accepted
    ensures s.point.Idle? ==> s.h.installs == 0
    ensures !s.reply.Committed? && !s.reply.Failed? ==> s.h.installs == 0
    ensures s.reply.Failed? ==> (s.reply.failure.destination == Replaced <==> s.h.installs == 1)
    ensures s.reply.Failed? && !s.reply.retained ==> !s.open
    ensures s.reply.Committed? ==> s.h.installs == 1 && !s.armed
    ensures s.h.installs == 1 ==> (s.h.published == Some(cfg.staged) <==> !s.h.stolen)
    ensures s.reply.Failed? && !s.reply.retained && s.armed ==> s.reply.failure.cleanupFailed
    ensures s.reply.Committed? && cfg.durability == Required ==> s.reply.durable
    ensures s.reply.Committed? && s.reply.durable ==>
      s.disk.inodes[cfg.staged].durable && cfg.durability != NotRequired
  {
    ReachedIsReachable(cfg, s);
    ReachableInv(cfg, s);
  }

  /** What the program relies on at each point: which handles are held, what was observed. */
  ghost predicate Usable(cfg: Config, s: State) {
    && cfg.Valid() && cfg.staged in s.disk.inodes && s.disk.inodes[cfg.staged].kind == Regular
    && (forall e :: e in s.disk.names ==> s.disk.names[e] in s.disk.inodes)
    && (BeforeInstall(s.point) ==> s.open && s.armed)
    && (s.point.Applying? || s.point.Syncing? || s.point.Verifying? ==>
          s.point.seen.Some? == cfg.regular && (s.point.seen.Some? ==> s.point.seen.value in s.disk.inodes))
    && (s.point.Installing? || s.point.Linking? || s.point.Unlinking? || s.point.Checking? || s.point.Removing? ==>
          s.armed && (cfg.Unix() ==> !s.open))
    && (s.point.SyncingParents? ==>
          !s.open && s.armed == (s.point.reason == WhileFailing) && cfg.durability != NotRequired)
    && (s.point.Linking? ==> !cfg.existed)
    && (s.point.Idle? && s.open ==> s.armed && s.disk.inodes[cfg.staged].data == s.h.accepted)
  }

  lemma IsUsable(cfg: Config, s: State)
    requires Inv(cfg, s)
    ensures Usable(cfg, s)
  {}

  /** The set holds every fresh writer, and no step leaves it. */
  ghost predicate Upheld(cfg: Config, p: iset<State>) {
    && (forall req, d :: Fits(req, d) && Begin(req, d).Ready? && Begin(req, d).cfg == cfg ==> Begin(req, d).state in p)
    && (forall s, a, t :: s in p && Steps(cfg, s, a, t) ==> t in p)
  }

  /** Reachability, as membership in every such set. */
  ghost predicate Reached(cfg: Config, s: State) {
    forall p: iset<State> :: Upheld(cfg, p) ==> s in p
  }

  /** So all that is proved of the states of runs holds of the writer object. */
  lemma ReachedIsReachable(cfg: Config, s: State)
    requires Reached(cfg, s)
    ensures Reachable(cfg, s)
  {
    var p := iset s | Reachable(cfg, s);
    assert Upheld(cfg, p) by {
      forall req, d | Fits(req, d) && Begin(req, d).Ready? && Begin(req, d).cfg == cfg
        ensures Begin(req, d).state in p
      {
        ReachableStart(req, d);
      }
      forall s, a, t | s in p && Steps(cfg, s, a, t) ensures t in p { StaysReachable(cfg, s, a, t); }
    }
  }

  lemma Moves(cfg: Config, s: State, a: Action, t: State)
    requires Steps(cfg, s, a, t)
    ensures Trace(cfg, [s, t], [a])
    ensures t.h.accepted == s.h.accepted + BytesOf(a)
  {
    assert StepAt(cfg, [s, t], [a], 0);
    StepAccepts(cfg, s, a, t);
  }

  lemma OutsideMoves(cfg: Config, s: State, o: Outside)
    requires cfg.Valid() && cfg.staged in s.disk.inodes && Allowed(cfg, s.disk, o)
    ensures Trace(cfg, [s, s.(disk := OutsideDisk(s.disk, o), h := OutsideHistory(cfg, s.h, o))], [Other(o)])
    ensures OutsideHistory(cfg, s.h, o).installs == s.h.installs
  {
    var t := s.(disk := OutsideDisk(s.disk, o), h := OutsideHistory(cfg, s.h, o));
    assert StepAt(cfg, [s, t], [Other(o)], 0);
    OutsideTouches(cfg, s.h, o);
  }

  lemma InstallFails(cfg: Config, s: State)
    requires cfg.Valid() && cfg.Unix() && cfg.staged in s.disk.inodes && s.point.Installing?
    ensures Trace(cfg, [s, s.(point := Checking(ForRecovery(s.point.synced, Unchanged)))], [Fail])
  {
    Moves(cfg, s, Fail, InstallFailed(cfg, s, s.point.synced));
  }

  lemma InstallMoves(cfg: Config, s: State) returns (t: State)
    requires cfg.Valid() && cfg.staged in s.disk.inodes && s.point.Installing? && RenameCanSucceed(cfg, s.disk)
    ensures Trace(cfg, [s, t], [Succeed])
    ensures t.disk == Rename(cfg, s.disk) && !t.open && !t.armed
    ensures t.h.accepted == s.h.accepted && t.h.installs == s.h.installs + 1
    ensures t == AfterInstalled(cfg, t.(reply := s.reply), s.point.synced)
  {
    var u := Installed(cfg, s, Rename(cfg, s.disk));
    t := AfterInstalled(cfg, u, s.point.synced);
    Moves(cfg, s, Succeed, t);
    InstalledSettles(cfg, u, s.point.synced);
  }

  /** What the owner hears after the parent chain of an installed file was synchronized or not. */
  ghost function ParentReply(cfg: Config, ok: bool, synced: bool, reason: SyncReason): Reply {
    if reason == WhileFailing then Failed(Failure(ReplaceDestination, Replaced, true, !ok), false)
    else if ok then Committed(synced, synced)
    else if cfg.durability == Preferred then Committed(false, synced)
    else Failed(Report(SyncParent, Replaced), false)
  }

  ghost function ParentsDone(cfg: Config, s: State, ok: bool): State
    requires s.point.SyncingParents?
  {
    s.(point := if s.point.reason == WhileFailing then Checking(ForDrop) else Done,
       reply := ParentReply(cfg, ok, s.point.synced, s.point.reason))
  }

  lemma ParentSyncMoves(cfg: Config, s: State)
    requires Usable(cfg, s) && cfg.Unix() && s.point.SyncingParents?
    requires |cfg.steps| - cfg.created <= s.point.at <= |cfg.steps|
    ensures Trace(cfg, [s, ParentsDone(cfg, s, false)], [Fail])
    ensures
      var u := s.(disk := s.disk.SyncDir(cfg.dirs[s.point.at]));
      if s.point.at + cfg.created == |cfg.steps| then Trace(cfg, [s, ParentsDone(cfg, u, true)], [Succeed])
      else Trace(cfg, [s, u.(point := SyncingParents(s.point.at - 1, s.point.synced, s.point.reason))], [Succeed])
  {
    Moves(cfg, s, Fail, ParentsDone(cfg, s, false));
    var u := s.(disk := s.disk.SyncDir(cfg.dirs[s.point.at]));
    if s.point.at + cfg.created == |cfg.steps| {
      Moves(cfg, s, Succeed, ParentsDone(cfg, u, true));
    } else {
      Moves(cfg, s, Succeed, u.(point := SyncingParents(s.point.at - 1, s.point.synced, s.point.reason)));
    }
  }

  lemma ChainIsSynced(cfg: Config, s: State)
    requires Reached(cfg, s) && s.point.SyncingParents? && s.point.at + cfg.created == |cfg.steps|
    ensures cfg.Valid()
    ensures var t := s.(disk := s.disk.SyncDir(cfg.dirs[s.point.at]));
      SyncedBelow(cfg, t, s.point.at - 1)
  {
    ReachedIsReachable(cfg, s);
    ReachableInv(cfg, s);
    SyncedOneMore(cfg, s);
  }

  /** An end of a stage is reached once and for all. */
  lemma InstalledSettles(cfg: Config, s: State, synced: bool)
    ensures var t := AfterInstalled(cfg, s, synced); t == AfterInstalled(cfg, t.(reply := s.reply), synced) && !t.open
  {}

  lemma CleanupSettles(cfg: Config, s: State, why: AtomicProtocol.Cleanup)
    requires cfg.Unix() && !s.open && s.armed
    ensures var t := CleanupDone(cfg, s, why); t == CleanupDone(cfg, t.(reply := s.reply), why)
    ensures var t := CleanupFailed(cfg, s, why);
      t == CleanupFailed(cfg, t.(reply := s.reply, open := false, armed := true), why)
  {}

  lemma UnlinkMoves(cfg: Config, s: State)
    requires cfg.Valid() && cfg.staged in s.disk.inodes && s.point.Unlinking? && s.point.failures < 2
    ensures Trace(cfg, [s, UnlinkStaging(cfg, s, s.point.synced)], [Succeed])
    ensures Trace(cfg, [s, UnlinkFailed(s)], [Fail])
  {
    Moves(cfg, s, Succeed, UnlinkStaging(cfg, s, s.point.synced));
    Moves(cfg, s, Fail, UnlinkFailed(s));
  }

  ghost function UnlinkFailed(s: State): State
    requires s.point.Unlinking?
  {
    s.(point := if s.point.failures == 0 then Unlinking(s.point.synced, 1)
                else Checking(ForRecovery(s.point.synced, Replaced)))
  }

  lemma RemoveFails(cfg: Config, s: State) returns (t: State)
    requires cfg.Valid() && cfg.Unix() && cfg.staged in s.disk.inodes && s.point.Removing? && !s.open && s.armed
    ensures Trace(cfg, [s, t], [Fail]) && t.disk == s.disk && t.h == s.h && !t.open && t.armed
    ensures t == CleanupFailed(cfg, t.(reply := s.reply, open := false, armed := true), s.point.why)
  {
    t := CleanupFailed(cfg, s, s.point.why);
    Moves(cfg, s, Fail, t);
    CleanupSettles(cfg, s, s.point.why);
  }

  lemma RemoveMoves(cfg: Config, s: State) returns (t: State)
    requires cfg.Valid() && cfg.Unix() && cfg.staged in s.disk.inodes && s.point.Removing? && !s.open && s.armed
    requires Removable(cfg, s.disk)
    ensures Trace(cfg, [s, t], [Succeed])
    ensures t.disk == s.disk.Rebind(cfg.Staging(), None) && !t.open && !t.armed && t.h.accepted == s.h.accepted
    ensures t == CleanupDone(cfg, t.(reply := s.reply), s.point.why)
  {
    var u := AtomicProtocol.RemoveStaging(cfg, s);
    t := CleanupDone(cfg, u, s.point.why);
    Moves(cfg, s, Succeed, t);
    CleanupSettles(cfg, u, s.point.why);
  }

  predicate Removable(cfg: Config, d: Disk)
    requires cfg.Valid()
  {
    && cfg.Staging() in d.names && d.names[cfg.Staging()] in d.inodes
    && d.inodes[d.names[cfg.Staging()]].kind != Directory
  }

  lemma CheckMoves(cfg: Config, s: State)
    requires cfg.Valid() && cfg.staged in s.disk.inodes && s.point.Checking?
    ensures Trace(cfg, [s, CleanupFailed(cfg, s, s.point.why)], [Fail])
    ensures Trace(cfg, [s, CheckStaging(cfg, s, s.point.why)], [Succeed])
  {
    Moves(cfg, s, Fail, CleanupFailed(cfg, s, s.point.why));
    Moves(cfg, s, Succeed, CheckStaging(cfg, s, s.point.why));
  }

  /** `s` is a state that the attempt begun in `b` can be in while nothing has disturbed it. */
  ghost predicate CalmlyReached(cfg: Config, b: State, s: State) {
    forall p: iset<State> :: CalmlyUpheld(cfg, b, p) ==> s in p
  }

  ghost predicate CalmlyUpheld(cfg: Config, b: State, p: iset<State>) {
    StartAttempt(cfg, b) in p && forall s, a, t :: s in p && CalmStep(cfg, s, a, t) ==> t in p
  }

  lemma CalmlyBegun(cfg: Config, b: State)
    ensures CalmlyReached(cfg, b, StartAttempt(cfg, b))
  {}

  lemma FollowsCalmly(cfg: Config, b: State, s: State, a: Action, t: State)
    requires CalmlyReached(cfg, b, s) && Trace(cfg, [s, t], [a]) && Calmly(cfg, s, a)
    ensures CalmlyReached(cfg, b, t)
  {
    assert StepAt(cfg, [s, t], [a], 0);
    assert CalmStep(cfg, s, a, t);
  }

  /** So what was proved of undisturbed attempts holds of the writer object. */
  lemma EndsCalmly(cfg: Config, b: State, s: State)
    requires Reached(cfg, b) && b.point.Idle? && b.open && b.armed && CalmlyReached(cfg, b, s)
    requires s.point.Idle? || s.point.Done?
    ensures cfg.Valid()
    ensures if Committable(cfg, b.disk) then s.point.Done? && s.reply == Achieved(cfg) && IsPublished(cfg, b.disk, s)
            else Refusal(cfg, b.disk, s.reply)
  {
    assert Waiting(cfg, b) by { ReachedIsReachable(cfg, b); ReachableInv(cfg, b); }
    assert OnTheWay(cfg, b, s) by {
      WaysAreUpheld(cfg, b);
      assert s in Ways(cfg, b);
    }
    WayEnds(cfg, b, s);
  }

  lemma WayEnds(cfg: Config, b: State, s: State)
    requires cfg.Valid() && OnTheWay(cfg, b, s) && (s.point.Idle? || s.point.Done?)
    ensures if Committable(cfg, b.disk) then s.point.Done? && s.reply == Achieved(cfg) && IsPublished(cfg, b.disk, s)
            else Refusal(cfg, b.disk, s.reply)
  {}

  ghost function Ways(cfg: Config, b: State): iset<State>
    requires cfg.Valid()
  {
    iset t | Undisturbed(cfg, b, t) && OnTheWay(cfg, b, t)
  }

  lemma WaysAreUpheld(cfg: Config, b: State)
    requires Waiting(cfg, b) && b.armed
    ensures CalmlyUpheld(cfg, b, Ways(cfg, b))
  {
    CommitStarts(cfg, b);
    forall s, a, t | s in Ways(cfg, b) && CalmStep(cfg, s, a, t) ensures t in Ways(cfg, b) {
      StaysUndisturbed(cfg, b, s, a, t);
    }
  }

  lemma CannotRename(cfg: Config, s: State)
    requires cfg.Valid() && cfg.staged in s.disk.inodes && s.point.Installing?
    ensures !RenameCanSucceed(cfg, s.disk) ==> Calmly(cfg, s, Fail)
  {}

  lemma CannotLink(cfg: Config, s: State)
    requires cfg.Valid() && cfg.staged in s.disk.inodes && s.point.Linking?
    ensures cfg.Staging() !in s.disk.names || cfg.Dest() in s.disk.names ==> Calmly(cfg, s, Fail)
  {}

  lemma CannotRemove(cfg: Config, s: State)
    requires cfg.Valid() && cfg.staged in s.disk.inodes && s.point.Removing?
    ensures !Removable(cfg, s.disk) ==> Calmly(cfg, s, Fail)
  {}

  lemma ReachedStep(cfg: Config, s: State, a: Action, t: State)
    requires Reached(cfg, s) && Steps(cfg, s, a, t)
    ensures Reached(cfg, t)
  {}

  lemma Follows(cfg: Config, b: State, calmly: bool, s: State, a: Action, t: State)
    requires Reached(cfg, s) && Trace(cfg, [s, t], [a])
    requires calmly ==> CalmlyReached(cfg, b, s) && Calmly(cfg, s, a)
    ensures Reached(cfg, t) && Usable(cfg, t)
    ensures calmly ==> CalmlyReached(cfg, b, t)
  {
    IsReachedNext(cfg, s, a, t);
    if calmly { FollowsCalmly(cfg, b, s, a, t); }
  }

  lemma IsReachedNext(cfg: Config, s: State, a: Action, t: State)
    requires Reached(cfg, s) && Trace(cfg, [s, t], [a])
    ensures Reached(cfg, t) && Usable(cfg, t)
  {
    assert StepAt(cfg, [s, t], [a], 0);
    ReachedStep(cfg, s, a, t);
    ReachedIsReachable(cfg, t);
    ReachableInv(cfg, t);
    IsUsable(cfg, t);
  }
}
