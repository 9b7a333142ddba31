/** The inductive invariant of the publication protocol, and its preservation by every action. */
module AtomicInvariant {
  import opened Wrappers
  import opened Disk
  import opened AtomicProtocol

  /** Whether an attempt is under way and has not yet tried to install. */
  predicate BeforeInstall(p: Point) {
    p.Observing? || p.Applying? || p.Syncing? || p.Verifying? || p.Mismatched?
  }

  /** Which handles are held at which point, and how often the installation took effect. */
  ghost predicate Shape(cfg: Config, s: State) {
    && s.h.installs <= 1
    && (s.open ==> s.armed)
    && (s.point.Idle? ==> s.h.installs == 0)
    && (BeforeInstall(s.point) || s.point.Installing? ==> cfg.Unix() || cfg.durability != Required)
    && (BeforeInstall(s.point) ==> s.open && s.armed && s.h.installs == 0 && s.reply == NoReply)
    && (s.point.Installing? ==> s.armed && s.open == !cfg.Unix() && s.h.installs == 0 && s.reply == NoReply)
    && (s.point.Linking? ==>
          s.armed && !s.open && cfg.Unix() && !cfg.existed && s.h.installs == 0 && s.reply == NoReply)
    && (s.point.Unlinking? ==>
          s.armed && !s.open && cfg.Unix() && !cfg.existed && s.h.installs == 1 && s.reply == NoReply
          && s.point.failures <= 1)
    && (s.point.Checking? || s.point.Removing? ==>
          && s.armed
          && (cfg.Unix() ==> !s.open)
          && match s.point.why
             case ForAbort => s.h.installs == 0 && s.reply == NoReply
             case ForDrop => s.reply.Failed? ==> s.reply.failure.destination != Missing
             case ForFinalize(f) =>
               s.h.installs == 0 && f.destination == Unchanged && s.reply == NoReply && s.h.finalized
             case ForRecovery(_, destination) =>
               cfg.Unix() && s.reply == NoReply && destination != Missing
               && s.h.installs == (if destination == Replaced then 1 else 0))
    && (s.point.Removing? ==> cfg.Unix())
    && (s.point.SyncingParents? ==>
          && cfg.Unix() && !s.open && s.h.installs == 1 && s.reply == NoReply
          && cfg.durability != NotRequired
          && |cfg.steps| - cfg.created <= s.point.at <= |cfg.steps|
          && s.armed == (s.point.reason == WhileFailing))
    && (Abandoned(s) ==> !s.armed)
    && (cfg.Unix() && s.open ==> !s.h.attempted)
    && (s.point.Installing? || s.point.Linking? ==> s.h.attempted)
    && ((s.point.Checking? || s.point.Removing?) && s.point.why.ForRecovery? ==> s.h.attempted)
    && (s.h.installs == 1 ==> s.h.attempted)
    && (s.h.installs == 1 ==>
          s.point.Unlinking? || s.point.Checking? || s.point.Removing? || s.point.SyncingParents? || s.point.Done?)
  }

  /** What each reply says is true. */
  ghost predicate Truthful(cfg: Config, s: State) {
    && (s.reply.Committed? ==>
          && s.h.installs == 1 && !s.armed && s.point == Done
          && (s.reply.durable ==> cfg.Unix() && cfg.durability != NotRequired && s.reply.fileSynced)
          && (cfg.durability == Required ==> s.reply.durable)
          && (cfg.StagingSync() == Required ==> s.reply.fileSynced))
    && (s.reply.Failed? ==>
          && s.h.installs == (if s.reply.failure.destination == Replaced then 1 else 0)
          && (!cfg.Unix() ==> s.reply.failure.destination == Unchanged)
          && (s.reply.retained <==> s.point.Idle?)
          && (s.reply.retained ==> s.open && s.armed)
          && (!s.reply.retained ==>
                && (cfg.Unix() ==> !s.open)
                && (s.h.attempted || s.h.finalized)
                && (s.armed ==> s.reply.failure.cleanupFailed)
                && (s.point.Done? || s.point == Checking(ForDrop) || s.point == Removing(ForDrop))))
    && (s.point.Done? && !s.reply.Committed? && !s.reply.Failed? ==> s.h.installs == 0)
    && (s.point == Checking(ForDrop) || s.point == Removing(ForDrop) ==>
          s.h.installs == 0 || s.reply.Failed?)
    && (s.point.Idle? ==> !s.reply.Committed?)
    && (s.point.Done? || s.point == Checking(ForDrop) || s.point == Removing(ForDrop) ==>
          !s.reply.Aborted? && !s.reply.AbortFailed?)
  }

  /** The staging inode carries the accepted bytes, and is on stable storage where that is claimed. */
  ghost predicate Contents(cfg: Config, s: State) {
    && cfg.staged in s.disk.inodes
    && s.disk.inodes[cfg.staged].kind == Regular
    && s.disk.inodes[cfg.staged].data == s.h.accepted
    && (PastSync(s.point) ==> (s.point.synced ==> s.disk.inodes[cfg.staged].durable))
    && (PastSync(s.point) ==> (cfg.StagingSync() == Required ==> s.point.synced))
    && ((s.point.Checking? || s.point.Removing?) && s.point.why.ForRecovery? ==>
          && (s.point.why.synced ==> s.disk.inodes[cfg.staged].durable)
          && (cfg.StagingSync() == Required ==> s.point.why.synced))
    && (s.h.installs == 1 && cfg.StagingSync() == Required ==> s.disk.inodes[cfg.staged].durable)
    && (s.reply.Committed? && s.reply.fileSynced ==> s.disk.inodes[cfg.staged].durable)
    && (s.h.copied.Some? && !s.point.Idle? && s.h.installs == 1 ==>
          s.disk.inodes[cfg.staged].meta == s.h.copied.value)
    && (s.h.copied.Some? && (PastSync(s.point) || s.point.Syncing?) ==>
          s.disk.inodes[cfg.staged].meta == s.h.copied.value)
    && (s.point.Observing? || s.point.Applying? ==> s.h.copied == None)
    && (cfg.regular && cfg.policy == PreserveExisting ==>
          (PastSync(s.point) || s.point.Syncing? || s.h.installs == 1 ==> s.h.copied.Some?))
  }

  /** Which names the staging inode may appear under, now or after a crash. */
  ghost predicate Names(cfg: Config, s: State)
    requires cfg.Valid()
  {
    && (forall e :: Some(cfg.staged) in s.disk.Held(e) ==>
          e == cfg.Staging() || (e == cfg.Dest() && s.h.installs == 1))
    && (!s.h.stagingTouched ==>
          && !s.h.foreignRemoved
          && (s.armed ==> s.disk.Cur(cfg.Staging()) == Some(cfg.staged))
          && (!s.armed && !Abandoned(s) ==> s.disk.Cur(cfg.Staging()) == None)
          && (Abandoned(s) ==> s.disk.Cur(cfg.Staging()) == Some(cfg.staged)))
    && (s.h.stagingTouched ==> s.disk.Cur(cfg.Staging()) != Some(cfg.staged))
    && (s.h.stolen ==> s.h.stagingTouched && s.h.installs == 1)
    && (s.h.installs == 1 ==> (s.h.published == Some(cfg.staged) <==> !s.h.stolen))
    && (s.h.installs == 1 ==> s.h.published.Some?)
    && (s.h.installs == 1 && !s.h.destWindow ==> s.disk.Cur(cfg.Dest()) == s.h.published)
    && (s.h.destWindow ==> s.h.destTouched)
  }

  /** A consuming commit that found the destination missing leaves its staging entry in place. */
  ghost predicate Abandoned(s: State) {
    s.point.Done? && s.reply.Failed? && !s.reply.retained && s.reply.failure.destination == Missing
  }

  /** What the attempt observed. */
  ghost predicate Sighted(cfg: Config, s: State)
    requires cfg.Valid()
  {
    && (s.point.Applying? || s.point.Syncing? || s.point.Verifying? ==>
          s.point.seen.Some? == cfg.regular
          && (s.point.seen.Some? ==> s.point.seen.value in s.disk.inodes))
    && (s.point.Mismatched? ==> cfg.regular && cfg.Unix())
  }

  /** The parent chain is in place, and the part already synchronized cannot be lost. */
  ghost predicate Chain(cfg: Config, s: State)
    requires cfg.Valid()
  {
    && (forall i :: 0 <= i < |cfg.steps| ==> s.disk.Cur(cfg.Link(i)) == Some(cfg.dirs[i + 1]))
    && (s.point.SyncingParents? ==> SyncedBelow(cfg, s, s.point.at))
    && (s.reply.Committed? && s.reply.durable ==>
          SyncedBelow(cfg, s, |cfg.steps| - cfg.created - 1)
          && (!s.h.stagingTouched ==> s.disk.Held(cfg.Staging()) == {None}))
    && (s.point.SyncingParents? && s.point.at < |cfg.steps| && !s.h.stagingTouched && !s.armed ==>
          s.disk.Held(cfg.Staging()) == {None})
    && (s.h.quiet ==> Framed(cfg, s))
  }

  /** From a quiet start, a crash can only bring back what the writer itself replaced. */
  ghost predicate Framed(cfg: Config, s: State)
    requires cfg.Valid()
  {
    && (forall i :: 0 <= i < |cfg.steps| ==> s.disk.Held(cfg.Link(i)) <= {None, Some(cfg.dirs[i + 1])})
    && (forall i :: 0 <= i < |cfg.steps| - cfg.created ==> None !in s.disk.Held(cfg.Link(i)))
    && (!s.h.destTouched ==>
          s.disk.Held(cfg.Dest()) <= if s.h.installs == 1 then {s.h.original, s.h.published} else {s.h.original})
    && (cfg.created > 0 ==> s.h.original == None)
  }

  /** Every directory below `dirs[at]` in the chain has been synchronized since the installation. */
  ghost predicate SyncedBelow(cfg: Config, s: State, at: int)
    requires cfg.Valid()
  {
    && (at < |cfg.steps| && !s.h.destWindow ==> s.disk.Held(cfg.Dest()) == {s.h.published})
    && (forall j :: 0 <= j < |cfg.steps| && at < j ==> s.disk.Held(cfg.Link(j)) == {Some(cfg.dirs[j + 1])})
  }

  /** The half of the invariant about the writer, and the half about the namespace. */
  ghost predicate Control(cfg: Config, s: State)
    requires cfg.Valid()
  {
    Shape(cfg, s) && Truthful(cfg, s) && Contents(cfg, s) && Sighted(cfg, s)
  }

  ghost predicate Space(cfg: Config, s: State)
    requires cfg.Valid()
  {
    s.disk.WellFormed() && Names(cfg, s) && Chain(cfg, s)
  }

  ghost predicate Inv(cfg: Config, s: State) {
    cfg.Valid() && Control(cfg, s) && Space(cfg, s)
  }

  // ---- Steps that leave every name alone ----

  ghost predicate SameNames(d: Disk, e: Disk) {
    forall x: Entry :: e.Cur(x) == d.Cur(x) && e.Held(x) == d.Held(x)
  }

  /** The same history, as far as the namespace is concerned. */
  ghost predicate SameNamespaceHistory(g: History, h: History) {
    && h.original == g.original && h.quiet == g.quiet && h.installs == g.installs && h.published == g.published
    && h.destTouched == g.destTouched && h.destWindow == g.destWindow && h.stagingTouched == g.stagingTouched
    && h.stolen == g.stolen && h.foreignRemoved == g.foreignRemoved
  }

  lemma SpaceSame(cfg: Config, s: State, t: State)
    requires cfg.Valid() && Space(cfg, s)
    requires SameNames(s.disk, t.disk) && s.disk.inodes.Keys <= t.disk.inodes.Keys
    requires s.disk.names == t.disk.names && s.disk.held == t.disk.held
    requires SameNamespaceHistory(s.h, t.h) && t.armed == s.armed
    requires Abandoned(t) == Abandoned(s)
    requires t.point.SyncingParents? ==> s.point == t.point || t.point.at == |cfg.steps|
    requires t.reply.Committed? && t.reply.durable ==> s.reply == t.reply
    ensures Space(cfg, t)
  {}

  // ---- Steps that end an attempt or a cleanup ----

  /** Giving up before the installation hands the writer back. */
  lemma KeepsEarlyFailure(cfg: Config, s: State, f: Failure)
    requires Inv(cfg, s) && BeforeInstall(s.point)
    requires f.destination == Unchanged || (f.destination == Missing && cfg.Unix())
    ensures Inv(cfg, EndFailed(cfg, s, f))
  {
    SpaceSame(cfg, s, EndFailed(cfg, s, f));
  }

  lemma KeepsCleanupFailed(cfg: Config, s: State, why: Cleanup)
    requires Inv(cfg, s) && (s.point == Checking(why) || s.point == Removing(why))
    ensures Inv(cfg, CleanupFailed(cfg, s, why))
  {
    CleanupFailedFlow(cfg, s, why);
    CleanupFailedFacts(cfg, s, why);
    CleanupFailedSpace(cfg, s, why);
  }

  lemma CleanupFailedFlow(cfg: Config, s: State, why: Cleanup)
    requires Inv(cfg, s) && (s.point == Checking(why) || s.point == Removing(why))
    ensures Shape(cfg, CleanupFailed(cfg, s, why)) && Truthful(cfg, CleanupFailed(cfg, s, why))
  {}

  lemma CleanupFailedFacts(cfg: Config, s: State, why: Cleanup)
    requires Inv(cfg, s) && (s.point == Checking(why) || s.point == Removing(why))
    ensures Contents(cfg, CleanupFailed(cfg, s, why)) && Sighted(cfg, CleanupFailed(cfg, s, why))
  {}

  lemma CleanupFailedSpace(cfg: Config, s: State, why: Cleanup)
    requires Inv(cfg, s) && (s.point == Checking(why) || s.point == Removing(why))
    ensures Space(cfg, CleanupFailed(cfg, s, why))
  {
    SpaceSame(cfg, s, CleanupFailed(cfg, s, why));
  }

  /** Nothing of ours is left under the staging name, so the guard is disarmed. */
  lemma KeepsForgotten(cfg: Config, s: State, why: Cleanup)
    requires Inv(cfg, s) && (s.point == Checking(why) || s.point == Removing(why))
    requires s.h.stagingTouched || s.disk.Cur(cfg.Staging()) == None
    ensures Inv(cfg, CleanupDone(cfg, s, why))
  {
    ForgottenControl(cfg, s, why);
    ForgottenSpace(cfg, s, why);
  }

  lemma ForgottenControl(cfg: Config, s: State, why: Cleanup)
    requires Inv(cfg, s) && (s.point == Checking(why) || s.point == Removing(why))
    requires s.h.stagingTouched || s.disk.Cur(cfg.Staging()) == None
    ensures Control(cfg, CleanupDone(cfg, s, why))
  {}

  lemma ForgottenSpace(cfg: Config, s: State, why: Cleanup)
    requires Inv(cfg, s) && (s.point == Checking(why) || s.point == Removing(why))
    requires s.h.stagingTouched || s.disk.Cur(cfg.Staging()) == None
    ensures Space(cfg, CleanupDone(cfg, s, why))
  {}

  lemma KeepsRemoved(cfg: Config, s: State, why: Cleanup)
    requires Inv(cfg, s) && (s.point == Checking(why) || s.point == Removing(why))
    requires !s.h.stagingTouched ==> s.disk.Cur(cfg.Staging()) == Some(cfg.staged)
    ensures Inv(cfg, CleanupDone(cfg, RemoveStaging(cfg, s), why))
  {
    RemovedFlow(cfg, s, why);
    RemovedFacts(cfg, s, why);
    RebindWellFormed(s.disk, cfg.Staging(), None);
    RemovedNames(cfg, s, why);
    RemovedChain(cfg, s, why);
  }

  lemma RemovedFlow(cfg: Config, s: State, why: Cleanup)
    requires Inv(cfg, s) && (s.point == Checking(why) || s.point == Removing(why))
    requires !s.h.stagingTouched ==> s.disk.Cur(cfg.Staging()) == Some(cfg.staged)
    ensures Shape(cfg, CleanupDone(cfg, RemoveStaging(cfg, s), why))
    ensures Truthful(cfg, CleanupDone(cfg, RemoveStaging(cfg, s), why))
  {}

  lemma RemovedFacts(cfg: Config, s: State, why: Cleanup)
    requires Inv(cfg, s) && (s.point == Checking(why) || s.point == Removing(why))
    requires !s.h.stagingTouched ==> s.disk.Cur(cfg.Staging()) == Some(cfg.staged)
    ensures Contents(cfg, CleanupDone(cfg, RemoveStaging(cfg, s), why))
    ensures Sighted(cfg, CleanupDone(cfg, RemoveStaging(cfg, s), why))
  {}

  lemma RemovedNames(cfg: Config, s: State, why: Cleanup)
    requires Inv(cfg, s) && (s.point == Checking(why) || s.point == Removing(why))
    requires !s.h.stagingTouched ==> s.disk.Cur(cfg.Staging()) == Some(cfg.staged)
    ensures Names(cfg, CleanupDone(cfg, RemoveStaging(cfg, s), why))
  {}

  lemma RemovedChain(cfg: Config, s: State, why: Cleanup)
    requires Inv(cfg, s) && (s.point == Checking(why) || s.point == Removing(why))
    requires !s.h.stagingTouched ==> s.disk.Cur(cfg.Staging()) == Some(cfg.staged)
    ensures Chain(cfg, CleanupDone(cfg, RemoveStaging(cfg, s), why))
  {}

  // ---- Native calls that succeed ----

  lemma KeepsObserve(cfg: Config, s: State)
    requires Inv(cfg, s) && s.point.Observing?
    ensures Inv(cfg, Observe(cfg, s))
  {
    SpaceSame(cfg, s, Observe(cfg, s));
  }

  lemma KeepsApply(cfg: Config, s: State)
    requires Inv(cfg, s) && s.point.Applying?
    ensures Inv(cfg, ApplyMetadata(cfg, s, s.point.seen))
  {
    if s.point.seen.Some? && cfg.policy == PreserveExisting {
      KeepsCopy(cfg, s, s.disk.inodes[s.point.seen.value].meta);
    } else {
      KeepsCopied(cfg, s, None);
    }
  }

  lemma KeepsCopy(cfg: Config, s: State, meta: nat)
    requires Inv(cfg, s) && s.point.Applying?
    ensures Inv(cfg, s.(disk := s.disk.Store(cfg.staged, s.disk.inodes[cfg.staged].data, meta),
                        point := Syncing(s.point.seen), h := s.h.(copied := Some(meta))))
  {
    KeepsFailedCopy(cfg, s, meta);
    KeepsCopied(cfg, s.(disk := s.disk.Store(cfg.staged, s.disk.inodes[cfg.staged].data, meta)), Some(meta));
  }

  lemma KeepsCopied(cfg: Config, s: State, copied: Option<nat>)
    requires Inv(cfg, s) && s.point.Applying?
    requires copied.Some? ==> s.disk.inodes[cfg.staged].meta == copied.value
    requires cfg.regular && cfg.policy == PreserveExisting ==> copied.Some?
    ensures Inv(cfg, s.(point := Syncing(s.point.seen), h := s.h.(copied := copied)))
  {
    SpaceSame(cfg, s, s.(point := Syncing(s.point.seen), h := s.h.(copied := copied)));
  }

  lemma KeepsFailedCopy(cfg: Config, s: State, meta: nat)
    requires Inv(cfg, s) && s.point.Applying?
    ensures Inv(cfg, s.(disk := s.disk.Store(cfg.staged, s.disk.inodes[cfg.staged].data, meta)))
  {
    SpaceSame(cfg, s, s.(disk := s.disk.Store(cfg.staged, s.disk.inodes[cfg.staged].data, meta)));
  }

  lemma KeepsSyncStaging(cfg: Config, s: State)
    requires Inv(cfg, s) && s.point.Syncing?
    ensures Inv(cfg, SyncStaging(cfg, s, s.point.seen))
  {
    if cfg.StagingSync() == NotRequired {
      KeepsSynced(cfg, s, false);
    } else {
      KeepsFlushedFile(cfg, s, cfg.staged);
      KeepsSynced(cfg, s.(disk := s.disk.SyncFile(cfg.staged)), true);
    }
  }

  lemma KeepsSynced(cfg: Config, s: State, synced: bool)
    requires Inv(cfg, s) && s.point.Syncing?
    requires if synced then s.disk.inodes[cfg.staged].durable else cfg.StagingSync() != Required
    ensures Inv(cfg, s.(point := Verifying(s.point.seen, synced)))
  {
    SpaceSame(cfg, s, s.(point := Verifying(s.point.seen, synced)));
  }

  lemma KeepsVerify(cfg: Config, s: State)
    requires Inv(cfg, s) && s.point.Verifying?
    ensures Inv(cfg, Verify(cfg, s, s.point.seen, s.point.synced))
  {
    if s.point.seen == None || s.disk.Cur(cfg.Dest()) == s.point.seen {
      KeepsPassed(cfg, s);
    } else if cfg.Unix() {
      KeepsMismatched(cfg, s);
    } else {
      KeepsEarlyFailure(cfg, s,
        Report(if s.disk.Cur(cfg.Dest()) == None then ReadDestinationMetadata else ReplaceDestination, Unchanged));
    }
  }

  /** The staging handle is closed before the installation on Unix. */
  function Passed(cfg: Config, s: State): State
    requires s.point.Verifying?
  {
    s.(open := s.open && !cfg.Unix(), point := Installing(s.point.synced), h := s.h.(attempted := true))
  }

  lemma KeepsPassed(cfg: Config, s: State)
    requires Inv(cfg, s) && s.point.Verifying?
    ensures Inv(cfg, Passed(cfg, s))
  {
    PassedFlow(cfg, s);
    PassedFacts(cfg, s);
    SpaceSame(cfg, s, Passed(cfg, s));
  }

  lemma PassedFlow(cfg: Config, s: State)
    requires Inv(cfg, s) && s.point.Verifying?
    ensures Shape(cfg, Passed(cfg, s)) && Truthful(cfg, Passed(cfg, s))
  {}

  lemma PassedFacts(cfg: Config, s: State)
    requires Inv(cfg, s) && s.point.Verifying?
    ensures Contents(cfg, Passed(cfg, s)) && Sighted(cfg, Passed(cfg, s))
  {}

  lemma KeepsMismatched(cfg: Config, s: State)
    requires Inv(cfg, s) && s.point.Verifying? && s.point.seen.Some? && cfg.Unix()
    ensures Inv(cfg, s.(point := Mismatched))
  {
    SpaceSame(cfg, s, s.(point := Mismatched));
  }

  lemma KeepsInstall(cfg: Config, s: State)
    requires Inv(cfg, s) && s.point.Installing? && RenameCanSucceed(cfg, s.disk)
    ensures Inv(cfg, Install(cfg, s, s.point.synced).value)
  {
    InstallFlow(cfg, s);
    RenameWellFormed(cfg, s.disk);
    InstallFacts(cfg, s);
    InstallNames(cfg, s);
    InstallChain(cfg, s);
  }

  lemma RenameWellFormed(cfg: Config, d: Disk)
    requires cfg.Valid() && d.WellFormed() && cfg.Staging() in d.names
    ensures Rename(cfg, d).WellFormed()
  {
    RebindWellFormed(d, cfg.Dest(), d.Cur(cfg.Staging()));
    RebindWellFormed(d.Rebind(cfg.Dest(), d.Cur(cfg.Staging())), cfg.Staging(), None);
  }

  lemma InstallFlow(cfg: Config, s: State)
    requires Inv(cfg, s) && s.point.Installing? && RenameCanSucceed(cfg, s.disk)
    ensures Shape(cfg, Install(cfg, s, s.point.synced).value) && Truthful(cfg, Install(cfg, s, s.point.synced).value)
  {}

  lemma InstallFacts(cfg: Config, s: State)
    requires Inv(cfg, s) && s.point.Installing? && RenameCanSucceed(cfg, s.disk)
    ensures Contents(cfg, Install(cfg, s, s.point.synced).value)
    ensures Sighted(cfg, Install(cfg, s, s.point.synced).value)
  {}

  lemma InstallNames(cfg: Config, s: State)
    requires Inv(cfg, s) && s.point.Installing? && RenameCanSucceed(cfg, s.disk)
    ensures Names(cfg, Install(cfg, s, s.point.synced).value)
  {}

  lemma InstallChain(cfg: Config, s: State)
    requires Inv(cfg, s) && s.point.Installing? && RenameCanSucceed(cfg, s.disk)
    ensures Chain(cfg, Install(cfg, s, s.point.synced).value)
  {}

  lemma KeepsLink(cfg: Config, s: State)
    requires Inv(cfg, s) && s.point.Linking? && LinkStaging(cfg, s, s.point.synced).Some?
    ensures Inv(cfg, LinkStaging(cfg, s, s.point.synced).value)
  {}

  lemma KeepsUnlink(cfg: Config, s: State)
    requires Inv(cfg, s) && s.point.Unlinking?
    ensures Inv(cfg, UnlinkStaging(cfg, s, s.point.synced))
  {
    UnlinkControl(cfg, s);
    UnlinkSpace(cfg, s);
  }

  lemma UnlinkControl(cfg: Config, s: State)
    requires Inv(cfg, s) && s.point.Unlinking?
    ensures Control(cfg, UnlinkStaging(cfg, s, s.point.synced))
  {
    UnlinkFlow(cfg, s);
    UnlinkContents(cfg, s);
    UnlinkSighted(cfg, s);
  }

  lemma UnlinkFlow(cfg: Config, s: State)
    requires Inv(cfg, s) && s.point.Unlinking?
    ensures Shape(cfg, UnlinkStaging(cfg, s, s.point.synced))
    ensures Truthful(cfg, UnlinkStaging(cfg, s, s.point.synced))
  {}

  lemma UnlinkContents(cfg: Config, s: State)
    requires Inv(cfg, s) && s.point.Unlinking?
    ensures Contents(cfg, UnlinkStaging(cfg, s, s.point.synced))
  {
    var t := UnlinkStaging(cfg, s, s.point.synced);
    assert t.disk.inodes == s.disk.inodes && t.h.copied == s.h.copied;
  }

  lemma UnlinkSighted(cfg: Config, s: State)
    requires Inv(cfg, s) && s.point.Unlinking?
    ensures Sighted(cfg, UnlinkStaging(cfg, s, s.point.synced))
  {}

  lemma UnlinkSpace(cfg: Config, s: State)
    requires Inv(cfg, s) && s.point.Unlinking?
    ensures Space(cfg, UnlinkStaging(cfg, s, s.point.synced))
  {
    RebindWellFormed(s.disk, cfg.Staging(), None);
    UnlinkNames(cfg, s);
    UnlinkChain(cfg, s);
  }

  lemma UnlinkNames(cfg: Config, s: State)
    requires Inv(cfg, s) && s.point.Unlinking?
    ensures Names(cfg, UnlinkStaging(cfg, s, s.point.synced))
  {
    if cfg.Staging() in s.disk.names {
      UnlinkedNames(cfg, s, RemoveStaging(cfg, s), UnlinkStaging(cfg, s, s.point.synced));
    } else {
      UnlinkedNames(cfg, s, s, UnlinkStaging(cfg, s, s.point.synced));
    }
  }

  /** The staging name is gone, and all else is as it was. */
  lemma UnlinkedNames(cfg: Config, s: State, u: State, t: State)
    requires Inv(cfg, s) && s.point.Unlinking?
    requires u == (if cfg.Staging() in s.disk.names then RemoveStaging(cfg, s) else s)
    requires t.disk == u.disk && t.h == u.h && !t.armed && !t.point.Removing? && !Abandoned(t)
    ensures Names(cfg, t)
  {}

  lemma UnlinkChain(cfg: Config, s: State)
    requires Inv(cfg, s) && s.point.Unlinking?
    ensures Chain(cfg, UnlinkStaging(cfg, s, s.point.synced))
  {}

  lemma KeepsChecked(cfg: Config, s: State, why: Cleanup)
    requires Inv(cfg, s) && s.point == Checking(why) && cfg.Unix()
    requires s.disk.Cur(cfg.Staging()) == Some(cfg.staged)
    ensures Inv(cfg, s.(point := Removing(why)))
  {}

  lemma KeepsCheck(cfg: Config, s: State)
    requires Inv(cfg, s) && s.point.Checking?
    ensures Inv(cfg, CheckStaging(cfg, s, s.point.why))
  {
    var why := s.point.why;
    var t := CheckStaging(cfg, s, why);
    if t == CleanupFailed(cfg, s, why) {
      KeepsCleanupFailed(cfg, s, why);
    } else if s.disk.Cur(cfg.Staging()) == Some(cfg.staged) {
      if cfg.Unix() { KeepsChecked(cfg, s, why); } else { KeepsRemoved(cfg, s, why); }
    } else {
      KeepsForgotten(cfg, s, why);
    }
  }

  /** One more directory of the chain can no longer lose its entries. */
  lemma SyncedOneMore(cfg: Config, s: State)
    requires Inv(cfg, s) && s.point.SyncingParents?
    ensures var t := s.(disk := s.disk.SyncDir(cfg.dirs[s.point.at]));
      && SyncedBelow(cfg, t, s.point.at - 1)
      && (!s.h.stagingTouched && !s.armed ==> t.disk.Held(cfg.Staging()) == {None})
  {}

  lemma KeepsSyncedParents(cfg: Config, t: State, u: State)
    requires Inv(cfg, t) && t.point.SyncingParents? && SyncedBelow(cfg, t, t.point.at - 1)
    requires !t.h.stagingTouched && !t.armed ==> t.disk.Held(cfg.Staging()) == {None}
    requires
      if t.point.at + cfg.created > |cfg.steps| && t.point.at > 0
      then u == t.(point := SyncingParents(t.point.at - 1, t.point.synced, t.point.reason))
      else if t.point.reason == WhileFailing
      then u == EndFailed(cfg, t, Failure(ReplaceDestination, Replaced, true, false))
      else u == EndCommitted(t, t.point.synced, t.point.synced)
    ensures Inv(cfg, u)
  {}

  lemma KeepsSyncParent(cfg: Config, s: State)
    requires Inv(cfg, s) && s.point.SyncingParents?
    requires SyncParentStep(cfg, s, s.point.at, s.point.synced, s.point.reason).Some?
    ensures Inv(cfg, SyncParentStep(cfg, s, s.point.at, s.point.synced, s.point.reason).value)
  {
    var t := s.(disk := s.disk.SyncDir(cfg.dirs[s.point.at]));
    KeepsFlushedDir(cfg, s, cfg.dirs[s.point.at]);
    SyncedOneMore(cfg, s);
    KeepsSyncedParents(cfg, t, SyncParentStep(cfg, s, s.point.at, s.point.synced, s.point.reason).value);
  }

  lemma KeepsSucceedEarly(cfg: Config, s: State)
    requires Inv(cfg, s) && BeforeInstall(s.point)
    ensures Inv(cfg, SucceedStep(cfg, s).value)
  {
    match s.point
    case Observing => KeepsObserve(cfg, s);
    case Applying(_) => KeepsApply(cfg, s);
    case Syncing(_) => KeepsSyncStaging(cfg, s);
    case Verifying(_, _) => KeepsVerify(cfg, s);
    case Mismatched =>
      KeepsEarlyFailure(cfg, s,
        Report(ReplaceDestination, if s.disk.Cur(cfg.Dest()) == None then Missing else Unchanged));
  }

  lemma KeepsSucceedInstall(cfg: Config, s: State)
    requires Inv(cfg, s) && SucceedStep(cfg, s).Some?
    requires s.point.Installing? || s.point.Linking? || s.point.Unlinking?
    ensures Inv(cfg, SucceedStep(cfg, s).value)
  {
    match s.point
    case Installing(_) => KeepsInstall(cfg, s);
    case Linking(_) => KeepsLink(cfg, s);
    case Unlinking(_, _) => KeepsUnlink(cfg, s);
  }

  lemma KeepsSucceedLate(cfg: Config, s: State)
    requires Inv(cfg, s) && SucceedStep(cfg, s).Some?
    requires s.point.Checking? || s.point.Removing? || s.point.SyncingParents?
    ensures Inv(cfg, SucceedStep(cfg, s).value)
  {
    match s.point
    case Checking(_) => KeepsCheck(cfg, s);
    case Removing(why) => KeepsRemoved(cfg, s, why);
    case SyncingParents(_, _, _) => KeepsSyncParent(cfg, s);
  }

  lemma KeepsSucceed(cfg: Config, s: State)
    requires Inv(cfg, s) && SucceedStep(cfg, s).Some?
    ensures Inv(cfg, SucceedStep(cfg, s).value)
  {
    if BeforeInstall(s.point) {
      KeepsSucceedEarly(cfg, s);
    } else if s.point.Checking? || s.point.Removing? || s.point.SyncingParents? {
      KeepsSucceedLate(cfg, s);
    } else {
      KeepsSucceedInstall(cfg, s);
    }
  }

  // ---- Native calls that fail ----

  lemma KeepsFailedInstall(cfg: Config, s: State)
    requires Inv(cfg, s) && (s.point.Installing? || s.point.Linking?)
    ensures Inv(cfg, InstallFailed(cfg, s, s.point.synced))
  {
    SpaceSame(cfg, s, InstallFailed(cfg, s, s.point.synced));
  }

  lemma KeepsFailedUnlink(cfg: Config, s: State)
    requires Inv(cfg, s) && s.point.Unlinking?
    ensures Inv(cfg, FailStep(cfg, s, None).value)
  {
    SpaceSame(cfg, s, FailStep(cfg, s, None).value);
  }

  lemma KeepsFailedParentSync(cfg: Config, s: State)
    requires Inv(cfg, s) && s.point.SyncingParents?
    ensures Inv(cfg, FailStep(cfg, s, None).value)
  {
    FailedParentSyncControl(cfg, s);
    FailedParentSyncSpace(cfg, s);
  }

  lemma FailedParentSyncControl(cfg: Config, s: State)
    requires Inv(cfg, s) && s.point.SyncingParents?
    ensures Control(cfg, FailStep(cfg, s, None).value)
  {}

  lemma FailedParentSyncSpace(cfg: Config, s: State)
    requires Inv(cfg, s) && s.point.SyncingParents?
    ensures Space(cfg, FailStep(cfg, s, None).value)
  {
    SpaceSame(cfg, s, FailStep(cfg, s, None).value);
  }

  lemma KeepsFailEarly(cfg: Config, s: State, midway: Option<nat>)
    requires Inv(cfg, s) && BeforeInstall(s.point) && FailStep(cfg, s, midway).Some?
    ensures Inv(cfg, FailStep(cfg, s, midway).value)
  {
    match s.point
    case Observing => KeepsEarlyFailure(cfg, s, Report(ReadDestinationMetadata, Unchanged));
    case Applying(_) =>
      if midway.Some? {
        KeepsFailedCopy(cfg, s, midway.value);
        KeepsEarlyFailure(cfg,
          s.(disk := s.disk.Store(cfg.staged, s.disk.inodes[cfg.staged].data, midway.value)),
          Report(ApplyDestinationMetadata, Unchanged));
      } else {
        KeepsEarlyFailure(cfg, s, Report(ApplyDestinationMetadata, Unchanged));
      }
    case Syncing(_) =>
      if cfg.StagingSync() != Required { KeepsSynced(cfg, s, false); }
      else { KeepsEarlyFailure(cfg, s, Report(SyncTemporaryFile, Unchanged)); }
    case Verifying(_, _) =>
      KeepsEarlyFailure(cfg, s,
        Report(if cfg.Unix() then ReplaceDestination else ReadDestinationMetadata, Unchanged));
    case Mismatched => KeepsEarlyFailure(cfg, s, Report(ReplaceDestination, Unchanged));
  }

  lemma KeepsFail(cfg: Config, s: State, midway: Option<nat>)
    requires Inv(cfg, s) && FailStep(cfg, s, midway).Some?
    ensures Inv(cfg, FailStep(cfg, s, midway).value)
  {
    if BeforeInstall(s.point) {
      KeepsFailEarly(cfg, s, midway);
    } else {
      match s.point
      case Installing(_) => KeepsFailedInstall(cfg, s);
      case Linking(_) => KeepsFailedInstall(cfg, s);
      case Unlinking(_, _) => KeepsFailedUnlink(cfg, s);
      case Checking(why) => KeepsCleanupFailed(cfg, s, why);
      case Removing(why) => KeepsCleanupFailed(cfg, s, why);
      case SyncingParents(_, _, _) => KeepsFailedParentSync(cfg, s);
    }
  }

  // ---- The owner and the other actors ----

  lemma KeepsWrite(cfg: Config, s: State, bytes: seq<Byte>)
    requires Inv(cfg, s) && s.point.Idle? && s.open
    ensures Inv(cfg, Accept(cfg, s, bytes))
  {
    SpaceSame(cfg, s, Accept(cfg, s, bytes));
  }

  lemma KeepsCommit(cfg: Config, s: State)
    requires Inv(cfg, s) && s.point.Idle? && s.open && s.armed
    ensures Inv(cfg, StartAttempt(cfg, s))
  {
    CommitControl(cfg, s);
    SpaceSame(cfg, s, StartAttempt(cfg, s));
  }

  lemma CommitControl(cfg: Config, s: State)
    requires cfg.Valid() && Control(cfg, s) && s.point.Idle? && s.open && s.armed
    ensures Control(cfg, StartAttempt(cfg, s))
  {
    if cfg.Unix() || cfg.durability != Required { StartedControl(cfg, s); }
  }

  lemma StartedControl(cfg: Config, s: State)
    requires cfg.Valid() && Control(cfg, s) && s.point.Idle? && s.open && s.armed
    requires cfg.Unix() || cfg.durability != Required
    ensures Control(cfg, s.(point := Observing, reply := NoReply, h := s.h.(copied := None)))
  {}

  lemma KeepsAbort(cfg: Config, s: State)
    requires Inv(cfg, s) && s.point.Idle?
    ensures Inv(cfg, StartAbort(cfg, s))
  {
    SpaceSame(cfg, s, StartAbort(cfg, s));
  }

  lemma KeepsDrop(cfg: Config, s: State)
    requires Inv(cfg, s) && s.point.Idle?
    ensures Inv(cfg, StartDrop(cfg, s))
  {
    SpaceSame(cfg, s, StartDrop(cfg, s));
  }

  lemma KeepsFinalize(cfg: Config, s: State)
    requires Inv(cfg, s) && s.point.Idle? && s.reply.Failed?
    ensures Inv(cfg, StartFinalize(cfg, s, s.reply.failure))
  {}

  lemma KeepsCaller(cfg: Config, s: State, a: Action)
    requires Inv(cfg, s) && CallerStep(cfg, s, a).Some?
    ensures Inv(cfg, CallerStep(cfg, s, a).value)
  {
    match a
    case Write(bytes) => KeepsWrite(cfg, s, bytes);
    case Commit => KeepsCommit(cfg, s);
    case Abort => KeepsAbort(cfg, s);
    case Drop => KeepsDrop(cfg, s);
    case Finalize => KeepsFinalize(cfg, s);
  }

  /** Another actor rebinds a name outside the parent chain to something other than staging. */
  lemma KeepsRebound(cfg: Config, s: State, e: Entry, t: Option<Ino>)
    requires Inv(cfg, s) && !cfg.IsLink(e)
    requires t.Some? ==> t.value in s.disk.inodes && t.value != cfg.staged
    ensures Inv(cfg, s.(disk := s.disk.Rebind(e, t), h := Touch(cfg, s.h, e)))
  {
    ReboundControl(cfg, s, e, t);
    RebindWellFormed(s.disk, e, t);
    ReboundNames(cfg, s, e, t);
    ReboundChain(cfg, s, e, t);
  }

  lemma ReboundControl(cfg: Config, s: State, e: Entry, t: Option<Ino>)
    requires Inv(cfg, s) && !cfg.IsLink(e)
    requires t.Some? ==> t.value in s.disk.inodes && t.value != cfg.staged
    ensures Control(cfg, s.(disk := s.disk.Rebind(e, t), h := Touch(cfg, s.h, e)))
  {}

  lemma ReboundNames(cfg: Config, s: State, e: Entry, t: Option<Ino>)
    requires Inv(cfg, s) && !cfg.IsLink(e)
    requires t.Some? ==> t.value in s.disk.inodes && t.value != cfg.staged
    ensures Names(cfg, s.(disk := s.disk.Rebind(e, t), h := Touch(cfg, s.h, e)))
  {}

  lemma ReboundChain(cfg: Config, s: State, e: Entry, t: Option<Ino>)
    requires Inv(cfg, s) && !cfg.IsLink(e)
    requires t.Some? ==> t.value in s.disk.inodes && t.value != cfg.staged
    ensures Chain(cfg, s.(disk := s.disk.Rebind(e, t), h := Touch(cfg, s.h, e)))
  {}

  lemma KeepsNewInode(cfg: Config, s: State, i: Ino, node: Inode)
    requires Inv(cfg, s) && i !in s.disk.inodes
    ensures Inv(cfg, s.(disk := s.disk.(inodes := s.disk.inodes[i := node])))
  {
    var d := s.disk.(inodes := s.disk.inodes[i := node]);
    assert forall x :: d.Cur(x) == s.disk.Cur(x) && d.Held(x) == s.disk.Held(x);
    SpaceSame(cfg, s, s.(disk := d));
  }

  lemma KeepsStored(cfg: Config, s: State, i: Ino, data: seq<Byte>, meta: nat)
    requires Inv(cfg, s) && i in s.disk.inodes && i != cfg.staged
    ensures Inv(cfg, s.(disk := s.disk.Store(i, data, meta)))
  {
    SpaceSame(cfg, s, s.(disk := s.disk.Store(i, data, meta)));
  }

  lemma KeepsFlushedDir(cfg: Config, s: State, dir: Ino)
    requires Inv(cfg, s)
    ensures Inv(cfg, s.(disk := s.disk.SyncDir(dir)))
  {
    FlushedDirControl(cfg, s, dir);
    SyncDirWellFormed(s.disk, dir);
    FlushedDirNames(cfg, s, dir);
    FlushedDirChain(cfg, s, dir);
  }

  lemma FlushedDirControl(cfg: Config, s: State, dir: Ino)
    requires Inv(cfg, s)
    ensures Control(cfg, s.(disk := s.disk.SyncDir(dir)))
  {}

  lemma FlushedDirNames(cfg: Config, s: State, dir: Ino)
    requires Inv(cfg, s)
    ensures Names(cfg, s.(disk := s.disk.SyncDir(dir)))
  {}

  lemma FlushedDirChain(cfg: Config, s: State, dir: Ino)
    requires Inv(cfg, s)
    ensures Chain(cfg, s.(disk := s.disk.SyncDir(dir)))
  {}

  lemma KeepsFlushedFile(cfg: Config, s: State, i: Ino)
    requires Inv(cfg, s) && i in s.disk.inodes
    ensures Inv(cfg, s.(disk := s.disk.SyncFile(i)))
  {
    SpaceSame(cfg, s, s.(disk := s.disk.SyncFile(i)));
  }

  lemma KeepsOutside(cfg: Config, s: State, o: Outside)
    requires Inv(cfg, s) && OutsideStep(cfg, s, o).Some?
    ensures Inv(cfg, OutsideStep(cfg, s, o).value)
  {
    match o
    case OBind(e, i) => KeepsRebound(cfg, s, e, Some(i));
    case OUnbind(e) => KeepsRebound(cfg, s, e, None);
    case OCreate(e, i, node) =>
      KeepsNewInode(cfg, s, i, node);
      KeepsRebound(cfg, s.(disk := s.disk.(inodes := s.disk.inodes[i := node])), e, Some(i));
    case OStore(i, data, meta) => KeepsStored(cfg, s, i, data, meta);
    case OFlushDir(dir) => KeepsFlushedDir(cfg, s, dir);
    case OFlushFile(i) => KeepsFlushedFile(cfg, s, i);
  }

  lemma KeepsStep(cfg: Config, s: State, a: Action, t: State)
    requires Inv(cfg, s) && Steps(cfg, s, a, t)
    ensures Inv(cfg, t)
  {
    match a
    case Succeed => KeepsSucceed(cfg, s);
    case Fail => KeepsFail(cfg, s, None);
    case FailMidway(meta) => KeepsFail(cfg, s, Some(meta));
    case Unsupported =>
    case Other(step) => KeepsOutside(cfg, s, step);
    case _ => KeepsCaller(cfg, s, a);
  }

  lemma KeepsStepAt(cfg: Config, states: seq<State>, run: seq<Action>, k: nat)
    requires Trace(cfg, states, run) && k < |run| && Inv(cfg, states[k])
    ensures Inv(cfg, states[k + 1])
  {
    assert StepAt(cfg, states, run, k);
    KeepsStep(cfg, states[k], run[k], states[k + 1]);
  }

  /** The invariant holds in every state of every interleaving. */
  lemma {:induction false} KeepsTrace(cfg: Config, states: seq<State>, run: seq<Action>, k: nat)
    requires Trace(cfg, states, run) && Inv(cfg, states[0]) && k < |states|
    ensures Inv(cfg, states[k])
  {
    if k > 0 {
      KeepsTrace(cfg, states, run, k - 1);
      KeepsStepAt(cfg, states, run, k - 1);
    }
  }
}
