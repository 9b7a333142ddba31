/** Why things happen in a run: what each reported failure needs as its cause, what it takes to give up on
    the staging name, and what leaves the metadata of the staging file alone. */
module AtomicCauses {
  import opened Wrappers
  import opened Disk
  import opened AtomicProtocol
  import opened AtomicInvariant
  import opened AtomicHistory
  import opened AtomicBegin
  import opened AtomicTheorems

  // ---- Failures ----

  /** What must have been asked for, or found at the start, for a failure to be possible at all. */
  predicate Caused(cfg: Config, f: Failure) {
    && (match f.stage
        case PrepareParent => cfg.platform == RootedWindows && cfg.durability == Required
        case InspectDestination => false
        case ReadDestinationMetadata => cfg.regular
        case ApplyDestinationMetadata => cfg.regular && cfg.policy == PreserveExisting
        case SyncTemporaryFile => cfg.durability == Required || cfg.fileSync == Required
        case ReplaceDestination => true
        case SyncParent => cfg.Unix() && cfg.durability == Required && f.destination == Replaced)
    && (f.destination == Missing ==> cfg.regular && cfg.Unix())
    && (f.parentSyncFailed ==> f.destination == Replaced && f.cleanupFailed && cfg.durability != NotRequired)
  }

  ghost predicate AllCaused(cfg: Config, s: State) {
    && (s.reply.Failed? ==> Caused(cfg, s.reply.failure))
    && ((s.point.Checking? || s.point.Removing?) && s.point.why.ForFinalize? ==> Caused(cfg, s.point.why.failure))
  }

  lemma InstalledCaused(cfg: Config, s: State, synced: bool)
    requires s.reply == NoReply
    ensures AllCaused(cfg, AfterInstalled(cfg, s, synced))
  {}

  lemma CleanupCaused(cfg: Config, s: State, why: Cleanup)
    requires s.reply.Failed? ==> Caused(cfg, s.reply.failure)
    requires why.ForFinalize? ==> Caused(cfg, why.failure)
    requires why.ForRecovery? ==> why.destination != Missing && s.reply == NoReply
    ensures AllCaused(cfg, CleanupDone(cfg, s, why)) && AllCaused(cfg, CleanupFailed(cfg, s, why))
  {}

  lemma SucceedEarlyCaused(cfg: Config, s: State)
    requires Inv(cfg, s) && BeforeInstall(s.point)
    ensures AllCaused(cfg, SucceedStep(cfg, s).value)
  {
    if s.point.Observing? {
      assert SucceedStep(cfg, s) == Some(Observe(cfg, s));
    } else if s.point.Applying? {
      assert SucceedStep(cfg, s) == Some(ApplyMetadata(cfg, s, s.point.seen));
    } else if s.point.Syncing? {
      assert SucceedStep(cfg, s) == Some(SyncStaging(cfg, s, s.point.seen));
    } else if s.point.Verifying? {
      assert SucceedStep(cfg, s) == Some(Verify(cfg, s, s.point.seen, s.point.synced));
    } else {
      assert SucceedStep(cfg, s) == Some(ClassifyMismatch(cfg, s));
    }
  }

  lemma SucceedLateCaused(cfg: Config, s: State)
    requires Inv(cfg, s) && AllCaused(cfg, s) && !BeforeInstall(s.point) && SucceedStep(cfg, s).Some?
    ensures AllCaused(cfg, SucceedStep(cfg, s).value)
  {
    if s.point.Checking? || s.point.Removing? { SucceedCleanupCaused(cfg, s); }
    else if s.point.SyncingParents? { SucceedParentsCaused(cfg, s); }
    else { SucceedInstallCaused(cfg, s); }
  }

  lemma SucceedInstallCaused(cfg: Config, s: State)
    requires Inv(cfg, s) && SucceedStep(cfg, s).Some?
    requires s.point.Installing? || s.point.Linking? || s.point.Unlinking?
    ensures AllCaused(cfg, SucceedStep(cfg, s).value)
  {
    if s.point.Installing? {
      InstalledCaused(cfg, Installed(cfg, s, Rename(cfg, s.disk)), s.point.synced);
      assert SucceedStep(cfg, s) == Install(cfg, s, s.point.synced);
    } else if s.point.Linking? {
      assert SucceedStep(cfg, s) == LinkStaging(cfg, s, s.point.synced);
    } else {
      InstalledCaused(cfg, if cfg.Staging() in s.disk.names then RemoveStaging(cfg, s) else s, s.point.synced);
      assert SucceedStep(cfg, s) == Some(UnlinkStaging(cfg, s, s.point.synced));
    }
  }

  lemma SucceedParentsCaused(cfg: Config, s: State)
    requires Inv(cfg, s) && SucceedStep(cfg, s).Some? && s.point.SyncingParents?
    ensures AllCaused(cfg, SucceedStep(cfg, s).value)
  {
    assert SucceedStep(cfg, s) == SyncParentStep(cfg, s, s.point.at, s.point.synced, s.point.reason);
  }

  lemma SucceedCleanupCaused(cfg: Config, s: State)
    requires Inv(cfg, s) && AllCaused(cfg, s) && SucceedStep(cfg, s).Some?
    requires s.point.Checking? || s.point.Removing?
    ensures AllCaused(cfg, SucceedStep(cfg, s).value)
  {
    CleanupCaused(cfg, s, s.point.why);
    CleanupCaused(cfg, RemoveStaging(cfg, s), s.point.why);
    if s.point.Checking? {
      assert SucceedStep(cfg, s) == Some(CheckStaging(cfg, s, s.point.why));
    } else {
      assert SucceedStep(cfg, s) == RemoveChecked(cfg, s, s.point.why);
    }
  }

  lemma FailCaused(cfg: Config, s: State, midway: Option<nat>)
    requires Inv(cfg, s) && AllCaused(cfg, s) && FailStep(cfg, s, midway).Some?
    ensures AllCaused(cfg, FailStep(cfg, s, midway).value)
  {
    if s.point.Checking? || s.point.Removing? { CleanupCaused(cfg, s, s.point.why); }
  }

  lemma CallCaused(cfg: Config, s: State, a: Action)
    requires Inv(cfg, s) && AllCaused(cfg, s) && CallerStep(cfg, s, a).Some?
    ensures AllCaused(cfg, CallerStep(cfg, s, a).value)
  {}

  lemma StepCaused(cfg: Config, s: State, a: Action, t: State)
    requires Inv(cfg, s) && AllCaused(cfg, s) && Steps(cfg, s, a, t)
    ensures AllCaused(cfg, t)
  {
    if a == Succeed {
      if BeforeInstall(s.point) { SucceedEarlyCaused(cfg, s); } else { SucceedLateCaused(cfg, s); }
    } else if a == Fail {
      FailCaused(cfg, s, None);
    } else if a.FailMidway? {
      FailCaused(cfg, s, Some(a.meta));
    } else if !a.Other? && a != Unsupported {
      CallCaused(cfg, s, a);
    }
  }

  lemma {:induction false} TraceCaused(cfg: Config, states: seq<State>, run: seq<Action>, k: nat)
    requires Trace(cfg, states, run) && k < |states| && Inv(cfg, states[0]) && AllCaused(cfg, states[0])
    ensures AllCaused(cfg, states[k])
  {
    if k > 0 {
      TraceCaused(cfg, states, run, k - 1);
      KeepsTrace(cfg, states, run, k - 1);
      assert StepAt(cfg, states, run, k - 1);
      StepCaused(cfg, states[k - 1], run[k - 1], states[k]);
    }
  }

  /** In every run a failure is reported at a stage only if the request makes that stage decisive: a failed
      synchronization, of the file or of its parents, only where it was required. */
  lemma FailureHasCause(req: Request, d: Disk, cfg: Config, states: seq<State>, run: seq<Action>, k: nat)
    requires IsRun(req, d, cfg, states, run) && k < |states| && states[k].reply.Failed?
    ensures Caused(cfg, states[k].reply.failure)
  {
    StartsFrom(req, d);
    TraceCaused(cfg, states, run, k);
  }

  // ---- Failures after the installation ----

  /** In every run on Unix with durability asked for: a failure that tells of a replaced destination comes
      after the parents were synchronized, or from that: it says so exactly if that failed, and otherwise all
      of them were. */
  lemma ReplacedFailureSyncs(cfg: Config, states: seq<State>, run: seq<Action>, k: nat)
    requires Trace(cfg, states, run) && Inv(cfg, states[0]) && k < |run| && cfg.Unix() && cfg.durability != NotRequired
    requires states[k].reply == NoReply && states[k + 1].reply.Failed?
    requires states[k + 1].reply.failure.destination == Replaced
    ensures states[k].point.SyncingParents? && SyncedBelow(cfg, states[k], states[k].point.at)
    ensures var f := states[k + 1].reply.failure; f.parentSyncFailed || f.stage == SyncParent <==> run[k] == Fail
    ensures run[k] == Fail || (run[k] == Succeed && states[k].point.at == |cfg.steps| - cfg.created)
  {
    KeepsTrace(cfg, states, run, k);
    assert StepAt(cfg, states, run, k);
    StepReplaced(cfg, states[k], run[k], states[k + 1]);
  }

  lemma StepReplaced(cfg: Config, s: State, a: Action, t: State)
    requires Inv(cfg, s) && Steps(cfg, s, a, t) && cfg.Unix() && cfg.durability != NotRequired
    requires s.reply == NoReply && t.reply.Failed? && t.reply.failure.destination == Replaced
    ensures s.point.SyncingParents? && (a == Succeed || a == Fail)
    ensures t.reply.failure.parentSyncFailed || t.reply.failure.stage == SyncParent <==> a == Fail
    ensures a == Succeed ==> s.point.at == |cfg.steps| - cfg.created
  {
    if a == Succeed {
      SucceedReplaced(cfg, s);
    } else if a == Fail || a.FailMidway? {
      FailReplaced(cfg, s, if a == Fail then None else Some(a.meta));
    }
  }

  lemma CleanupReplaced(cfg: Config, s: State, why: Cleanup)
    requires cfg.durability != NotRequired && s.reply == NoReply
    requires why.ForFinalize? ==> why.failure.destination != Replaced
    ensures var r := CleanupDone(cfg, s, why).reply; r.Failed? ==> r.failure.destination != Replaced
    ensures var r := CleanupFailed(cfg, s, why).reply; r.Failed? ==> r.failure.destination != Replaced
  {}

  lemma SucceedReplaced(cfg: Config, s: State)
    requires Inv(cfg, s) && cfg.Unix() && cfg.durability != NotRequired && s.reply == NoReply
    requires SucceedStep(cfg, s).Some? && SucceedStep(cfg, s).value.reply.Failed?
    requires SucceedStep(cfg, s).value.reply.failure.destination == Replaced
    ensures s.point.SyncingParents? && s.point.at == |cfg.steps| - cfg.created
    ensures var f := SucceedStep(cfg, s).value.reply.failure; !f.parentSyncFailed && f.stage != SyncParent
  {
    if !s.point.SyncingParents? { OnlyParentsTellReplaced(cfg, s); }
    assert SucceedStep(cfg, s) == SyncParentStep(cfg, s, s.point.at, s.point.synced, s.point.reason);
  }

  lemma OnlyParentsTellReplaced(cfg: Config, s: State)
    requires Inv(cfg, s) && cfg.Unix() && cfg.durability != NotRequired && s.reply == NoReply
    requires SucceedStep(cfg, s).Some? && !s.point.SyncingParents?
    ensures var r := SucceedStep(cfg, s).value.reply; r.Failed? ==> r.failure.destination != Replaced
  {
    if BeforeInstall(s.point) {
      KeepsSucceedEarly(cfg, s);
      SucceedSteady(cfg, s);
    } else if s.point.Checking? || s.point.Removing? {
      CleanupReplaced(cfg, s, s.point.why);
      CleanupReplaced(cfg, RemoveStaging(cfg, s), s.point.why);
    } else if s.point.Installing? {
      InstalledTells(cfg, Installed(cfg, s, Rename(cfg, s.disk)), s.point.synced);
    } else if s.point.Unlinking? {
      InstalledTells(cfg, if cfg.Staging() in s.disk.names then RemoveStaging(cfg, s) else s, s.point.synced);
    }
  }

  lemma InstalledTells(cfg: Config, s: State, synced: bool)
    requires s.reply == NoReply
    ensures !AfterInstalled(cfg, s, synced).reply.Failed?
  {}

  lemma FailReplaced(cfg: Config, s: State, midway: Option<nat>)
    requires Inv(cfg, s) && cfg.Unix() && cfg.durability != NotRequired && s.reply == NoReply
    requires FailStep(cfg, s, midway).Some? && FailStep(cfg, s, midway).value.reply.Failed?
    requires FailStep(cfg, s, midway).value.reply.failure.destination == Replaced
    ensures s.point.SyncingParents? && midway == None
    ensures var f := FailStep(cfg, s, midway).value.reply.failure; f.parentSyncFailed || f.stage == SyncParent
  {
    if s.point.Checking? || s.point.Removing? { CleanupReplaced(cfg, s, s.point.why); }
  }

  // ---- Metadata ----

  /** Nothing is to be copied onto the staging file. */
  predicate KeepsOwnMetadata(cfg: Config) { cfg.policy == UseStaging || !cfg.regular }

  ghost predicate SameMeta(cfg: Config, d: Disk, e: Disk) {
    cfg.staged in d.inodes && cfg.staged in e.inodes && e.inodes[cfg.staged].meta == d.inodes[cfg.staged].meta
  }

  lemma SucceedKeepsMeta(cfg: Config, s: State)
    requires Inv(cfg, s) && KeepsOwnMetadata(cfg) && SucceedStep(cfg, s).Some?
    ensures SameMeta(cfg, s.disk, SucceedStep(cfg, s).value.disk)
  {
    if s.point.Applying? {
      assert SucceedStep(cfg, s) == Some(ApplyMetadata(cfg, s, s.point.seen));
    } else if s.point.Syncing? {
      assert SucceedStep(cfg, s) == Some(SyncStaging(cfg, s, s.point.seen));
    }
  }

  lemma FailKeepsMeta(cfg: Config, s: State, midway: Option<nat>)
    requires Inv(cfg, s) && KeepsOwnMetadata(cfg) && FailStep(cfg, s, midway).Some?
    ensures SameMeta(cfg, s.disk, FailStep(cfg, s, midway).value.disk)
  {}

  lemma CallKeepsMeta(cfg: Config, s: State, a: Action)
    requires Inv(cfg, s) && CallerStep(cfg, s, a).Some?
    ensures SameMeta(cfg, s.disk, CallerStep(cfg, s, a).value.disk)
  {}

  lemma StepKeepsMeta(cfg: Config, s: State, a: Action, t: State)
    requires Inv(cfg, s) && KeepsOwnMetadata(cfg) && Steps(cfg, s, a, t)
    ensures SameMeta(cfg, s.disk, t.disk)
  {
    if a == Succeed { SucceedKeepsMeta(cfg, s); }
    else if a == Fail { FailKeepsMeta(cfg, s, None); }
    else if a.FailMidway? { FailKeepsMeta(cfg, s, Some(a.meta)); }
    else if a.Other? { OutsideKeeps(s.disk, a.step, cfg.staged); }
    else if a != Unsupported { CallKeepsMeta(cfg, s, a); }
  }

  /** In every run: where no metadata is to be preserved, the staging file keeps its own. */
  lemma {:induction false} StagingMetadataStays(cfg: Config, states: seq<State>, run: seq<Action>, k: nat)
    requires Trace(cfg, states, run) && k < |states| && Inv(cfg, states[0]) && KeepsOwnMetadata(cfg)
    ensures SameMeta(cfg, states[0].disk, states[k].disk)
  {
    if k > 0 {
      StagingMetadataStays(cfg, states, run, k - 1);
      KeepsTrace(cfg, states, run, k - 1);
      assert StepAt(cfg, states, run, k - 1);
      StepKeepsMeta(cfg, states[k - 1], run[k - 1], states[k]);
    }
  }

  // ---- Giving up on the staging name ----

  /** The destination is replaced, and the staging name could not be unlinked. */
  predicate GaveUp(p: Point) {
    (p.Checking? || p.Removing?) && p.why.ForRecovery? && p.why.destination == Replaced
  }

  predicate SecondTry(p: Point) { p.Unlinking? && p.failures > 0 }

  /** A failing try brings the second one, and then the end. */
  lemma StepTries(cfg: Config, s: State, a: Action, t: State)
    requires Inv(cfg, s) && Steps(cfg, s, a, t)
    ensures GaveUp(t.point) ==> GaveUp(s.point) || (a == Fail && SecondTry(s.point))
    ensures SecondTry(t.point) ==>
      (SecondTry(s.point) && a.Other?) || (a == Fail && s.point.Unlinking? && s.point.failures == 0)
  {
    if a == Succeed { SucceedTries(s.point, t.point); }
    else if a == Fail { FailTries(cfg, s, None); }
    else if a.FailMidway? { FailTries(cfg, s, Some(a.meta)); }
    else if !a.Other? && a != Unsupported { CallTries(cfg, s, a); }
  }

  lemma SucceedTries(p: Point, q: Point)
    requires MayFollow(p, q)
    ensures (GaveUp(q) ==> GaveUp(p)) && !SecondTry(q)
  {}

  lemma FailTries(cfg: Config, s: State, midway: Option<nat>)
    requires cfg.Valid() && cfg.staged in s.disk.inodes && FailStep(cfg, s, midway).Some?
    ensures GaveUp(FailStep(cfg, s, midway).value.point) ==> SecondTry(s.point)
    ensures SecondTry(FailStep(cfg, s, midway).value.point) ==> s.point.Unlinking? && s.point.failures == 0
  {}

  lemma CallTries(cfg: Config, s: State, a: Action)
    requires cfg.Valid() && cfg.staged in s.disk.inodes && CallerStep(cfg, s, a).Some?
    ensures !GaveUp(CallerStep(cfg, s, a).value.point) && !SecondTry(CallerStep(cfg, s, a).value.point)
  {}

  /** The unlink at `i` failed. */
  ghost predicate FailedTry(states: seq<State>, run: seq<Action>, i: nat) {
    i < |run| && i < |states| && states[i].point.Unlinking? && run[i] == Fail
  }

  lemma StepTriesAt(cfg: Config, states: seq<State>, run: seq<Action>, k: nat)
    requires Trace(cfg, states, run) && k < |run| && Inv(cfg, states[0])
    ensures GaveUp(states[k + 1].point) ==> GaveUp(states[k].point) || (run[k] == Fail && SecondTry(states[k].point))
    ensures SecondTry(states[k + 1].point) ==> SecondTry(states[k].point) || FailedTry(states, run, k)
  {
    KeepsTrace(cfg, states, run, k);
    assert StepAt(cfg, states, run, k);
    StepTries(cfg, states[k], run[k], states[k + 1]);
  }

  lemma {:induction false} TriedBefore(cfg: Config, states: seq<State>, run: seq<Action>, k: nat) returns (i: nat)
    requires Trace(cfg, states, run) && k < |states| && Inv(cfg, states[0]) && states[0].point.Idle?
    requires SecondTry(states[k].point)
    ensures i < k && FailedTry(states, run, i)
  {
    StepTriesAt(cfg, states, run, k - 1);
    if SecondTry(states[k - 1].point) { i := TriedBefore(cfg, states, run, k - 1); } else { i := k - 1; }
  }

  /** In every run the staging name is given up for removal after the installation only when unlinking it
      has failed twice. */
  lemma {:induction false} TriedTwice(cfg: Config, states: seq<State>, run: seq<Action>, k: nat)
    returns (i: nat, j: nat)
    requires Trace(cfg, states, run) && k < |states| && Inv(cfg, states[0]) && states[0].point.Idle?
    requires GaveUp(states[k].point)
    ensures i < j < k && FailedTry(states, run, i) && FailedTry(states, run, j)
  {
    StepTriesAt(cfg, states, run, k - 1);
    if GaveUp(states[k - 1].point) {
      i, j := TriedTwice(cfg, states, run, k - 1);
    } else {
      j := k - 1;
      i := TriedBefore(cfg, states, run, k - 1);
    }
  }
}
