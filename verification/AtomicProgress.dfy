/** What a commit comes to when nobody interferes and no call fails that could have succeeded: it publishes
    exactly if nothing stands in its way, and otherwise it says what does. */
module AtomicProgress {
  import opened Wrappers
  import opened Disk
  import opened AtomicProtocol
  import opened AtomicInvariant
  import opened AtomicHistory
  import opened AtomicBegin
  import opened AtomicTheorems
  import opened AtomicReports

  // ---- What stands in the way of a commit ----

  /** There is a regular file if there has to be one. */
  predicate HasItsFile(cfg: Config, d: Disk)
    requires cfg.Valid()
  {
    cfg.regular ==> cfg.Dest() in d.names && IsKind(d, d.names[cfg.Dest()], Regular)
  }

  /** The staging name is gone, an entry is there that must not be replaced, or it is a directory. */
  predicate Blocked(cfg: Config, d: Disk)
    requires cfg.Valid()
  {
    || cfg.Staging() !in d.names
    || (cfg.Dest() in d.names && (!cfg.existed || IsKind(d, d.names[cfg.Dest()], Directory)))
  }

  /** Required durability is beyond the Windows writer. */
  predicate Overtaxed(cfg: Config) { !cfg.Unix() && cfg.durability == Required }

  predicate Committable(cfg: Config, d: Disk)
    requires cfg.Valid()
  {
    !Overtaxed(cfg) && HasItsFile(cfg, d) && !Blocked(cfg, d)
  }

  /** What the owner is told: everything that was asked for was achieved. */
  function Achieved(cfg: Config): Reply {
    Committed(cfg.Unix() && cfg.durability != NotRequired,
              cfg.durability != NotRequired || cfg.fileSync != NotRequired)
  }

  /** What the owner is told otherwise: how far the attempt came, and whether the writer comes back. */
  predicate Refusal(cfg: Config, d: Disk, r: Reply)
    requires cfg.Valid()
  {
    && !Committable(cfg, d) && r.Failed?
    && if Overtaxed(cfg) then r == Failed(Report(PrepareParent, Unchanged), true)
       else if !HasItsFile(cfg, d) then
         r == Failed(Report(ReadDestinationMetadata,
                            if cfg.Unix() && cfg.Dest() !in d.names then Missing else Unchanged), true)
       else
         r.failure.stage == ReplaceDestination && r.failure.destination == Unchanged && r.retained == !cfg.Unix()
  }

  // ---- Undisturbed steps ----

  /** Nobody interferes, and a call fails only if it cannot succeed. */
  ghost predicate Calmly(cfg: Config, s: State, a: Action) {
    && cfg.Valid() && cfg.staged in s.disk.inodes
    && (a == Commit || a == Succeed || a == Unsupported || (a == Fail && SucceedStep(cfg, s) == None))
  }

  ghost predicate CalmStep(cfg: Config, s: State, a: Action, t: State) { Steps(cfg, s, a, t) && Calmly(cfg, s, a) }

  /** The same names, for files of the same kinds. */
  ghost predicate SameView(d: Disk, e: Disk) {
    e.names == d.names && forall i :: i in d.inodes ==> i in e.inodes && e.inodes[i].kind == d.inodes[i].kind
  }

  /** What the staging name named is at the destination. */
  ghost predicate IsPublished(cfg: Config, d: Disk, s: State)
    requires cfg.Valid()
  {
    s.h.installs == 1 && s.h.published == d.Cur(cfg.Staging()) == s.disk.Cur(cfg.Dest())
  }

  ghost predicate Looked(cfg: Config, d: Disk, s: State)
    requires cfg.Valid()
  {
    SameView(d, s.disk) && HasItsFile(cfg, d)
  }

  ghost predicate SawIt(cfg: Config, d: Disk, seen: Option<Ino>)
    requires cfg.Valid()
  {
    seen == if cfg.regular then d.Cur(cfg.Dest()) else None
  }

  predicate Synced(cfg: Config, synced: bool) { synced == (cfg.StagingSync() != NotRequired) }

  /** Where an undisturbed attempt that began in `b` is at each point. */
  ghost predicate OnTheWay(cfg: Config, b: State, s: State)
    requires cfg.Valid()
  {
    var d := b.disk;
    match s.point
    case Idle => SameView(d, s.disk) && Refusal(cfg, d, s.reply)
    case Observing => SameView(d, s.disk)
    case Applying(seen) => Looked(cfg, d, s) && SawIt(cfg, d, seen)
    case Syncing(seen) => Looked(cfg, d, s) && SawIt(cfg, d, seen)
    case Verifying(seen, synced) => Looked(cfg, d, s) && SawIt(cfg, d, seen) && Synced(cfg, synced)
    case Mismatched => false
    case Installing(synced) => Looked(cfg, d, s) && Synced(cfg, synced)
    case Linking(synced) => Looked(cfg, d, s) && Synced(cfg, synced)
    case Unlinking(synced, failures) =>
      Committable(cfg, d) && IsPublished(cfg, d, s) && Synced(cfg, synced) && failures == 0
    case SyncingParents(_, synced, reason) =>
      Committable(cfg, d) && IsPublished(cfg, d, s) && Synced(cfg, synced) && reason == AfterInstall
    case Checking(why) => GivesUp(cfg, d, s, why)
    case Removing(why) => GivesUp(cfg, d, s, why)
    case Done =>
      if Committable(cfg, d) then IsPublished(cfg, d, s) && s.reply == Achieved(cfg) else Refusal(cfg, d, s.reply)
  }

  ghost predicate GivesUp(cfg: Config, d: Disk, s: State, why: Cleanup)
    requires cfg.Valid()
  {
    && cfg.Unix() && HasItsFile(cfg, d) && Blocked(cfg, d)
    && if why == ForDrop then Refusal(cfg, d, s.reply) else why.ForRecovery? && why.destination == Unchanged
  }

  /** An attempt that is still undisturbed. */
  ghost predicate Undisturbed(cfg: Config, b: State, s: State) {
    && Inv(cfg, b) && b.point.Idle? && b.open
    && Inv(cfg, s) && (s == b || OnTheWay(cfg, b, s))
  }

  // ---- Each stage of an undisturbed attempt ----

  lemma CalmCommit(cfg: Config, b: State, s: State)
    requires Undisturbed(cfg, b, s) && s.point.Idle? && s.open && s.armed
    ensures OnTheWay(cfg, b, StartAttempt(cfg, s))
  {}

  lemma CalmObserve(cfg: Config, b: State, s: State)
    requires Undisturbed(cfg, b, s) && s.point.Observing?
    ensures OnTheWay(cfg, b, Observe(cfg, s))
  {}

  lemma CalmApply(cfg: Config, b: State, s: State)
    requires Undisturbed(cfg, b, s) && s.point.Applying?
    ensures OnTheWay(cfg, b, ApplyMetadata(cfg, s, s.point.seen))
  {}

  lemma CalmSync(cfg: Config, b: State, s: State)
    requires Undisturbed(cfg, b, s) && s.point.Syncing?
    ensures OnTheWay(cfg, b, SyncStaging(cfg, s, s.point.seen))
  {}

  lemma CalmVerify(cfg: Config, b: State, s: State)
    requires cfg.Valid() && s.point.Verifying? && OnTheWay(cfg, b, s)
    ensures OnTheWay(cfg, b, Verify(cfg, s, s.point.seen, s.point.synced))
  {
    assert Verify(cfg, s, s.point.seen, s.point.synced) == Passed(cfg, s);
  }

  /** The installation goes through exactly if nothing is in its way. */
  lemma InstallsExactly(cfg: Config, s: State)
    requires Inv(cfg, s) && (s.point.Installing? || s.point.Linking?)
    ensures SucceedStep(cfg, s) == None <==> Blocked(cfg, s.disk)
  {}

  lemma CalmInstall(cfg: Config, b: State, s: State)
    requires Undisturbed(cfg, b, s) && s.point.Installing? && !Blocked(cfg, s.disk)
    ensures Install(cfg, s, s.point.synced).Some? && OnTheWay(cfg, b, Install(cfg, s, s.point.synced).value)
  {
    CanInstall(cfg, b, s);
    RenamePublishes(cfg, b.disk, s);
    InstalledOnTheWay(cfg, b, Installed(cfg, s, Rename(cfg, s.disk)), s.point.synced);
  }

  lemma CanInstall(cfg: Config, b: State, s: State)
    requires Undisturbed(cfg, b, s) && (s.point.Installing? || s.point.Linking?) && !Blocked(cfg, s.disk)
    ensures RenameCanSucceed(cfg, s.disk) && Committable(cfg, b.disk) && s.h.installs == 0
  {}

  lemma RenamePublishes(cfg: Config, d: Disk, s: State)
    requires cfg.Valid() && SameView(d, s.disk) && cfg.Staging() in s.disk.names && s.h.installs == 0
    ensures IsPublished(cfg, d, Installed(cfg, s, Rename(cfg, s.disk)))
  {}

  lemma InstalledOnTheWay(cfg: Config, b: State, s: State, synced: bool)
    requires cfg.Valid() && Committable(cfg, b.disk) && IsPublished(cfg, b.disk, s) && Synced(cfg, synced)
    ensures OnTheWay(cfg, b, AfterInstalled(cfg, s, synced))
  {}

  lemma CalmLink(cfg: Config, b: State, s: State)
    requires Undisturbed(cfg, b, s) && s.point.Linking? && !Blocked(cfg, s.disk)
    ensures LinkStaging(cfg, s, s.point.synced).Some? && OnTheWay(cfg, b, LinkStaging(cfg, s, s.point.synced).value)
  {}

  lemma CalmUnlink(cfg: Config, b: State, s: State)
    requires Undisturbed(cfg, b, s) && s.point.Unlinking?
    ensures OnTheWay(cfg, b, UnlinkStaging(cfg, s, s.point.synced))
  {
    InstalledOnTheWay(cfg, b, if cfg.Staging() in s.disk.names then RemoveStaging(cfg, s) else s, s.point.synced);
  }

  lemma CalmParents(cfg: Config, b: State, s: State)
    requires Undisturbed(cfg, b, s) && s.point.SyncingParents?
    ensures var t := SyncParentStep(cfg, s, s.point.at, s.point.synced, s.point.reason);
      t.Some? && OnTheWay(cfg, b, t.value)
  {}

  /** However its cleanup ends, a blocked attempt ends as one. */
  lemma GivenUp(cfg: Config, b: State, s: State, why: Cleanup)
    requires cfg.Valid() && GivesUp(cfg, b.disk, s, why) && !s.open
    ensures OnTheWay(cfg, b, CleanupDone(cfg, s, why)) && OnTheWay(cfg, b, CleanupFailed(cfg, s, why))
  {}

  lemma CalmCheck(cfg: Config, b: State, s: State)
    requires cfg.Valid() && s.point.Checking? && OnTheWay(cfg, b, s) && !s.open
    ensures OnTheWay(cfg, b, CheckStaging(cfg, s, s.point.why))
  {
    GivenUp(cfg, b, s, s.point.why);
  }

  lemma CalmRemove(cfg: Config, b: State, s: State)
    requires cfg.Valid() && s.point.Removing? && OnTheWay(cfg, b, s) && !s.open
    requires RemoveChecked(cfg, s, s.point.why).Some?
    ensures OnTheWay(cfg, b, RemoveChecked(cfg, s, s.point.why).value)
  {
    GivenUp(cfg, b, RemoveStaging(cfg, s), s.point.why);
  }

  /** The calls that may be unable to succeed: the installation, and the removal of what has come to be
      under the staging name. */
  lemma CalmFail(cfg: Config, b: State, s: State)
    requires Undisturbed(cfg, b, s) && SucceedStep(cfg, s) == None && FailStep(cfg, s, None).Some?
    ensures OnTheWay(cfg, b, FailStep(cfg, s, None).value)
  {
    if s.point.Installing? || s.point.Linking? {
      InstallsExactly(cfg, s);
      BlockedFails(cfg, b, s);
      assert FailStep(cfg, s, None) == Some(InstallFailed(cfg, s, s.point.synced));
    } else {
      CannotSucceed(cfg, s);
      GivenUp(cfg, b, s, s.point.why);
      assert FailStep(cfg, s, None) == Some(CleanupFailed(cfg, s, s.point.why));
    }
  }

  lemma CannotSucceed(cfg: Config, s: State)
    requires Inv(cfg, s) && SucceedStep(cfg, s) == None && FailStep(cfg, s, None).Some?
    ensures s.point.Installing? || s.point.Linking? || (s.point.Removing? && !s.open)
  {}

  lemma BlockedFails(cfg: Config, b: State, s: State)
    requires cfg.Valid() && Shape(cfg, s) && (s.point.Installing? || s.point.Linking?)
    requires b.disk.WellFormed() && OnTheWay(cfg, b, s) && Blocked(cfg, s.disk)
    ensures OnTheWay(cfg, b, InstallFailed(cfg, s, s.point.synced))
  {}

  // ---- Whole attempts ----

  lemma CalmEarly(cfg: Config, b: State, s: State)
    requires Undisturbed(cfg, b, s) && SucceedStep(cfg, s).Some? && BeforeInstall(s.point)
    ensures OnTheWay(cfg, b, SucceedStep(cfg, s).value)
  {
    if s.point.Observing? {
      CalmObserve(cfg, b, s);
      assert SucceedStep(cfg, s) == Some(Observe(cfg, s));
    } else if s.point.Applying? {
      CalmApply(cfg, b, s);
      assert SucceedStep(cfg, s) == Some(ApplyMetadata(cfg, s, s.point.seen));
    } else if s.point.Syncing? {
      CalmSync(cfg, b, s);
      assert SucceedStep(cfg, s) == Some(SyncStaging(cfg, s, s.point.seen));
    } else if s.point.Verifying? {
      CalmVerify(cfg, b, s);
      assert SucceedStep(cfg, s) == Some(Verify(cfg, s, s.point.seen, s.point.synced));
    }
  }

  lemma CalmInstalling(cfg: Config, b: State, s: State)
    requires Undisturbed(cfg, b, s) && SucceedStep(cfg, s).Some? && (s.point.Installing? || s.point.Linking?)
    ensures OnTheWay(cfg, b, SucceedStep(cfg, s).value)
  {
    InstallsExactly(cfg, s);
    if s.point.Installing? {
      CalmInstall(cfg, b, s);
      assert SucceedStep(cfg, s) == Install(cfg, s, s.point.synced);
    } else {
      CalmLink(cfg, b, s);
      assert SucceedStep(cfg, s) == LinkStaging(cfg, s, s.point.synced);
    }
  }

  lemma CalmLate(cfg: Config, b: State, s: State)
    requires Undisturbed(cfg, b, s) && SucceedStep(cfg, s).Some?
    requires s.point.Unlinking? || s.point.Checking? || s.point.Removing? || s.point.SyncingParents?
    ensures OnTheWay(cfg, b, SucceedStep(cfg, s).value)
  {
    if s.point.Unlinking? {
      CalmUnlink(cfg, b, s);
      assert SucceedStep(cfg, s) == Some(UnlinkStaging(cfg, s, s.point.synced));
    } else if s.point.Checking? {
      CalmCheck(cfg, b, s);
      assert SucceedStep(cfg, s) == Some(CheckStaging(cfg, s, s.point.why));
    } else if s.point.Removing? {
      CalmRemove(cfg, b, s);
      assert SucceedStep(cfg, s) == RemoveChecked(cfg, s, s.point.why);
    } else {
      CalmParents(cfg, b, s);
      assert SucceedStep(cfg, s) == SyncParentStep(cfg, s, s.point.at, s.point.synced, s.point.reason);
    }
  }

  lemma CalmSucceed(cfg: Config, b: State, s: State)
    requires Undisturbed(cfg, b, s) && SucceedStep(cfg, s).Some?
    ensures OnTheWay(cfg, b, SucceedStep(cfg, s).value)
  {
    if BeforeInstall(s.point) { CalmEarly(cfg, b, s); }
    else if s.point.Installing? || s.point.Linking? { CalmInstalling(cfg, b, s); }
    else { CalmLate(cfg, b, s); }
  }

  lemma StaysOnTheWay(cfg: Config, b: State, s: State, a: Action, t: State)
    requires Undisturbed(cfg, b, s) && CalmStep(cfg, s, a, t)
    ensures OnTheWay(cfg, b, t)
  {
    if a == Commit {
      assert CallerStep(cfg, s, a) == Some(StartAttempt(cfg, s));
      CalmCommit(cfg, b, s);
    } else if a == Succeed {
      CalmSucceed(cfg, b, s);
    } else if a == Fail {
      CalmFail(cfg, b, s);
    }
  }

  lemma StaysUndisturbed(cfg: Config, b: State, s: State, a: Action, t: State)
    requires Undisturbed(cfg, b, s) && CalmStep(cfg, s, a, t)
    ensures Undisturbed(cfg, b, t) && OnTheWay(cfg, b, t)
  {
    KeepsStep(cfg, s, a, t);
    StaysOnTheWay(cfg, b, s, a, t);
  }

  lemma StaysUndisturbedAt(cfg: Config, b: State, states: seq<State>, run: seq<Action>, k: nat)
    requires StepAt(cfg, states, run, k) && CalmAt(cfg, states, run, k) && Undisturbed(cfg, b, states[k])
    ensures Undisturbed(cfg, b, states[k + 1]) && OnTheWay(cfg, b, states[k + 1])
  {
    StaysUndisturbed(cfg, b, states[k], run[k], states[k + 1]);
  }

  // ---- Results ----

  ghost predicate CalmAt(cfg: Config, states: seq<State>, run: seq<Action>, k: nat) {
    k < |run| && k + 1 < |states| && Calmly(cfg, states[k], run[k])
  }

  /** A writer that is with its owner and has not been used up. */
  ghost predicate Waiting(cfg: Config, s: State) { Inv(cfg, s) && s.point.Idle? && s.open }

  lemma {:induction false} RunsUndisturbed(cfg: Config, states: seq<State>, run: seq<Action>, k: nat)
    requires Trace(cfg, states, run) && 0 < k < |states| && Waiting(cfg, states[0])
    requires forall i: nat :: i < k ==> CalmAt(cfg, states, run, i)
    ensures Undisturbed(cfg, states[0], states[k]) && OnTheWay(cfg, states[0], states[k])
  {
    assert Undisturbed(cfg, states[0], states[k - 1]) by {
      if k > 1 { RunsUndisturbed(cfg, states, run, k - 1); }
    }
    StaysUndisturbedAt(cfg, states[0], states, run, k - 1);
  }

  /** Every undisturbed commit that has come to its end has published what the staging name named and
      achieved all that was asked for, exactly if nothing stood in its way; otherwise it says what did. */
  lemma CommitsExactly(cfg: Config, states: seq<State>, run: seq<Action>)
    requires Trace(cfg, states, run) && |run| > 0 && Waiting(cfg, states[0])
    requires forall i: nat :: i < |run| ==> CalmAt(cfg, states, run, i)
    requires states[|run|].point.Idle? || states[|run|].point.Done?
    ensures var (b, s) := (states[0], states[|run|]);
      if Committable(cfg, b.disk) then s.point.Done? && s.reply == Achieved(cfg) && IsPublished(cfg, b.disk, s)
      else Refusal(cfg, b.disk, s.reply)
  {
    RunsUndisturbed(cfg, states, run, |run|);
  }

  /** How far an undisturbed attempt still has to go. */
  function Ahead(cfg: Config, p: Point): nat {
    match p
    case Observing => |cfg.steps| + 6
    case Applying(_) => |cfg.steps| + 5
    case Syncing(_) => |cfg.steps| + 4
    case Verifying(_, _) => |cfg.steps| + 3
    case Installing(_) => |cfg.steps| + 2
    case SyncingParents(at, _, _) => at + 1
    case _ => 0
  }

  /** From `p` the attempt came closer to its end, or ended. */
  predicate Nearer(cfg: Config, p: Point, q: Point) {
    Ahead(cfg, q) < Ahead(cfg, p) && (q.Done? || Ahead(cfg, q) > 0)
  }

  lemma NearerEarly(cfg: Config, b: State, s: State)
    requires Undisturbed(cfg, b, s) && Committable(cfg, b.disk) && BeforeInstall(s.point)
    ensures SucceedStep(cfg, s).Some? && Nearer(cfg, s.point, SucceedStep(cfg, s).value.point)
  {
    EarlyGoes(cfg, s);
    CalmEarly(cfg, b, s);
    NotOver(cfg, b, SucceedStep(cfg, s).value);
  }

  lemma NotOver(cfg: Config, b: State, s: State)
    requires cfg.Valid() && OnTheWay(cfg, b, s) && Committable(cfg, b.disk)
    ensures !s.point.Idle? && !s.point.Mismatched? && !s.point.Checking? && !s.point.Removing?
  {}

  lemma AfterInstalledAt(cfg: Config, s: State, synced: bool)
    ensures var p := AfterInstalled(cfg, s, synced).point; p.SyncingParents? ==> p.at == |cfg.steps|
  {}

  lemma NearerInstall(cfg: Config, b: State, s: State)
    requires Undisturbed(cfg, b, s) && Committable(cfg, b.disk) && s.point.Installing?
    ensures SucceedStep(cfg, s).Some? && Nearer(cfg, s.point, SucceedStep(cfg, s).value.point)
  {
    InstallsExactly(cfg, s);
    CalmInstall(cfg, b, s);
    AfterInstalledAt(cfg, Installed(cfg, s, Rename(cfg, s.disk)), s.point.synced);
    NotOver(cfg, b, Install(cfg, s, s.point.synced).value);
    assert SucceedStep(cfg, s) == Install(cfg, s, s.point.synced);
  }

  lemma NearerParents(cfg: Config, b: State, s: State)
    requires Undisturbed(cfg, b, s) && Committable(cfg, b.disk) && s.point.SyncingParents?
    ensures SucceedStep(cfg, s).Some? && Nearer(cfg, s.point, SucceedStep(cfg, s).value.point)
  {
    CalmParents(cfg, b, s);
    assert SucceedStep(cfg, s) == SyncParentStep(cfg, s, s.point.at, s.point.synced, s.point.reason);
    NotOver(cfg, b, SucceedStep(cfg, s).value);
  }

  lemma NearerNow(cfg: Config, b: State, s: State)
    requires Undisturbed(cfg, b, s) && Committable(cfg, b.disk) && Ahead(cfg, s.point) > 0
    ensures SucceedStep(cfg, s).Some? && Nearer(cfg, s.point, SucceedStep(cfg, s).value.point)
  {
    if BeforeInstall(s.point) { NearerEarly(cfg, b, s); }
    else if s.point.Installing? { NearerInstall(cfg, b, s); }
    else { NearerParents(cfg, b, s); }
  }

  lemma Succeeds(cfg: Config, s: State) returns (t: State)
    requires cfg.Valid() && cfg.staged in s.disk.inodes && SucceedStep(cfg, s).Some?
    ensures SucceedStep(cfg, s) == Some(t) && Trace(cfg, [s, t], [Succeed]) && CalmStep(cfg, s, Succeed, t)
  {
    t := SucceedStep(cfg, s).value;
    assert StepAt(cfg, [s, t], [Succeed], 0);
  }

  lemma GoesAhead(cfg: Config, b: State, s: State) returns (t: State)
    requires Undisturbed(cfg, b, s) && Committable(cfg, b.disk) && Ahead(cfg, s.point) > 0
    ensures Trace(cfg, [s, t], [Succeed]) && Undisturbed(cfg, b, t) && OnTheWay(cfg, b, t)
    ensures Nearer(cfg, s.point, t.point)
  {
    NearerNow(cfg, b, s);
    t := Succeeds(cfg, s);
    StaysUndisturbed(cfg, b, s, Succeed, t);
  }

  lemma {:induction false} Finishes(cfg: Config, b: State, s: State) returns (states: seq<State>, run: seq<Action>)
    requires Undisturbed(cfg, b, s) && OnTheWay(cfg, b, s) && Committable(cfg, b.disk)
    requires s.point.Done? || Ahead(cfg, s.point) > 0
    ensures Trace(cfg, states, run) && states[0] == s && forall i | 0 <= i < |run| :: run[i] == Succeed
    ensures states[|run|].point.Done? && OnTheWay(cfg, b, states[|run|])
    decreases Ahead(cfg, s.point)
  {
    if s.point.Done? {
      states, run := [s], [];
    } else {
      var t := GoesAhead(cfg, b, s);
      var later, rest := Finishes(cfg, b, t);
      Precedes(cfg, s, Succeed, later, rest);
      states, run := [s] + later, [Succeed] + rest;
    }
  }

  lemma Precedes(cfg: Config, s: State, a: Action, states: seq<State>, run: seq<Action>)
    requires Trace(cfg, states, run) && Trace(cfg, [s, states[0]], [a])
    ensures Trace(cfg, [s] + states, [a] + run)
  {
    assert StepAt(cfg, [s, states[0]], [a], 0);
    forall k: nat | k < |[a] + run| ensures StepAt(cfg, [s] + states, [a] + run, k) {
      if k > 0 { assert StepAt(cfg, states, run, k - 1); }
    }
  }

  lemma CommitStarts(cfg: Config, s: State)
    requires Waiting(cfg, s)
    ensures Trace(cfg, [s, StartAttempt(cfg, s)], [Commit])
    ensures Undisturbed(cfg, s, StartAttempt(cfg, s)) && OnTheWay(cfg, s, StartAttempt(cfg, s))
  {
    assert StepAt(cfg, [s, StartAttempt(cfg, s)], [Commit], 0);
    StaysUndisturbed(cfg, s, s, Commit, StartAttempt(cfg, s));
  }

  /** And it does come to its end: where nothing stands in the way, calling commit and letting every native
      call succeed leads to the full success, whatever was there before: nothing, a file or a link. */
  lemma CommitFinishes(cfg: Config, s: State) returns (states: seq<State>, run: seq<Action>)
    requires Waiting(cfg, s) && Committable(cfg, s.disk)
    ensures Trace(cfg, states, run) && states[0] == s
    ensures |run| > 0 && run[0] == Commit && forall i | 0 < i < |run| :: run[i] == Succeed
    ensures states[|run|].point.Done? && states[|run|].reply == Achieved(cfg)
    ensures IsPublished(cfg, s.disk, states[|run|])
  {
    var o := StartAttempt(cfg, s);
    CommitStarts(cfg, s);
    states, run := Finishes(cfg, s, o);
    Precedes(cfg, s, Commit, states, run);
    states, run := [s] + states, [Commit] + run;
  }

  // ---- A destination that is still as the writer found it ----

  /** No file ever changes its kind. */
  lemma StepKeepsKind(cfg: Config, s: State, a: Action, t: State, i: Ino)
    requires Steps(cfg, s, a, t) && i in s.disk.inodes && i != cfg.staged
    ensures i in t.disk.inodes && t.disk.inodes[i].kind == s.disk.inodes[i].kind
  {
    if !StoresTo(a, i) { StepKeeps(cfg, s, a, t, i); }
  }

  lemma {:induction false} KindKept(cfg: Config, states: seq<State>, run: seq<Action>, k: nat, i: Ino)
    requires Trace(cfg, states, run) && k < |states| && i in states[0].disk.inodes && i != cfg.staged
    ensures i in states[k].disk.inodes && states[k].disk.inodes[i].kind == states[0].disk.inodes[i].kind
  {
    if k > 0 {
      KindKept(cfg, states, run, k - 1, i);
      assert StepAt(cfg, states, run, k - 1);
      StepKeepsKind(cfg, states[k - 1], run[k - 1], states[k], i);
    }
  }

  /** The destination was looked at when the writer was created, or there was nothing to see. */
  ghost predicate WasSeen(req: Request, d: Disk, dest: Entry) { !Deferred(req) || d.Cur(dest) == None }

  lemma {:induction false} InstallsGrow(cfg: Config, states: seq<State>, run: seq<Action>, j: nat, k: nat)
    requires cfg.Valid() && Trace(cfg, states, run) && j <= k < |states|
    ensures states[j].h.installs <= states[k].h.installs
    decreases k
  {
    if j < k {
      InstallsGrow(cfg, states, run, j, k - 1);
      StepAtRecorded(cfg, states, run, k - 1);
    }
  }

  lemma DestinationUntouched(cfg: Config, states: seq<State>, run: seq<Action>, k: nat)
    requires cfg.Valid() && Trace(cfg, states, run) && k < |states| && states[k].h.installs == 0
    requires LeftAlone(cfg, run, k)
    ensures states[k].disk.Cur(cfg.Dest()) == states[0].disk.Cur(cfg.Dest())
  {
    forall m | 0 <= m < k ensures !Touches(run[m], cfg.Dest()) && !InstallsOnce(states, m) {
      InstallsGrow(cfg, states, run, m + 1, k);
    }
    DestinationStays(cfg, states, run, 0, k);
  }

  /** In every run: as long as nobody else has rebound the destination or the staging name, nothing stands
      in the way of a commit. */
  lemma StaysCommittable(req: Request, d: Disk, cfg: Config, states: seq<State>, run: seq<Action>, k: nat)
    requires IsRun(req, d, cfg, states, run) && k < |states| && states[k].point.Idle? && states[k].open
    requires cfg.Valid() && WasSeen(req, d, cfg.Dest()) && !Overtaxed(cfg) && LeftAlone(cfg, run, k)
    ensures Waiting(cfg, states[k]) && Committable(cfg, states[k].disk)
    ensures states[k].disk.Cur(cfg.Staging()) == Some(cfg.staged)
  {
    StartsFrom(req, d);
    assert Inv(cfg, states[k]) by { KeepsTrace(cfg, states, run, k); }
    TouchedExactly(cfg, states, run, k);
    DestinationUntouched(cfg, states, run, k);
    assert Knows(req, d, cfg) by { BeginKnows(req, d); }
    FoundAgain(req, d, cfg, states, run, k);
  }

  lemma FoundAgain(req: Request, d: Disk, cfg: Config, states: seq<State>, run: seq<Action>, k: nat)
    requires IsRun(req, d, cfg, states, run) && cfg.Valid() && k < |states|
    requires states[k].disk.Cur(cfg.Dest()) == states[0].disk.Cur(cfg.Dest())
    ensures states[k].disk.Cur(cfg.Dest()) == d.Cur(cfg.Dest())
    ensures cfg.Dest() in d.names ==>
      && d.names[cfg.Dest()] in d.inodes && d.names[cfg.Dest()] in states[k].disk.inodes
      && states[k].disk.inodes[d.names[cfg.Dest()]].kind == d.inodes[d.names[cfg.Dest()]].kind
  {
    BeginKeeps(req, d);
    if cfg.Dest() in d.names { KindKept(cfg, states, run, k, d.names[cfg.Dest()]); }
  }

  lemma {:induction false} NothingMoreAccepted(cfg: Config, states: seq<State>, run: seq<Action>, k: nat)
    requires Trace(cfg, states, run) && k < |states| && forall i | 0 <= i < k :: !run[i].Write?
    ensures states[k].h.accepted == states[0].h.accepted
  {
    if k > 0 {
      NothingMoreAccepted(cfg, states, run, k - 1);
      assert StepAt(cfg, states, run, k - 1);
      StepAccepts(cfg, states[k - 1], run[k - 1], states[k]);
    }
  }

  /** So from every point of every run at which the owner has the writer, a commit can be carried through:
      it publishes the staging file with every byte written so far, over whatever was there. */
  lemma WritesArePublished(req: Request, d: Disk, cfg: Config, states: seq<State>, run: seq<Action>, k: nat)
    returns (later: seq<State>, rest: seq<Action>)
    requires IsRun(req, d, cfg, states, run) && k < |states| && states[k].point.Idle? && states[k].open
    requires cfg.Valid() && WasSeen(req, d, cfg.Dest()) && !Overtaxed(cfg) && LeftAlone(cfg, run, k)
    ensures Trace(cfg, later, rest) && later[0] == states[k]
    ensures |rest| > 0 && rest[0] == Commit && forall i | 0 < i < |rest| :: rest[i] == Succeed
    ensures var s := later[|rest|];
      && s.reply == Achieved(cfg) && s.disk.Cur(cfg.Dest()) == Some(cfg.staged)
      && cfg.staged in s.disk.inodes && s.disk.inodes[cfg.staged].data == Written(run, k)
  {
    StaysCommittable(req, d, cfg, states, run, k);
    later, rest := CommitFinishes(cfg, states[k]);
    assert Inv(cfg, later[|rest|]) by { KeepsTrace(cfg, later, rest, |rest|); }
    NothingMoreAccepted(cfg, later, rest, |rest|);
    assert states[0].h.accepted == [] by { StartsFrom(req, d); }
    TraceAccepts(cfg, states, run, k);
  }

  /** In every run the installation is refused if and only if the staging name is gone, there is an entry
      that the writer must not replace, or it is a directory. */
  lemma RefusedExactly(req: Request, d: Disk, cfg: Config, states: seq<State>, run: seq<Action>, k: nat)
    requires IsRun(req, d, cfg, states, run) && k < |states| && cfg.Valid() && cfg.staged in states[k].disk.inodes
    requires states[k].point.Installing? || states[k].point.Linking?
    ensures var now := states[k].disk;
      Next(cfg, states[k], Succeed) == None <==>
        || cfg.Staging() !in now.names
        || (cfg.Dest() in now.names
            && (MustNotReplace(req, d, cfg.Dest()) || IsKind(now, now.names[cfg.Dest()], Directory)))
  {
    NothingExisted(req, d, cfg, states, run);
    KeepsTrace(cfg, states, run, k);
    InstallsExactly(cfg, states[k]);
  }

  // ---- What an undisturbed cleanup comes to ----

  /** The cleanup ends well: there is nothing of the writer's left, or it can tell that the name is its own.
      A Host writer lets alone what is no regular file, a Rooted one on Unix balks at it. */
  predicate Removes(cfg: Config, d: Disk)
    requires cfg.Valid()
  {
    if cfg.platform == RootedWindows then true
    else if cfg.platform == RootedUnix && !cfg.identityKnown then false
    else if cfg.Staging() !in d.names then true
    else if !IsKind(d, d.names[cfg.Staging()], Regular) then cfg.platform == Host
    else cfg.identityKnown && d.names[cfg.Staging()] == cfg.staged
  }

  /** The name that is then taken away, if any, is the writer's own. */
  ghost predicate CleanedUp(cfg: Config, d: Disk, e: Disk)
    requires cfg.Valid()
  {
    && e.Cur(cfg.Dest()) == d.Cur(cfg.Dest())
    && e.Cur(cfg.Staging()) ==
         (if Removes(cfg, d) && d.Cur(cfg.Staging()) == Some(cfg.staged) then None else d.Cur(cfg.Staging()))
  }

  /** One or two calls that succeed carry a cleanup through. */
  lemma CleansUp(cfg: Config, s: State, why: Cleanup) returns (states: seq<State>, run: seq<Action>)
    requires Inv(cfg, s) && s.point == Checking(why)
    ensures Trace(cfg, states, run) && states[0] == s && forall i | 0 <= i < |run| :: run[i] == Succeed
    ensures var t := states[|run|];
      && t.h.installs == s.h.installs && CleanedUp(cfg, s.disk, t.disk)
      && t == if Removes(cfg, s.disk) then CleanupDone(cfg, s.(disk := t.disk, h := t.h), why)
              else CleanupFailed(cfg, s, why)
  {
    var c := Succeeds(cfg, s);
    if c.point.Removing? {
      OwnNameIsRemoved(cfg, s, c, why);
      var t := Succeeds(cfg, c);
      Precedes(cfg, s, Succeed, [c, t], [Succeed]);
      states, run := [s] + [c, t], [Succeed] + [Succeed];
    } else {
      CheckDecides(cfg, s, c, why);
      states, run := [s, c], [Succeed];
    }
  }

  lemma OwnNameIsRemoved(cfg: Config, s: State, c: State, why: Cleanup)
    requires Inv(cfg, s) && s.point == Checking(why) && SucceedStep(cfg, s) == Some(c) && c.point.Removing?
    ensures Removes(cfg, s.disk) && cfg.staged in c.disk.inodes && SucceedStep(cfg, c).Some?
    ensures var t := SucceedStep(cfg, c).value;
      && CleanedUp(cfg, s.disk, t.disk) && t.h.installs == s.h.installs
      && t == CleanupDone(cfg, s.(disk := t.disk, h := t.h), why)
  {
    assert c == CheckStaging(cfg, s, why);
    assert SucceedStep(cfg, c) == RemoveChecked(cfg, c, why);
  }

  lemma CheckDecides(cfg: Config, s: State, t: State, why: Cleanup)
    requires Inv(cfg, s) && s.point == Checking(why) && SucceedStep(cfg, s) == Some(t) && !t.point.Removing?
    ensures
      && CleanedUp(cfg, s.disk, t.disk) && t.h.installs == s.h.installs
      && t == if Removes(cfg, s.disk) then CleanupDone(cfg, s.(disk := t.disk, h := t.h), why)
              else CleanupFailed(cfg, s, why)
  {
    assert t == CheckStaging(cfg, s, why);
  }

  /** From every state in which the owner has an armed writer, an undisturbed abort removes the staging file
      and says so, exactly if it can tell the name is its own or nothing is left; otherwise the writer stays
      armed. The destination is not touched. */
  lemma AbortFinishes(cfg: Config, s: State) returns (states: seq<State>, run: seq<Action>)
    requires Inv(cfg, s) && s.point.Idle? && s.armed
    ensures Trace(cfg, states, run) && states[0] == s
    ensures |run| > 0 && run[0] == Abort && forall i | 0 < i < |run| :: run[i] == Succeed
    ensures var t := states[|run|];
      && t.point.Idle? && t.h.installs == 0 && CleanedUp(cfg, s.disk, t.disk)
      && t.reply == (if Removes(cfg, s.disk) then Aborted else AbortFailed) && t.armed == !Removes(cfg, s.disk)
  {
    var o := StartAbort(cfg, s);
    assert StepAt(cfg, [s, o], [Abort], 0);
    KeepsAbort(cfg, s);
    states, run := CleansUp(cfg, o, ForAbort);
    Precedes(cfg, s, Abort, states, run);
    states, run := [s] + states, [Abort] + run;
  }
}
