/** How the history of a run follows from its actions: who touched which name, which file, and when. */
module AtomicHistory {
  import opened Wrappers
  import opened Disk
  import opened AtomicProtocol
  import opened AtomicInvariant

  /** Another actor rebinds the entry. */
  predicate Touches(a: Action, e: Entry) {
    a.Other? && (a.step.OBind? || a.step.OUnbind? || a.step.OCreate?) && a.step.e == e
  }

  /** Another actor writes to the file. */
  predicate StoresTo(a: Action, i: Ino) { a.Other? && a.step.OStore? && a.step.i == i }

  // ---- One step ----

  /** What one step does to the record of the staging name and of the installation. */
  ghost predicate Recorded(cfg: Config, s: State, a: Action, t: State)
    requires cfg.Valid()
  {
    && t.h.original == s.h.original && t.h.quiet == s.h.quiet
    && t.h.stagingTouched == (s.h.stagingTouched || Touches(a, cfg.Staging()))
    && t.h.destTouched == (s.h.destTouched || Touches(a, cfg.Dest()))
    && (t.h.installs == s.h.installs ==>
          && t.h.stolen == s.h.stolen && t.h.published == s.h.published
          && t.h.destWindow == (s.h.destWindow || Touches(a, cfg.Dest())))
    && (t.h.installs != s.h.installs ==>
          && t.h.installs == s.h.installs + 1 && a == Succeed && (s.point.Installing? || s.point.Linking?)
          && t.h.stolen == s.h.stagingTouched && t.h.published == s.disk.Cur(cfg.Staging())
          && !t.h.destWindow)
  }

  lemma SucceedSteady(cfg: Config, s: State)
    requires cfg.Valid() && cfg.staged in s.disk.inodes
    requires SucceedStep(cfg, s).Some? && !s.point.Installing? && !s.point.Linking?
    ensures Steady(cfg, s, SucceedStep(cfg, s).value)
  {}

  lemma SteadyRecorded(cfg: Config, s: State, a: Action, t: State)
    requires cfg.Valid() && Steady(cfg, s, t) && !a.Other?
    ensures Recorded(cfg, s, a, t)
  {}

  lemma SucceedRecorded(cfg: Config, s: State)
    requires cfg.Valid() && cfg.staged in s.disk.inodes && SucceedStep(cfg, s).Some?
    ensures Recorded(cfg, s, Succeed, SucceedStep(cfg, s).value)
  {
    if s.point.Installing? {
      assert SucceedStep(cfg, s) == Install(cfg, s, s.point.synced);
    } else if s.point.Linking? {
      assert SucceedStep(cfg, s) == LinkStaging(cfg, s, s.point.synced);
    } else {
      SucceedSteady(cfg, s);
      SteadyRecorded(cfg, s, Succeed, SucceedStep(cfg, s).value);
    }
  }

  lemma FailRecorded(cfg: Config, s: State, a: Action, midway: Option<nat>)
    requires cfg.Valid() && cfg.staged in s.disk.inodes && FailStep(cfg, s, midway).Some? && !a.Other?
    ensures Recorded(cfg, s, a, FailStep(cfg, s, midway).value)
  {
    SteadyRecorded(cfg, s, a, FailStep(cfg, s, midway).value);
  }

  /** What rebinding an entry adds to the record. */
  ghost predicate Noted(cfg: Config, h: History, r: History, dest: bool, staging: bool)
    requires cfg.Valid()
  {
    && r.original == h.original && r.quiet == h.quiet && r.copied == h.copied
    && r.installs == h.installs && r.published == h.published && r.stolen == h.stolen
    && r.stagingTouched == (h.stagingTouched || staging)
    && r.destTouched == (h.destTouched || dest) && r.destWindow == (h.destWindow || dest)
  }

  lemma TouchNoted(cfg: Config, h: History, e: Entry)
    requires cfg.Valid()
    ensures Noted(cfg, h, Touch(cfg, h, e), e == cfg.Dest(), e == cfg.Staging())
  {
    assert cfg.Dest().name != cfg.Staging().name;
  }

  lemma OutsideTouches(cfg: Config, h: History, o: Outside)
    requires cfg.Valid()
    ensures Noted(cfg, h, OutsideHistory(cfg, h, o),
                  Touches(Other(o), cfg.Dest()), Touches(Other(o), cfg.Staging()))
  {
    if o.OBind? || o.OUnbind? || o.OCreate? { TouchNoted(cfg, h, o.e); }
  }

  lemma OutsideRecorded(cfg: Config, s: State, o: Outside)
    requires cfg.Valid() && OutsideStep(cfg, s, o).Some?
    ensures Recorded(cfg, s, Other(o), OutsideStep(cfg, s, o).value)
  {
    OutsideTouches(cfg, s.h, o);
    assert OutsideStep(cfg, s, o).value.h == OutsideHistory(cfg, s.h, o);
  }

  lemma CallRecorded(cfg: Config, s: State, a: Action)
    requires cfg.Valid() && cfg.staged in s.disk.inodes && CallerStep(cfg, s, a).Some?
    ensures Recorded(cfg, s, a, CallerStep(cfg, s, a).value)
  {}

  lemma StepRecorded(cfg: Config, s: State, a: Action, t: State)
    requires Steps(cfg, s, a, t)
    ensures Recorded(cfg, s, a, t)
  {
    if a == Succeed { SucceedRecorded(cfg, s); }
    else if a == Fail { FailRecorded(cfg, s, a, None); }
    else if a.FailMidway? { FailRecorded(cfg, s, a, Some(a.meta)); }
    else if a.Other? { OutsideRecorded(cfg, s, a.step); }
    else if a != Unsupported { CallRecorded(cfg, s, a); }
  }

  /** The file is what it was; synchronizing it may only have made it durable. */
  ghost predicate Kept(d: Disk, e: Disk, i: Ino) {
    && i in d.inodes && i in e.inodes
    && e.inodes[i].kind == d.inodes[i].kind
    && e.inodes[i].data == d.inodes[i].data && e.inodes[i].meta == d.inodes[i].meta
    && (d.inodes[i].durable ==> e.inodes[i].durable)
  }

  /** The writer changes no file but its staging file. */
  lemma SucceedKeeps(cfg: Config, s: State, i: Ino)
    requires cfg.Valid() && cfg.staged in s.disk.inodes && SucceedStep(cfg, s).Some?
    requires i in s.disk.inodes && i != cfg.staged
    ensures Kept(s.disk, SucceedStep(cfg, s).value.disk, i)
  {}

  lemma StepKeeps(cfg: Config, s: State, a: Action, t: State, i: Ino)
    requires Steps(cfg, s, a, t) && i in s.disk.inodes && i != cfg.staged && !StoresTo(a, i)
    ensures Kept(s.disk, t.disk, i)
  {
    if a == Succeed { SucceedKeeps(cfg, s, i); }
    else if a == Fail { FailKeeps(cfg, s, None, i); }
    else if a.FailMidway? { FailKeeps(cfg, s, Some(a.meta), i); }
    else if a.Other? { OutsideKeeps(s.disk, a.step, i); }
    else if a != Unsupported { CallKeeps(cfg, s, a, i); }
  }

  lemma FailKeeps(cfg: Config, s: State, midway: Option<nat>, i: Ino)
    requires cfg.Valid() && cfg.staged in s.disk.inodes && FailStep(cfg, s, midway).Some?
    requires i in s.disk.inodes && i != cfg.staged
    ensures Kept(s.disk, FailStep(cfg, s, midway).value.disk, i)
  {}

  lemma CallKeeps(cfg: Config, s: State, a: Action, i: Ino)
    requires cfg.Valid() && cfg.staged in s.disk.inodes && CallerStep(cfg, s, a).Some?
    requires i in s.disk.inodes && i != cfg.staged
    ensures Kept(s.disk, CallerStep(cfg, s, a).value.disk, i)
  {}

  lemma OutsideKeeps(d: Disk, o: Outside, i: Ino)
    requires i in d.inodes && !StoresTo(Other(o), i) && (o.OCreate? ==> o.i !in d.inodes)
    ensures Kept(d, OutsideDisk(d, o), i)
  {}

  // ---- Whole runs ----

  /** All bytes accepted by the first `k` actions of a run. */
  function Written(run: seq<Action>, k: nat): seq<Byte>
    requires k <= |run|
  {
    if k == 0 then [] else Written(run, k - 1) + BytesOf(run[k - 1])
  }

  lemma StepAccepts(cfg: Config, s: State, a: Action, t: State)
    requires Steps(cfg, s, a, t)
    ensures t.h.accepted == s.h.accepted + BytesOf(a)
  {}

  lemma {:induction false} TraceAccepts(cfg: Config, states: seq<State>, run: seq<Action>, k: nat)
    requires Trace(cfg, states, run) && k < |states| && states[0].h.accepted == []
    ensures states[k].h.accepted == Written(run, k)
  {
    if k > 0 {
      TraceAccepts(cfg, states, run, k - 1);
      assert StepAt(cfg, states, run, k - 1);
      StepAccepts(cfg, states[k - 1], run[k - 1], states[k]);
    }
  }

  /** Whether another actor rebound the entry in the first `k` actions. */
  ghost predicate TouchedBefore(run: seq<Action>, k: nat, e: Entry)
    requires k <= |run|
  {
    exists i: nat :: i < k && Touches(run[i], e)
  }

  lemma StepAtRecorded(cfg: Config, states: seq<State>, run: seq<Action>, k: nat)
    requires cfg.Valid() && Trace(cfg, states, run) && k < |run|
    ensures Recorded(cfg, states[k], run[k], states[k + 1])
  {
    assert StepAt(cfg, states, run, k);
    StepRecorded(cfg, states[k], run[k], states[k + 1]);
  }

  lemma {:induction false} TouchedExactly(cfg: Config, states: seq<State>, run: seq<Action>, k: nat)
    requires cfg.Valid() && Trace(cfg, states, run) && k < |states|
    requires !states[0].h.stagingTouched && !states[0].h.destTouched
    ensures states[k].h.stagingTouched <==> TouchedBefore(run, k, cfg.Staging())
    ensures states[k].h.destTouched <==> TouchedBefore(run, k, cfg.Dest())
    ensures states[k].h.original == states[0].h.original && states[k].h.quiet == states[0].h.quiet
  {
    if k > 0 {
      TouchedExactly(cfg, states, run, k - 1);
      StepAtRecorded(cfg, states, run, k - 1);
    }
  }

  /** Step `j` is the installation. */
  ghost predicate InstallsAt(states: seq<State>, j: nat) {
    j + 1 < |states| && states[j].h.installs == 0 && states[j + 1].h.installs == 1
  }

  /** What was installed was the writer's own exactly if nobody had touched the staging name by then. */
  lemma {:induction false} StolenExactly(cfg: Config, states: seq<State>, run: seq<Action>, j: nat, k: nat)
    requires Trace(cfg, states, run) && Inv(cfg, states[0]) && InstallsAt(states, j) && j < k < |states|
    ensures states[k].h.installs == 1 && states[k].h.stolen == states[j].h.stagingTouched
    ensures states[k].h.published == states[j].disk.Cur(cfg.Staging())
  {
    StepAtRecorded(cfg, states, run, k - 1);
    if j + 1 < k {
      StolenExactly(cfg, states, run, j, k - 1);
      assert states[k].h.installs <= 1 by { KeepsTrace(cfg, states, run, k); }
    }
  }

  /** After the installation the record of the destination says whether someone has rebound it since. */
  lemma {:induction false} WindowExactly(cfg: Config, states: seq<State>, run: seq<Action>, j: nat, k: nat)
    requires Trace(cfg, states, run) && Inv(cfg, states[0]) && InstallsAt(states, j) && j < k < |states|
    ensures states[k].h.destWindow <==> exists i: nat :: j < i < k && Touches(run[i], cfg.Dest())
  {
    StepAtRecorded(cfg, states, run, k - 1);
    if j + 1 < k {
      WindowExactly(cfg, states, run, j, k - 1);
      StolenExactly(cfg, states, run, j, k - 1);
      StolenExactly(cfg, states, run, j, k);
    }
  }

  /** A file that nobody else writes to keeps its bytes through the whole run. */
  lemma {:induction false} FileKept(cfg: Config, states: seq<State>, run: seq<Action>, k: nat, i: Ino)
    requires Trace(cfg, states, run) && k < |states| && i in states[0].disk.inodes && i != cfg.staged
    requires forall m | 0 <= m < k :: !StoresTo(run[m], i)
    ensures Kept(states[0].disk, states[k].disk, i)
  {
    if k > 0 {
      FileKept(cfg, states, run, k - 1, i);
      assert Kept(states[k - 1].disk, states[k].disk, i) by {
        assert StepAt(cfg, states, run, k - 1);
        StepKeeps(cfg, states[k - 1], run[k - 1], states[k], i);
      }
    }
  }

  // ---- What an attempt carries from one stage to the next ----

  /** The stages between observation and installation. */
  predicate Observed(p: Point) { p.Applying? || p.Syncing? || p.Verifying? }

  /** Where each stage before the installation goes when its call succeeds. */
  predicate Goes(cfg: Config, s: State, q: Point)
    requires cfg.Valid() && BeforeInstall(s.point)
  {
    match s.point
    case Observing => Over(q) || q == Applying(if cfg.regular then s.disk.Cur(cfg.Dest()) else None)
    case Applying(seen) => q == Syncing(seen)
    case Syncing(seen) => q == Verifying(seen, cfg.StagingSync() != NotRequired)
    case Verifying(_, synced) => Over(q) || q.Mismatched? || q == Installing(synced)
    case Mismatched => Over(q)
  }

  lemma EarlyGoes(cfg: Config, s: State)
    requires cfg.Valid() && cfg.staged in s.disk.inodes && SucceedStep(cfg, s).Some? && BeforeInstall(s.point)
    ensures Goes(cfg, s, SucceedStep(cfg, s).value.point)
  {
    if s.point.Observing? {
      assert SucceedStep(cfg, s) == Some(Observe(cfg, s));
    } else if s.point.Applying? {
      assert SucceedStep(cfg, s) == Some(ApplyMetadata(cfg, s, s.point.seen));
    } else if s.point.Syncing? {
      assert SucceedStep(cfg, s) == Some(SyncStaging(cfg, s, s.point.seen));
    } else if s.point.Verifying? {
      assert SucceedStep(cfg, s) == Some(Verify(cfg, s, s.point.seen, s.point.synced));
    } else {
      assert SucceedStep(cfg, s) == Some(ClassifyMismatch(cfg, s));
    }
  }

  lemma FailObserved(cfg: Config, s: State, midway: Option<nat>)
    requires cfg.Valid() && cfg.staged in s.disk.inodes && FailStep(cfg, s, midway).Some?
    requires Observed(FailStep(cfg, s, midway).value.point)
    ensures s.point.Syncing? && FailStep(cfg, s, midway).value.point == Verifying(s.point.seen, false)
  {}

  /** One step: the observation is carried on, or was just made. */
  lemma StepObserved(cfg: Config, s: State, a: Action, t: State)
    requires Steps(cfg, s, a, t) && Observed(t.point)
    ensures
      if Observed(s.point) then t.point.seen == s.point.seen
      else s.point.Observing? && a == Succeed && t.point.seen == if cfg.regular then s.disk.Cur(cfg.Dest()) else None
  {
    if a == Succeed {
      if BeforeInstall(s.point) { EarlyGoes(cfg, s); }
    } else if a == Fail {
      FailObserved(cfg, s, None);
    } else if a.FailMidway? {
      FailObserved(cfg, s, Some(a.meta));
    }
  }

  /** The observation that the attempt at `k` goes by was made at `i`. */
  ghost predicate ObservedAt(cfg: Config, states: seq<State>, run: seq<Action>, i: nat, k: nat)
    requires cfg.Valid()
  {
    && i < k < |states| && i < |run| && Observed(states[k].point)
    && states[i].point.Observing? && run[i] == Succeed
    && states[k].point.seen == (if cfg.regular then states[i].disk.Cur(cfg.Dest()) else None)
    && forall m | i < m <= k :: Observed(states[m].point)
  }

  lemma {:induction false} WasObserved(cfg: Config, states: seq<State>, run: seq<Action>, k: nat) returns (i: nat)
    requires cfg.Valid() && Trace(cfg, states, run) && k < |states|
    requires Observed(states[k].point) && !Observed(states[0].point)
    ensures ObservedAt(cfg, states, run, i, k)
  {
    assert StepAt(cfg, states, run, k - 1);
    StepObserved(cfg, states[k - 1], run[k - 1], states[k]);
    if Observed(states[k - 1].point) { i := WasObserved(cfg, states, run, k - 1); } else { i := k - 1; }
  }

  lemma GoesCarries(cfg: Config, s: State, q: Point)
    requires cfg.Valid() && BeforeInstall(s.point) && Goes(cfg, s, q)
    ensures
      if s.point.Syncing? then Flagged(q) && Flag(q) == (cfg.StagingSync() != NotRequired)
      else CarriesFlag(s.point, q)
  {}

  lemma SucceedLateFlag(cfg: Config, s: State)
    requires cfg.Valid() && cfg.staged in s.disk.inodes && SucceedStep(cfg, s).Some? && !BeforeInstall(s.point)
    ensures CarriesFlag(s.point, SucceedStep(cfg, s).value.point)
  {
    match s.point
    case Installing(synced) => assert SucceedStep(cfg, s) == Install(cfg, s, synced);
    case Linking(synced) => assert SucceedStep(cfg, s) == LinkStaging(cfg, s, synced);
    case Unlinking(synced, _) => assert SucceedStep(cfg, s) == Some(UnlinkStaging(cfg, s, synced));
    case Checking(why) => assert SucceedStep(cfg, s) == Some(CheckStaging(cfg, s, why));
    case Removing(why) => assert SucceedStep(cfg, s) == RemoveChecked(cfg, s, why);
    case SyncingParents(at, synced, reason) =>
      assert SucceedStep(cfg, s) == SyncParentStep(cfg, s, at, synced, reason);
  }

  lemma SucceedFlag(cfg: Config, s: State, t: State)
    requires cfg.Valid() && cfg.staged in s.disk.inodes && SucceedStep(cfg, s) == Some(t)
    ensures
      if s.point.Syncing? then Flagged(t.point) && Flag(t.point) == (cfg.StagingSync() != NotRequired)
      else CarriesFlag(s.point, t.point)
  {
    if BeforeInstall(s.point) {
      EarlyGoes(cfg, s);
      GoesCarries(cfg, s, t.point);
    } else {
      SucceedLateFlag(cfg, s);
    }
  }

  lemma FailEarlyFlag(cfg: Config, s: State, midway: Option<nat>)
    requires cfg.Valid() && cfg.staged in s.disk.inodes && FailStep(cfg, s, midway).Some? && BeforeInstall(s.point)
    ensures var q := FailStep(cfg, s, midway).value.point;
      if s.point.Syncing? then Flagged(q) ==> !Flag(q) else CarriesFlag(s.point, q)
  {}

  lemma FailLateFlag(cfg: Config, s: State, midway: Option<nat>)
    requires cfg.Valid() && cfg.staged in s.disk.inodes && FailStep(cfg, s, midway).Some? && !BeforeInstall(s.point)
    ensures CarriesFlag(s.point, FailStep(cfg, s, midway).value.point)
  {}

  lemma FailFlag(cfg: Config, s: State, midway: Option<nat>)
    requires cfg.Valid() && cfg.staged in s.disk.inodes && FailStep(cfg, s, midway).Some?
    ensures var q := FailStep(cfg, s, midway).value.point;
      if s.point.Syncing? then Flagged(q) ==> !Flag(q) else CarriesFlag(s.point, q)
  {
    if BeforeInstall(s.point) { FailEarlyFlag(cfg, s, midway); } else { FailLateFlag(cfg, s, midway); }
  }

  lemma StepFlag(cfg: Config, s: State, a: Action, t: State)
    requires Steps(cfg, s, a, t) && Flagged(t.point)
    ensures
      if s.point.Syncing? then Flag(t.point) == (a == Succeed && cfg.StagingSync() != NotRequired)
      else Flagged(s.point) && Flag(t.point) == Flag(s.point)
  {
    if a == Succeed {
      SucceedFlag(cfg, s, t);
    } else if a == Fail {
      FailFlag(cfg, s, None);
    } else if a.FailMidway? {
      FailFlag(cfg, s, Some(a.meta));
    }
  }

  /** Step `i` was the synchronization of the staging file that the attempt at `k` goes by. */
  ghost predicate SyncedAt(cfg: Config, states: seq<State>, run: seq<Action>, i: nat, k: nat) {
    && i < k < |states| && i < |run| && states[i].point.Syncing? && Flagged(states[k].point)
    && (Flag(states[k].point) <==> run[i] == Succeed && cfg.StagingSync() != NotRequired)
    && forall m | i < m <= k :: Flagged(states[m].point)
  }

  lemma {:induction false} WasSynced(cfg: Config, states: seq<State>, run: seq<Action>, k: nat) returns (i: nat)
    requires Trace(cfg, states, run) && k < |states| && Flagged(states[k].point) && !Flagged(states[0].point)
    ensures SyncedAt(cfg, states, run, i, k)
  {
    assert StepAt(cfg, states, run, k - 1);
    StepFlag(cfg, states[k - 1], run[k - 1], states[k]);
    if states[k - 1].point.Syncing? { i := k - 1; } else { i := WasSynced(cfg, states, run, k - 1); }
  }

  // ---- Where reports and metadata come from ----

  /** Metadata counts as copied only if it was read from the observed destination. */
  ghost predicate CopiedAt(states: seq<State>, run: seq<Action>, i: nat, meta: nat) {
    && i < |states| && i < |run| && run[i] == Succeed
    && states[i].point.Applying? && states[i].point.seen.Some?
    && states[i].point.seen.value in states[i].disk.inodes
    && states[i].disk.inodes[states[i].point.seen.value].meta == meta
  }

  lemma SucceedCopies(cfg: Config, s: State)
    requires cfg.Valid() && cfg.staged in s.disk.inodes && SucceedStep(cfg, s).Some?
    ensures var copied := SucceedStep(cfg, s).value.h.copied;
      if s.point.Applying? then CopiesSeen(s.disk, s.point.seen, copied) else copied == s.h.copied
  {
    if s.point.Applying? {
      assert SucceedStep(cfg, s) == Some(ApplyMetadata(cfg, s, s.point.seen));
    } else {
      SucceedCopiesNothing(cfg, s);
    }
  }

  lemma SucceedCopiesNothing(cfg: Config, s: State)
    requires cfg.Valid() && cfg.staged in s.disk.inodes && SucceedStep(cfg, s).Some? && !s.point.Applying?
    ensures SucceedStep(cfg, s).value.h.copied == s.h.copied
  {
    match s.point
    case Observing => assert SucceedStep(cfg, s) == Some(Observe(cfg, s));
    case Syncing(seen) => assert SucceedStep(cfg, s) == Some(SyncStaging(cfg, s, seen));
    case Verifying(seen, synced) => assert SucceedStep(cfg, s) == Some(Verify(cfg, s, seen, synced));
    case Mismatched => assert SucceedStep(cfg, s) == Some(ClassifyMismatch(cfg, s));
    case Installing(synced) => assert SucceedStep(cfg, s) == Install(cfg, s, synced);
    case Linking(synced) => assert SucceedStep(cfg, s) == LinkStaging(cfg, s, synced);
    case Unlinking(synced, _) => assert SucceedStep(cfg, s) == Some(UnlinkStaging(cfg, s, synced));
    case Checking(why) => assert SucceedStep(cfg, s) == Some(CheckStaging(cfg, s, why));
    case Removing(why) => assert SucceedStep(cfg, s) == RemoveChecked(cfg, s, why);
    case SyncingParents(at, synced, reason) =>
      assert SucceedStep(cfg, s) == SyncParentStep(cfg, s, at, synced, reason);
  }

  lemma StepCopies(cfg: Config, s: State, a: Action, t: State)
    requires Steps(cfg, s, a, t)
    ensures
      || t.h.copied == s.h.copied || t.h.copied == None
      || (&& a == Succeed && s.point.Applying? && s.point.seen.Some? && s.point.seen.value in s.disk.inodes
          && t.h.copied == Some(s.disk.inodes[s.point.seen.value].meta))
  {
    if a == Succeed {
      SucceedCopies(cfg, s);
    } else if a == Fail {
      assert FailStep(cfg, s, None) == Some(t);
    } else if a.FailMidway? {
      assert FailStep(cfg, s, Some(a.meta)) == Some(t);
    } else if a.Other? {
      OutsideTouches(cfg, s.h, a.step);
      assert t.h == OutsideHistory(cfg, s.h, a.step);
    } else if a != Unsupported {
      assert CallerStep(cfg, s, a) == Some(t);
    }
  }

  lemma {:induction false} WasCopied(cfg: Config, states: seq<State>, run: seq<Action>, k: nat) returns (i: nat)
    requires Trace(cfg, states, run) && k < |states| && states[k].h.copied.Some? && states[0].h.copied == None
    ensures i < k && CopiedAt(states, run, i, states[k].h.copied.value)
  {
    if states[k].h.copied == states[k - 1].h.copied {
      i := WasCopied(cfg, states, run, k - 1);
    } else {
      i := k - 1;
      assert StepAt(cfg, states, run, k - 1);
      StepCopies(cfg, states[k - 1], run[k - 1], states[k]);
    }
  }

  // ---- From a check to the step that relies on it ----

  /** Into and through the stage between verification and installation. */
  lemma StepInstalling(cfg: Config, s: State, a: Action, t: State)
    requires Steps(cfg, s, a, t) && t.point.Installing?
    ensures
      if s.point.Installing? then a.Other?
      else
        && s.point.Verifying? && a == Succeed && t.disk == s.disk
        && (s.point.seen.Some? ==> s.disk.Cur(cfg.Dest()) == s.point.seen)
  {
    if a == Succeed {
      if s.point.Verifying? {
        assert t == Verify(cfg, s, s.point.seen, s.point.synced);
      } else {
        SucceedElsewhere(s.point, t.point);
      }
    } else if a == Fail {
      FailElsewhere(cfg, s, None);
    } else if a.FailMidway? {
      FailElsewhere(cfg, s, Some(a.meta));
    }
  }

  lemma SucceedElsewhere(p: Point, q: Point)
    requires MayFollow(p, q)
    ensures !p.Verifying? ==> !q.Installing?
    ensures !p.Checking? ==> !q.Removing?
  {}

  lemma FailElsewhere(cfg: Config, s: State, midway: Option<nat>)
    requires cfg.Valid() && cfg.staged in s.disk.inodes && FailStep(cfg, s, midway).Some?
    ensures !FailStep(cfg, s, midway).value.point.Installing? && !FailStep(cfg, s, midway).value.point.Removing?
  {}

  /** The verification that the installation at `k` relies on was made at `v`. */
  ghost predicate VerifiedAt(cfg: Config, states: seq<State>, run: seq<Action>, v: nat, k: nat)
    requires cfg.Valid()
  {
    && v < k < |states| && k <= |run| && states[v].point.Verifying? && run[v] == Succeed
    && states[v + 1].disk == states[v].disk
    && (states[v].point.seen.Some? ==> states[v].disk.Cur(cfg.Dest()) == states[v].point.seen)
    && (forall m | v < m <= k :: states[m].point.Installing?)
    && (forall m | v < m < k :: run[m].Other?)
  }

  lemma {:induction false} WasVerified(cfg: Config, states: seq<State>, run: seq<Action>, k: nat) returns (v: nat)
    requires cfg.Valid() && Trace(cfg, states, run) && k < |states|
    requires states[k].point.Installing? && !states[0].point.Installing?
    ensures VerifiedAt(cfg, states, run, v, k)
  {
    assert StepAt(cfg, states, run, k - 1);
    StepInstalling(cfg, states[k - 1], run[k - 1], states[k]);
    if states[k - 1].point.Installing? { v := WasVerified(cfg, states, run, k - 1); } else { v := k - 1; }
  }

  /** Into and through the stage between identity check and removal. */
  lemma StepRemoving(cfg: Config, s: State, a: Action, t: State)
    requires Steps(cfg, s, a, t) && t.point.Removing?
    ensures
      if s.point.Removing? then a.Other?
      else s.point.Checking? && a == Succeed && t.disk == s.disk && s.disk.Cur(cfg.Staging()) == Some(cfg.staged)
  {
    if a == Succeed {
      if s.point.Checking? {
        assert t == CheckStaging(cfg, s, s.point.why);
      } else {
        SucceedElsewhere(s.point, t.point);
      }
    } else if a == Fail {
      FailElsewhere(cfg, s, None);
    } else if a.FailMidway? {
      FailElsewhere(cfg, s, Some(a.meta));
    }
  }

  /** The identity check that the removal at `k` relies on was made at `c`. */
  ghost predicate CheckedAt(cfg: Config, states: seq<State>, run: seq<Action>, c: nat, k: nat)
    requires cfg.Valid()
  {
    && c < k < |states| && k <= |run| && states[c].point.Checking? && run[c] == Succeed
    && states[c + 1].disk == states[c].disk && states[c].disk.Cur(cfg.Staging()) == Some(cfg.staged)
    && (forall m | c < m <= k :: states[m].point.Removing?)
    && (forall m | c < m < k :: run[m].Other?)
  }

  lemma {:induction false} WasChecked(cfg: Config, states: seq<State>, run: seq<Action>, k: nat) returns (c: nat)
    requires cfg.Valid() && Trace(cfg, states, run) && k < |states|
    requires states[k].point.Removing? && !states[0].point.Removing?
    ensures CheckedAt(cfg, states, run, c, k)
  {
    assert StepAt(cfg, states, run, k - 1);
    StepRemoving(cfg, states[k - 1], run[k - 1], states[k]);
    if states[k - 1].point.Removing? { c := WasChecked(cfg, states, run, k - 1); } else { c := k - 1; }
  }

  /** While only others move, an entry stays as it is unless one of them rebinds it. */
  lemma {:induction false} OthersLeave(cfg: Config, states: seq<State>, run: seq<Action>, j: nat, k: nat, e: Entry)
    requires Trace(cfg, states, run) && j <= k < |states|
    requires forall m | j <= m < k :: run[m].Other? && !Touches(run[m], e)
    ensures states[k].disk.Cur(e) == states[j].disk.Cur(e)
    decreases k
  {
    if j < k {
      OthersLeave(cfg, states, run, j, k - 1, e);
      assert StepAt(cfg, states, run, k - 1);
      OutsideLeaves(states[k - 1].disk, run[k - 1].step, e);
    }
  }

  lemma OutsideLeaves(d: Disk, o: Outside, e: Entry)
    requires !Touches(Other(o), e)
    ensures OutsideDisk(d, o).Cur(e) == d.Cur(e)
  {}
}
