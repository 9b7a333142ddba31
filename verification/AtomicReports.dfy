/** What other actors, owners and callers can rely on: no overwriting, retries, truthful reports and
    ownership of the staging name. */
module AtomicReports {
  import opened Wrappers
  import opened Disk
  import opened AtomicProtocol
  import opened AtomicInvariant
  import opened AtomicHistory
  import opened AtomicBegin
  import opened AtomicTheorems

  predicate ByWriter(a: Action) { !a.Other? }

  predicate Native(a: Action) { a == Succeed || a == Fail || a.FailMidway? }

  // ---- Other actors at the destination ----

  lemma OnlyInstallMovesDest(cfg: Config, s: State, a: Action, t: State)
    requires Steps(cfg, s, a, t) && ByWriter(a)
    ensures
      || (t.disk.Cur(cfg.Dest()) == s.disk.Cur(cfg.Dest()) && t.h.installs == s.h.installs)
      || (t.h.installs == s.h.installs + 1 && a == Succeed && (s.point.Installing? || s.point.Linking?))
  {
    if a == Succeed {
      if !s.point.Installing? && !s.point.Linking? { SucceedSteady(cfg, s); }
    } else if a == Fail {
      assert FailStep(cfg, s, None) == Some(t);
    } else if a.FailMidway? {
      assert FailStep(cfg, s, Some(a.meta)) == Some(t);
    } else if a != Unsupported {
      assert CallerStep(cfg, s, a) == Some(t);
    }
  }

  lemma OutsideMovesDest(cfg: Config, s: State, o: Outside)
    requires cfg.Valid() && OutsideStep(cfg, s, o).Some? && !Touches(Other(o), cfg.Dest())
    ensures OutsideStep(cfg, s, o).value.disk.Cur(cfg.Dest()) == s.disk.Cur(cfg.Dest())
  {}

  /** Between any two points of a run the destination stays as it is, unless the writer installs or
      someone else rebinds it: no other step of the writer moves it. */
  lemma {:induction false} DestinationStays(cfg: Config, states: seq<State>, run: seq<Action>, j: nat, k: nat)
    requires Trace(cfg, states, run) && cfg.Valid() && j <= k < |states|
    requires forall m | j <= m < k :: !Touches(run[m], cfg.Dest()) && !InstallsOnce(states, m)
    ensures states[k].disk.Cur(cfg.Dest()) == states[j].disk.Cur(cfg.Dest())
    decreases k
  {
    if j < k {
      DestinationStays(cfg, states, run, j, k - 1);
      assert StepAt(cfg, states, run, k - 1);
      var s, a, t := states[k - 1], run[k - 1], states[k];
      assert !InstallsOnce(states, k - 1) && !Touches(a, cfg.Dest());
      if a.Other? { OutsideMovesDest(cfg, s, a.step); } else { OnlyInstallMovesDest(cfg, s, a, t); }
    }
  }

  ghost predicate InstallsOnce(states: seq<State>, m: nat) {
    m + 1 < |states| && states[m + 1].h.installs == states[m].h.installs + 1
  }

  lemma NoInstallOverEntry(cfg: Config, s: State, t: State)
    requires Inv(cfg, s) && !cfg.existed && cfg.Dest() in s.disk.names
    requires Steps(cfg, s, Succeed, t)
    ensures !s.point.Installing? && !s.point.Linking?
  {}

  lemma CreatorSurvivesStep(cfg: Config, s: State, a: Action, t: State)
    requires Inv(cfg, s) && !cfg.existed && cfg.Dest() in s.disk.names && s.h.installs == 0
    requires Steps(cfg, s, a, t) && ByWriter(a)
    ensures t.disk.Cur(cfg.Dest()) == s.disk.Cur(cfg.Dest()) && t.h.installs == 0
  {
    OnlyInstallMovesDest(cfg, s, a, t);
    if a == Succeed { NoInstallOverEntry(cfg, s, t); }
  }

  /** The writer must not replace anything: it was asked to create, was told not to look at its destination,
      or found nothing there. */
  ghost predicate MustNotReplace(req: Request, d: Disk, dest: Entry) {
    req.createNew || Deferred(req) || d.Cur(dest) == None
  }

  lemma NothingExisted(req: Request, d: Disk, cfg: Config, states: seq<State>, run: seq<Action>)
    requires IsRun(req, d, cfg, states, run)
    ensures cfg.Valid() && Inv(cfg, states[0])
    ensures MustNotReplace(req, d, cfg.Dest()) <==> !cfg.existed
  {
    BeginEstablishes(req, d);
    BeginKnows(req, d);
  }

  /** In every interleaving with other actors: such a writer never changes a destination entry that is
      there, at any of its steps. */
  lemma NeverReplacesEntry(req: Request, d: Disk, cfg: Config, states: seq<State>, run: seq<Action>, k: nat)
    requires IsRun(req, d, cfg, states, run) && cfg.Valid() && MustNotReplace(req, d, cfg.Dest())
    requires k < |run| && ByWriter(run[k]) && cfg.Dest() in states[k].disk.names
    ensures states[k + 1].disk.Cur(cfg.Dest()) == states[k].disk.Cur(cfg.Dest())
    ensures states[k + 1].h.installs == states[k].h.installs
  {
    NothingExisted(req, d, cfg, states, run);
    KeepsTrace(cfg, states, run, k);
    assert StepAt(cfg, states, run, k);
    OnlyInstallMovesDest(cfg, states[k], run[k], states[k + 1]);
    if run[k] == Succeed { NoInstallOverEntry(cfg, states[k], states[k + 1]); }
  }

  /** An entry that someone else created at the destination of such a writer survives everything that
      happens from then on, as long as nobody else rebinds it, and that writer never commits. */
  lemma NeverOverwritesCreator(req: Request, d: Disk, cfg: Config, states: seq<State>, run: seq<Action>, j: nat, k: nat)
    requires IsRun(req, d, cfg, states, run) && cfg.Valid() && MustNotReplace(req, d, cfg.Dest())
    requires j <= k < |states| && cfg.Dest() in states[j].disk.names && states[j].h.installs == 0
    requires forall i | j <= i < k :: !Touches(run[i], cfg.Dest())
    ensures states[k].disk.Cur(cfg.Dest()) == states[j].disk.Cur(cfg.Dest())
    ensures states[k].h.installs == 0 && !states[k].reply.Committed?
  {
    NothingExisted(req, d, cfg, states, run);
    CreatorSurvives(cfg, states, run, j, k);
    KeepsTrace(cfg, states, run, k);
  }

  lemma {:induction false} CreatorSurvives(cfg: Config, states: seq<State>, run: seq<Action>, j: nat, k: nat)
    requires Trace(cfg, states, run) && j <= k < |states| && Inv(cfg, states[0])
    requires !cfg.existed && cfg.Dest() in states[j].disk.names && states[j].h.installs == 0
    requires forall i | j <= i < k :: !Touches(run[i], cfg.Dest())
    ensures states[k].disk.Cur(cfg.Dest()) == states[j].disk.Cur(cfg.Dest()) && states[k].h.installs == 0
    decreases k
  {
    if j < k {
      CreatorSurvives(cfg, states, run, j, k - 1);
      KeepsTrace(cfg, states, run, k - 1);
      var s, a, t := states[k - 1], run[k - 1], states[k];
      assert t.disk.Cur(cfg.Dest()) == s.disk.Cur(cfg.Dest()) && t.h.installs == 0 by {
        assert StepAt(cfg, states, run, k - 1);
        if a.Other? {
          OutsideMovesDest(cfg, s, a.step);
          StepRecorded(cfg, s, a, t);
        } else {
          CreatorSurvivesStep(cfg, s, a, t);
        }
      }
    }
  }

  /** In every run: the installation at `j` displaces nothing if the destination was absent at the start.
      If it was a regular file, the installation displaces what this attempt verified at step `v`, unless
      someone rebinds the destination strictly between that verification and the installation. */
  lemma OnlyWindowIsVerifyToInstall(cfg: Config, states: seq<State>, run: seq<Action>, j: nat) returns (v: nat)
    requires Trace(cfg, states, run) && Inv(cfg, states[0]) && states[0].point.Idle? && InstallsAt(states, j)
    ensures !cfg.existed ==> states[j].disk.Cur(cfg.Dest()) == None
    ensures cfg.regular ==>
      && VerifiedAt(cfg, states, run, v, j) && states[v].disk.Cur(cfg.Dest()) == states[v].point.seen
      && (states[j].disk.Cur(cfg.Dest()) == states[v].disk.Cur(cfg.Dest())
          || exists i: nat :: v < i < j && Touches(run[i], cfg.Dest()))
  {
    v := 0;
    KeepsTrace(cfg, states, run, j);
    StepAtRecorded(cfg, states, run, j);
    assert !cfg.existed ==> states[j].disk.Cur(cfg.Dest()) == None by {
      assert StepAt(cfg, states, run, j);
      if !cfg.existed && cfg.Dest() in states[j].disk.names {
        NoInstallOverEntry(cfg, states[j], states[j + 1]);
      }
    }
    if cfg.regular {
      v := WasVerified(cfg, states, run, j);
      assert states[v].point.seen.Some? by { KeepsTrace(cfg, states, run, v); }
      if forall i: nat :: v < i < j ==> !Touches(run[i], cfg.Dest()) {
        OthersLeave(cfg, states, run, v + 1, j, cfg.Dest());
      }
    }
  }

  /** A Windows writer says at once whether the destination is gone or another one. */
  function WindowsMismatch(cfg: Config, d: Disk): Reply
    requires cfg.Valid()
  {
    Failed(Report(if d.Cur(cfg.Dest()) == None then ReadDestinationMetadata else ReplaceDestination, Unchanged), true)
  }

  ghost predicate Verified(cfg: Config, s: State, t: State)
    requires cfg.Valid() && s.point.Verifying?
  {
    && t.disk == s.disk
    && (t.point.Installing? <==> s.disk.Cur(cfg.Dest()) == s.point.seen)
    && (!t.point.Installing? ==>
          && t.open && t.armed && t.h == s.h
          && if cfg.Unix() then t.point.Mismatched? else t.point.Idle? && t.reply == WindowsMismatch(cfg, s.disk))
  }

  lemma VerifyDecides(cfg: Config, s: State)
    requires Inv(cfg, s) && s.point.Verifying? && cfg.regular
    ensures Verified(cfg, s, Verify(cfg, s, s.point.seen, s.point.synced))
  {}

  /** In every run: a verification lets the installation start if and only if the destination names what
      it named when this attempt observed it, at some earlier step `i`. Otherwise nothing has changed,
      the staging handle is still open, and the attempt is over or about to be. */
  lemma VerificationIsExact(cfg: Config, states: seq<State>, run: seq<Action>, k: nat) returns (i: nat)
    requires Trace(cfg, states, run) && k < |run| && Inv(cfg, states[0]) && states[0].point.Idle?
    requires cfg.regular && states[k].point.Verifying? && run[k] == Succeed
    ensures ObservedAt(cfg, states, run, i, k)
    ensures states[k + 1].point.Installing? <==> states[k].disk.Cur(cfg.Dest()) == states[i].disk.Cur(cfg.Dest())
    ensures !states[k + 1].point.Installing? ==>
      && states[k + 1].disk == states[k].disk && states[k + 1].open && states[k + 1].armed
      && states[k + 1].h == states[k].h
      && if cfg.Unix() then states[k + 1].point.Mismatched?
         else HandedBack(states[k + 1]) && states[k + 1].reply == WindowsMismatch(cfg, states[k].disk)
  {
    i := WasObserved(cfg, states, run, k);
    KeepsTrace(cfg, states, run, k);
    VerifyDecides(cfg, states[k]);
    assert StepAt(cfg, states, run, k);
  }

  predicate HandedBack(s: State) { s.point.Idle? && s.open && s.armed && s.reply.Failed? && s.reply.retained }

  /** After a mismatch only other actors move until the writer's next step, which changes nothing and
      hands the writer back; Missing is reported exactly if that look finds no destination. */
  lemma {:induction false} MismatchHandsBack(cfg: Config, states: seq<State>, run: seq<Action>, j: nat, k: nat)
    requires Trace(cfg, states, run) && Inv(cfg, states[0]) && j <= k < |run| && states[j].point.Mismatched?
    requires (forall m | j <= m < k :: run[m].Other?) && !run[k].Other?
    ensures HandedBack(states[k + 1]) && states[k + 1].disk == states[k].disk && states[k + 1].h == states[k].h
    ensures states[k + 1].reply.failure.stage == ReplaceDestination
    ensures states[k + 1].reply.failure.destination == Missing <==>
      run[k] == Succeed && states[k].disk.Cur(cfg.Dest()) == None
  {
    StaysMismatched(cfg, states, run, j, k);
    KeepsTrace(cfg, states, run, k);
    assert StepAt(cfg, states, run, k);
    MismatchEnds(cfg, states[k], run[k], states[k + 1]);
  }

  lemma {:induction false} StaysMismatched(cfg: Config, states: seq<State>, run: seq<Action>, j: nat, k: nat)
    requires Trace(cfg, states, run) && j <= k < |states| && states[j].point.Mismatched?
    requires forall m | j <= m < k :: run[m].Other?
    ensures states[k].point.Mismatched?
    decreases k
  {
    if j < k {
      StaysMismatched(cfg, states, run, j, k - 1);
      assert StepAt(cfg, states, run, k - 1);
    }
  }

  lemma MismatchEnds(cfg: Config, s: State, a: Action, t: State)
    requires Inv(cfg, s) && s.point.Mismatched? && ByWriter(a) && Steps(cfg, s, a, t)
    ensures HandedBack(t) && t.disk == s.disk && t.h == s.h && t.reply.failure.stage == ReplaceDestination
    ensures t.reply.failure.destination == Missing <==> a == Succeed && s.disk.Cur(cfg.Dest()) == None
  {}

  // ---- Retries ----

  /** Over any mix of writes, failed attempts and retries: the staged bytes are exactly the accepted
      writes in order, and the installation takes effect at most once. A success has installed, and what
      it put at the destination is that file exactly if the staging name was still the writer's own. */
  lemma PublishesWritesOnce(req: Request, d: Disk, cfg: Config, states: seq<State>, run: seq<Action>, k: nat)
    requires IsRun(req, d, cfg, states, run) && k < |states|
    ensures cfg.Valid()
    ensures var s := states[k];
      && cfg.staged in s.disk.inodes && s.disk.inodes[cfg.staged].data == Written(run, k)
      && s.h.installs <= 1
      && (s.reply.Committed? ==> s.h.installs == 1 && s.point == Done)
      && (s.h.installs == 1 ==> (s.h.published == Some(cfg.staged) <==> !s.h.stolen))
      && (s.h.installs == 1 && !s.h.destWindow ==> s.disk.Cur(cfg.Dest()) == s.h.published)
      && (s.reply.Committed? && !s.h.stagingTouched ==> s.disk.Cur(cfg.Staging()) == None)
  {
    BeginEstablishes(req, d);
    KeepsTrace(cfg, states, run, k);
    TraceAccepts(cfg, states, run, k);
  }

  /** An installation publishes the staging file exactly if the staging name names it just before. */
  lemma TakesItsOwn(cfg: Config, states: seq<State>, run: seq<Action>, j: nat)
    requires Trace(cfg, states, run) && Inv(cfg, states[0]) && InstallsAt(states, j)
    ensures states[j + 1].h.published == Some(cfg.staged) <==> states[j].disk.Cur(cfg.Staging()) == Some(cfg.staged)
  {
    StolenExactly(cfg, states, run, j, j + 1);
  }

  /** In every run: what step `j` installed is the staging file, with the bytes written by then, if and
      only if nobody had rebound the staging name before step `j`. A later rebinding does no harm. */
  lemma PublishesItsOwnExactly(req: Request, d: Disk, cfg: Config, states: seq<State>, run: seq<Action>,
                               j: nat, k: nat)
    requires IsRun(req, d, cfg, states, run) && InstallsAt(states, j) && j < k < |states|
    ensures cfg.Valid()
    ensures states[k].h.published == Some(cfg.staged) <==> !TouchedBefore(run, j, cfg.Staging())
    ensures states[k].h.stolen <==> TouchedBefore(run, j, cfg.Staging())
  {
    StartsFrom(req, d);
    KeepsTrace(cfg, states, run, k);
    StolenExactly(cfg, states, run, j, k);
    TouchedExactly(cfg, states, run, j);
  }

  /** A commit that has to preserve the metadata of a regular destination installs the staging file with
      metadata that was read, at some step of the run, from the destination as it was observed. */
  lemma MetadataIsPreserved(req: Request, d: Disk, cfg: Config, states: seq<State>, run: seq<Action>, k: nat)
    returns (i: nat)
    requires IsRun(req, d, cfg, states, run) && k < |states| && states[k].h.installs == 1
    requires cfg.regular && cfg.policy == PreserveExisting
    ensures cfg.staged in states[k].disk.inodes
    ensures i < k && CopiedAt(states, run, i, states[k].disk.inodes[cfg.staged].meta)
  {
    StartsFrom(req, d);
    KeepsTrace(cfg, states, run, k);
    i := WasCopied(cfg, states, run, k);
  }

  /** A failed attempt hands the writer back exactly while its staging handle is open, which on Unix
      it is exactly until an installation is attempted; any other failure ends the writer. */
  lemma HandedBackExactly(cfg: Config, s: State)
    requires Reachable(cfg, s) && s.reply.Failed?
    ensures s.reply.retained <==> s.point.Idle?
    ensures cfg.Unix() ==> (s.reply.retained <==> s.open)
    ensures cfg.Unix() && s.reply.retained ==> !s.h.attempted
    ensures !s.reply.retained ==> s.h.attempted || s.h.finalized
    ensures s.reply.retained ==> s.armed && s.h.installs == 0
  {
    ReachableInv(cfg, s);
  }

  // ---- Reports ----

  /** The reported destination state is true: Unchanged and Missing mean that this writer installed
      nothing, Replaced that it did. */
  lemma FailureIsTruthful(cfg: Config, s: State)
    requires Reachable(cfg, s) && s.reply.Failed?
    ensures s.reply.failure.destination == Replaced <==> s.h.installs == 1
    ensures s.reply.failure.destination == Replaced && !s.h.destWindow ==> s.disk.Cur(cfg.Dest()) == s.h.published
    ensures s.reply.failure.destination == Replaced ==> (s.h.published == Some(cfg.staged) <==> !s.h.stolen)
    ensures s.reply.retained ==> s.h.installs == 0
  {
    ReachableInv(cfg, s);
  }

  predicate SaysMissing(r: Reply) { r.Failed? && r.failure.destination == Missing }

  /** Missing is reported only if a call of this run found the destination absent. */
  lemma {:induction false} MissingWasObserved(cfg: Config, states: seq<State>, run: seq<Action>, k: nat)
    returns (i: nat)
    requires Trace(cfg, states, run) && Inv(cfg, states[0]) && k < |states|
    requires SaysMissing(states[k].reply) && !SaysMissing(states[0].reply)
    ensures i < k && run[i] == Succeed && states[i].disk.Cur(cfg.Dest()) == None
  {
    if SaysMissing(states[k - 1].reply) {
      i := MissingWasObserved(cfg, states, run, k - 1);
    } else {
      i := k - 1;
      KeepsTrace(cfg, states, run, k - 1);
      assert StepAt(cfg, states, run, k - 1);
      StepMissing(cfg, states[k - 1], run[k - 1], states[k]);
    }
  }

  lemma StepMissing(cfg: Config, s: State, a: Action, t: State)
    requires Inv(cfg, s) && Steps(cfg, s, a, t) && SaysMissing(t.reply) && !SaysMissing(s.reply)
    ensures a == Succeed && s.disk.Cur(cfg.Dest()) == None
  {
    if Native(a) {
      if s.reply == NoReply { NativeMissing(cfg, s, a, t); } else { DropKeepsReply(cfg, s, a, t); }
    } else if ByWriter(a) && a != Unsupported {
      CallKeepsMissing(cfg, s, a);
    }
  }

  lemma CallKeepsMissing(cfg: Config, s: State, a: Action)
    requires cfg.Valid() && cfg.staged in s.disk.inodes && CallerStep(cfg, s, a).Some?
    ensures SaysMissing(CallerStep(cfg, s, a).value.reply) ==> SaysMissing(s.reply)
  {
    match a
    case Finalize => assert CallerStep(cfg, s, a) == Some(StartFinalize(cfg, s, s.reply.failure));
    case Commit => assert CallerStep(cfg, s, a) == Some(StartAttempt(cfg, s));
    case Abort => assert CallerStep(cfg, s, a) == Some(StartAbort(cfg, s));
    case Drop => assert CallerStep(cfg, s, a) == Some(StartDrop(cfg, s));
    case Write(bytes) => assert CallerStep(cfg, s, a) == Some(Accept(cfg, s, bytes));
  }

  /** Once there is a reply, native calls only clean up after a drop, which does not change it. */
  lemma DropKeepsReply(cfg: Config, s: State, a: Action, t: State)
    requires Inv(cfg, s) && Steps(cfg, s, a, t) && Native(a) && s.reply != NoReply
    ensures t.reply == s.reply
  {}

  lemma NativeMissing(cfg: Config, s: State, a: Action, t: State)
    requires Inv(cfg, s) && Steps(cfg, s, a, t) && Native(a)
    requires s.reply == NoReply && t.reply.Failed? && t.reply.failure.destination == Missing
    ensures a == Succeed && s.disk.Cur(cfg.Dest()) == None
  {
    if a == Succeed { MissingAfterSuccess(cfg, s); }
    else { FailNeverMissing(cfg, s, if a.Fail? then None else Some(a.meta)); }
  }

  lemma FailNeverMissing(cfg: Config, s: State, midway: Option<nat>)
    requires Inv(cfg, s) && FailStep(cfg, s, midway).Some? && s.reply == NoReply
    ensures var t := FailStep(cfg, s, midway).value; t.reply.Failed? ==> t.reply.failure.destination != Missing
  {
    if s.point.Checking? || s.point.Removing? { CleanupReplies(cfg, s, s.point.why); }
  }

  lemma MissingAfterSuccess(cfg: Config, s: State)
    requires Inv(cfg, s) && SucceedStep(cfg, s).Some? && s.reply == NoReply
    requires SucceedStep(cfg, s).value.reply.Failed?
    requires SucceedStep(cfg, s).value.reply.failure.destination == Missing
    ensures s.disk.Cur(cfg.Dest()) == None
  {
    if BeforeInstall(s.point) { MissingEarly(cfg, s); } else { LateNeverMissing(cfg, s); }
  }

  lemma MissingEarly(cfg: Config, s: State)
    requires Inv(cfg, s) && BeforeInstall(s.point)
    requires SucceedStep(cfg, s).value.reply.Failed?
    requires SucceedStep(cfg, s).value.reply.failure.destination == Missing
    ensures s.disk.Cur(cfg.Dest()) == None
  {}

  lemma LateNeverMissing(cfg: Config, s: State)
    requires Inv(cfg, s) && !BeforeInstall(s.point) && SucceedStep(cfg, s).Some? && s.reply == NoReply
    ensures SucceedStep(cfg, s).value.reply.Failed? ==>
      SucceedStep(cfg, s).value.reply.failure.destination != Missing
  {
    if s.point.Checking? || s.point.Removing? { CleanupReplies(cfg, s, s.point.why); }
  }

  /** Neither end of a cleanup reports the destination missing, or commits where parents are owed a
      synchronization. */
  lemma CleanupReplies(cfg: Config, s: State, why: Cleanup)
    requires Inv(cfg, s) && s.reply == NoReply && (s.point == Checking(why) || s.point == Removing(why))
    ensures forall u | u == s || u == RemoveStaging(cfg, s) :: MildReply(cfg, CleanupDone(cfg, u, why).reply)
    ensures MildReply(cfg, CleanupFailed(cfg, s, why).reply)
  {}

  predicate MildReply(cfg: Config, r: Reply) {
    && (r.Failed? ==> r.failure.destination != Missing)
    && (r.Committed? ==> cfg.durability == NotRequired)
  }

  /** What a success says about durability. Required implies durable, NotRequired and Rooted Windows
      never are. Durable means that the whole path to what was published is on stable storage, and so are
      its bytes if it is the staging file, which it is exactly if the staging name was not stolen. */
  lemma DurabilityIsTruthful(cfg: Config, s: State)
    requires Reachable(cfg, s) && s.reply.Committed?
    ensures cfg.durability == Required ==> s.reply.durable && s.reply.fileSynced
    ensures cfg.durability == NotRequired ==> !s.reply.durable
    ensures cfg.platform == RootedWindows ==> !s.reply.durable && cfg.durability != Required
    ensures cfg.fileSync == Required ==> s.reply.fileSynced
    ensures s.reply.fileSynced ==> s.disk.inodes[cfg.staged].durable
    ensures s.h.published == Some(cfg.staged) <==> !s.h.stolen
    ensures s.reply.durable ==>
      && s.disk.inodes[cfg.staged].durable
      && (!s.h.destWindow ==> s.disk.Held(cfg.Dest()) == {s.h.published})
      && forall j :: |cfg.steps| - cfg.created <= j < |cfg.steps| ==>
           s.disk.Held(cfg.Link(j)) == {Some(cfg.dirs[j + 1])}
  {
    ReachableInv(cfg, s);
  }

  /** In every run on Unix: a commit that has to synchronize its parents, at step `k`, reports durable if
      and only if the staging file was synchronized at the step `i` of this attempt and the last directory
      of the chain is synchronized now, all others having been before. */
  lemma DurableExactlyWhenBothSynced(cfg: Config, states: seq<State>, run: seq<Action>, k: nat) returns (i: nat)
    requires Trace(cfg, states, run) && Inv(cfg, states[0]) && states[0].point.Idle? && k < |run|
    requires ByWriter(run[k]) && states[k].reply == NoReply && states[k + 1].reply.Committed?
    requires cfg.Unix() && cfg.durability != NotRequired
    ensures SyncedAt(cfg, states, run, i, k)
    ensures states[k].point.SyncingParents? && SyncedBelow(cfg, states[k], states[k].point.at)
    ensures states[k + 1].reply.durable <==> run[i] == Succeed && run[k] == Succeed
    ensures run[k] == Succeed ==> states[k].point.at == |cfg.steps| - cfg.created
  {
    KeepsTrace(cfg, states, run, k);
    assert StepAt(cfg, states, run, k);
    StepDurable(cfg, states[k], run[k], states[k + 1]);
    i := WasSynced(cfg, states, run, k);
  }

  lemma StepDurable(cfg: Config, s: State, a: Action, t: State)
    requires Inv(cfg, s) && Steps(cfg, s, a, t) && ByWriter(a)
    requires s.reply == NoReply && t.reply.Committed? && cfg.Unix() && cfg.durability != NotRequired
    ensures s.point.SyncingParents? && SyncedBelow(cfg, s, s.point.at) && cfg.StagingSync() != NotRequired
    ensures t.reply.durable <==> s.point.synced && a == Succeed
    ensures a == Succeed ==> s.point.at == |cfg.steps| - cfg.created
  {
    if a == Succeed { DurableAfterSuccess(cfg, s); }
  }

  lemma DurableAfterSuccess(cfg: Config, s: State)
    requires Inv(cfg, s) && SucceedStep(cfg, s).Some? && s.reply == NoReply
    requires SucceedStep(cfg, s).value.reply.Committed?
    requires cfg.Unix() && cfg.durability != NotRequired
    ensures s.point.SyncingParents? && s.point.reason != WhileFailing
    ensures SucceedStep(cfg, s).value.reply.durable <==> s.point.synced
    ensures s.point.at == |cfg.steps| - cfg.created
  {
    if s.point.Checking? || s.point.Removing? { CleanupReplies(cfg, s, s.point.why); }
  }

  // ---- Ownership of the staging name ----

  /** While no one else touches the staging name, it names the staging inode exactly as long as the guard
      is armed, or after a consuming commit reported the destination missing and left it behind. When the
      writer is gone, a staging file that is still there was reported: as a cleanup failure or as a missing
      destination; or its owner dropped the writer without asking. The writer takes away nothing that is
      not its own. */
  lemma StagingAccountedFor(cfg: Config, s: State)
    requires Reachable(cfg, s) && !s.h.stagingTouched
    ensures s.disk.Cur(cfg.Staging()) == Some(cfg.staged) <==> s.armed || Abandoned(s)
    ensures s.disk.Cur(cfg.Staging()) != Some(cfg.staged) ==> s.disk.Cur(cfg.Staging()) == None
    ensures s.reply.Committed? ==> !s.armed && s.disk.Cur(cfg.Staging()) == None
    ensures s.point.Done? && s.disk.Cur(cfg.Staging()) == Some(cfg.staged) ==>
      || (s.reply.Failed? && (s.reply.failure.cleanupFailed || s.reply.failure.destination == Missing))
      || s.reply == NoReply
    ensures !s.h.foreignRemoved
  {
    ReachableInv(cfg, s);
  }

  /** The staging name is there and names something else. */
  predicate Foreign(cfg: Config, d: Disk)
    requires cfg.Valid()
  {
    cfg.Staging() in d.names && d.names[cfg.Staging()] != cfg.staged
  }

  /** In every run the writer takes away a staging name that names another inode exactly at these steps:
      the rename, unless it moves a link onto another link to the same file; the unlink of the link
      fallback; and the removal after the identity check. */
  lemma ForeignUnlinkExactly(cfg: Config, states: seq<State>, run: seq<Action>, k: nat)
    requires Trace(cfg, states, run) && Inv(cfg, states[0]) && k < |run| && !states[k].h.foreignRemoved
    ensures states[k + 1].h.foreignRemoved <==>
      && run[k] == Succeed && Foreign(cfg, states[k].disk)
      && (states[k].point.Unlinking? || states[k].point.Removing?
          || (states[k].point.Installing?
                && states[k].disk.Cur(cfg.Dest()) != states[k].disk.Cur(cfg.Staging())))
  {
    KeepsTrace(cfg, states, run, k);
    assert StepAt(cfg, states, run, k);
    StepForeign(cfg, states[k], run[k], states[k + 1]);
  }

  /** In every run: the removal at `k` relies on an identity check at `c`, and the name is still the writer's
      own if and only if nobody rebound it strictly between the two. */
  lemma RemovalWindow(req: Request, d: Disk, cfg: Config, states: seq<State>, run: seq<Action>, k: nat)
    returns (c: nat)
    requires IsRun(req, d, cfg, states, run) && k < |states| && states[k].point.Removing?
    ensures cfg.Valid() && CheckedAt(cfg, states, run, c, k)
    ensures states[k].disk.Cur(cfg.Staging()) == Some(cfg.staged) <==>
      forall i: nat :: c < i < k ==> !Touches(run[i], cfg.Staging())
  {
    StartsFrom(req, d);
    c := WasChecked(cfg, states, run, k);
    if forall i: nat :: c < i < k ==> !Touches(run[i], cfg.Staging()) {
      OthersLeave(cfg, states, run, c + 1, k, cfg.Staging());
    } else {
      TouchedExactly(cfg, states, run, k);
      KeepsTrace(cfg, states, run, k);
    }
  }

  // ---- A consuming commit ----

  /** In every run on Unix a consuming commit that gives up leaves its staging file behind, disarmed, if and
      only if the failure it gives up on says that the destination is missing, which some call of the run
      then found. Otherwise it goes on to remove the file, still armed. */
  lemma FinalizeLeavesExactly(cfg: Config, states: seq<State>, run: seq<Action>, k: nat)
    requires Trace(cfg, states, run) && Inv(cfg, states[0]) && cfg.Unix() && k < |run| && run[k] == Finalize
    requires !states[k].h.stagingTouched && !SaysMissing(states[0].reply)
    ensures states[k].reply.Failed? && states[k].disk.Cur(cfg.Staging()) == Some(cfg.staged)
    ensures states[k + 1].disk == states[k].disk
    ensures !states[k + 1].armed <==> states[k].reply.failure.destination == Missing
    ensures states[k + 1].armed ==> states[k + 1].point == Checking(ForFinalize(states[k].reply.failure))
    ensures !states[k + 1].armed ==>
      && Abandoned(states[k + 1])
      && exists i: nat :: i < k && run[i] == Succeed && states[i].disk.Cur(cfg.Dest()) == None
  {
    KeepsTrace(cfg, states, run, k);
    assert StepAt(cfg, states, run, k);
    FinalizeDecides(cfg, states[k], states[k + 1]);
    if SaysMissing(states[k].reply) { var i := MissingWasObserved(cfg, states, run, k); }
  }

  lemma FinalizeDecides(cfg: Config, s: State, t: State)
    requires Inv(cfg, s) && cfg.Unix() && !s.h.stagingTouched && Steps(cfg, s, Finalize, t)
    ensures s.reply.Failed? && s.disk.Cur(cfg.Staging()) == Some(cfg.staged) && t.disk == s.disk
    ensures !t.armed <==> s.reply.failure.destination == Missing
    ensures t.armed ==> t.point == Checking(ForFinalize(s.reply.failure))
    ensures !t.armed ==> Abandoned(t)
  {}

  lemma StepForeign(cfg: Config, s: State, a: Action, t: State)
    requires Inv(cfg, s) && Steps(cfg, s, a, t) && !s.h.foreignRemoved
    ensures t.h.foreignRemoved <==>
      && a == Succeed && Foreign(cfg, s.disk)
      && (s.point.Unlinking? || s.point.Removing?
          || (s.point.Installing? && s.disk.Cur(cfg.Dest()) != s.disk.Cur(cfg.Staging())))
  {
    if a == Succeed { ForeignAfterSuccess(cfg, s); }
  }

  lemma ForeignAfterSuccess(cfg: Config, s: State)
    requires Inv(cfg, s) && SucceedStep(cfg, s).Some? && !s.h.foreignRemoved
    ensures SucceedStep(cfg, s).value.h.foreignRemoved <==>
      && Foreign(cfg, s.disk)
      && (s.point.Unlinking? || s.point.Removing?
          || (s.point.Installing? && s.disk.Cur(cfg.Dest()) != s.disk.Cur(cfg.Staging())))
  {
    match s.point
    case Installing(synced) => ForeignRenamed(cfg, s, synced);
    case Unlinking(synced, _) => ForeignUnlinked(cfg, s, synced);
    case Removing(why) => ForeignRemoved(cfg, s, why);
    case _ =>
  }

  lemma ForeignRenamed(cfg: Config, s: State, synced: bool)
    requires cfg.Valid() && !s.h.foreignRemoved && Install(cfg, s, synced).Some?
    ensures Install(cfg, s, synced).value.h.foreignRemoved <==>
      Foreign(cfg, s.disk) && s.disk.Cur(cfg.Dest()) != s.disk.Cur(cfg.Staging())
  {
    assert cfg.Dest().name != cfg.Staging().name;
  }

  lemma ForeignUnlinked(cfg: Config, s: State, synced: bool)
    requires cfg.Valid() && !s.h.foreignRemoved
    ensures UnlinkStaging(cfg, s, synced).h.foreignRemoved <==> Foreign(cfg, s.disk)
  {}

  lemma ForeignRemoved(cfg: Config, s: State, why: Cleanup)
    requires Inv(cfg, s) && !s.h.foreignRemoved && s.point.Removing? && RemoveChecked(cfg, s, why).Some?
    ensures RemoveChecked(cfg, s, why).value.h.foreignRemoved <==> Foreign(cfg, s.disk)
  {}
}
