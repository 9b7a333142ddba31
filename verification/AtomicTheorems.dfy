/** What every interleaving of an atomic write guarantees. */
module AtomicTheorems {
  import opened Wrappers
  import opened Disk
  import opened AtomicProtocol
  import opened AtomicInvariant
  import opened AtomicHistory
  import opened AtomicBegin

  /** A run of the protocol by a writer that `req` created on the disk `d`. */
  ghost predicate IsRun(req: Request, d: Disk, cfg: Config, states: seq<State>, run: seq<Action>) {
    Fits(req, d) && Trace(cfg, states, run) && Begin(req, d) == Ready(cfg, states[0])
  }

  ghost predicate Reachable(cfg: Config, s: State) {
    && cfg.Valid() && cfg.staged in s.disk.inodes
    && exists req, d, states, run :: IsRun(req, d, cfg, states, run) && s in states
  }

  lemma ReachableInv(cfg: Config, s: State)
    requires Reachable(cfg, s)
    ensures Inv(cfg, s)
  {
    var req, d, states, run :| IsRun(req, d, cfg, states, run) && s in states;
    var k :| 0 <= k < |states| && states[k] == s;
    BeginEstablishes(req, d);
    KeepsTrace(cfg, states, run, k);
  }

  lemma ContinuesTrace(cfg: Config, states: seq<State>, run: seq<Action>, k: nat, a: Action, t: State)
    requires Trace(cfg, states, run) && k < |states| && Trace(cfg, [states[k], t], [a])
    ensures Trace(cfg, states[..k + 1] + [t], run[..k] + [a])
  {
    var states', run' := states[..k + 1] + [t], run[..k] + [a];
    forall i: nat | i < |run'| ensures StepAt(cfg, states', run', i) {
      if i < k { assert StepAt(cfg, states, run, i); } else { assert StepAt(cfg, [states[k], t], [a], 0); }
    }
  }

  /** A run can be continued from any of its states. */
  lemma ReachableStep(cfg: Config, s: State, a: Action, t: State)
    requires Reachable(cfg, s) && Trace(cfg, [s, t], [a]) && cfg.staged in t.disk.inodes
    ensures Reachable(cfg, t)
  {
    var req, d, states, run :| IsRun(req, d, cfg, states, run) && s in states;
    var k :| 0 <= k < |states| && states[k] == s;
    ContinuesTrace(cfg, states, run, k, a, t);
    EndOfRun(req, d, cfg, states[0], states[..k + 1] + [t], run[..k] + [a]);
  }

  lemma EndOfRun(req: Request, d: Disk, cfg: Config, start: State, states: seq<State>, run: seq<Action>)
    requires Fits(req, d) && Begin(req, d) == Ready(cfg, start) && Trace(cfg, states, run) && states[0] == start
    requires cfg.Valid() && cfg.staged in states[|run|].disk.inodes
    ensures Reachable(cfg, states[|run|])
  {
    assert IsRun(req, d, cfg, states, run);
  }

  lemma ReachableStart(req: Request, d: Disk)
    requires Fits(req, d) && Begin(req, d).Ready?
    ensures Reachable(Begin(req, d).cfg, Begin(req, d).state)
  {
    BeginEstablishes(req, d);
    assert IsRun(req, d, Begin(req, d).cfg, [Begin(req, d).state], []);
  }

  lemma StaysReachable(cfg: Config, s: State, a: Action, t: State)
    requires Reachable(cfg, s) && Steps(cfg, s, a, t)
    ensures Reachable(cfg, t)
  {
    assert Inv(cfg, t) by {
      ReachableInv(cfg, s);
      KeepsStep(cfg, s, a, t);
    }
    assert Trace(cfg, [s, t], [a]) by {
      assert StepAt(cfg, [s, t], [a], 0);
    }
    ReachableStep(cfg, s, a, t);
  }

  /** The path of the destination, from the directory the chain starts in. */
  function Path(cfg: Config): seq<Name> { cfg.steps + [cfg.destName] }

  // ---- Crash consistency ----

  /** While each link of the chain can only come back as it is or not at all, the path leads to the
      destination entry or nowhere. */
  lemma {:induction false} ResolvesToDest(cfg: Config, names: map<Entry, Ino>, i: nat)
    requires cfg.Valid() && i <= |cfg.steps|
    requires forall j :: i <= j < |cfg.steps| && cfg.Link(j) in names ==> names[cfg.Link(j)] == cfg.dirs[j + 1]
    ensures var r := Resolve(names, cfg.dirs[i], Path(cfg)[i..]);
      if forall j :: i <= j < |cfg.steps| ==> cfg.Link(j) in names
      then r == (if cfg.Dest() in names then Some(names[cfg.Dest()]) else None)
      else r == None
    decreases |cfg.steps| - i
  {
    var path := Path(cfg)[i..];
    assert path[0] == Path(cfg)[i] && path[1..] == Path(cfg)[i + 1..];
    if i < |cfg.steps| {
      assert Entry(cfg.dirs[i], path[0]) == cfg.Link(i);
      ResolvesToDest(cfg, names, i + 1);
    } else {
      assert Entry(cfg.dirs[i], path[0]) == cfg.Dest() && path[1..] == [];
    }
  }

  /** What one crash left under an entry. */
  function Left(img: Image, e: Entry): Option<Ino> {
    if e in img.names then Some(img.names[e]) else None
  }

  lemma LeftIsHeld(d: Disk, img: Image, e: Entry)
    requires Recovers(d, img)
    ensures Left(img, e) in d.Held(e)
  {}

  /** Whatever the other actors do: when the staging file has to be synchronized, no crash at any
      point of any run shows a destination with part of the staged bytes. */
  lemma CrashNeverTears(cfg: Config, s: State, img: Image)
    requires Reachable(cfg, s) && Recovers(s.disk, img) && cfg.StagingSync() == Required
    requires Left(img, cfg.Dest()) == Some(cfg.staged)
    ensures s.h.installs == 1
    ensures img.files[cfg.staged] == File(s.h.accepted, s.disk.inodes[cfg.staged].meta)
  {
    ReachableInv(cfg, s);
    LeftIsHeld(s.disk, img, cfg.Dest());
  }

  /** What a fresh writer starts from. */
  lemma StartsFrom(req: Request, d: Disk)
    requires Fits(req, d) && Begin(req, d).Ready?
    ensures var (cfg, s) := (Begin(req, d).cfg, Begin(req, d).state);
      && Inv(cfg, s) && s.h == NoHistory.(original := s.disk.Cur(cfg.Dest()), quiet := Settled(req, d))
  {
    BeginEstablishes(req, d);
  }

  /** Nobody else rebinds the destination or the staging name in the first `k` actions. */
  ghost predicate LeftAlone(cfg: Config, run: seq<Action>, k: nat)
    requires cfg.Valid() && k <= |run|
  {
    forall m | 0 <= m < k :: !Touches(run[m], cfg.Dest()) && !Touches(run[m], cfg.Staging())
  }

  /** The crash left the old file as it was: its bytes too, if they were on stable storage at the start
      and nobody else wrote to it. */
  ghost predicate OldFile(start: Disk, run: seq<Action>, k: nat, prior: Option<Ino>, img: Image)
    requires k <= |run|
  {
    prior.Some? && prior.value in start.inodes && start.inodes[prior.value].durable
    && (forall m | 0 <= m < k :: !StoresTo(run[m], prior.value)) ==>
      && prior.value in img.files
      && img.files[prior.value] == File(start.inodes[prior.value].data, start.inodes[prior.value].meta)
  }

  lemma OldFileKept(cfg: Config, states: seq<State>, run: seq<Action>, k: nat, img: Image)
    requires Trace(cfg, states, run) && k < |states| && Inv(cfg, states[0]) && states[0].h.installs == 0
    requires Recovers(states[k].disk, img)
    ensures OldFile(states[0].disk, run, k, states[0].disk.Cur(cfg.Dest()), img)
  {
    var prior := states[0].disk.Cur(cfg.Dest());
    if prior.Some? && prior.value in states[0].disk.inodes
       && forall m | 0 <= m < k :: !StoresTo(run[m], prior.value)
    {
      assert prior.value != cfg.staged by { assert states[0].disk.Cur(cfg.Dest()) in states[0].disk.Held(cfg.Dest()); }
      FileKept(cfg, states, run, k, prior.value);
    }
  }

  /** Started on a settled path and left alone by others, the destination comes back from a crash
      at any point either as it was before the write, bytes included, or with every byte accepted so
      far. In particular an existing destination is never found missing. */
  lemma CrashConsistent(req: Request, d: Disk, cfg: Config, states: seq<State>, run: seq<Action>, k: nat, img: Image)
    requires IsRun(req, d, cfg, states, run) && k < |states| && Recovers(states[k].disk, img)
    requires cfg.Valid() && cfg.StagingSync() == Required && Settled(req, d) && LeftAlone(cfg, run, k)
    ensures var (r, prior) := (Resolve(img.names, cfg.dirs[0], Path(cfg)), d.Cur(cfg.Dest()));
      || (r == prior && OldFile(d, run, k, prior, img))
      || (&& r == Some(cfg.staged) && cfg.staged in img.files && cfg.staged in states[k].disk.inodes
          && img.files[cfg.staged] == File(Written(run, k), states[k].disk.inodes[cfg.staged].meta))
  {
    StartsFrom(req, d);
    BeginKeeps(req, d);
    OldFileKept(cfg, states, run, k, img);
    TouchedExactly(cfg, states, run, k);
    TraceAccepts(cfg, states, run, k);
    KeepsTrace(cfg, states, run, k);
    CrashOutcome(cfg, states[k], img);
  }

  lemma CrashOutcome(cfg: Config, s: State, img: Image)
    requires Inv(cfg, s) && Recovers(s.disk, img) && cfg.StagingSync() == Required
    requires s.h.quiet && !s.h.destTouched && !s.h.stagingTouched
    ensures var r := Resolve(img.names, cfg.dirs[0], Path(cfg));
      || r == s.h.original
      || (&& r == Some(cfg.staged) && s.h.installs == 1
          && img.files[cfg.staged] == File(s.h.accepted, s.disk.inodes[cfg.staged].meta))
  {
    CrashPath(cfg, s, img);
    LeftIsHeld(s.disk, img, cfg.Dest());
  }

  /** From a quiet start the path leads to the destination entry, or to nothing where a directory on
      it was only just created. */
  lemma CrashPath(cfg: Config, s: State, img: Image)
    requires Inv(cfg, s) && Recovers(s.disk, img) && s.h.quiet
    ensures var r := Resolve(img.names, cfg.dirs[0], Path(cfg));
      r == Left(img, cfg.Dest()) || (r == None && cfg.created > 0)
  {
    var names := img.names;
    forall j | 0 <= j < |cfg.steps|
      ensures cfg.Link(j) in names ==> names[cfg.Link(j)] == cfg.dirs[j + 1]
      ensures cfg.created == 0 ==> cfg.Link(j) in names
    {
      LeftIsHeld(s.disk, img, cfg.Link(j));
    }
    ResolvesToDest(cfg, names, 0);
    assert Path(cfg)[0..] == Path(cfg);
  }

  /** The directories on the path that were there before the write are themselves durable. */
  ghost predicate OldPathDurable(cfg: Config, d: Disk)
    requires cfg.Valid()
  {
    forall i :: 0 <= i < |cfg.steps| - cfg.created ==> d.Held(cfg.Link(i)) == {Some(cfg.dirs[i + 1])}
  }

  /** After a success that was reported durable, every crash leaves the whole path in place, however many
      parents were created, leading to what was published. That is the staging file with every accepted
      byte exactly if nobody had rebound the staging name before the installation. */
  lemma DurableSuccess(cfg: Config, s: State, img: Image)
    requires Reachable(cfg, s) && Recovers(s.disk, img)
    requires s.reply.Committed? && s.reply.durable
    requires OldPathDurable(cfg, s.disk) && !s.h.destWindow
    ensures Resolve(img.names, cfg.dirs[0], Path(cfg)) == s.h.published
    ensures s.h.published == Some(cfg.staged) <==> !s.h.stolen
    ensures img.files[cfg.staged] == File(s.h.accepted, s.disk.inodes[cfg.staged].meta)
    ensures !s.h.stagingTouched ==> cfg.Staging() !in img.names
  {
    ReachableInv(cfg, s);
    DurablePath(cfg, s, img);
    LeftIsHeld(s.disk, img, cfg.Dest());
    LeftIsHeld(s.disk, img, cfg.Staging());
  }

  lemma DurablePath(cfg: Config, s: State, img: Image)
    requires Inv(cfg, s) && Recovers(s.disk, img) && OldPathDurable(cfg, s.disk)
    requires s.reply.Committed? && s.reply.durable
    ensures Resolve(img.names, cfg.dirs[0], Path(cfg)) == Left(img, cfg.Dest())
  {
    var names := img.names;
    forall j | 0 <= j < |cfg.steps|
      ensures cfg.Link(j) in names && names[cfg.Link(j)] == cfg.dirs[j + 1]
    {
      LeftIsHeld(s.disk, img, cfg.Link(j));
    }
    ResolvesToDest(cfg, names, 0);
    assert Path(cfg)[0..] == Path(cfg);
  }

  /** The synchronization is what buys this: an installed destination whose bytes are not on stable
      storage can come back from a crash with any bytes whatever. */
  lemma TornWithoutSync(cfg: Config, s: State, bytes: seq<Byte>) returns (img: Image)
    requires Reachable(cfg, s) && s.h.installs == 1 && !s.h.destWindow && !s.h.stolen
    requires !s.disk.inodes[cfg.staged].durable
    ensures Recovers(s.disk, img)
    ensures Resolve(img.names, cfg.dirs[0], Path(cfg)) == Some(cfg.staged)
    ensures img.files[cfg.staged].data == bytes
  {
    ReachableInv(cfg, s);
    img := WithBytes(s.disk, cfg.staged, bytes);
    WithBytesRecovers(s.disk, cfg.staged, bytes);
    forall j | 0 <= j < |cfg.steps|
      ensures cfg.Link(j) in img.names && img.names[cfg.Link(j)] == cfg.dirs[j + 1]
    {
      assert s.disk.Cur(cfg.Link(j)) == Some(cfg.dirs[j + 1]);
    }
    ResolvesToDest(cfg, img.names, 0);
    assert Path(cfg)[0..] == Path(cfg);
  }

  /** The crash that keeps every current name and loses the bytes of one file. */
  function WithBytes(d: Disk, i: Ino, bytes: seq<Byte>): Image {
    Image(d.names, map j | j in d.inodes ::
      if j == i then File(bytes, 0) else File(d.inodes[j].data, d.inodes[j].meta))
  }

  lemma WithBytesRecovers(d: Disk, i: Ino, bytes: seq<Byte>)
    requires d.WellFormed() && i in d.inodes && !d.inodes[i].durable
    ensures Recovers(d, WithBytes(d, i, bytes))
  {
    var img := WithBytes(d, i, bytes);
    forall e: Entry ensures (if e in img.names then Some(img.names[e]) else None) in d.Held(e) {
      assert d.Cur(e) in d.Held(e);
    }
  }
}
