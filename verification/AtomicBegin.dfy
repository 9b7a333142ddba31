/** Creation of an atomic writer: parent preparation, destination inspection, staging creation. */
module AtomicBegin {
  import opened Wrappers
  import opened Disk
  import opened AtomicProtocol
  import opened AtomicInvariant

  /** What the caller asks for, together with what the system hands out. `dirs` are the inodes of
      the directories along the parent path, of which the last `created` are still to be made. */
  datatype Request = Request(
    platform: Platform, dirs: seq<Ino>, steps: seq<Name>, created: nat, destName: Name,
    createsParent: bool, createNew: bool, replacesLink: bool, defersCheck: bool,
    durability: Requirement, fileSync: Requirement, policy: MetadataPolicy,
    stagingName: Name, staged: Ino, identityKnown: bool)
  {
    /** The entry for step `i` of the path to the destination. */
    function Link(i: nat): Entry
      requires |dirs| == |steps| + 1 && i <= |steps|
    {
      Entry(dirs[i], if i < |steps| then steps[i] else destName)
    }

    function Depth(): nat
      requires created <= |steps|
    { |steps| - created }
  }

  predicate Sized(req: Request) {
    |req.dirs| == |req.steps| + 1 && req.created <= |req.steps|
  }

  datatype Begun = Refused(stage: Stage) | Ready(cfg: Config, state: State)

  /** `dirs` is what walking the path finds, up to the first missing name; the inode numbers to be
      handed out are fresh, and the generated staging name is free. */
  ghost predicate Fits(req: Request, d: Disk) {
    && d.WellFormed() && d.Closed()
    && Sized(req)
    && (forall i :: 0 <= i < |req.steps| ==> req.dirs[i] != req.dirs[|req.steps|])
    && (forall i :: 0 <= i <= req.Depth() ==> req.dirs[i] in d.inodes)
    && (forall i :: req.Depth() < i <= |req.steps| ==> req.dirs[i] !in d.inodes && req.dirs[i] != req.staged)
    && (forall i, j :: req.Depth() < i < j <= |req.steps| ==> req.dirs[i] != req.dirs[j])
    && (forall i :: 0 <= i < req.Depth() ==> d.Cur(req.Link(i)) == Some(req.dirs[i + 1]))
    && (req.created > 0 ==> d.Cur(req.Link(req.Depth())) == None)
    && req.staged !in d.inodes
    && req.stagingName != req.destName
    && Entry(req.dirs[|req.steps|], req.stagingName) !in d.names
  }

  const EmptyDirectory := Inode(Directory, [], 0, true)

  /** The disk after the missing directories above level `level` have been created. */
  function MakeDirs(req: Request, d: Disk, level: nat): Disk
    requires Sized(req) && req.Depth() <= level <= |req.steps|
    decreases level
  {
    if level == req.Depth() then d
    else MakeDirs(req, d, level - 1).Create(req.Link(level - 1), req.dirs[level], EmptyDirectory)
  }

  /** Destination existence and whether it must be observed and verified, or a refusal. */
  function Inspect(req: Request, d: Disk, dest: Entry): Option<(bool, bool)> {
    if req.defersCheck && req.platform != Host then Some((false, false))
    else if dest !in d.names then Some((false, false))
    else if req.createNew || d.names[dest] !in d.inodes then None
    else match d.inodes[d.names[dest]].kind
      case Regular => Some((true, true))
      case Symlink => if req.replacesLink then Some((true, false)) else None
      case _ => None
  }

  /** Whether no entry along the path has an update that a crash could still undo. */
  predicate Settled(req: Request, d: Disk)
    requires Sized(req)
  {
    forall i :: 0 <= i <= req.Depth() ==> d.Held(req.Link(i)) == {d.Cur(req.Link(i))}
  }

  const NoHistory := History(
    None, false, [], 0, None, None, false, false, false, false, false, false, false)

  function Begin(req: Request, d: Disk): Begun
    requires Sized(req)
  {
    if (exists i | 0 <= i <= req.Depth() ::
          req.dirs[i] !in d.inodes || d.inodes[req.dirs[i]].kind != Directory)
       || (req.created > 0 && !req.createsParent)
    then Refused(PrepareParent)
    else
      var made := MakeDirs(req, d, |req.steps|);
      var dest := req.Link(|req.steps|);
      match Inspect(req, made, dest)
      case None => Refused(InspectDestination)
      case Some(pair) =>
        var cfg := Config(req.platform, req.dirs, req.steps, req.created, req.destName, req.stagingName,
                          req.staged, req.identityKnown, pair.0, pair.1,
                          req.durability, req.fileSync, req.policy);
        var disk := made.Create(cfg.Staging(), req.staged, Inode(Regular, [], 0, false));
        Ready(cfg, State(disk, true, true, Idle, NoReply,
                         NoHistory.(original := made.Cur(dest), quiet := Settled(req, d))))
  }

  // ---- What preparation leaves behind ----

  lemma Apart(req: Request, d: Disk, i: nat, j: nat)
    requires Fits(req, d) && req.Depth() <= i < j <= |req.steps|
    ensures req.dirs[i] != req.dirs[j]
  {
    if i == req.Depth() { assert req.dirs[i] in d.inodes && req.dirs[j] !in d.inodes; }
  }

  lemma {:induction false} MadeDisk(req: Request, d: Disk, level: nat)
    requires d.WellFormed()
    requires Sized(req) && req.Depth() <= level <= |req.steps|
    ensures MakeDirs(req, d, level).WellFormed()
    decreases level
  {
    if level > req.Depth() {
      MadeDisk(req, d, level - 1);
      CreateWellFormed(MakeDirs(req, d, level - 1), req.Link(level - 1), req.dirs[level], EmptyDirectory);
    }
  }

  /** The inode kept for staging is still free, and no entry can come back naming it. */
  lemma {:induction false} MadeNotStaged(req: Request, d: Disk, level: nat, e: Entry)
    requires req.staged !in d.inodes && Some(req.staged) !in d.Held(e)
    requires Sized(req) && req.Depth() <= level <= |req.steps|
    requires forall i :: req.Depth() < i <= |req.steps| ==> req.dirs[i] != req.staged
    ensures req.staged !in MakeDirs(req, d, level).inodes
    ensures Some(req.staged) !in MakeDirs(req, d, level).Held(e)
    decreases level
  {
    if level > req.Depth() {
      MadeNotStaged(req, d, level - 1, e);
      var before := MakeDirs(req, d, level - 1);
      assert MakeDirs(req, d, level) == before.Create(req.Link(level - 1), req.dirs[level], EmptyDirectory);
    }
  }

  /** An entry that is none of the new links keeps its value. */
  lemma {:induction false} MadeElsewhere(req: Request, d: Disk, level: nat, e: Entry)
    requires Sized(req) && req.Depth() <= level <= |req.steps|
    requires forall i :: req.Depth() <= i < level ==> e != req.Link(i)
    ensures var r := MakeDirs(req, d, level); r.Cur(e) == d.Cur(e) && r.Held(e) == d.Held(e)
    decreases level
  {
    if level > req.Depth() { MadeElsewhere(req, d, level - 1, e); }
  }

  /** Nothing is held in a directory that does not exist yet. */
  lemma NothingHeld(d: Disk, e: Entry)
    requires d.WellFormed() && d.Closed() && e.dir !in d.inodes
    ensures d.Cur(e) == None && d.Held(e) == {None}
  {}

  /** Each new directory is linked under its own name, and only that update is in flight. */
  lemma {:induction false} MadeLink(req: Request, d: Disk, level: nat, i: nat)
    requires Sized(req) && req.Depth() <= i < level <= |req.steps|
    requires forall j :: req.Depth() <= j < level && j != i ==> req.Link(j) != req.Link(i)
    ensures MakeDirs(req, d, level).Cur(req.Link(i)) == Some(req.dirs[i + 1])
    ensures MakeDirs(req, d, level).Held(req.Link(i)) == d.Held(req.Link(i)) + {Some(req.dirs[i + 1])}
    decreases level
  {
    var before := MakeDirs(req, d, level - 1);
    assert MakeDirs(req, d, level) == before.Create(req.Link(level - 1), req.dirs[level], EmptyDirectory);
    if i == level - 1 {
      MadeElsewhere(req, d, level - 1, req.Link(i));
    } else {
      MadeLink(req, d, level - 1, i);
    }
  }

  /** The parent directory after preparation: as it was, or new and durably empty. */
  lemma MadeParent(req: Request, d: Disk, e: Entry)
    requires Fits(req, d) && e.dir == req.dirs[|req.steps|]
    ensures var r := MakeDirs(req, d, |req.steps|);
      && r.Cur(e) == d.Cur(e) && r.Held(e) == d.Held(e)
      && (req.created > 0 ==> r.Cur(e) == None && r.Held(e) == {None})
  {
    MadeElsewhere(req, d, |req.steps|, e);
    if req.created > 0 { NothingHeld(d, e); }
  }

  lemma MadePath(req: Request, d: Disk, i: nat)
    requires Fits(req, d) && i < |req.steps|
    ensures var r := MakeDirs(req, d, |req.steps|);
      && r.Cur(req.Link(i)) == Some(req.dirs[i + 1])
      && (Settled(req, d) ==>
            r.Held(req.Link(i)) ==
              if i < req.Depth() then {Some(req.dirs[i + 1])} else {None, Some(req.dirs[i + 1])})
  {
    if i < req.Depth() {
      forall j | req.Depth() <= j < |req.steps| ensures req.Link(i) != req.Link(j) {
        if j == req.Depth() { assert d.Cur(req.Link(i)) != d.Cur(req.Link(j)); }
        else { assert req.dirs[i] in d.inodes && req.dirs[j] !in d.inodes; }
      }
      MadeElsewhere(req, d, |req.steps|, req.Link(i));
    } else {
      forall j | req.Depth() <= j < |req.steps| && j != i ensures req.Link(j) != req.Link(i) {
        if i < j { Apart(req, d, i, j); } else { Apart(req, d, j, i); }
      }
      MadeLink(req, d, |req.steps|, i);
      if i > req.Depth() { NothingHeld(d, req.Link(i)); }
    }
  }

  /** The parent path and the destination as the writer finds them. */
  lemma MadeReady(req: Request, d: Disk)
    requires Fits(req, d)
    ensures var made := MakeDirs(req, d, |req.steps|);
      && (forall i :: 0 <= i < |req.steps| ==> made.Cur(req.Link(i)) == Some(req.dirs[i + 1]))
      && (req.created > 0 ==> made.Cur(req.Link(|req.steps|)) == None)
      && (Settled(req, d) ==>
            && (forall i :: 0 <= i < |req.steps| ==> made.Held(req.Link(i)) <= {None, Some(req.dirs[i + 1])})
            && (forall i :: 0 <= i < req.Depth() ==> None !in made.Held(req.Link(i)))
            && made.Held(req.Link(|req.steps|)) == {made.Cur(req.Link(|req.steps|))})
  {
    var made := MakeDirs(req, d, |req.steps|);
    forall i | 0 <= i < |req.steps|
      ensures made.Cur(req.Link(i)) == Some(req.dirs[i + 1])
      ensures Settled(req, d) ==> made.Held(req.Link(i)) <= {None, Some(req.dirs[i + 1])}
      ensures Settled(req, d) && i < req.Depth() ==> None !in made.Held(req.Link(i))
    {
      MadePath(req, d, i);
    }
    MadeParent(req, d, req.Link(|req.steps|));
  }

  lemma MadeFree(req: Request, d: Disk)
    requires Fits(req, d)
    ensures var made := MakeDirs(req, d, |req.steps|);
      made.WellFormed() && req.staged !in made.inodes && forall e :: Some(req.staged) !in made.Held(e)
  {
    var made := MakeDirs(req, d, |req.steps|);
    MadeDisk(req, d, |req.steps|);
    forall e ensures Some(req.staged) !in made.Held(e) && req.staged !in made.inodes {
      MadeNotStaged(req, d, |req.steps|, e);
    }
  }

  lemma {:induction false} MadeFile(req: Request, d: Disk, level: nat, i: Ino)
    requires Sized(req) && req.Depth() <= level <= |req.steps| && i in d.inodes
    requires forall j :: req.Depth() < j <= |req.steps| ==> req.dirs[j] != i
    ensures i in MakeDirs(req, d, level).inodes && MakeDirs(req, d, level).inodes[i] == d.inodes[i]
    decreases level
  {
    if level > req.Depth() { MadeFile(req, d, level - 1, i); }
  }

  /** Creating a writer leaves the destination and every existing file as they were. */
  lemma BeginKeeps(req: Request, d: Disk)
    requires Fits(req, d) && Begin(req, d).Ready?
    ensures Begin(req, d).cfg.Valid()
    ensures Begin(req, d).state.disk.Cur(Begin(req, d).cfg.Dest()) == d.Cur(Begin(req, d).cfg.Dest())
    ensures forall i | i in d.inodes ::
      i in Begin(req, d).state.disk.inodes && Begin(req, d).state.disk.inodes[i] == d.inodes[i]
  {
    var Ready(cfg, s) := Begin(req, d);
    var made := MakeDirs(req, d, |req.steps|);
    assert cfg.Dest() == req.Link(|req.steps|);
    MadeParent(req, d, cfg.Dest());
    assert s.disk == made.Create(cfg.Staging(), req.staged, Inode(Regular, [], 0, false));
    forall i | i in d.inodes ensures i in s.disk.inodes && s.disk.inodes[i] == d.inodes[i] {
      MadeFile(req, d, |req.steps|, i);
    }
  }

  // ---- When a writer is created, and what it then knows about its destination ----

  /** A Rooted writer may be told not to look at its destination. */
  predicate Deferred(req: Request) { req.defersCheck && req.platform != Host }

  /** Every existing directory on the path is one, and missing ones may be created. */
  ghost predicate ParentsPrepare(req: Request, d: Disk)
    requires Sized(req)
  {
    && (forall i | 0 <= i <= req.Depth() :: IsKind(d, req.dirs[i], Directory))
    && (req.created > 0 ==> req.createsParent)
  }

  predicate IsKind(d: Disk, i: Ino, kind: Kind) { i in d.inodes && d.inodes[i].kind == kind }

  /** The destination is absent, or it may be replaced: a regular file, or a link if the caller allows. */
  ghost predicate Acceptable(req: Request, d: Disk, dest: Entry) {
    dest in d.names ==>
      && !req.createNew
      && (IsKind(d, d.names[dest], Regular) || (req.replacesLink && IsKind(d, d.names[dest], Symlink)))
  }

  /** The writer can be created. */
  ghost predicate Creatable(req: Request, d: Disk)
    requires Sized(req)
  {
    ParentsPrepare(req, d) && (Deferred(req) || Acceptable(req, d, req.Link(|req.steps|)))
  }

  /** What the writer knows about its destination is how the disk was before it was created. */
  ghost predicate Knows(req: Request, d: Disk, cfg: Config)
    requires cfg.Valid()
  {
    && (cfg.existed <==> !Deferred(req) && cfg.Dest() in d.names)
    && (cfg.regular <==> !Deferred(req) && cfg.Dest() in d.names && IsKind(d, d.names[cfg.Dest()], Regular))
  }

  /** A writer is created exactly if the request can be met, and otherwise refused at the stage that
      cannot be passed. */
  lemma BeginsExactly(req: Request, d: Disk)
    requires Fits(req, d)
    ensures Begin(req, d).Ready? <==> Creatable(req, d)
    ensures Begin(req, d).Refused? ==>
      Begin(req, d).stage == if ParentsPrepare(req, d) then InspectDestination else PrepareParent
  {
    InspectsAsBefore(req, d);
  }

  /** Creating the parents changes nothing about the destination. */
  lemma InspectsAsBefore(req: Request, d: Disk)
    requires Fits(req, d)
    ensures var (made, dest) := (MakeDirs(req, d, |req.steps|), req.Link(|req.steps|));
      && made.Cur(dest) == d.Cur(dest)
      && (dest in d.names ==>
            && made.names[dest] in made.inodes && d.names[dest] in d.inodes
            && made.inodes[made.names[dest]] == d.inodes[d.names[dest]])
  {
    var dest := req.Link(|req.steps|);
    MadeParent(req, d, dest);
    if dest in d.names { MadeFile(req, d, |req.steps|, d.names[dest]); }
  }

  /** The writer goes by the options it was asked for. */
  predicate AsAsked(req: Request, cfg: Config) {
    && cfg.platform == req.platform && cfg.policy == req.policy
    && cfg.durability == req.durability && cfg.fileSync == req.fileSync
    && cfg.staged == req.staged && cfg.identityKnown == req.identityKnown
  }

  /** A new writer has its options from the request and what it knows about its destination from the disk;
      create-new has found nothing there. */
  lemma BeginKnows(req: Request, d: Disk)
    requires Fits(req, d) && Begin(req, d).Ready?
    ensures Begin(req, d).cfg.Valid() && Knows(req, d, Begin(req, d).cfg) && AsAsked(req, Begin(req, d).cfg)
    ensures Begin(req, d).cfg.Dest() == req.Link(|req.steps|)
    ensures req.createNew && !Deferred(req) ==> d.Cur(Begin(req, d).cfg.Dest()) == None
  {
    var cfg := Begin(req, d).cfg;
    assert cfg.Dest() == req.Link(|req.steps|);
    InspectsAsBefore(req, d);
  }

  /** A writer that was created starts in a state that satisfies the invariant. */
  lemma BeginEstablishes(req: Request, d: Disk)
    requires Fits(req, d) && Begin(req, d).Ready?
    ensures Inv(Begin(req, d).cfg, Begin(req, d).state)
  {
    var Ready(cfg, s) := Begin(req, d);
    MadeFree(req, d);
    MadeReady(req, d);
    assert cfg.Dest() == req.Link(|req.steps|);
    assert forall i :: 0 <= i < |cfg.steps| ==> cfg.Link(i) == req.Link(i);
    StartsInvariant(cfg, s, MakeDirs(req, d, |req.steps|));
  }

  lemma StartsInvariant(cfg: Config, s: State, d: Disk)
    requires cfg.Valid() && d.WellFormed() && cfg.staged !in d.inodes
    requires forall e :: Some(cfg.staged) !in d.Held(e)
    requires s.disk == d.Create(cfg.Staging(), cfg.staged, Inode(Regular, [], 0, false))
    requires s == State(s.disk, true, true, Idle, NoReply,
                        NoHistory.(original := d.Cur(cfg.Dest()), quiet := s.h.quiet))
    requires forall i :: 0 <= i < |cfg.steps| ==> d.Cur(cfg.Link(i)) == Some(cfg.dirs[i + 1])
    requires s.h.quiet ==>
      && (forall i :: 0 <= i < |cfg.steps| ==> d.Held(cfg.Link(i)) <= {None, Some(cfg.dirs[i + 1])})
      && (forall i :: 0 <= i < |cfg.steps| - cfg.created ==> None !in d.Held(cfg.Link(i)))
      && d.Held(cfg.Dest()) == {d.Cur(cfg.Dest())}
    requires cfg.created > 0 ==> d.Cur(cfg.Dest()) == None
    ensures Inv(cfg, s)
  {
    CreateWellFormed(d, cfg.Staging(), cfg.staged, Inode(Regular, [], 0, false));
    assert forall e :: Some(cfg.staged) in s.disk.Held(e) ==> e == cfg.Staging();
  }
}
