/** Runs in which the writer takes away or publishes what is not its own. Nothing but the cleanup looks at
    what the staging name names: the installation takes whatever is there, and so does the unlink of the
    link fallback; and the cleanup looks some time before it removes. */
module AtomicWitness {
  import opened Wrappers
  import opened Disk
  import opened AtomicProtocol
  import opened AtomicInvariant
  import opened AtomicBegin
  import opened AtomicTheorems
  import opened LocalAtomicWriter

  const Folder := Disk(map[0 := Inode(Directory, [], 0, true)], map[], map[])

  /** A host write of "d" in an empty directory. */
  function Wish(r: Requirement): Request {
    Request(Host, [0], [], 0, "d", false, false, false, false, r, NotRequired, UseStaging, "s", 1, true)
  }

  function Plan(r: Requirement): Config {
    Config(Host, [0], [], 0, "d", "s", 1, true, false, false, r, NotRequired, UseStaging)
  }

  const Staged := Folder.Create(Entry(0, "s"), 1, Inode(Regular, [], 0, false))

  /** What someone else puts under the staging name: another file, not on stable storage. */
  const Someone := Inode(Regular, [7], 0, false)
  const Steals := OCreate(Entry(0, "s"), 2, Someone)

  /** A state of the run in which the disk is `d` and nobody has interfered yet. */
  ghost predicate At(r: Requirement, s: State, p: Point, d: Disk) {
    Reached(Plan(r), s) && s.point == p && s.armed && s.disk == d && s.h.installs == 0 && !s.h.foreignRemoved
  }

  lemma Starts(r: Requirement) returns (s: State)
    ensures At(r, s, Idle, Staged) && s.open
  {
    assert MakeDirs(Wish(r), Folder, 0) == Folder;
    assert Fits(Wish(r), Folder) && Begin(Wish(r), Folder).Ready? && Begin(Wish(r), Folder).cfg == Plan(r);
    s := Begin(Wish(r), Folder).state;
  }

  lemma Observes(r: Requirement) returns (s: State)
    ensures At(r, s, Applying(None), Staged)
  {
    var i := Starts(r);
    var o := i.(point := Observing, reply := NoReply, h := i.h.(copied := None));
    assert Reached(Plan(r), o) by { ReachedStep(Plan(r), i, Commit, o); }
    s := o.(point := Applying(None));
    ReachedStep(Plan(r), o, Succeed, s);
  }

  lemma Applies(r: Requirement) returns (s: State)
    ensures At(r, s, Syncing(None), Staged)
  {
    var i := Observes(r);
    s := i.(point := Syncing(None), h := i.h.(copied := None));
    ReachedStep(Plan(r), i, Succeed, s);
  }

  /** Without any durability the staging file is not synchronized, and then verified. */
  lemma Installs() returns (s: State)
    ensures At(NotRequired, s, Installing(false), Staged)
  {
    var i := Applies(NotRequired);
    var o := i.(point := Verifying(None, false));
    assert Reached(Plan(NotRequired), o) by { ReachedStep(Plan(NotRequired), i, Succeed, o); }
    s := o.(open := false, point := Installing(false),
            h := o.h.(attempted := true));
    ReachedStep(Plan(NotRequired), o, Succeed, s);
  }

  // ---- The link fallback ----

  lemma Links() returns (s: State)
    ensures Reached(Plan(NotRequired), s) && s.point == Unlinking(false, 0) && !s.h.foreignRemoved
    ensures s.disk.inodes.Keys == {0, 1}
  {
    var i := Installs();
    var o := i.(point := Linking(false));
    assert Reached(Plan(NotRequired), o) by { ReachedStep(Plan(NotRequired), i, Unsupported, o); }
    s := LinkStaging(Plan(NotRequired), o, false).value;
    ReachedStep(Plan(NotRequired), o, Succeed, s);
  }

  lemma LinkIsStolen() returns (s: State)
    ensures Reached(Plan(NotRequired), s) && s.point == Unlinking(false, 0) && !s.h.foreignRemoved
    ensures s.disk.Cur(Entry(0, "s")) == Some(2) && 1 in s.disk.inodes
  {
    var i := Links();
    s := OutsideStep(Plan(NotRequired), i, Steals).value;
    ReachedStep(Plan(NotRequired), i, Other(Steals), s);
  }

  /** Someone puts another file under the staging name just after it was linked to the destination; the
      writer unlinks it and reports success. */
  lemma LinkFallbackRemovesForeign() returns (s: State)
    ensures Reachable(Plan(NotRequired), s) && s.h.foreignRemoved && s.reply.Committed?
  {
    var i := LinkIsStolen();
    s := UnlinkStaging(Plan(NotRequired), i, false);
    ReachedStep(Plan(NotRequired), i, Succeed, s);
    ReachedIsReachable(Plan(NotRequired), s);
  }

  // ---- The rename ----

  /** With required durability the staging file is synchronized through its handle. */
  lemma InstallsSynced() returns (s: State)
    ensures At(Required, s, Installing(true), Staged.SyncFile(1)) && !s.open && s.reply == NoReply
  {
    var i := Applies(Required);
    var o := i.(point := Verifying(None, true), disk := Staged.SyncFile(1));
    assert Reached(Plan(Required), o) by { ReachedStep(Plan(Required), i, Succeed, o); }
    s := o.(open := false, point := Installing(true),
            h := o.h.(attempted := true));
    ReachedStep(Plan(Required), o, Succeed, s);
    assert s.reply == NoReply by { ReachedIsReachable(Plan(Required), s); ReachableInv(Plan(Required), s); }
  }

  lemma RenameIsStolen() returns (s: State)
    ensures Reached(Plan(Required), s) && s.point == Installing(true) && s.h.installs == 0 && !s.h.foreignRemoved
    ensures s.disk.names == map[Entry(0, "s") := 2] && s.disk.inodes.Keys == {0, 1, 2} && s.disk.inodes[2] == Someone
    ensures s.reply == NoReply && !s.open
  {
    var i := InstallsSynced();
    s := OutsideStep(Plan(Required), i, Steals).value;
    ReachedStep(Plan(Required), i, Other(Steals), s);
  }

  lemma Renames() returns (s: State)
    ensures Reached(Plan(Required), s) && s.point == SyncingParents(0, true, AfterInstall)
    ensures s.disk.names == map[Entry(0, "d") := 2] && s.disk.inodes.Keys == {0, 1, 2} && s.disk.inodes[2] == Someone
    ensures s.h.published == Some(2) && s.h.foreignRemoved && !s.armed
  {
    var i := RenameIsStolen();
    s := Install(Plan(Required), i, true).value;
    ReachedStep(Plan(Required), i, Succeed, s);
  }

  /** Someone puts another file under the staging name before the rename; the writer publishes it and
      reports a durable success. The bytes at the destination are neither the accepted ones nor on stable
      storage: a crash may leave any bytes there. */
  lemma RenamePublishesForeign(bytes: seq<Byte>) returns (s: State)
    ensures Reachable(Plan(Required), s) && s.reply == Committed(true, true) && s.h.foreignRemoved
    ensures s.h.published == Some(2) && s.disk.Cur(Entry(0, "d")) == Some(2) && s.disk.Cur(Entry(0, "s")) == None
    ensures 2 in s.disk.inodes && Recovers(s.disk, WithBytes(s.disk, 2, bytes))
  {
    var i := Renames();
    s := SyncParentStep(Plan(Required), i, 0, true, AfterInstall).value;
    assert Reached(Plan(Required), s) by { ReachedStep(Plan(Required), i, Succeed, s); }
    ReachedIsReachable(Plan(Required), s);
    assert s.disk.WellFormed() by { ReachableInv(Plan(Required), s); }
    WithBytesRecovers(s.disk, 2, bytes);
  }

  // ---- The cleanup ----

  lemma Checks() returns (s: State)
    ensures At(NotRequired, s, Removing(ForAbort), Staged)
  {
    var i := Starts(NotRequired);
    var o := StartAbort(Plan(NotRequired), i);
    assert Reached(Plan(NotRequired), o) by { ReachedStep(Plan(NotRequired), i, Abort, o); }
    s := o.(point := Removing(ForAbort));
    ReachedStep(Plan(NotRequired), o, Succeed, s);
  }

  lemma RemovalIsStolen() returns (s: State)
    ensures Reached(Plan(NotRequired), s) && s.point == Removing(ForAbort) && !s.h.foreignRemoved
    ensures s.disk.Cur(Entry(0, "s")) == Some(2) && 1 in s.disk.inodes
    ensures 2 in s.disk.inodes && s.disk.inodes[2] == Someone
  {
    var i := Checks();
    s := OutsideStep(Plan(NotRequired), i, Steals).value;
    ReachedStep(Plan(NotRequired), i, Other(Steals), s);
  }

  /** Someone replaces the staging name between the identity check and the removal; an abort removes it. */
  lemma AbortRemovesForeign() returns (s: State)
    ensures Reachable(Plan(NotRequired), s) && s.h.foreignRemoved && s.reply == Aborted
  {
    var i := RemovalIsStolen();
    s := RemoveChecked(Plan(NotRequired), i, ForAbort).value;
    ReachedStep(Plan(NotRequired), i, Succeed, s);
    ReachedIsReachable(Plan(NotRequired), s);
  }

  // ---- The consuming commit ----

  const Occupied := Disk(
    map[0 := Inode(Directory, [], 0, true), 3 := Inode(Regular, [9], 0, true)],
    map[Entry(0, "d") := 3], map[Entry(0, "d") := {Some(3)}])

  /** A rooted write over the regular file "d". */
  const Replacing :=
    Request(RootedUnix, [0], [], 0, "d", false, false, false, false, NotRequired, NotRequired, UseStaging, "s", 1, true)

  const Rooted :=
    Config(RootedUnix, [0], [], 0, "d", "s", 1, true, true, true, NotRequired, NotRequired, UseStaging)

  /** The writer is with its owner, nobody has touched its staging file, and "d" names what `dest` says. */
  ghost predicate Waits(s: State, dest: Option<Ino>) {
    && Reached(Rooted, s) && s.point == Idle && s.open && s.armed && !s.h.stagingTouched
    && s.disk.Cur(Entry(0, "s")) == Some(1) && s.disk.Cur(Entry(0, "d")) == dest && 1 in s.disk.inodes
  }

  lemma WaitsToReplace() returns (s: State)
    ensures Waits(s, Some(3))
  {
    assert MakeDirs(Replacing, Occupied, 0) == Occupied;
    assert Fits(Replacing, Occupied) && Begin(Replacing, Occupied).Ready? && Begin(Replacing, Occupied).cfg == Rooted;
    s := Begin(Replacing, Occupied).state;
  }

  lemma DestinationGoes() returns (s: State)
    ensures Waits(s, None)
  {
    var i := WaitsToReplace();
    s := OutsideStep(Rooted, i, OUnbind(Entry(0, "d"))).value;
    ReachedStep(Rooted, i, Other(OUnbind(Entry(0, "d"))), s);
  }

  lemma FindsItMissing() returns (s: State)
    ensures Waits(s, None) && s.reply == Failed(Report(ReadDestinationMetadata, Missing), true)
  {
    var i := DestinationGoes();
    var o := StartAttempt(Rooted, i);
    assert Reached(Rooted, o) by { ReachedStep(Rooted, i, Commit, o); }
    s := Observe(Rooted, o);
    ReachedStep(Rooted, o, Succeed, s);
  }

  /** Someone removes the destination; the consuming commit reports it missing and leaves its staging file
      behind, with nobody left to remove it. */
  lemma FinalizeLeavesStaging() returns (s: State)
    ensures Reachable(Rooted, s) && Abandoned(s) && !s.armed && !s.h.stagingTouched
    ensures s.disk.Cur(Entry(0, "s")) == Some(1) && s.reply.failure.destination == Missing
  {
    var i := FindsItMissing();
    s := StartFinalize(Rooted, i, i.reply.failure);
    ReachedStep(Rooted, i, Finalize, s);
    ReachedIsReachable(Rooted, s);
  }
}
