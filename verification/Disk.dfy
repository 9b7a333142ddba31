/** A file system as a crash sees it.

    Every directory entry has a current value and a set of values that a crash may
    bring back: all the values it has had since its directory was last synchronized.
    Every inode has current bytes and a flag saying whether they are on stable storage;
    bytes that are not may come back as anything at all.

    Inode numbers are never reused, so an identity names one object for ever. */
module Disk {
  import opened Wrappers

  type Byte = b: int | 0 <= b < 256
  type Ino = nat
  type Name = string

  datatype Kind = Regular | Symlink | Directory | Special

  datatype Inode = Inode(kind: Kind, data: seq<Byte>, meta: nat, durable: bool)

  /** One name inside one directory. */
  datatype Entry = Entry(dir: Ino, name: Name)

  datatype Disk = Disk(
    inodes: map<Ino, Inode>,
    names: map<Entry, Ino>,
    held: map<Entry, set<Option<Ino>>>)
  {
    /** What the entry names now. */
    function Cur(e: Entry): Option<Ino> {
      if e in names then Some(names[e]) else None
    }

    /** What the entry may name after a crash. */
    function Held(e: Entry): set<Option<Ino>> {
      if e in held then held[e] else {None}
    }

    ghost predicate WellFormed() {
      && (forall e :: e in names ==> names[e] in inodes && e in held)
      && (forall e: Entry :: Cur(e) in Held(e))
    }

    /** Entries live in existing directories and can only come back naming existing inodes. */
    ghost predicate Closed() {
      && (forall e :: e in held ==> e.dir in inodes)
      && (forall e, i :: e in held && Some(i) in held[e] ==> i in inodes)
    }

    /** Rebinds one entry; the old value stays recoverable until its directory is synchronized. */
    function Rebind(e: Entry, t: Option<Ino>): (d: Disk)
      ensures d.inodes == inodes
      ensures forall x :: d.Cur(x) == if x == e then t else Cur(x)
      ensures forall x :: d.Held(x) == if x == e then Held(x) + {t} else Held(x)
    {
      Disk(inodes,
           if t.Some? then names[e := t.value] else names - {e},
           held[e := Held(e) + {t}])
    }

    /** `fsync` of a directory: each of its entries can only come back as it is now. */
    function SyncDir(dir: Ino): (d: Disk)
      ensures d.inodes == inodes
      ensures forall x :: d.Cur(x) == Cur(x)
      ensures WellFormed() ==> forall x :: d.Held(x) == if x.dir == dir then {Cur(x)} else Held(x)
    {
      this.(held := map e | e in held :: if e.dir == dir then {Cur(e)} else held[e])
    }

    /** `fsync` of a file. */
    function SyncFile(i: Ino): (d: Disk)
      requires i in inodes
      ensures forall x :: d.Cur(x) == Cur(x) && d.Held(x) == Held(x)
    {
      this.(inodes := inodes[i := inodes[i].(durable := true)])
    }

    /** New bytes or metadata reach the page cache only. */
    function Store(i: Ino, data: seq<Byte>, meta: nat): (d: Disk)
      requires i in inodes
      ensures forall x :: d.Cur(x) == Cur(x) && d.Held(x) == Held(x)
    {
      this.(inodes := inodes[i := inodes[i].(data := data, meta := meta, durable := false)])
    }

    /** A new inode bound to an entry. */
    function Create(e: Entry, i: Ino, node: Inode): (d: Disk)
      ensures d.inodes == inodes[i := node]
      ensures forall x :: d.Cur(x) == if x == e then Some(i) else Cur(x)
      ensures forall x :: d.Held(x) == if x == e then Held(x) + {Some(i)} else Held(x)
    {
      this.(inodes := inodes[i := node]).Rebind(e, Some(i))
    }
  }

  lemma RebindWellFormed(d: Disk, e: Entry, t: Option<Ino>)
    requires d.WellFormed() && (t.Some? ==> t.value in d.inodes)
    ensures d.Rebind(e, t).WellFormed()
  {}

  lemma CreateWellFormed(d: Disk, e: Entry, i: Ino, node: Inode)
    requires d.WellFormed()
    ensures d.Create(e, i, node).WellFormed()
  {
    var wider := d.(inodes := d.inodes[i := node]);
    assert forall x: Entry :: wider.Cur(x) == d.Cur(x) && wider.Held(x) == d.Held(x);
    RebindWellFormed(wider, e, Some(i));
  }

  lemma SyncDirWellFormed(d: Disk, dir: Ino)
    requires d.WellFormed()
    ensures d.SyncDir(dir).WellFormed()
  {}

  datatype File = File(data: seq<Byte>, meta: nat)

  /** What one particular crash left behind. */
  datatype Image = Image(names: map<Entry, Ino>, files: map<Ino, File>)

  /** Whether a crash of `d` can leave `img`: entries come back independently of one another,
      and an inode whose bytes were not synchronized comes back with arbitrary bytes. */
  ghost predicate Recovers(d: Disk, img: Image) {
    && (forall e: Entry :: (if e in img.names then Some(img.names[e]) else None) in d.Held(e))
    && (forall i :: i in d.inodes ==> i in img.files)
    && (forall i :: i in d.inodes && d.inodes[i].durable ==>
          img.files[i] == File(d.inodes[i].data, d.inodes[i].meta))
  }

  /** Follows `path` from the directory `base`. */
  function Resolve(names: map<Entry, Ino>, base: Ino, path: seq<Name>): Option<Ino>
    decreases |path|
  {
    if path == [] then Some(base)
    else if Entry(base, path[0]) in names then Resolve(names, names[Entry(base, path[0])], path[1..])
    else None
  }
}
