/** Verification of a retained path binding, anchor by anchor, and what it says about a tree of directories. */
module PathBinding {
  import opened Wrappers
  import opened Disk
  import opened Paths
  import opened ComponentPolicy
  import opened Lexical
  import opened Locations
  import opened DirectoryChain
  import opened ChainTheorems

  datatype Verification = Unchanged | Changed | Missing
  datatype Verified = Verdict(verification: Verification) | Error

  // ---- One binding ----

  /** What one native query found. */
  datatype Seen = Fault | Absent | Identity(id: Option<Ino>)

  /** What the queries for one anchor found: the retained handle, and the path opened again. */
  datatype Look = Look(retained: Seen, reopened: Seen)

  /** Nothing if the anchor is as it was, and otherwise what the verification comes to. */
  function Judge(anchor: Anchor, look: Look): Option<Verified> {
    if !look.retained.Identity? then Some(Error)
    else if look.retained.id != Some(anchor.identity) then Some(Verdict(Changed))
    else
      match look.reopened
      case Fault => Some(Error)
      case Absent => Some(Verdict(Missing))
      case Identity(id) => if id != Some(anchor.identity) then Some(Verdict(Changed)) else None
  }

  /** `r` is decided by the first anchor that is not as it was. */
  ghost predicate DecidedFirst(anchors: seq<Anchor>, looks: seq<Look>, r: Verified) {
    exists i: nat ::
      && i < |anchors| == |looks| && Judge(anchors[i], looks[i]) == Some(r)
      && forall j: nat | j < i :: Same(anchors, looks, j)
  }

  ghost predicate Same(anchors: seq<Anchor>, looks: seq<Look>, i: nat) {
    i < |anchors| && i < |looks| ==> Judge(anchors[i], looks[i]) == None
  }

  /** Every anchor is as it was. */
  ghost predicate AllSame(anchors: seq<Anchor>, looks: seq<Look>) { forall i: nat :: Same(anchors, looks, i) }

  /** Opens every anchor again, in order; `late` says that the deadline passed at the very end. It is
      unchanged exactly when every anchor is as it was. */
  method VerifyUntil(anchors: seq<Anchor>, looks: seq<Look>, late: bool) returns (r: Verified)
    requires |looks| == |anchors|
    ensures if AllSame(anchors, looks) then r == (if late then Error else Verdict(Unchanged))
            else r != Verdict(Unchanged) && DecidedFirst(anchors, looks, r)
  {
    for i := 0 to |anchors|
      invariant forall j: nat | j < i :: Same(anchors, looks, j)
    {
      var anchor, look := anchors[i], looks[i];
      if !Same(anchors, looks, i) { assert DecidedFirst(anchors, looks, Judge(anchor, look).value); }
      if look.retained.Fault? || look.retained.Absent? { return Error; }
      if look.retained.id != Some(anchor.identity) { return Verdict(Changed); }
      match look.reopened {
        case Fault => return Error;
        case Absent => return Verdict(Missing);
        case Identity(id) => if id != Some(anchor.identity) { return Verdict(Changed); }
      }
    }
    return if late then Error else Verdict(Unchanged);
  }

  // ---- Against a tree of directories ----

  /** A tree without links that is reached from the host root. */
  datatype Tree = Tree(disk: Disk, parents: map<Ino, Ino>, root: Ino)
  {
    /** What opening the path again finds. */
    function Open(l: Location): Seen {
      match Walk(disk.names, parents, root, l.Route())
      case None => Absent
      case Some(i) => if i in disk.inodes && disk.inodes[i].kind == Directory then Identity(Some(i)) else Fault
    }
  }

  /** The look at one anchor in one state of the tree; a retained handle stays what it is. */
  function LookAt(t: Tree, a: Anchor): Look { Look(Identity(Some(a.authority)), t.Open(a.recipe)) }

  /** The looks that a verification takes in one state of the tree. */
  ghost predicate LooksAt(t: Tree, anchors: seq<Anchor>, looks: seq<Look>) {
    |looks| == |anchors| && forall i: nat :: LookedAt(t, anchors, looks, i)
  }

  ghost predicate LookedAt(t: Tree, anchors: seq<Anchor>, looks: seq<Look>, i: nat) {
    i < |anchors| && i < |looks| ==> looks[i] == LookAt(t, anchors[i])
  }

  ghost predicate Reopens(t: Tree, l: Location, i: Ino) { t.Open(l) == Identity(Some(i)) }

  /** Every path of the handle leads to the directory it was opened as. */
  ghost predicate InPlace(t: Tree, h: DirectoryHandle) {
    && Reopens(t, h.path, h.root)
    && (h.bound.Some? ==> forall i: nat :: Answers(t, h.bound.value.anchors, i))
  }

  /** The anchor's recipe opens the directory it stands for. */
  ghost predicate Answers(t: Tree, anchors: seq<Anchor>, i: nat) {
    i < |anchors| ==> Reopens(t, anchors[i].recipe, anchors[i].identity)
  }

  /** A name joined on is one more component. */
  lemma NameRoute(l: Location, m: Location, name: string)
    requires m.Below(l, name) && SingleName(name)
    ensures m.Route() == l.Route() + [Normal(name)]
  {
    OneNormalComponent(name);
    BelowRoute(l, m, name);
  }

  /** Opening the next directory again, after the one above it. */
  lemma OpenNext(t: Tree, l: Location, at: Ino, m: Location, name: string, i: Ino)
    requires m.Below(l, name) && SingleName(name) && Reopens(t, l, at)
    ensures Reopens(t, m, i) <==> Child(t.disk, at, name) == Some(i)
  {
    NameRoute(l, m, name);
    WalkAppend(t.disk.names, t.parents, t.root, l.Route(), name);
  }

  lemma {:induction false} ChainReopens(t: Tree, root: Ino, l: Location, names: seq<string>, k: nat)
    requires NamesOnly(names) && k <= |names| && Reopens(t, l, root)
    requires DirAt(Still(t.disk), root, names, k).Some?
    ensures Reopens(t, PathAt(l, names, k), DirAt(Still(t.disk), root, names, k).value)
  {
    if k > 0 {
      ChainReopens(t, root, l, names, k - 1);
      PlaceAt(l, names, k);
      assert SingleName(names[k - 1]);
      OpenNext(t, PathAt(l, names, k - 1), DirAt(Still(t.disk), root, names, k - 1).value,
               PathAt(l, names, k), names[k - 1], DirAt(Still(t.disk), root, names, k).value);
    }
  }

  /** The request itself leads to the directory, if its names are its normal form. */
  lemma RequestReopens(t: Tree, h: DirectoryHandle, raw: string, names: seq<string>)
    requires Reopens(t, h.path, h.root) && Requests(t, h, raw, names)
    requires DirAt(Still(t.disk), h.root, names, |names|).Some?
    ensures Reopens(t, h.path.Push(raw), DirAt(Still(t.disk), h.root, names, |names|).value)
  {
    var cs := Body(Pieces(raw));
    PushRoute(h.path, raw);
    WalkConcat(t.disk.names, t.parents, t.root, h.root, h.path.Route(), cs);
    NormalFormGoesTheSameWay(t.disk.names, t.parents, h.root, cs);
    DirIsResolved(t.disk, h.root, names, |names|);
    assert names[..|names|] == names;
  }

  lemma {:induction false} DirIsResolved(d: Disk, root: Ino, names: seq<string>, k: nat)
    requires k <= |names| && DirAt(Still(d), root, names, k).Some?
    ensures Resolve(d.names, root, names[..k]) == DirAt(Still(d), root, names, k)
    ensures k > 0 ==> var i := DirAt(Still(d), root, names, k).value; i in d.inodes && d.inodes[i].kind == Directory
  {
    if k > 0 {
      DirIsResolved(d, root, names, k - 1);
      assert names[..k] == names[..k - 1] + [names[k - 1]];
      ResolveAppend(d.names, root, names[..k - 1], names[k - 1]);
    }
  }

  /** A request that names a directory beneath the handle, in this state of the tree. */
  ghost predicate Requests(t: Tree, h: DirectoryHandle, raw: string, names: seq<string>) {
    && Names(raw, names) && IsTree(t.disk.names, t.parents)
    && Walk(t.disk.names, t.parents, h.root, Body(Pieces(raw))).Some?
  }

  lemma AnchorInPlace(t: Tree, h: DirectoryHandle, raw: string, names: seq<string>, k: nat)
    requires Reopens(t, h.path, h.root) && Requests(t, h, raw, names)
    requires 0 < k <= |names| && DirAt(Still(t.disk), h.root, names, k).Some?
    ensures var a := AnchorAt(Still(t.disk), h.root, h.path, names, Some(h.path.Push(raw)), k);
      Reopens(t, a.recipe, a.identity)
  {
    if k == |names| { RequestReopens(t, h, raw, names); } else { ChainReopens(t, h.root, h.path, names, k); }
  }

  lemma PathInPlace(t: Tree, h: DirectoryHandle, names: seq<string>)
    requires Reopens(t, h.path, h.root) && NamesOnly(names)
    requires DirAt(Still(t.disk), h.root, names, |names|).Some?
    ensures Reopens(t, Diagnostic(h, names), DirAt(Still(t.disk), h.root, names, |names|).value)
  {
    if names == [] { SeparatorInPlace(t, h.path, h.root); } else { ChainReopens(t, h.root, h.path, names, |names|); }
  }

  /** A final separator makes no difference. */
  lemma SeparatorInPlace(t: Tree, l: Location, at: Ino)
    requires Reopens(t, l, at)
    ensures Reopens(t, l.Push(""), at)
  {
    SameRoute(l, l.Push(""));
  }

  /** With no step of anyone else since, a handle just opened verifies as unchanged. */
  lemma FreshlyOpenedIsInPlace(t: Tree, h: DirectoryHandle, raw: string, names: seq<string>, chain: Chain)
    requires InPlace(t, h) && Requests(t, h, raw, names)
    requires IsChain(chain, Still(t.disk), h.root, h.path, names, Some(h.path.Push(raw)))
    ensures InPlace(t, Opened(h, chain, names))
  {
    forall k: nat | k > 0 ensures Answers(t, chain.anchors, k) {
      if k <= |names| { AnchorInPlace(t, h, raw, names, k); }
    }
    AnswersOn(t, Base(h).anchors, chain.anchors);
    PathInPlace(t, h, names);
  }

  lemma AnswersOn(t: Tree, base: seq<Anchor>, more: seq<Anchor>)
    requires |more| > 0 && (forall i: nat :: Answers(t, base, i)) && forall k: nat | k > 0 :: Answers(t, more, k)
    ensures forall i: nat :: Answers(t, base + more[1..], i)
  {
    forall i: nat ensures Answers(t, base + more[1..], i) {
      if i < |base| { assert Answers(t, base, i); } else { assert Answers(t, more, i - |base| + 1); }
    }
  }

  lemma InPlaceVerifies(t: Tree, h: DirectoryHandle, looks: seq<Look>)
    requires WellBound(h) && h.bound.Some? && InPlace(t, h) && LooksAt(t, h.bound.value.anchors, looks)
    ensures AllSame(h.bound.value.anchors, looks)
  {
    var anchors := h.bound.value.anchors;
    forall i: nat ensures Same(anchors, looks, i) {
      assert Identified(h.bound.value, i) && Answers(t, anchors, i) && LookedAt(t, anchors, looks, i);
    }
  }

  // ---- How a directory is opened again ----

  /** Anchor `i` is opened again by going from the directory of anchor `j` through the components `cs`,
      whose normal form is the names in between. An anchor that is opened under its own path is the case
      `j == i` without any component. */
  ghost predicate AskedFrom(anchors: seq<Anchor>, i: nat, j: nat, cs: seq<Component>) {
    && j <= i < |anchors| && Contained(cs) && NamesOnly(Stack(cs))
    && anchors[i].path.base == anchors[j].path.base
    && anchors[i].path.names == anchors[j].path.names + Stack(cs)
    && anchors[i].recipe.Route() == anchors[j].path.Route() + cs
  }

  ghost predicate Asked(anchors: seq<Anchor>, i: nat) {
    i < |anchors| ==> exists j: nat, cs: seq<Component> :: AskedFrom(anchors, i, j, cs)
  }

  ghost predicate WellAsked(h: DirectoryHandle) {
    h.bound.Some? ==> forall i: nat :: Asked(h.bound.value.anchors, i)
  }

  /** The names are the normal form of the request. */
  ghost predicate Names(raw: string, names: seq<string>) {
    !Rooted(raw) && NamesOnly(names) && Contained(Body(Pieces(raw))) && Stack(Body(Pieces(raw))) == names
  }

  lemma AskedForItself(anchors: seq<Anchor>, i: nat)
    requires i < |anchors| && anchors[i].recipe == anchors[i].path
    ensures Asked(anchors, i)
  {
    var none: seq<Component> := [];
    assert anchors[i].path.names + Stack(none) == anchors[i].path.names;
    assert anchors[i].path.Route() + none == anchors[i].recipe.Route();
    assert Contained(none);
    assert AskedFrom(anchors, i, i, none);
  }

  lemma AskedStill(anchors: seq<Anchor>, more: seq<Anchor>, i: nat)
    requires Asked(anchors, i) && i < |anchors|
    ensures Asked(anchors + more, i)
  {
    var j: nat, cs :| AskedFrom(anchors, i, j, cs);
    assert AskedFrom(anchors + more, i, j, cs);
  }

  /** The request itself, from the directory of the handle. */
  lemma AskedByRequest(h: DirectoryHandle, raw: string, names: seq<string>, chain: Chain, env: Env)
    requires WellBound(h) && Names(raw, names) && names != []
    requires IsChain(chain, env, h.root, h.path, names, Some(h.path.Push(raw)))
    ensures var base := Base(h).anchors; Asked(base + chain.anchors[1..], |base| + |names| - 1)
  {
    var base, cs := Base(h).anchors, Body(Pieces(raw));
    var anchors, i, j := base + chain.anchors[1..], |base| + |names| - 1, |base| - 1;
    assert |base| > 0 && base[j].path.SamePlace(h.path) by { BaseWellBound(h); }
    assert anchors[i] == chain.anchors[|names|] && anchors[j] == base[j];
    assert anchors[i].path.base == anchors[j].path.base && anchors[i].path.names == anchors[j].path.names + names by {
      PlaceAt(h.path, names, |names|);
      assert names[..|names|] == names;
    }
    assert anchors[i].recipe.Route() == anchors[j].path.Route() + cs by {
      PushRoute(h.path, raw);
      SameRoute(anchors[j].path, h.path);
    }
    assert AskedFrom(anchors, i, j, cs);
  }

  lemma AskedOn(h: DirectoryHandle, raw: string, names: seq<string>, chain: Chain, env: Env, i: nat)
    requires WellBound(h) && WellAsked(h) && Names(raw, names)
    requires IsChain(chain, env, h.root, h.path, names, Some(h.path.Push(raw)))
    ensures Asked(Base(h).anchors + chain.anchors[1..], i)
  {
    var base := Base(h).anchors;
    var anchors := base + chain.anchors[1..];
    if i < |base| {
      assert Asked(base, i) by { if h.bound.None? { AskedForItself(base, i); } }
      AskedStill(base, chain.anchors[1..], i);
    } else if i == |base| + |names| - 1 {
      AskedByRequest(h, raw, names, chain, env);
    } else if i < |anchors| {
      assert anchors[i].recipe == anchors[i].path by { assert anchors[i] == chain.anchors[i - |base| + 1]; }
      AskedForItself(anchors, i);
    }
  }

  /** Every bound opening of a request, with or without parent steps in it, keeps this. */
  lemma OpeningKeepsRecipes(h: DirectoryHandle, raw: string, names: seq<string>, chain: Chain, env: Env)
    requires WellBound(h) && WellAsked(h) && Names(raw, names)
    requires IsChain(chain, env, h.root, h.path, names, Some(h.path.Push(raw)))
    ensures WellAsked(Opened(h, chain, names))
  {
    forall i: nat ensures Asked(Base(h).anchors + chain.anchors[1..], i) {
      AskedOn(h, raw, names, chain, env, i);
    }
  }

  /** So it holds for every nesting of openings whose names are the normal forms of their requests. */
  lemma {:induction false} NestingKeepsRecipes(handles: seq<DirectoryHandle>, openings: seq<Opening>, k: nat)
    requires Nested(handles, openings) && k < |handles|
    requires forall m | 0 <= m < |openings| :: Names(openings[m].raw, openings[m].names)
    ensures WellBound(handles[k]) && WellAsked(handles[k])
  {
    NestingKeepsBinding(handles, openings, k);
    if k > 0 {
      NestingKeepsRecipes(handles, openings, k - 1);
      assert OpensAt(handles, openings, k - 1);
      var h, o := handles[k - 1], openings[k - 1];
      OpeningKeepsRecipes(h, o.raw, o.names, o.chain, o.env);
    }
  }

  lemma Regroup(a: seq<Component>, b: seq<Component>, c: seq<Component>)
    ensures a + b + c == a + (b + c)
  {}

  lemma {:induction false} RouteOfNames(l: Location, m: Location, ns: seq<string>)
    requires NamesOnly(ns) && m.base == l.base && m.names == l.names + ns
    ensures m.Route() == l.Route() + Normals(ns)
    decreases |ns|
  {
    if ns == [] {
      assert m.names == l.names;
      SameRoute(l, m);
    } else {
      var rest, last := ns[..|ns| - 1], ns[|ns| - 1];
      var above := m.(names := l.names + rest);
      assert m.Route() == above.Route() + [Normal(last)] by {
        assert m.names == above.names + [last] && SingleName(last);
        NameRoute(above, m, last);
      }
      assert above.Route() == l.Route() + Normals(rest) by { RouteOfNames(l, above, rest); }
      Regroup(l.Route(), Normals(rest), [Normal(last)]);
    }
  }

  ghost predicate Walks(t: Tree, l: Location) { Walk(t.disk.names, t.parents, t.root, l.Route()).Some? }

  /** Wherever the recipe leads, the path of the anchor leads too. */
  lemma RecipeLeadsToPath(t: Tree, anchors: seq<Anchor>, i: nat)
    requires i < |anchors| && Asked(anchors, i) && IsTree(t.disk.names, t.parents) && Walks(t, anchors[i].recipe)
    ensures t.Open(anchors[i].path) == t.Open(anchors[i].recipe)
  {
    var j: nat, cs :| AskedFrom(anchors, i, j, cs);
    WalkNormalForm(t.disk.names, t.parents, t.root, anchors[j].path.Route(), cs);
    RouteOfNames(anchors[j].path, anchors[i].path, Stack(cs));
  }

  // ---- Exactness ----

  function LastName(l: Location): string { if l.names == [] then "" else l.names[|l.names| - 1] }

  /** The next directory of the chain still stands under its name in this one. */
  ghost predicate Stands(t: Tree, anchors: seq<Anchor>, i: nat)
    requires i + 1 < |anchors|
  {
    Child(t.disk, anchors[i].identity, LastName(anchors[i + 1].path)) == Some(anchors[i + 1].identity)
  }

  /** The first directory is where it was, and every other one stands under its name. */
  ghost predicate Intact(t: Tree, anchors: seq<Anchor>) {
    && |anchors| > 0 && Reopens(t, anchors[0].path, anchors[0].identity)
    && forall i: nat | i + 1 < |anchors| :: Stands(t, anchors, i)
  }

  /** One link: with the directory above in place, the next one is in place exactly if it still stands
      under its name. */
  lemma AnchorReopens(t: Tree, anchors: seq<Anchor>, i: nat)
    requires i + 1 < |anchors| && Linked(anchors, i) && Reopens(t, anchors[i].path, anchors[i].identity)
    ensures Reopens(t, anchors[i + 1].path, anchors[i + 1].identity) <==> Stands(t, anchors, i)
  {
    var a, b := anchors[i], anchors[i + 1];
    var name :| SingleName(name) && !b.path.open && b.path.Below(a.path, name);
    assert LastName(b.path) == name;
    OpenNext(t, a.path, a.identity, b.path, name, b.identity);
  }

  lemma {:induction false} IntactReopens(t: Tree, anchors: seq<Anchor>, k: nat)
    requires k < |anchors| && Intact(t, anchors) && forall i: nat :: Linked(anchors, i)
    ensures Reopens(t, anchors[k].path, anchors[k].identity)
  {
    if k > 0 {
      IntactReopens(t, anchors, k - 1);
      assert Stands(t, anchors, k - 1);
      AnchorReopens(t, anchors, k - 1);
    }
  }

  /** An anchor is as it was exactly if its recipe leads somewhere and its path leads to its directory. */
  lemma SameLook(t: Tree, h: DirectoryHandle, looks: seq<Look>, i: nat)
    requires WellBound(h) && WellAsked(h) && h.bound.Some? && i < |h.bound.value.anchors|
    requires IsTree(t.disk.names, t.parents) && |looks| == |h.bound.value.anchors|
    requires LookedAt(t, h.bound.value.anchors, looks, i)
    ensures Same(h.bound.value.anchors, looks, i) <==>
      && Walks(t, h.bound.value.anchors[i].recipe)
      && Reopens(t, h.bound.value.anchors[i].path, h.bound.value.anchors[i].identity)
  {
    var anchors := h.bound.value.anchors;
    assert Identified(h.bound.value, i) && Asked(anchors, i);
    if Walks(t, anchors[i].recipe) { RecipeLeadsToPath(t, anchors, i); }
  }

  lemma IntactIsSame(t: Tree, h: DirectoryHandle, looks: seq<Look>, i: nat)
    requires WellBound(h) && WellAsked(h) && h.bound.Some? && IsTree(t.disk.names, t.parents)
    requires LooksAt(t, h.bound.value.anchors, looks) && Intact(t, h.bound.value.anchors)
    requires AllWalk(t, h.bound.value.anchors)
    ensures Same(h.bound.value.anchors, looks, i)
  {
    if i < |h.bound.value.anchors| {
      IntactReopens(t, h.bound.value.anchors, i);
      assert LookedAt(t, h.bound.value.anchors, looks, i) && WalksAt(t, h.bound.value.anchors, i);
      SameLook(t, h, looks, i);
    }
  }

  lemma SameStands(t: Tree, h: DirectoryHandle, looks: seq<Look>, i: nat)
    requires WellBound(h) && WellAsked(h) && h.bound.Some? && i + 1 < |h.bound.value.anchors|
    requires IsTree(t.disk.names, t.parents) && LooksAt(t, h.bound.value.anchors, looks)
    requires Same(h.bound.value.anchors, looks, i) && Same(h.bound.value.anchors, looks, i + 1)
    ensures Stands(t, h.bound.value.anchors, i)
  {
    var a, b := h.bound.value.anchors[i], h.bound.value.anchors[i + 1];
    assert Reopens(t, a.path, a.identity) by {
      assert LookedAt(t, h.bound.value.anchors, looks, i);
      SameLook(t, h, looks, i);
    }
    assert Reopens(t, b.path, b.identity) by {
      assert LookedAt(t, h.bound.value.anchors, looks, i + 1);
      SameLook(t, h, looks, i + 1);
    }
    assert Linked(h.bound.value.anchors, i);
    AnchorReopens(t, h.bound.value.anchors, i);
  }

  ghost predicate WalksAt(t: Tree, anchors: seq<Anchor>, i: nat) { i < |anchors| ==> Walks(t, anchors[i].recipe) }

  /** Every directory that some recipe passes through, parent steps included, is there. */
  ghost predicate AllWalk(t: Tree, anchors: seq<Anchor>) { forall i: nat :: WalksAt(t, anchors, i) }

  /** Verification in one state of the tree is exact for every binding: unchanged if and only if the first
      directory is where it was, every other one still stands under its name in the one before, and the
      recipes can be walked. So while an ancestor stays replaced or removed, nothing reports it unchanged. */
  lemma VerificationIsExact(t: Tree, h: DirectoryHandle, looks: seq<Look>)
    requires WellBound(h) && WellAsked(h) && h.bound.Some? && IsTree(t.disk.names, t.parents)
    requires LooksAt(t, h.bound.value.anchors, looks)
    ensures AllSame(h.bound.value.anchors, looks) <==>
      Intact(t, h.bound.value.anchors) && AllWalk(t, h.bound.value.anchors)
  {
    var anchors := h.bound.value.anchors;
    if Intact(t, anchors) && AllWalk(t, anchors) {
      forall i: nat ensures Same(anchors, looks, i) { IntactIsSame(t, h, looks, i); }
    }
    if AllSame(anchors, looks) {
      forall i: nat ensures WalksAt(t, anchors, i) {
        assert Same(anchors, looks, i) && LookedAt(t, anchors, looks, i);
        if i < |anchors| { SameLook(t, h, looks, i); }
      }
      assert Same(anchors, looks, 0) && LookedAt(t, anchors, looks, 0);
      SameLook(t, h, looks, 0);
      forall i: nat | i + 1 < |anchors| ensures Stands(t, anchors, i) {
        assert Same(anchors, looks, i) && Same(anchors, looks, i + 1);
        SameStands(t, h, looks, i);
      }
    }
  }

  /** The directory of anchor `k` is not where it was: the first one is no longer found under its path, or
      a later one no longer stands under its name in the directory before it, which is in place. */
  ghost predicate Displaced(t: Tree, anchors: seq<Anchor>, k: nat)
    requires k < |anchors|
  {
    if k == 0 then !Reopens(t, anchors[0].path, anchors[0].identity)
    else Reopens(t, anchors[k - 1].path, anchors[k - 1].identity) && !Stands(t, anchors, k - 1)
  }

  /** Even if the tree changes while the verification is under way: if a bound directory is replaced or
      removed when its turn comes, the result is not "unchanged", and it is "changed" or "missing" unless
      some query failed. It does not matter how the directory was asked for. */
  lemma ReplacedIsNoticed(t: Tree, h: DirectoryHandle, looks: seq<Look>, k: nat, r: Verified)
    requires WellBound(h) && WellAsked(h) && h.bound.Some? && IsTree(t.disk.names, t.parents)
    requires k < |h.bound.value.anchors| == |looks| && LookedAt(t, h.bound.value.anchors, looks, k)
    requires Displaced(t, h.bound.value.anchors, k)
    ensures !AllSame(h.bound.value.anchors, looks)
    ensures DecidedFirst(h.bound.value.anchors, looks, r) ==> r != Verdict(Unchanged)
    ensures DecidedFirst(h.bound.value.anchors, looks, r) && NoFault(looks) ==>
      r == Verdict(Changed) || r == Verdict(Missing)
  {
    assert !Same(h.bound.value.anchors, looks, k) by { DisplacedIsNotSame(t, h, looks, k); }
    if DecidedFirst(h.bound.value.anchors, looks, r) { var _ := DecidedMeans(h.bound.value.anchors, looks, r); }
  }

  lemma DisplacedIsNotSame(t: Tree, h: DirectoryHandle, looks: seq<Look>, k: nat)
    requires WellBound(h) && WellAsked(h) && h.bound.Some? && IsTree(t.disk.names, t.parents)
    requires k < |h.bound.value.anchors| == |looks| && LookedAt(t, h.bound.value.anchors, looks, k)
    requires Displaced(t, h.bound.value.anchors, k)
    ensures !Same(h.bound.value.anchors, looks, k)
  {
    assert !Reopens(t, h.bound.value.anchors[k].path, h.bound.value.anchors[k].identity) by {
      if k > 0 {
        assert Linked(h.bound.value.anchors, k - 1);
        AnchorReopens(t, h.bound.value.anchors, k - 1);
      }
    }
    SameLook(t, h, looks, k);
  }

  /** The first anchor at which some query does not find its directory decides: missing if only its path is
      gone, changed if a query finds another directory, and otherwise an error. */
  lemma DecidedMeans(anchors: seq<Anchor>, looks: seq<Look>, r: Verified) returns (i: nat)
    requires DecidedFirst(anchors, looks, r)
    ensures i < |anchors| == |looks| && looks[i] != Found(anchors[i])
    ensures forall j: nat | j < i :: looks[j] == Found(anchors[j])
    ensures var (was, seen) := (Identity(Some(anchors[i].identity)), looks[i]);
      && (r == Verdict(Missing) <==> seen.retained == was && seen.reopened == Absent)
      && (r == Verdict(Changed) <==>
            || (seen.retained.Identity? && seen.retained != was)
            || (seen.retained == was && seen.reopened.Identity? && seen.reopened != was))
      && r != Verdict(Unchanged)
  {
    i :| i < |anchors| == |looks| && Judge(anchors[i], looks[i]) == Some(r)
      && forall j: nat | j < i :: Same(anchors, looks, j);
    forall j: nat | j < i ensures looks[j] == Found(anchors[j]) { assert Same(anchors, looks, j); }
  }

  /** Both queries find the directory of the anchor. */
  function Found(a: Anchor): Look { Look(Identity(Some(a.identity)), Identity(Some(a.identity))) }

  predicate NoFault(looks: seq<Look>) {
    forall i | 0 <= i < |looks| :: looks[i].retained.Identity? && !looks[i].reopened.Fault?
  }

  /** The looks of a verification during which the tree may change: at anchor `i` it is `ts[i]`. */
  ghost predicate LooksAlong(ts: seq<Tree>, anchors: seq<Anchor>, looks: seq<Look>) {
    |ts| == |looks| == |anchors| && forall i: nat :: i < |ts| ==> LookedAt(ts[i], anchors, looks, i)
  }

  /** Where walking the path leads, if anywhere. */
  function Led(t: Tree, l: Location): Option<Ino> { Walk(t.disk.names, t.parents, t.root, l.Route()) }

  predicate IsDirectory(d: Disk, i: Ino) { i in d.inodes && d.inodes[i].kind == Directory }

  /** What one anchor comes to, seen from the tree: missing exactly if its recipe leads nowhere, changed
      exactly if it leads to another directory, an error exactly if it leads to something else. */
  lemma JudgedByTree(t: Tree, a: Anchor)
    requires a.authority == a.identity
    ensures Judge(a, LookAt(t, a)) == None <==> Reopens(t, a.recipe, a.identity)
    ensures Judge(a, LookAt(t, a)) == Some(Verdict(Missing)) <==> Led(t, a.recipe) == None
    ensures Judge(a, LookAt(t, a)) == Some(Verdict(Changed)) <==>
      Led(t, a.recipe).Some? && Led(t, a.recipe) != Some(a.identity) && IsDirectory(t.disk, Led(t, a.recipe).value)
    ensures Judge(a, LookAt(t, a)) == Some(Error) <==>
      Led(t, a.recipe).Some? && !IsDirectory(t.disk, Led(t, a.recipe).value)
  {}

  /** A verification that finds a change stops at the first anchor whose recipe does not open its directory
      when its turn comes, and says what it found there instead. */
  lemma VerdictIsExact(ts: seq<Tree>, h: DirectoryHandle, looks: seq<Look>, r: Verified) returns (i: nat)
    requires WellBound(h) && h.bound.Some? && LooksAlong(ts, h.bound.value.anchors, looks)
    requires DecidedFirst(h.bound.value.anchors, looks, r)
    ensures i < |h.bound.value.anchors| == |ts|
    ensures forall j: nat | j < i :: Answers(ts[j], h.bound.value.anchors, j)
    ensures !Answers(ts[i], h.bound.value.anchors, i)
    ensures var (a, found) := (h.bound.value.anchors[i], Led(ts[i], h.bound.value.anchors[i].recipe));
      && (r == Verdict(Missing) <==> found == None)
      && (r == Verdict(Changed) <==>
            found.Some? && found != Some(a.identity) && IsDirectory(ts[i].disk, found.value))
      && (r == Error <==> found.Some? && !IsDirectory(ts[i].disk, found.value))
  {
    var anchors := h.bound.value.anchors;
    i :| i < |anchors| == |looks| && Judge(anchors[i], looks[i]) == Some(r)
      && forall j: nat | j < i :: Same(anchors, looks, j);
    forall j: nat | j <= i
      ensures looks[j] == LookAt(ts[j], anchors[j]) && anchors[j].authority == anchors[j].identity
    {
      assert LookedAt(ts[j], anchors, looks, j) && Identified(h.bound.value, j);
    }
    JudgedByTree(ts[i], anchors[i]);
    forall j: nat | j < i ensures Answers(ts[j], anchors, j) {
      assert Same(anchors, looks, j);
      JudgedByTree(ts[j], anchors[j]);
    }
  }
}
