/** What every nesting of bound openings keeps, and why opening in steps is opening at once. */
module ChainTheorems {
  import opened Wrappers
  import opened Disk
  import opened Paths
  import opened ComponentPolicy
  import opened Locations
  import opened DirectoryChain

  // ---- What every nesting keeps ----

  /** The next anchor lies exactly one name below this one. */
  ghost predicate Linked(anchors: seq<Anchor>, i: nat) {
    i + 1 < |anchors| ==>
      exists name: string ::
        SingleName(name) && !anchors[i + 1].path.open && anchors[i + 1].path.Below(anchors[i].path, name)
  }

  ghost predicate Identified(b: Binding, i: nat) {
    i < |b.anchors| && i < |b.observations| ==>
      b.anchors[i].identity == b.anchors[i].authority == b.observations[i]
  }

  /** A binding has one anchor for each observed directory, each a name below the one before, down to
      the directory of the handle itself. */
  ghost predicate WellBound(h: DirectoryHandle) {
    h.bound.Some? ==>
      var b := h.bound.value;
      && |b.observations| == |b.anchors| > 0
      && (forall i: nat :: Identified(b, i) && Linked(b.anchors, i))
      && b.anchors[|b.anchors| - 1].identity == h.root
      && b.anchors[|b.anchors| - 1].path.SamePlace(h.path)
  }

  lemma BaseWellBound(h: DirectoryHandle)
    requires WellBound(h)
    ensures WellBound(h.(bound := Some(Base(h))))
  {}

  lemma {:induction false} PlaceAt(l: Location, names: seq<string>, k: nat)
    requires k <= |names| && NamesOnly(names)
    ensures PathAt(l, names, k).base == l.base && PathAt(l, names, k).names == l.names + names[..k]
    ensures k > 0 ==> PathAt(l, names, k).Below(PathAt(l, names, k - 1), names[k - 1]) && !PathAt(l, names, k).open
  {
    if k > 0 {
      PlaceAt(l, names, k - 1);
      var name := names[k - 1];
      assert name != "" && name[|name| - 1] != '/' by { assert SingleName(name); }
      assert l.names + names[..k] == l.names + names[..k - 1] + [name];
    }
  }

  /** Every bound opening keeps this, whatever happens in the file system meanwhile, and stays within
      its limits. */
  lemma OpeningKeepsBinding(h: DirectoryHandle, raw: string, names: seq<string>, limits: Limits, resolved: nat,
                            env: Env, chain: Chain)
    requires WellBound(h) && NamesOnly(names)
    requires Admitted(h, raw, names, limits, resolved, env)
    requires IsChain(chain, env, h.root, h.path, names, Some(h.path.Push(raw)))
    ensures WellBound(Opened(h, chain, names))
    ensures Ancestors(Opened(h, chain, names).bound.value) == Ancestors(Base(h)) + |names|
    ensures !Exceeds(Ancestors(Opened(h, chain, names).bound.value), limits.maxAncestors)
  {
    BaseWellBound(h);
    var b := Opened(h, chain, names).bound.value;
    forall i: nat ensures Identified(b, i) && Linked(b.anchors, i) {
      assert Identified(Base(h), i);
      LinkedOn(h, chain, names, env, Some(h.path.Push(raw)), i);
    }
    LastPlace(h, chain, names, env, Some(h.path.Push(raw)));
  }

  lemma LinkedOn(h: DirectoryHandle, chain: Chain, names: seq<string>, env: Env, recipe: Option<Location>, i: nat)
    requires WellBound(h) && NamesOnly(names) && IsChain(chain, env, h.root, h.path, names, recipe)
    ensures Linked(Base(h).anchors + chain.anchors[1..], i)
  {
    var base, anchors := Base(h).anchors, Base(h).anchors + chain.anchors[1..];
    BaseWellBound(h);
    if i + 1 < |base| {
      assert Linked(base, i);
    } else if i + 1 < |anchors| {
      var k := i + 2 - |base|;
      assert anchors[i + 1] == chain.anchors[k];
      PlaceAt(h.path, names, k);
      assert SingleName(names[k - 1]);
      assert anchors[i] == if k == 1 then base[|base| - 1] else chain.anchors[k - 1];
      assert anchors[i + 1].path.Below(anchors[i].path, names[k - 1]);
    }
  }

  lemma LastPlace(h: DirectoryHandle, chain: Chain, names: seq<string>, env: Env, recipe: Option<Location>)
    requires WellBound(h) && NamesOnly(names) && IsChain(chain, env, h.root, h.path, names, recipe)
    ensures var child := Opened(h, chain, names);
      var anchors := child.bound.value.anchors;
      && |anchors| > 0
      && anchors[|anchors| - 1].identity == child.root
      && anchors[|anchors| - 1].path.SamePlace(child.path)
  {
    BaseWellBound(h);
    var base := Base(h).anchors;
    var anchors := base + chain.anchors[1..];
    if names == [] {
      assert anchors[|anchors| - 1] == base[|base| - 1];
      assert DirAt(env, h.root, names, 0) == Some(h.root);
    } else {
      assert anchors[|anchors| - 1] == chain.anchors[|names|];
    }
  }

  // ---- The bytes that are retained ----

  /** The lengths of all anchors' paths. */
  function PathBytes(anchors: seq<Anchor>, k: nat): nat
    requires k <= |anchors|
  {
    if k == 0 then 0 else PathBytes(anchors, k - 1) + anchors[k - 1].path.bytes
  }

  /** The lengths of all anchors' recipes. */
  function RecipeBytes(anchors: seq<Anchor>, k: nat): nat
    requires k <= |anchors|
  {
    if k == 0 then 0 else RecipeBytes(anchors, k - 1) + anchors[k - 1].recipe.bytes
  }

  /** What is inherited is paid for in full: every path and every recipe. */
  lemma {:induction false} InheritedInFull(anchors: seq<Anchor>)
    ensures InheritedCost(anchors) == PathBytes(anchors, |anchors|) + RecipeBytes(anchors, |anchors|)
    decreases |anchors|
  {
    if anchors != [] {
      var rest := anchors[..|anchors| - 1];
      InheritedInFull(rest);
      SamePathBytes(rest, anchors, |rest|);
      SameRecipeBytes(rest, anchors, |rest|);
    }
  }

  lemma {:induction false} SameRecipeBytes(a: seq<Anchor>, b: seq<Anchor>, k: nat)
    requires k <= |a| && k <= |b| && forall i | 0 <= i < k :: a[i].recipe == b[i].recipe
    ensures RecipeBytes(a, k) == RecipeBytes(b, k)
  {
    if k > 0 { SameRecipeBytes(a, b, k - 1); }
  }

  lemma {:induction false} SamePathBytes(a: seq<Anchor>, b: seq<Anchor>, k: nat)
    requires k <= |a| && k <= |b| && forall i | 0 <= i < k :: a[i].path == b[i].path
    ensures PathBytes(a, k) == PathBytes(b, k)
  {
    if k > 0 { SamePathBytes(a, b, k - 1); }
  }

  lemma {:induction false} PathBytesOn(base: seq<Anchor>, chain: Chain, env: Env, root: Ino, path: Location,
                                       names: seq<string>, recipe: Option<Location>, k: nat)
    requires IsChain(chain, env, root, path, names, recipe) && k <= |names|
    ensures PathBytes(base + chain.anchors[1..], |base| + k) == PathBytes(base, |base|) + PrefixCost(path, names, k)
  {
    if k == 0 {
      SamePathBytes(base + chain.anchors[1..], base, |base|);
    } else {
      PathBytesOn(base, chain, env, root, path, names, recipe, k - 1);
      assert (base + chain.anchors[1..])[|base| + k - 1] == chain.anchors[k];
    }
  }

  /** Every opening is charged for what resolving took, for the path it starts from, for the paths of all
      anchors of the new handle, old and new, for the recipe of each inherited one, and for the request. */
  lemma ChargedInFull(h: DirectoryHandle, raw: string, names: seq<string>, resolved: nat, env: Env, chain: Chain)
    requires IsChain(chain, env, h.root, h.path, names, Some(h.path.Push(raw)))
    ensures var (base, anchors) := (Base(h).anchors, Opened(h, chain, names).bound.value.anchors);
      OpenCost(h, raw, names, resolved) ==
        resolved + h.path.bytes + PathBytes(anchors, |anchors|) + RecipeBytes(base, |base|) + h.path.Push(raw).bytes
  {
    var base := Base(h).anchors;
    PathBytesOn(base, chain, env, h.root, h.path, names, Some(h.path.Push(raw)), |names|);
    InheritedInFull(base);
    if h.bound.None? { assert PathBytes(base, 1) == h.path.bytes && RecipeBytes(base, 1) == h.path.bytes; }
  }

  /** All that a new handle keeps, the paths of its anchors and the recipes it inherited and was asked for,
      fits the byte limit of its opening. */
  lemma RetainedBytesFit(h: DirectoryHandle, raw: string, names: seq<string>, limits: Limits, resolved: nat,
                         env: Env, chain: Chain)
    requires Admitted(h, raw, names, limits, resolved, env)
    requires IsChain(chain, env, h.root, h.path, names, Some(h.path.Push(raw)))
    ensures var (base, anchors) := (Base(h).anchors, Opened(h, chain, names).bound.value.anchors);
      Within(PathBytes(anchors, |anchors|) + RecipeBytes(base, |base|) + h.path.Push(raw).bytes, limits.maxPathBytes)
  {
    ChargedInFull(h, raw, names, resolved, env, chain);
  }

  // ---- Any number of openings, one beneath the other ----

  /** One bound opening: the request, what it was resolved to, the limits, and what happened meanwhile. */
  datatype Opening = Opening(
    raw: string, names: seq<string>, limits: Limits, resolved: nat, env: Env, chain: Chain)

  ghost predicate OpensAt(handles: seq<DirectoryHandle>, openings: seq<Opening>, k: nat) {
    && k < |openings| && k + 1 < |handles|
    && var (h, o) := (handles[k], openings[k]);
       && NamesOnly(o.names) && Admitted(h, o.raw, o.names, o.limits, o.resolved, o.env)
       && IsChain(o.chain, o.env, h.root, h.path, o.names, Some(h.path.Push(o.raw)))
       && handles[k + 1] == Opened(h, o.chain, o.names)
  }

  /** The handles that a sequence of openings goes through, beginning with one that is not bound. */
  ghost predicate Nested(handles: seq<DirectoryHandle>, openings: seq<Opening>) {
    && |handles| == |openings| + 1 && handles[0].bound.None?
    && forall k: nat :: k < |openings| ==> OpensAt(handles, openings, k)
  }

  /** How many names the first `k` openings went down. */
  function Depths(openings: seq<Opening>, k: nat): nat
    requires k <= |openings|
  {
    if k == 0 then 0 else Depths(openings, k - 1) + |openings[k - 1].names|
  }

  /** In every nesting, whatever happens in the file system: as many anchors as observations, each a name
      below the one before, one ancestor for every name gone down, and no more than the last opening
      allowed, in number and in the bytes of all paths together. */
  lemma {:induction false} NestingKeepsBinding(handles: seq<DirectoryHandle>, openings: seq<Opening>, k: nat)
    requires Nested(handles, openings) && k < |handles|
    ensures WellBound(handles[k]) && Ancestors(Base(handles[k])) == Depths(openings, k)
    ensures k > 0 ==>
      && handles[k].bound.Some? && |handles[k].bound.value.anchors| == Depths(openings, k) + 1
      && !Exceeds(Depths(openings, k), openings[k - 1].limits.maxAncestors)
      && Within(PathBytes(handles[k].bound.value.anchors, Depths(openings, k) + 1),
                openings[k - 1].limits.maxPathBytes)
  {
    if k > 0 {
      NestingKeepsBinding(handles, openings, k - 1);
      assert OpensAt(handles, openings, k - 1);
      var h, o := handles[k - 1], openings[k - 1];
      OpeningKeepsBinding(h, o.raw, o.names, o.limits, o.resolved, o.env, o.chain);
      RetainedBytesFit(h, o.raw, o.names, o.limits, o.resolved, o.env, o.chain);
    }
  }

  // ---- What the paths and their lengths are ----

  /** What pushing the first `k` names one by one onto an empty path gives. */
  function PrefixText(names: seq<string>, k: nat): string
    requires k <= |names|
  {
    if k == 0 then "" else JoinText(PrefixText(names, k - 1), names[k - 1])
  }

  lemma PrefixNext(names: seq<string>, k: nat)
    requires NamesOnly(names) && 0 < k <= |names|
    ensures PrefixText(names, k) != "" && !Rooted(PrefixText(names, k))
    decreases k
  {
    assert SingleName(names[k - 1]);
    if k > 1 {
      PrefixNext(names, k - 1);
      assert PrefixText(names, k)[0] == PrefixText(names, k - 1)[0];
    }
  }

  /** The length charged for each anchor's path is the length of its text. */
  lemma {:induction false} PathIsMeasured(l: Location, names: seq<string>, k: nat)
    requires NamesOnly(names) && k <= |names| && l.Stepwise() && l.Measured()
    ensures PathAt(l, names, k).Stepwise() && PathAt(l, names, k).Measured()
  {
    if k > 0 {
      PathIsMeasured(l, names, k - 1);
      assert SingleName(names[k - 1]);
      PushStep(PathAt(l, names, k - 1), names[k - 1]);
    }
  }

  /** Each anchor's path is the root's path joined with the prefix of names. */
  lemma {:induction false} PathIsJoined(l: Location, names: seq<string>, k: nat)
    requires NamesOnly(names) && 0 < k <= |names| && l.Stepwise() && l.Measured()
    ensures PathAt(l, names, k).Text() == JoinText(l.Text(), PrefixText(names, k))
  {
    var name, above := names[k - 1], PathAt(l, names, k - 1).Text();
    assert PathAt(l, names, k).Text() == JoinText(above, name) by {
      PathIsMeasured(l, names, k - 1);
      assert SingleName(name);
      PushStep(PathAt(l, names, k - 1), name);
    }
    if k > 1 {
      var prefix := PrefixText(names, k - 1);
      PathIsJoined(l, names, k - 1);
      assert JoinText(l.Text(), JoinText(prefix, name)) == JoinText(above, name) by {
        PrefixNext(names, k - 1);
        assert SingleName(name);
        JoinPrefix(l.Text(), prefix, name);
      }
    }
  }

  // ---- Texts and lengths in every nesting ----

  ghost predicate MeasuredAt(anchors: seq<Anchor>, i: nat) {
    i < |anchors| ==> anchors[i].path.Stepwise() && anchors[i].path.Measured()
  }

  /** Every path of the handle has the length that is charged for it. */
  ghost predicate WellMeasured(h: DirectoryHandle) {
    && h.path.Stepwise() && h.path.Measured()
    && (h.bound.Some? ==> forall i: nat :: MeasuredAt(h.bound.value.anchors, i))
  }

  lemma DiagnosticIsMeasured(h: DirectoryHandle, names: seq<string>)
    requires NamesOnly(names) && h.path.Stepwise() && h.path.Measured()
    ensures Diagnostic(h, names).Stepwise() && Diagnostic(h, names).Measured()
  {
    if names == [] {
      CoreReads(h.path);
      PushMeasured(h.path, "");
    } else {
      PathIsMeasured(h.path, names, |names|);
    }
  }

  lemma MeasuredChain(h: DirectoryHandle, chain: Chain, names: seq<string>, env: Env, recipe: Option<Location>, k: nat)
    requires h.path.Stepwise() && h.path.Measured() && NamesOnly(names)
    requires IsChain(chain, env, h.root, h.path, names, recipe)
    ensures MeasuredAt(chain.anchors, k)
  {
    if k <= |names| { PathIsMeasured(h.path, names, k); }
  }

  lemma MeasuredOn(base: seq<Anchor>, more: seq<Anchor>, i: nat)
    requires |more| > 0 && (forall m: nat :: MeasuredAt(base, m)) && forall m: nat :: MeasuredAt(more, m)
    ensures MeasuredAt(base + more[1..], i)
  {
    if i < |base| { assert MeasuredAt(base, i); } else { assert MeasuredAt(more, i - |base| + 1); }
  }

  lemma OpeningKeepsMeasure(h: DirectoryHandle, chain: Chain, names: seq<string>, env: Env, recipe: Option<Location>)
    requires WellMeasured(h) && NamesOnly(names) && IsChain(chain, env, h.root, h.path, names, recipe)
    ensures WellMeasured(Opened(h, chain, names))
  {
    DiagnosticIsMeasured(h, names);
    forall k: nat ensures MeasuredAt(chain.anchors, k) { MeasuredChain(h, chain, names, env, recipe, k); }
    assert forall m: nat :: MeasuredAt(Base(h).anchors, m);
    forall i: nat ensures MeasuredAt(Base(h).anchors + chain.anchors[1..], i) {
      MeasuredOn(Base(h).anchors, chain.anchors, i);
    }
  }

  /** In every nesting below a path: what is charged for a path is the length of its text. */
  lemma {:induction false} NestingIsMeasured(
    base: string, handles: seq<DirectoryHandle>, openings: seq<Opening>, k: nat)
    requires Nested(handles, openings) && k < |handles| && base != "" && handles[0].path == Start(base)
    ensures WellMeasured(handles[k])
  {
    if k == 0 {
      StartMeasured(base);
    } else {
      NestingIsMeasured(base, handles, openings, k - 1);
      assert OpensAt(handles, openings, k - 1);
      var h, o := handles[k - 1], openings[k - 1];
      OpeningKeepsMeasure(h, o.chain, o.names, o.env, Some(h.path.Push(o.raw)));
    }
  }

  /** In every nesting below a path: the text of each anchor's path is the text of the one before, joined
      with exactly one name. */
  lemma NestingExtendsByOneName(
    base: string, handles: seq<DirectoryHandle>, openings: seq<Opening>, k: nat, i: nat) returns (name: string)
    requires Nested(handles, openings) && k < |handles| && base != "" && handles[0].path == Start(base)
    requires handles[k].bound.Some? && i + 1 < |handles[k].bound.value.anchors|
    ensures SingleName(name)
    ensures handles[k].bound.value.anchors[i + 1].path.Text()
         == JoinText(handles[k].bound.value.anchors[i].path.Text(), name)
  {
    var a, b := handles[k].bound.value.anchors[i].path, handles[k].bound.value.anchors[i + 1].path;
    assert Linked(handles[k].bound.value.anchors, i) by { NestingKeepsBinding(handles, openings, k); }
    name :| SingleName(name) && !b.open && b.Below(a, name);
    assert a.Core() != "" by {
      NestingIsMeasured(base, handles, openings, k);
      assert MeasuredAt(handles[k].bound.value.anchors, i);
      CoreReads(a);
    }
    BelowText(a, b, name);
  }

  // ---- The charge in terms of texts ----

  ghost predicate RecipeMeasuredAt(anchors: seq<Anchor>, i: nat) { i < |anchors| ==> anchors[i].recipe.Measured() }

  ghost predicate RecipesMeasured(anchors: seq<Anchor>) { forall i: nat :: RecipeMeasuredAt(anchors, i) }

  lemma RequestIsMeasured(h: DirectoryHandle, raw: string)
    requires h.path.Stepwise() && h.path.Measured() && !Rooted(raw)
    ensures h.path.Push(raw).Measured() && h.path.Push(raw).Text() == JoinText(h.path.Text(), raw)
  {
    CoreReads(h.path);
    PushText(h.path, raw);
    PushMeasured(h.path, raw);
  }

  lemma ChainRecipesMeasured(h: DirectoryHandle, chain: Chain, names: seq<string>, env: Env, raw: string, k: nat)
    requires h.path.Stepwise() && h.path.Measured() && NamesOnly(names) && !Rooted(raw)
    requires IsChain(chain, env, h.root, h.path, names, Some(h.path.Push(raw)))
    ensures RecipeMeasuredAt(chain.anchors, k)
  {
    if k == |names| { RequestIsMeasured(h, raw); } else if k < |names| { PathIsMeasured(h.path, names, k); }
  }

  lemma OpeningMeasuresRecipes(h: DirectoryHandle, chain: Chain, names: seq<string>, env: Env, raw: string)
    requires WellMeasured(h) && RecipesMeasured(Base(h).anchors) && NamesOnly(names) && !Rooted(raw)
    requires IsChain(chain, env, h.root, h.path, names, Some(h.path.Push(raw)))
    ensures RecipesMeasured(Opened(h, chain, names).bound.value.anchors)
  {
    var base := Base(h).anchors;
    forall i: nat ensures RecipeMeasuredAt(base + chain.anchors[1..], i) {
      if i < |base| { assert RecipeMeasuredAt(base, i); }
      else { ChainRecipesMeasured(h, chain, names, env, raw, i - |base| + 1); }
    }
  }

  lemma {:induction false} NestingMeasuresRecipes(
    base: string, handles: seq<DirectoryHandle>, openings: seq<Opening>, k: nat)
    requires Nested(handles, openings) && k < |handles| && base != "" && handles[0].path == Start(base)
    requires forall m | 0 <= m < |openings| :: !Rooted(openings[m].raw)
    ensures RecipesMeasured(Base(handles[k]).anchors)
  {
    if k == 0 {
      StartMeasured(base);
    } else {
      NestingIsMeasured(base, handles, openings, k - 1);
      NestingMeasuresRecipes(base, handles, openings, k - 1);
      assert OpensAt(handles, openings, k - 1);
      var h, o := handles[k - 1], openings[k - 1];
      OpeningMeasuresRecipes(h, o.chain, o.names, o.env, o.raw);
    }
  }

  /** The lengths of the texts of the first `k` anchors' paths. */
  function PathTexts(anchors: seq<Anchor>, k: nat): nat
    requires k <= |anchors|
  {
    if k == 0 then 0 else PathTexts(anchors, k - 1) + |anchors[k - 1].path.Text()|
  }

  /** The lengths of the texts of the first `k` anchors' recipes. */
  function RecipeTexts(anchors: seq<Anchor>, k: nat): nat
    requires k <= |anchors|
  {
    if k == 0 then 0 else RecipeTexts(anchors, k - 1) + |anchors[k - 1].recipe.Text()|
  }

  lemma {:induction false} PathBytesAreTexts(anchors: seq<Anchor>, k: nat)
    requires k <= |anchors| && forall i: nat :: MeasuredAt(anchors, i)
    ensures PathBytes(anchors, k) == PathTexts(anchors, k)
  {
    if k > 0 {
      PathBytesAreTexts(anchors, k - 1);
      assert MeasuredAt(anchors, k - 1);
    }
  }

  lemma {:induction false} RecipeBytesAreTexts(anchors: seq<Anchor>, k: nat)
    requires k <= |anchors| && RecipesMeasured(anchors)
    ensures RecipeBytes(anchors, k) == RecipeTexts(anchors, k)
  {
    if k > 0 {
      RecipeBytesAreTexts(anchors, k - 1);
      assert RecipeMeasuredAt(anchors, k - 1);
    }
  }

  /** In every nesting of relative requests below a path: an opening costs what resolving took and the
      lengths of the texts of the path it starts from, of the paths of all anchors, of the recipes of the
      inherited ones, and of its request joined onto the path it starts from. */
  lemma NestingIsCharged(base: string, handles: seq<DirectoryHandle>, openings: seq<Opening>, k: nat)
    requires Nested(handles, openings) && k < |openings| && base != "" && handles[0].path == Start(base)
    requires forall m | 0 <= m < |openings| :: !Rooted(openings[m].raw)
    ensures handles[k + 1].bound.Some?
    ensures var (h, o) := (handles[k], openings[k]);
      var (before, all) := (Base(h).anchors, handles[k + 1].bound.value.anchors);
      && OpenCost(h, o.raw, o.names, o.resolved) ==
           o.resolved + |h.path.Text()| + PathTexts(all, |all|) + RecipeTexts(before, |before|)
           + |JoinText(h.path.Text(), o.raw)|
      && Within(OpenCost(h, o.raw, o.names, o.resolved), o.limits.maxPathBytes)
  {
    var h, o := handles[k], openings[k];
    assert OpensAt(handles, openings, k);
    ChargedInFull(h, o.raw, o.names, o.resolved, o.env, o.chain);
    NestingIsMeasured(base, handles, openings, k);
    NestingIsMeasured(base, handles, openings, k + 1);
    NestingMeasuresRecipes(base, handles, openings, k);
    RequestIsMeasured(h, o.raw);
    var all := handles[k + 1].bound.value.anchors;
    PathBytesAreTexts(all, |all|);
    RecipeBytesAreTexts(Base(h).anchors, |Base(h).anchors|);
  }

  // ---- Opening in steps is opening at once ----

  /** A file system that does not change and never fails. */
  function Still(d: Disk): Env { Env(d, map[], {}) }

  lemma {:induction false} DirsCompose(d: Disk, root: Ino, first: seq<string>, second: seq<string>, k: nat)
    requires k <= |first|
    ensures DirAt(Still(d), root, first + second, k) == DirAt(Still(d), root, first, k)
  {
    if k > 0 { DirsCompose(d, root, first, second, k - 1); }
  }

  lemma {:induction false} DirsContinue(d: Disk, root: Ino, middle: Ino, first: seq<string>, second: seq<string>,
                                        k: nat)
    requires k <= |second| && DirAt(Still(d), root, first, |first|) == Some(middle)
    ensures DirAt(Still(d), root, first + second, |first| + k) == DirAt(Still(d), middle, second, k)
  {
    if k == 0 {
      DirsCompose(d, root, first, second, |first|);
    } else {
      DirsContinue(d, root, middle, first, second, k - 1);
      assert (first + second)[|first| + k - 1] == second[k - 1];
    }
  }

  /** Where a path leads does not depend on where the opening stopped in between. */
  lemma PlacesContinue(h: DirectoryHandle, first: seq<string>, second: seq<string>, k: nat)
    requires NamesOnly(first) && NamesOnly(second) && 0 < k <= |second|
    ensures PathAt(h.path, first + second, |first| + k).SamePlace(PathAt(Diagnostic(h, first), second, k))
    ensures PathAt(h.path, first + second, |first| + k).open == PathAt(Diagnostic(h, first), second, k).open
  {
    assert NamesOnly(first + second);
    PlaceAt(h.path, first + second, |first| + k);
    PlaceAt(Diagnostic(h, first), second, k);
    PlaceAt(h.path, first, |first|);
    assert (first + second)[..|first| + k] == first + second[..k];
    assert first[..|first|] == first;
    assert h.path.names + (first + second[..k]) == (h.path.names + first) + second[..k];
  }

  /** The same directory under the same path. */
  predicate SameAnchor(a: Anchor, b: Anchor) {
    a.path.SamePlace(b.path) && a.path.open == b.path.open && a.identity == b.identity && a.authority == b.authority
  }

  /** `first` and then `second` opened beneath `h`, and both at once, on a tree that does not change. */
  ghost predicate BothWays(h: DirectoryHandle, d: Disk, first: seq<string>, second: seq<string>,
                           recipe1: Option<Location>, recipe2: Option<Location>, recipe: Option<Location>,
                           c1: Chain, c2: Chain, c: Chain)
  {
    && WellBound(h) && NamesOnly(first) && NamesOnly(second)
    && IsChain(c1, Still(d), h.root, h.path, first, recipe1)
    && IsChain(c2, Still(d), c1.authority, Diagnostic(h, first), second, recipe2)
    && IsChain(c, Still(d), h.root, h.path, first + second, recipe)
  }

  /** On a tree that does not change, opening `first` and then `second` beneath it gives the handle
      that opening both in one step gives: the same directories under the same paths. */
  lemma OpeningComposes(h: DirectoryHandle, d: Disk, first: seq<string>, second: seq<string>,
                        recipe1: Option<Location>, recipe2: Option<Location>, recipe: Option<Location>,
                        c1: Chain, c2: Chain, c: Chain)
    requires BothWays(h, d, first, second, recipe1, recipe2, recipe, c1, c2, c)
    ensures var (inSteps, atOnce) := (Opened(Opened(h, c1, first), c2, second), Opened(h, c, first + second));
      var (a, b) := (inSteps.bound.value, atOnce.bound.value);
      && inSteps.root == atOnce.root && a.observations == b.observations && |a.anchors| == |b.anchors|
      && (forall i :: 0 <= i < |a.anchors| ==> SameAnchor(a.anchors[i], b.anchors[i]))
  {
    DirsContinue(d, h.root, c1.authority, first, second, |second|);
    AnchorsCompose(h, d, first, second, recipe1, recipe2, recipe, c1, c2, c, Base(h));
  }

  lemma AnchorsCompose(h: DirectoryHandle, d: Disk, first: seq<string>, second: seq<string>,
                       recipe1: Option<Location>, recipe2: Option<Location>, recipe: Option<Location>,
                       c1: Chain, c2: Chain, c: Chain, base: Binding)
    requires BothWays(h, d, first, second, recipe1, recipe2, recipe, c1, c2, c)
    ensures base.observations + c1.observations[1..] + c2.observations[1..] == base.observations + c.observations[1..]
    ensures |base.anchors + c1.anchors[1..] + c2.anchors[1..]| == |base.anchors + c.anchors[1..]|
    ensures forall i | 0 <= i < |base.anchors + c.anchors[1..]| ::
      SameAnchor((base.anchors + c1.anchors[1..] + c2.anchors[1..])[i], (base.anchors + c.anchors[1..])[i])
  {
    forall k: nat | 0 < k <= |first| + |second|
      ensures SameAnchor(Either(c1.anchors, c2.anchors, k), c.anchors[k])
      ensures Either(c1.observations, c2.observations, k) == c.observations[k]
    {
      ComposedAnchor(h, d, first, second, recipe1, recipe2, recipe, c1, c2, c, k);
    }
    SameSlots(base.anchors, c1.anchors, c2.anchors, c.anchors);
    SameValues(base.observations, c1.observations, c2.observations, c.observations);
  }

  /** The `k`th element when the first chain is continued by the second. */
  function Either<T>(x: seq<T>, y: seq<T>, k: nat): T
    requires |x| > 0 && |y| > 0 && k < |x| + |y| - 1
  {
    if k < |x| then x[k] else y[k - |x| + 1]
  }

  lemma SameSlots(base: seq<Anchor>, x: seq<Anchor>, y: seq<Anchor>, z: seq<Anchor>)
    requires |x| > 0 && |y| > 0 && |z| == |x| + |y| - 1
    requires forall k: nat | 0 < k < |z| :: SameAnchor(Either(x, y, k), z[k])
    ensures |base + x[1..] + y[1..]| == |base + z[1..]|
    ensures forall i | 0 <= i < |base + z[1..]| :: SameAnchor((base + x[1..] + y[1..])[i], (base + z[1..])[i])
  {
    forall i: nat | i < |base + z[1..]| ensures SameAnchor((base + x[1..] + y[1..])[i], (base + z[1..])[i]) {
      Spliced(base, x, y, z, i);
    }
  }

  lemma SameValues(base: seq<Ino>, x: seq<Ino>, y: seq<Ino>, z: seq<Ino>)
    requires |x| > 0 && |y| > 0 && |z| == |x| + |y| - 1
    requires forall k: nat | 0 < k < |z| :: Either(x, y, k) == z[k]
    ensures base + x[1..] + y[1..] == base + z[1..]
  {
    forall i: nat | i < |base + z[1..]| ensures (base + x[1..] + y[1..])[i] == (base + z[1..])[i] {
      Spliced(base, x, y, z, i);
    }
  }

  lemma Spliced<T>(base: seq<T>, x: seq<T>, y: seq<T>, z: seq<T>, i: nat)
    requires |x| > 0 && |y| > 0 && |z| == |x| + |y| - 1 && i < |base| + |z| - 1
    ensures (base + x[1..] + y[1..])[i] == if i < |base| then base[i] else Either(x, y, i - |base| + 1)
    ensures (base + z[1..])[i] == if i < |base| then base[i] else z[i - |base| + 1]
  {}

  /** The `k`th directory below the handle, both ways. */
  lemma ComposedAnchor(h: DirectoryHandle, d: Disk, first: seq<string>, second: seq<string>,
                       recipe1: Option<Location>, recipe2: Option<Location>, recipe: Option<Location>,
                       c1: Chain, c2: Chain, c: Chain, k: nat)
    requires BothWays(h, d, first, second, recipe1, recipe2, recipe, c1, c2, c)
    requires 0 < k <= |first| + |second|
    ensures SameAnchor(Either(c1.anchors, c2.anchors, k), c.anchors[k])
    ensures Either(c1.observations, c2.observations, k) == c.observations[k]
  {
    if k <= |first| {
      DirsCompose(d, h.root, first, second, k);
      assert NamesOnly(first + second);
      PlaceAt(h.path, first, k);
      PlaceAt(h.path, first + second, k);
      assert (first + second)[..k] == first[..k];
    } else {
      DirsContinue(d, h.root, c1.authority, first, second, k - |first|);
      PlacesContinue(h, first, second, k - |first|);
    }
  }

  // ---- Opening in any number of steps ----

  /** All the names of the openings from `k` on. */
  function AllNames(openings: seq<Opening>, k: nat): seq<string>
    requires k <= |openings|
    decreases |openings| - k
  {
    if k == |openings| then [] else openings[k].names + AllNames(openings, k + 1)
  }

  /** The chain of an opening that finds every directory. */
  ghost function ChainOf(env: Env, root: Ino, path: Location, names: seq<string>): Chain
    requires forall k :: 0 <= k <= |names| ==> DirAt(env, root, names, k).Some?
  {
    Chain(DirAt(env, root, names, |names|).value,
          seq(|names| + 1, k requires 0 <= k <= |names| => DirAt(env, root, names, k).value),
          seq(|names| + 1, k requires 0 <= k <= |names| => AnchorAt(env, root, path, names, None, k)))
  }

  lemma ChainExists(env: Env, root: Ino, path: Location, names: seq<string>) returns (c: Chain)
    requires Opens(env, root, names)
    ensures IsChain(c, env, root, path, names, None)
  {
    forall k | 0 <= k <= |names| ensures DirAt(env, root, names, k).Some? {
      if DirAt(env, root, names, k).None? { Stuck(env, root, names, k); }
    }
    c := ChainOf(env, root, path, names);
  }

  /** The same directories under the same paths. */
  ghost predicate SameHandle(g: DirectoryHandle, h: DirectoryHandle) {
    && g.root == h.root && g.bound.Some? && h.bound.Some?
    && g.bound.value.observations == h.bound.value.observations
    && |g.bound.value.anchors| == |h.bound.value.anchors|
    && forall i | 0 <= i < |g.bound.value.anchors| :: SameAnchor(g.bound.value.anchors[i], h.bound.value.anchors[i])
  }

  lemma SameHandleTrans(f: DirectoryHandle, g: DirectoryHandle, h: DirectoryHandle)
    requires SameHandle(f, g) && SameHandle(g, h)
    ensures SameHandle(f, h)
  {
    forall i | 0 <= i < |f.bound.value.anchors|
      ensures SameAnchor(f.bound.value.anchors[i], h.bound.value.anchors[i])
    {
      assert SameAnchor(f.bound.value.anchors[i], g.bound.value.anchors[i]);
      assert SameAnchor(g.bound.value.anchors[i], h.bound.value.anchors[i]);
    }
  }

  ghost predicate StillOpensAt(d: Disk, handles: seq<DirectoryHandle>, openings: seq<Opening>, k: nat) {
    OpensAt(handles, openings, k) && openings[k].env == Still(d)
  }

  /** A nesting on a tree that does not change; the first handle may be bound or not. */
  ghost predicate StillNested(d: Disk, handles: seq<DirectoryHandle>, openings: seq<Opening>) {
    && |handles| == |openings| + 1 && WellBound(handles[0])
    && forall k: nat :: k < |openings| ==> StillOpensAt(d, handles, openings, k)
  }

  lemma {:induction false} StillWellBound(d: Disk, handles: seq<DirectoryHandle>, openings: seq<Opening>, k: nat)
    requires StillNested(d, handles, openings) && k < |handles|
    ensures WellBound(handles[k])
  {
    if k > 0 {
      StillWellBound(d, handles, openings, k - 1);
      assert StillOpensAt(d, handles, openings, k - 1);
      var h, o := handles[k - 1], openings[k - 1];
      OpeningKeepsBinding(h, o.raw, o.names, o.limits, o.resolved, o.env, o.chain);
    }
  }

  lemma {:induction false} AllNamesOnly(d: Disk, handles: seq<DirectoryHandle>, openings: seq<Opening>, k: nat)
    requires StillNested(d, handles, openings) && k <= |openings|
    ensures NamesOnly(AllNames(openings, k)) && Opens(Still(d), handles[k].root, AllNames(openings, k))
    decreases |openings| - k
  {
    if k < |openings| {
      AllNamesOnly(d, handles, openings, k + 1);
      assert StillOpensAt(d, handles, openings, k);
      OpensBothWays(d, handles[k].root, openings[k].names, AllNames(openings, k + 1));
    }
  }

  /** On a tree that does not change, any number of openings, one beneath the other, gives the handle that
      opening the concatenation of their paths at once gives: the same directories under the same paths. */
  lemma {:induction false} NestingComposes(
    d: Disk, handles: seq<DirectoryHandle>, openings: seq<Opening>, k: nat, recipe: Option<Location>, c: Chain)
    requires StillNested(d, handles, openings) && k < |openings|
    requires IsChain(c, Still(d), handles[k].root, handles[k].path, AllNames(openings, k), recipe)
    ensures SameHandle(handles[|openings|], Opened(handles[k], c, AllNames(openings, k)))
    decreases |openings| - k
  {
    var h, o, rest := handles[k], openings[k], AllNames(openings, k + 1);
    assert StillOpensAt(d, handles, openings, k);
    StillWellBound(d, handles, openings, k);
    AllNamesOnly(d, handles, openings, k + 1);
    var c2 := ChainExists(Still(d), handles[k + 1].root, handles[k + 1].path, rest);
    FoldOnce(d, h, o, rest, c2, c, recipe);
    if k + 1 < |openings| {
      NestingComposes(d, handles, openings, k + 1, None, c2);
      SameHandleTrans(handles[|openings|], Opened(handles[k + 1], c2, rest), Opened(h, c, o.names + rest));
    } else {
      NothingOpened(handles[k + 1], c2, d);
      SameHandleTrans(handles[|openings|], Opened(handles[k + 1], c2, rest), Opened(h, c, o.names + rest));
    }
  }

  /** ... and so every anchor's path is spelt the same either way. */
  lemma NestingSpellsTheSame(d: Disk, handles: seq<DirectoryHandle>, openings: seq<Opening>, k: nat,
                             recipe: Option<Location>, c: Chain, i: nat)
    requires StillNested(d, handles, openings) && k < |openings|
    requires IsChain(c, Still(d), handles[k].root, handles[k].path, AllNames(openings, k), recipe)
    requires handles[|openings|].bound.Some? && i < |handles[|openings|].bound.value.anchors|
    ensures var h := Opened(handles[k], c, AllNames(openings, k));
      && h.bound.Some? && i < |h.bound.value.anchors|
      && handles[|openings|].bound.value.anchors[i].path.Text() == h.bound.value.anchors[i].path.Text()
  {
    var g, h := handles[|openings|], Opened(handles[k], c, AllNames(openings, k));
    assert SameHandle(g, h) by { NestingComposes(d, handles, openings, k, recipe, c); }
    assert SameAnchor(g.bound.value.anchors[i], h.bound.value.anchors[i]);
    SameText(g.bound.value.anchors[i].path, h.bound.value.anchors[i].path);
  }

  /** Opening nothing beneath a bound handle adds nothing. */
  lemma NothingOpened(h: DirectoryHandle, c: Chain, d: Disk)
    requires h.bound.Some? && IsChain(c, Still(d), h.root, h.path, [], None)
    ensures SameHandle(h, Opened(h, c, []))
  {
    assert c.observations[1..] == [] && c.anchors[1..] == [];
    assert DirAt(Still(d), h.root, [], 0) == Some(h.root);
  }

  lemma FoldOnce(d: Disk, h: DirectoryHandle, o: Opening, rest: seq<string>, c2: Chain, c: Chain,
                 recipe: Option<Location>)
    requires WellBound(h) && NamesOnly(o.names) && NamesOnly(rest) && o.env == Still(d)
    requires IsChain(o.chain, Still(d), h.root, h.path, o.names, Some(h.path.Push(o.raw)))
    requires IsChain(c2, Still(d), o.chain.authority, Diagnostic(h, o.names), rest, None)
    requires IsChain(c, Still(d), h.root, h.path, o.names + rest, recipe)
    ensures SameHandle(Opened(Opened(h, o.chain, o.names), c2, rest), Opened(h, c, o.names + rest))
  {
    OpeningComposes(h, d, o.names, rest, Some(h.path.Push(o.raw)), None, recipe, o.chain, c2, c);
  }

  /** Both ways of opening reach a directory, or neither does. */
  lemma OpensBothWays(d: Disk, root: Ino, first: seq<string>, second: seq<string>)
    ensures Opens(Still(d), root, first + second) <==>
      Opens(Still(d), root, first) && Opens(Still(d), DirAt(Still(d), root, first, |first|).value, second)
  {
    DirsCompose(d, root, first, second, |first|);
    match DirAt(Still(d), root, first, |first|)
    case None => Stuck(Still(d), root, first + second, |first|);
    case Some(middle) => DirsContinue(d, root, middle, first, second, |second|);
  }
}
