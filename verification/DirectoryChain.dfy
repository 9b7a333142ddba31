/** Directory authorities opened step by step, with an anchor retained for every directory on the way,
    under limits on the number of ancestors and on the bytes of the retained paths. */
module DirectoryChain {
  import opened Wrappers
  import opened Disk
  import opened Paths
  import opened ComponentPolicy
  import opened Locations

  datatype Failure = ResourceLimit | NotDirectory | Native

  /** One directory of a bound path: where it was, how to open it again, and what it was. */
  datatype Anchor = Anchor(path: Location, recipe: Location, identity: Ino, authority: Ino)

  datatype Limits = Limits(maxAncestors: Option<nat>, maxPathBytes: Option<nat>)

  /** What the native calls of one opening meet: the file system at each step, and the steps that fail
      or run into the deadline. */
  datatype Env = Env(still: Disk, changes: map<nat, Disk>, faults: set<nat>)
  {
    function World(k: nat): Disk { if k in changes then changes[k] else still }
  }

  datatype Chain = Chain(authority: Ino, observations: seq<Ino>, anchors: seq<Anchor>)

  datatype Binding = Binding(observations: seq<Ino>, anchors: seq<Anchor>)

  datatype DirectoryHandle = DirectoryHandle(root: Ino, path: Location, bound: Option<Binding>)

  // ---- The byte budget ----

  const USIZE_MAX: nat := 0xffff_ffff_ffff_ffff

  predicate Within(used: nat, limit: Option<nat>) {
    used <= USIZE_MAX && (limit.Some? ==> used <= limit.value)
  }

  class PathBindingBudget {
    const limit: Option<nat>
    var used: nat

    constructor (limit: Option<nat>)
      ensures this.limit == limit && used == 0
    {
      this.limit := limit;
      used := 0;
    }

    /** Charges the bytes; an amount that cannot be represented is refused and not charged. */
    method Debit(bytes: nat) returns (ok: bool)
      modifies this
      ensures ok <==>
        old(used) + bytes <= 0xffff_ffff_ffff_ffff && (limit.Some? ==> old(used) + bytes <= limit.value)
      ensures used == if old(used) + bytes <= USIZE_MAX then old(used) + bytes else old(used)
    {
      if used + bytes > USIZE_MAX {
        return false;
      }
      used := used + bytes;
      return limit.None? || used <= limit.value;
    }
  }

  // ---- Reference definitions ----

  /** The path of the directory reached after the first `k` names. */
  function PathAt(root: Location, names: seq<string>, k: nat): Location
    requires k <= |names|
  {
    if k == 0 then root else PathAt(root, names, k - 1).Push(names[k - 1])
  }

  /** The directory reached after the first `k` names, if each is a directory at its time and no call
      fails on the way. */
  function DirAt(env: Env, root: Ino, names: seq<string>, k: nat): Option<Ino>
    requires k <= |names|
  {
    if k in env.faults then None
    else if k == 0 then Some(root)
    else
      match DirAt(env, root, names, k - 1)
      case None => None
      case Some(at) => Child(env.World(k - 1), at, names[k - 1])
  }

  function Child(d: Disk, at: Ino, name: string): Option<Ino> {
    match d.Cur(Entry(at, name))
    case None => None
    case Some(i) => if i in d.inodes && d.inodes[i].kind == Directory then Some(i) else None
  }

  function AnchorAt(env: Env, root: Ino, path: Location, names: seq<string>, recipe: Option<Location>, k: nat): Anchor
    requires k <= |names| && DirAt(env, root, names, k).Some?
  {
    var at := DirAt(env, root, names, k).value;
    var here := PathAt(path, names, k);
    Anchor(here, if k == |names| && recipe.Some? then recipe.value else here, at, at)
  }

  /** The lengths of the paths of the first `k` directories below the root. */
  function PrefixCost(path: Location, names: seq<string>, k: nat): nat
    requires k <= |names|
  {
    if k == 0 then 0 else PrefixCost(path, names, k - 1) + PathAt(path, names, k).bytes
  }

  function ChainCost(path: Location, names: seq<string>, recipe: Option<Location>): nat {
    path.bytes + PrefixCost(path, names, |names|) + if recipe.Some? then recipe.value.bytes else 0
  }

  function InheritedCost(anchors: seq<Anchor>): nat
    decreases |anchors|
  {
    if anchors == [] then 0
    else
      var last := anchors[|anchors| - 1];
      InheritedCost(anchors[..|anchors| - 1]) + last.path.bytes + last.recipe.bytes
  }

  predicate NamesOnly(names: seq<string>) { forall i | 0 <= i < |names| :: SingleName(names[i]) }

  predicate Exceeds(count: nat, maximum: Option<nat>) { maximum.Some? && count > maximum.value }

  // ---- Opening a chain ----

  ghost predicate Opens(env: Env, root: Ino, names: seq<string>) { DirAt(env, root, names, |names|).Some? }

  /** The next name on the way names something that is no directory. */
  ghost predicate Obstructed(env: Env, root: Ino, names: seq<string>, k: nat) {
    && k < |names| && DirAt(env, root, names, k).Some?
    && var (d, at) := (env.World(k), DirAt(env, root, names, k).value);
       d.Cur(Entry(at, names[k])).Some? && Child(d, at, names[k]) == None
  }

  /** A call fails on the way, or the next name names nothing. */
  ghost predicate Broken(env: Env, root: Ino, names: seq<string>, k: nat) {
    || k in env.faults
    || (&& k < |names| && DirAt(env, root, names, k).Some?
        && env.World(k).Cur(Entry(DirAt(env, root, names, k).value, names[k])) == None)
  }

  /** What makes the descent fail with this error; `afford` says whether it can be paid for. */
  ghost predicate HasCause(env: Env, root: Ino, names: seq<string>, afford: bool, e: Failure) {
    match e
    case ResourceLimit => !afford
    case NotDirectory => exists k: nat :: Obstructed(env, root, names, k)
    case Native => exists k: nat :: k <= |names| && Broken(env, root, names, k)
  }

  /** Descends name by name and retains an anchor for each directory. It succeeds exactly when the
      depth is allowed, every directory is there, no call fails and the whole cost fits the budget;
      the budget is then charged exactly that cost. */
  method RetainDirectoryChain(root: Ino, path: Location, names: seq<string>, recipe: Option<Location>,
                              maxAncestors: Option<nat>, budget: PathBindingBudget, env: Env)
    returns (r: Result<Chain, Failure>)
    modifies budget
    ensures r.Ok? <==>
      && !Exceeds(|names|, maxAncestors) && Opens(env, root, names)
      && Within(old(budget.used) + ChainCost(path, names, recipe), budget.limit)
    ensures r.Ok? ==>
      && budget.used == old(budget.used) + ChainCost(path, names, recipe)
      && IsChain(r.value, env, root, path, names, recipe)
    ensures r.Err? ==>
      var afford :=
        !Exceeds(|names|, maxAncestors) && Within(old(budget.used) + ChainCost(path, names, recipe), budget.limit);
      HasCause(env, root, names, afford, r.error)
  {
    if Exceeds(|names|, maxAncestors) {
      return Err(ResourceLimit);
    }
    var ok := budget.Debit(path.bytes);
    if !ok { return Err(ResourceLimit); }
    var walked := DescendAll(root, path, names, budget, env);
    if walked.Err? { return walked; }
    if recipe.Some? {
      ok := budget.Debit(recipe.value.bytes);
      if !ok { return Err(ResourceLimit); }
    }
    AllSlots(walked.value, env, root, path, names, recipe);
    return Ok(Answering(walked.value, recipe));
  }

  /** The loop over the names, once the root's own path is paid for. */
  method DescendAll(root: Ino, path: Location, names: seq<string>, budget: PathBindingBudget, env: Env)
    returns (r: Result<Chain, Failure>)
    requires Within(budget.used, budget.limit)
    modifies budget
    ensures r.Ok? <==>
      Opens(env, root, names) && Within(old(budget.used) + PrefixCost(path, names, |names|), budget.limit)
    ensures r.Ok? ==>
      && budget.used == old(budget.used) + PrefixCost(path, names, |names|)
      && SoFar(r.value, env, root, path, names, |names|)
    ensures r.Err? ==>
      HasCause(env, root, names, Within(old(budget.used) + PrefixCost(path, names, |names|), budget.limit), r.error)
  {
    var chain := Chain(root, [root], [Anchor(path, path, root, root)]);
    var authorityPath := path;
    if 0 in env.faults {
      NoWayOn(env, root, path, names, 0, budget.used, budget.limit);
      assert Broken(env, root, names, 0);
      return Err(Native);
    }
    RootOnly(env, root, path, names);
    for k := 0 to |names|
      invariant SoFar(chain, env, root, path, names, k) && authorityPath == PathAt(path, names, k)
      invariant budget.used == old(budget.used) + PrefixCost(path, names, k)
      invariant Within(budget.used, budget.limit)
    {
      authorityPath := authorityPath.Push(names[k]);
      r := Descend(chain, root, path, names, k, authorityPath, budget, env);
      if r.Err? {
        NoWayOn(env, root, path, names, k + 1, old(budget.used), budget.limit);
        CostMonotone(path, names, k + 1);
        return;
      }
      chain := r.value;
    }
    return Ok(chain);
  }

  /** What fails at one step fails the whole opening. */
  lemma NoWayOn(env: Env, root: Ino, path: Location, names: seq<string>, k: nat, used: nat, limit: Option<nat>)
    requires k <= |names|
    requires DirAt(env, root, names, k).None? || !Within(used + PrefixCost(path, names, k), limit)
    ensures !(Opens(env, root, names) && Within(used + PrefixCost(path, names, |names|), limit))
  {
    CostMonotone(path, names, k);
    if DirAt(env, root, names, k).None? { Stuck(env, root, names, k); }
  }

  /** One step down, with its observation, its anchor and its charge. */
  method Descend(c: Chain, ghost root: Ino, ghost path: Location, names: seq<string>, k: nat,
                 authorityPath: Location, budget: PathBindingBudget, env: Env)
    returns (r: Result<Chain, Failure>)
    requires k < |names| && SoFar(c, env, root, path, names, k) && authorityPath == PathAt(path, names, k + 1)
    modifies budget
    ensures r.Ok? <==>
      DirAt(env, root, names, k + 1).Some? && Within(old(budget.used) + authorityPath.bytes, budget.limit)
    ensures r.Ok? ==>
      budget.used == old(budget.used) + authorityPath.bytes && SoFar(r.value, env, root, path, names, k + 1)
    ensures r.Err? ==>
      HasCause(env, root, names, Within(old(budget.used) + authorityPath.bytes, budget.limit), r.error)
  {
    assert k + 1 in env.faults ==> Broken(env, root, names, k + 1);
    assert Broken(env, root, names, k) || Obstructed(env, root, names, k)
      || Child(env.World(k), c.authority, names[k]).Some?;
    if k + 1 in env.faults { return Err(Native); }
    var d := env.World(k);
    var child := Child(d, c.authority, names[k]);
    if child.None? {
      return Err(if d.Cur(Entry(c.authority, names[k])).Some? then NotDirectory else Native);
    }
    var ok := budget.Debit(authorityPath.bytes);
    if !ok { return Err(ResourceLimit); }
    OneMore(c, env, root, path, names, k);
    return Ok(Grow(c, authorityPath, child.value));
  }

  function Grow(c: Chain, path: Location, at: Ino): Chain {
    Chain(at, c.observations + [at], c.anchors + [Anchor(path, path, at, at)])
  }

  ghost predicate Slot(c: Chain, env: Env, root: Ino, path: Location, names: seq<string>, j: nat) {
    && j <= |names| && j < |c.observations| && j < |c.anchors|
    && DirAt(env, root, names, j) == Some(c.observations[j])
    && c.anchors[j] == Plain(path, names, c.observations[j], j)
  }

  ghost predicate SoFar(c: Chain, env: Env, root: Ino, path: Location, names: seq<string>, k: nat) {
    && k <= |names| && |c.observations| == |c.anchors| == k + 1
    && DirAt(env, root, names, k) == Some(c.authority)
    && forall j: nat :: j <= k ==> Slot(c, env, root, path, names, j)
  }

  lemma RootOnly(env: Env, root: Ino, path: Location, names: seq<string>)
    requires 0 !in env.faults
    ensures SoFar(Chain(root, [root], [Anchor(path, path, root, root)]), env, root, path, names, 0)
  {}

  lemma OneMore(c: Chain, env: Env, root: Ino, path: Location, names: seq<string>, k: nat)
    requires k < |names| && SoFar(c, env, root, path, names, k)
    requires Child(env.World(k), c.authority, names[k]).Some? && k + 1 !in env.faults
    ensures SoFar(Grow(c, PathAt(path, names, k + 1), Child(env.World(k), c.authority, names[k]).value),
                  env, root, path, names, k + 1)
  {
    var g := Grow(c, PathAt(path, names, k + 1), Child(env.World(k), c.authority, names[k]).value);
    forall j: nat | j <= k + 1 ensures Slot(g, env, root, path, names, j) {
      assert Slot(c, env, root, path, names, if j <= k then j else k);
    }
  }

  function Plain(path: Location, names: seq<string>, at: Ino, k: nat): Anchor
    requires k <= |names|
  {
    Anchor(PathAt(path, names, k), PathAt(path, names, k), at, at)
  }

  /** The directories, observations and anchors of one opening. */
  ghost predicate IsChain(c: Chain, env: Env, root: Ino, path: Location, names: seq<string>, recipe: Option<Location>) {
    && |c.observations| == |c.anchors| == |names| + 1
    && DirAt(env, root, names, |names|) == Some(c.authority)
    && (forall k :: 0 <= k <= |names| ==>
          DirAt(env, root, names, k).Some?
          && c.observations[k] == DirAt(env, root, names, k).value
          && c.anchors[k] == AnchorAt(env, root, path, names, recipe, k))
  }

  /** The last directory is to be opened again as it was asked for. */
  function Answering(c: Chain, recipe: Option<Location>): Chain {
    if recipe.None? || c.anchors == [] then c
    else
      var last := |c.anchors| - 1;
      c.(anchors := c.anchors[last := c.anchors[last].(recipe := recipe.value)])
  }

  lemma AllSlots(c: Chain, env: Env, root: Ino, path: Location, names: seq<string>, recipe: Option<Location>)
    requires SoFar(c, env, root, path, names, |names|)
    ensures IsChain(Answering(c, recipe), env, root, path, names, recipe)
  {
    forall k: nat | k <= |names|
      ensures DirAt(env, root, names, k) == Some(c.observations[k])
      ensures c.anchors[k] == Plain(path, names, c.observations[k], k)
    {
      assert Slot(c, env, root, path, names, k);
    }
  }

  lemma {:induction false} CostMonotone(path: Location, names: seq<string>, k: nat)
    requires k <= |names|
    ensures PrefixCost(path, names, k) <= PrefixCost(path, names, |names|)
    decreases |names| - k
  {
    if k < |names| { CostMonotone(path, names, k + 1); }
  }

  lemma {:induction false} Stuck(env: Env, root: Ino, names: seq<string>, k: nat)
    requires k <= |names| && DirAt(env, root, names, k).None?
    ensures DirAt(env, root, names, |names|).None?
    decreases |names| - k
  {
    if k < |names| { Stuck(env, root, names, k + 1); }
  }

  // ---- Opening a directory beneath a handle ----

  function Diagnostic(h: DirectoryHandle, names: seq<string>): Location {
    if names == [] then h.path.Push("") else PathAt(h.path, names, |names|)
  }

  /** What a child inherits: its parent's binding, or one anchor for an unbound parent itself. */
  function Base(h: DirectoryHandle): Binding {
    if h.bound.Some? then h.bound.value else Binding([h.root], [Anchor(h.path, h.path, h.root, h.root)])
  }

  function BaseCost(h: DirectoryHandle): nat {
    if h.bound.Some? then InheritedCost(h.bound.value.anchors) else h.path.bytes + h.path.bytes
  }

  /** The whole charge of a bound opening: what resolving the request took, the chain itself, and
      everything inherited. */
  function OpenCost(h: DirectoryHandle, raw: string, names: seq<string>, resolved: nat): nat {
    resolved + ChainCost(h.path, names, Some(h.path.Push(raw))) + BaseCost(h)
  }

  function Opened(h: DirectoryHandle, chain: Chain, names: seq<string>): DirectoryHandle
    requires |chain.observations| > 0 && |chain.anchors| > 0
  {
    DirectoryHandle(chain.authority, Diagnostic(h, names),
      Some(Binding(Base(h).observations + chain.observations[1..], Base(h).anchors + chain.anchors[1..])))
  }

  /** The limits allow the opening. */
  ghost predicate Affords(h: DirectoryHandle, raw: string, names: seq<string>, limits: Limits, resolved: nat) {
    && !Exceeds(|names|, limits.maxAncestors)
    && Within(OpenCost(h, raw, names, resolved), limits.maxPathBytes)
    && !Exceeds(Ancestors(Base(h)) + |names|, limits.maxAncestors)
  }

  ghost predicate Admitted(h: DirectoryHandle, raw: string, names: seq<string>, limits: Limits, resolved: nat,
                           env: Env)
  {
    && (limits.maxAncestors.Some? ==>
          |names| <= limits.maxAncestors.value && Ancestors(Base(h)) + |names| <= limits.maxAncestors.value)
    && Opens(env, h.root, names)
    && (h.bound.None? ==> |names| + 1 !in env.faults)
    && Within(OpenCost(h, raw, names, resolved), limits.maxPathBytes)
  }

  function Ancestors(b: Binding): nat { if b.observations == [] then 0 else |b.observations| - 1 }

  /** Opens `names`, which the request `raw` was resolved to, with a binding. */
  method OpenDirectory(h: DirectoryHandle, raw: string, names: seq<string>, limits: Limits, resolved: nat, env: Env)
    returns (r: Result<DirectoryHandle, Failure>, spent: nat)
    ensures r.Ok? <==> Admitted(h, raw, names, limits, resolved, env)
    ensures r.Ok? ==> spent == OpenCost(h, raw, names, resolved)
    ensures r.Err? ==>
      || HasCause(env, h.root, names, Affords(h, raw, names, limits, resolved), r.error)
      || (h.bound.None? && |names| + 1 in env.faults && r.error == Native)
    ensures r.Ok? ==> exists chain ::
      && IsChain(chain, env, h.root, h.path, names, Some(h.path.Push(raw)))
      && r.value == Opened(h, chain, names)
  {
    var budget := new PathBindingBudget(limits.maxPathBytes);
    var ok := budget.Debit(resolved);
    if !ok { return Err(ResourceLimit), budget.used; }
    var chain := RetainDirectoryChain(h.root, h.path, names, Some(h.path.Push(raw)), limits.maxAncestors, budget, env);
    if chain.Err? { return Err(chain.error), budget.used; }
    if h.bound.None? && |names| + 1 in env.faults { return Err(Native), budget.used; }
    ok := DebitInherited(h, budget);
    if !ok { return Err(ResourceLimit), budget.used; }
    if Exceeds(Ancestors(Base(h)) + |names|, limits.maxAncestors) { return Err(ResourceLimit), budget.used; }
    return Ok(Opened(h, chain.value, names)), budget.used;
  }

  /** Charges every inherited anchor's path and recipe, or an unbound parent's path twice. */
  method DebitInherited(h: DirectoryHandle, budget: PathBindingBudget) returns (ok: bool)
    requires Within(budget.used, budget.limit)
    modifies budget
    ensures ok <==> Within(old(budget.used) + BaseCost(h), budget.limit)
    ensures ok ==> budget.used == old(budget.used) + BaseCost(h)
  {
    if h.bound.None? {
      ok := budget.Debit(h.path.bytes);
      if !ok { return false; }
      ok := budget.Debit(h.path.bytes);
      return ok;
    }
    var anchors := h.bound.value.anchors;
    for i := 0 to |anchors|
      invariant budget.used == old(budget.used) + InheritedCost(anchors[..i])
      invariant Within(budget.used, budget.limit)
    {
      assert anchors[..i + 1][..i] == anchors[..i];
      InheritedMonotone(anchors, i + 1);
      ok := budget.Debit(anchors[i].path.bytes);
      if !ok { return false; }
      ok := budget.Debit(anchors[i].recipe.bytes);
      if !ok { return false; }
    }
    assert anchors[..|anchors|] == anchors;
    return true;
  }

  lemma {:induction false} InheritedMonotone(anchors: seq<Anchor>, k: nat)
    requires k <= |anchors|
    ensures InheritedCost(anchors[..k]) <= InheritedCost(anchors)
    decreases |anchors| - k
  {
    if k < |anchors| {
      InheritedMonotone(anchors, k + 1);
      assert anchors[..k + 1][..k] == anchors[..k];
    } else {
      assert anchors[..k] == anchors;
    }
  }
}
