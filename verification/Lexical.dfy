/** Parent steps in requested paths: the depth counter that admits a request, the stack that
    normalizes it, and the form that stays at the host root. */
module Lexical {
  import opened Wrappers
  import opened Disk
  import opened Paths
  import opened ComponentPolicy

  // ---- Reference definitions ----

  function NameCount(cs: seq<Component>): nat
    decreases |cs|
  {
    if cs == [] then 0 else NameCount(cs[..|cs| - 1]) + if cs[|cs| - 1].Normal? then 1 else 0
  }

  function ParentCount(cs: seq<Component>): nat
    decreases |cs|
  {
    if cs == [] then 0 else ParentCount(cs[..|cs| - 1]) + if cs[|cs| - 1].ParentDir? then 1 else 0
  }

  /** No prefix has more parent steps than names. */
  ghost predicate Contained(cs: seq<Component>) {
    forall k | 0 <= k <= |cs| :: ParentCount(cs[..k]) <= NameCount(cs[..k])
  }

  predicate Permitted(cs: seq<Component>, policy: LocalComponentPolicy) {
    forall i | 0 <= i < |cs| :: cs[i].Normal? ==> !policy.Denies(cs[i].name)
  }

  predicate Relative(cs: seq<Component>) {
    forall i | 0 <= i < |cs| :: cs[i] != RootDir
  }

  /** The names that remain after a component: a parent step takes back the last one, and at the top
      it does nothing. */
  function Push(stack: seq<string>, c: Component): seq<string> {
    match c
    case Normal(name) => stack + [name]
    case ParentDir => if stack == [] then [] else stack[..|stack| - 1]
    case _ => stack
  }

  function Stack(cs: seq<Component>): seq<string>
    decreases |cs|
  {
    if cs == [] then [] else Push(Stack(cs[..|cs| - 1]), cs[|cs| - 1])
  }

  /** The names no later parent step takes back, found from the right: `pending` parent steps are
      still looking for a name. */
  function Kept(cs: seq<Component>, pending: nat): seq<string>
    decreases |cs|
  {
    if cs == [] then []
    else
      var rest, last := cs[..|cs| - 1], cs[|cs| - 1];
      match last
      case ParentDir => Kept(rest, pending + 1)
      case Normal(name) => if pending > 0 then Kept(rest, pending - 1) else Kept(rest, 0) + [name]
      case _ => Kept(rest, pending)
  }

  // ---- The counter is the height of the stack ----

  lemma {:induction false} HeightIsDifference(cs: seq<Component>)
    requires Contained(cs)
    ensures |Stack(cs)| == NameCount(cs) - ParentCount(cs)
    decreases |cs|
  {
    assert cs[..|cs|] == cs;
    if cs != [] {
      var rest := cs[..|cs| - 1];
      assert forall k | 0 <= k <= |rest| :: rest[..k] == cs[..k];
      HeightIsDifference(rest);
      if cs[|cs| - 1].ParentDir? { assert ParentCount(rest) < NameCount(rest); }
    }
  }

  lemma ContainedStep(cs: seq<Component>, i: nat)
    requires i < |cs| && Contained(cs[..i])
    ensures Contained(cs[..i + 1]) <==> !(cs[i].ParentDir? && Stack(cs[..i]) == [])
  {
    var before, now := cs[..i], cs[..i + 1];
    HeightIsDifference(before);
    assert now[..i] == before && now[..i + 1] == now;
    assert forall k | 0 <= k <= i :: now[..k] == before[..k];
    if cs[i].ParentDir? && Stack(before) == [] {
      assert ParentCount(now[..i + 1]) > NameCount(now[..i + 1]);
    }
  }

  lemma NotContained(cs: seq<Component>, i: nat)
    requires i <= |cs| && !Contained(cs[..i])
    ensures !Contained(cs)
  {
    var k :| 0 <= k <= i && ParentCount(cs[..i][..k]) > NameCount(cs[..i][..k]);
    assert cs[..i][..k] == cs[..k];
  }

  // ---- The loops ----

  /** What the first `i` components must satisfy to go on. */
  ghost predicate Admits(cs: seq<Component>, policy: LocalComponentPolicy, i: nat)
    requires i <= |cs|
  {
    Contained(cs[..i]) && forall k | 0 <= k < i :: cs[k] != RootDir && (cs[k].Normal? ==> !policy.Denies(cs[k].name))
  }

  ghost predicate Admissible(cs: seq<Component>, policy: LocalComponentPolicy) {
    Relative(cs) && Contained(cs) && Permitted(cs, policy)
  }

  lemma AdmitsAll(cs: seq<Component>, policy: LocalComponentPolicy)
    ensures Admits(cs, policy, |cs|) <==> Admissible(cs, policy)
    ensures Admits(cs, policy, 0)
  {
    assert cs[..|cs|] == cs;
  }

  /** One more component: rejected if it climbs out, is rooted or is denied. */
  lemma AdmitsNext(cs: seq<Component>, policy: LocalComponentPolicy, i: nat)
    requires i < |cs| && Admits(cs, policy, i)
    ensures
      var ok := match cs[i]
        case CurDir => true
        case RootDir => false
        case ParentDir => Stack(cs[..i]) != []
        case Normal(name) => !policy.Denies(name);
      if ok then Admits(cs, policy, i + 1) else !Admissible(cs, policy)
    ensures Stack(cs[..i + 1]) == Push(Stack(cs[..i]), cs[i])
  {
    ContainedStep(cs, i);
    assert cs[..i + 1][..i] == cs[..i];
    if !Contained(cs[..i + 1]) { NotContained(cs, i + 1); }
  }

  /** Admits a request with a depth counter: exactly the relative ones that never climb out and name
      nothing denied. The counter is the height of the normalizing stack. */
  method ValidateDirectInput(cs: seq<Component>, policy: LocalComponentPolicy)
    returns (r: Result<(), Error>, depth: nat)
    ensures r == if Admissible(cs, policy) then Ok(()) else Err(InvalidPath)
    ensures r.Ok? ==> depth == |Stack(cs)|
  {
    depth := 0;
    AdmitsAll(cs, policy);
    for i := 0 to |cs|
      invariant Admits(cs, policy, i) && depth == |Stack(cs[..i])|
    {
      AdmitsNext(cs, policy, i);
      match cs[i] {
        case CurDir =>
        case ParentDir =>
          if depth == 0 { return Err(InvalidPath), depth; }
          depth := depth - 1;
        case Normal(name) =>
          if policy.Denies(name) { return Err(InvalidPath), depth; }
          depth := depth + 1;
        case RootDir => return Err(InvalidPath), depth;
      }
    }
    assert cs[..|cs|] == cs;
    return Ok(()), depth;
  }

  /** Normalizes a request beneath an authority. It admits exactly what the depth counter admits, if
      every directory that a parent step leaves passes inspection. */
  method Normalize(cs: seq<Component>, policy: LocalComponentPolicy, inspect: set<seq<string>>)
    returns (r: Result<seq<string>, Error>)
    ensures r.Ok? <==> Admissible(cs, policy) && Inspected(cs, inspect)
    ensures r.Ok? ==> r.value == Stack(cs)
  {
    var normalized: seq<string> := [];
    AdmitsAll(cs, policy);
    for i := 0 to |cs|
      invariant Admits(cs, policy, i) && normalized == Stack(cs[..i])
      invariant forall k: nat | k < i :: Leaves(cs, k, inspect)
    {
      AdmitsNext(cs, policy, i);
      match cs[i] {
        case CurDir =>
        case ParentDir =>
          if normalized == [] { return Err(InvalidPath); }
          if normalized !in inspect {
            assert !Leaves(cs, i, inspect);
            return Err(InvalidPath);
          }
          normalized := normalized[..|normalized| - 1];
        case Normal(name) =>
          if policy.Denies(name) { return Err(InvalidPath); }
          normalized := normalized + [name];
        case RootDir => return Err(InvalidPath);
      }
    }
    assert cs[..|cs|] == cs;
    return Ok(normalized);
  }

  /** A parent step at `k` leaves a directory that passes inspection. */
  ghost predicate Leaves(cs: seq<Component>, k: nat, inspect: set<seq<string>>)
    requires k < |cs|
  {
    cs[k].ParentDir? && Stack(cs[..k]) != [] ==> Stack(cs[..k]) in inspect
  }

  ghost predicate Inspected(cs: seq<Component>, inspect: set<seq<string>>) {
    forall k: nat | k < |cs| :: Leaves(cs, k, inspect)
  }

  /** The steps of a host path: at the root a parent step stays there, so nothing is rejected for
      climbing. */
  method ValidateHostParentSteps(cs: seq<Component>, inspect: set<seq<string>>) returns (ok: bool, prefix: seq<string>)
    ensures ok <==> Inspected(cs, inspect)
    ensures ok ==> prefix == Kept(cs, 0)
  {
    prefix := [];
    for i := 0 to |cs|
      invariant prefix == Stack(cs[..i])
      invariant forall k: nat | k < i :: Leaves(cs, k, inspect)
    {
      assert cs[..i + 1][..i] == cs[..i];
      match cs[i] {
        case Normal(name) => prefix := prefix + [name];
        case ParentDir =>
          if prefix != [] {
            if prefix !in inspect {
              assert !Leaves(cs, i, inspect);
              return false, prefix;
            }
            prefix := prefix[..|prefix| - 1];
          }
        case _ =>
      }
    }
    assert cs[..|cs|] == cs;
    StackIsKept(cs);
    return true, prefix;
  }

  // ---- The stack computes the root-clamped normal form ----

  lemma {:induction false} KeptIsPopped(cs: seq<Component>, pending: nat)
    ensures Kept(cs, pending) == if pending <= |Stack(cs)| then Stack(cs)[..|Stack(cs)| - pending] else []
    decreases |cs|
  {
    if cs != [] {
      var rest := cs[..|cs| - 1];
      match cs[|cs| - 1]
      case ParentDir => KeptIsPopped(rest, pending + 1);
      case Normal(_) => KeptIsPopped(rest, if pending > 0 then pending - 1 else 0);
      case _ => KeptIsPopped(rest, pending);
    }
  }

  /** Read from the left with a stack or from the right with a debt, the same names remain. */
  lemma StackIsKept(cs: seq<Component>)
    ensures Stack(cs) == Kept(cs, 0)
  {
    KeptIsPopped(cs, 0);
  }

  // ---- What the normal form means ----

  /** A tree of directories without links: every named directory has the one parent that names it. */
  ghost predicate IsTree(names: map<Entry, Ino>, parents: map<Ino, Ino>) {
    forall e | e in names :: names[e] in parents && parents[names[e]] == e.dir
  }

  /** Walks the components one by one, following the `..` of the directory it is in. */
  function Walk(names: map<Entry, Ino>, parents: map<Ino, Ino>, root: Ino, cs: seq<Component>): Option<Ino>
    decreases |cs|
  {
    if cs == [] then Some(root)
    else
      match Walk(names, parents, root, cs[..|cs| - 1])
      case None => None
      case Some(at) =>
        match cs[|cs| - 1]
        case Normal(name) => if Entry(at, name) in names then Some(names[Entry(at, name)]) else None
        case ParentDir => if at in parents then Some(parents[at]) else None
        case _ => Some(at)
  }

  lemma {:induction false} ResolveAppend(names: map<Entry, Ino>, base: Ino, path: seq<Name>, name: Name)
    ensures Resolve(names, base, path + [name]) ==
      match Resolve(names, base, path)
      case None => None
      case Some(at) => if Entry(at, name) in names then Some(names[Entry(at, name)]) else None
    decreases |path|
  {
    if path == [] {
      assert (path + [name])[1..] == [];
    } else if Entry(base, path[0]) in names {
      assert (path + [name])[1..] == path[1..] + [name];
      ResolveAppend(names, names[Entry(base, path[0])], path[1..], name);
    }
  }

  /** Wherever the walk arrives, the normal form leads to the same directory: taking `..` out of the
      text changes nothing about where a path goes. This holds below any directory for what never
      climbs above it, and for everything below a root that is its own parent. */
  lemma {:induction false} NormalFormGoesTheSameWay(
    names: map<Entry, Ino>, parents: map<Ino, Ino>, root: Ino, cs: seq<Component>)
    requires IsTree(names, parents) && Walk(names, parents, root, cs).Some?
    requires Contained(cs) || (root in parents && parents[root] == root)
    ensures Resolve(names, root, Stack(cs)) == Walk(names, parents, root, cs)
    decreases |cs|
  {
    if cs != [] {
      var rest, last := cs[..|cs| - 1], cs[|cs| - 1];
      if Contained(cs) {
        assert cs[..|cs|] == cs && Contained(rest) by {
          assert forall k | 0 <= k <= |rest| :: rest[..k] == cs[..k];
        }
        ContainedStep(cs, |rest|);
      }
      NormalFormGoesTheSameWay(names, parents, root, rest);
      var stack := Stack(rest);
      match last
      case Normal(name) => ResolveAppend(names, root, stack, name);
      case ParentDir =>
        if stack != [] {
          assert stack == stack[..|stack| - 1] + [stack[|stack| - 1]];
          ResolveAppend(names, root, stack[..|stack| - 1], stack[|stack| - 1]);
        }
      case _ =>
    }
  }

  lemma {:induction false} WalkConcat(
    names: map<Entry, Ino>, parents: map<Ino, Ino>, root: Ino, middle: Ino, a: seq<Component>, b: seq<Component>)
    requires Walk(names, parents, root, a) == Some(middle)
    ensures Walk(names, parents, root, a + b) == Walk(names, parents, middle, b)
    decreases |b|
  {
    if b == [] {
      assert a + b == a;
    } else {
      assert (a + b)[..|a + b| - 1] == a + b[..|b| - 1];
      WalkConcat(names, parents, root, middle, a, b[..|b| - 1]);
    }
  }

  lemma {:induction false} WalkPrefix(
    names: map<Entry, Ino>, parents: map<Ino, Ino>, root: Ino, a: seq<Component>, b: seq<Component>)
    requires Walk(names, parents, root, a + b).Some?
    ensures Walk(names, parents, root, a).Some?
    decreases |b|
  {
    if b == [] {
      assert a + b == a;
    } else {
      assert (a + b)[..|a + b| - 1] == a + b[..|b| - 1];
      WalkPrefix(names, parents, root, a, b[..|b| - 1]);
    }
  }

  /** The components of a path that is nothing but names. */
  function Normals(names: seq<string>): seq<Component>
    decreases |names|
  {
    if names == [] then [] else Normals(names[..|names| - 1]) + [Normal(names[|names| - 1])]
  }

  lemma {:induction false} WalkNormals(names: map<Entry, Ino>, parents: map<Ino, Ino>, root: Ino, path: seq<string>)
    ensures Walk(names, parents, root, Normals(path)) == Resolve(names, root, path)
    decreases |path|
  {
    if path != [] {
      var rest, last := path[..|path| - 1], path[|path| - 1];
      assert path == rest + [last];
      WalkNormals(names, parents, root, rest);
      ResolveAppend(names, root, rest, last);
      WalkAppend(names, parents, root, Normals(rest), last);
    }
  }

  lemma WalkAppend(names: map<Entry, Ino>, parents: map<Ino, Ino>, root: Ino, cs: seq<Component>, name: string)
    ensures Walk(names, parents, root, cs + [Normal(name)]) ==
      match Walk(names, parents, root, cs)
      case None => None
      case Some(at) => if Entry(at, name) in names then Some(names[Entry(at, name)]) else None
  {
    var longer := cs + [Normal(name)];
    assert longer[..|longer| - 1] == cs && longer[|longer| - 1] == Normal(name);
  }

  /** Below any directory, going through the components or through the names of their normal form. */
  lemma WalkNormalForm(
    names: map<Entry, Ino>, parents: map<Ino, Ino>, root: Ino, from: seq<Component>, cs: seq<Component>)
    requires IsTree(names, parents) && Contained(cs) && Walk(names, parents, root, from + cs).Some?
    ensures Walk(names, parents, root, from + Normals(Stack(cs))) == Walk(names, parents, root, from + cs)
  {
    WalkPrefix(names, parents, root, from, cs);
    var at := Walk(names, parents, root, from).value;
    WalkConcat(names, parents, root, at, from, cs);
    NormalFormGoesTheSameWay(names, parents, at, cs);
    WalkConcat(names, parents, root, at, from, Normals(Stack(cs)));
    WalkNormals(names, parents, at, Stack(cs));
  }

  /** The policy of a child admits exactly what its parent's policy and its own options both admit. */
  lemma TighterAdmitsLess(cs: seq<Component>, outer: LocalComponentPolicy, options: LocalComponentPolicy)
    ensures Permitted(cs, outer.Union(options)) <==> Permitted(cs, outer) && Permitted(cs, options)
  {
    forall i | 0 <= i < |cs| && cs[i].Normal?
      ensures outer.Union(options).Denies(cs[i].name) <==> outer.Denies(cs[i].name) || options.Denies(cs[i].name)
    {
      MissingMembers(outer.denied, options.denied, cs[i].name);
    }
  }
}
