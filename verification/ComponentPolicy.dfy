/** Names that a directory authority refuses, and how the set grows from handle to handle. */
module ComponentPolicy {
  import opened Wrappers
  import opened Paths

  datatype Error = InvalidOptions | InvalidPath

  datatype LocalComponentPolicy = LocalComponentPolicy(denied: seq<string>)
  {
    predicate Denies(component: string) { component in denied }

    /** This policy with the other's names added. */
    function Union(other: LocalComponentPolicy): LocalComponentPolicy {
      LocalComponentPolicy(denied + Missing(denied, other.denied))
    }
  }

  /** The names of `more` that are not in `denied`, each once, in order. */
  function Missing(denied: seq<string>, more: seq<string>): seq<string>
    decreases |more|
  {
    if more == [] then []
    else
      var rest := more[..|more| - 1];
      var last := more[|more| - 1];
      Missing(denied, rest) + if last in denied || last in rest then [] else [last]
  }

  /** A name that could be one entry of a directory. */
  predicate SingleName(name: string) {
    name != "" && name != "." && name != ".." && '/' !in name
  }

  predicate NoDuplicates(names: seq<string>) {
    forall i, j | 0 <= i < j < |names| :: names[i] != names[j]
  }

  lemma {:induction false} WholePiece(text: string)
    requires '/' !in text
    ensures Pieces(text) == [text]
  {
    if text != "" {
      WholePiece(text[1..]);
      assert [text[0]] + text[1..] == text;
    }
  }

  lemma {:induction false} BodyFromPieces(pieces: seq<string>, c: Component)
    requires c in Body(pieces) && c.Normal?
    ensures c.name in pieces && c.name != "" && c.name != "." && c.name != ".."
  {
    if c !in One(pieces[0]) { BodyFromPieces(pieces[1..], c); }
  }

  /** Being seen as exactly one ordinary component, unchanged, is being a single name. */
  lemma OneNormalComponent(name: string)
    ensures Components(name) == [Normal(name)] <==> SingleName(name)
  {
    if SingleName(name) {
      WholePiece(name);
      assert Body([name]) == One(name) + Body([]);
    } else if Components(name) == [Normal(name)] {
      assert Components(name)[0] == Normal(name);
      assert Components(name) == Body(Pieces(name));
      assert Normal(name) in Components(name);
      BodyFromPieces(Pieces(name), Normal(name));
      var i :| 0 <= i < |Pieces(name)| && Pieces(name)[i] == name;
      var k :| 0 <= k < |name| && name[k] == '/';
      PieceChars(name, i, k);
    }
  }

  /** The test the program makes, through the components of the name. */
  method Deniable(name: string) returns (ok: bool)
    ensures ok <==> SingleName(name)
  {
    OneNormalComponent(name);
    ok := name != "" && name != "." && name != ".." && Components(name) == [Normal(name)];
  }

  /** Builds a policy, refusing anything that is not a single name. */
  method DenyNames(names: seq<string>) returns (r: Result<LocalComponentPolicy, Error>)
    ensures r ==
      if forall i | 0 <= i < |names| :: SingleName(names[i])
      then Ok(LocalComponentPolicy(names)) else Err(InvalidOptions)
  {
    for i := 0 to |names|
      invariant forall k | 0 <= k < i :: SingleName(names[k])
    {
      var ok := Deniable(names[i]);
      if !ok {
        return Err(InvalidOptions);
      }
    }
    return Ok(LocalComponentPolicy(names));
  }

  lemma {:induction false} MissingMembers(denied: seq<string>, more: seq<string>, n: string)
    ensures n in Missing(denied, more) <==> n in more && n !in denied
    decreases |more|
  {
    if more != [] {
      MissingMembers(denied, more[..|more| - 1], n);
      assert more == more[..|more| - 1] + [more[|more| - 1]];
    }
  }

  /** Adds the other policy's names to this one, each at most once. */
  method CombinedWith(self: LocalComponentPolicy, other: LocalComponentPolicy) returns (r: LocalComponentPolicy)
    ensures r == self.Union(other)
    ensures self.denied <= r.denied
    ensures forall n :: r.Denies(n) <==> self.Denies(n) || other.Denies(n)
  {
    var denied := self.denied;
    for i := 0 to |other.denied|
      invariant denied == self.denied + Missing(self.denied, other.denied[..i])
    {
      var name := other.denied[i];
      assert other.denied[..i + 1][..i] == other.denied[..i];
      MissingMembers(self.denied, other.denied[..i], name);
      if name !in denied { denied := denied + [name]; }
    }
    assert other.denied[..|other.denied|] == other.denied;
    forall n ensures n in denied <==> self.Denies(n) || other.Denies(n) {
      MissingMembers(self.denied, other.denied, n);
    }
    return LocalComponentPolicy(denied);
  }

  /** No name is added twice. */
  lemma {:induction false} UnionKeepsDistinct(denied: seq<string>, more: seq<string>)
    requires NoDuplicates(denied)
    ensures NoDuplicates(denied + Missing(denied, more))
    decreases |more|
  {
    if more != [] {
      var rest, last := more[..|more| - 1], more[|more| - 1];
      UnionKeepsDistinct(denied, rest);
      MissingMembers(denied, rest, last);
      assert denied + Missing(denied, more) ==
        denied + Missing(denied, rest) + if last in denied || last in rest then [] else [last];
    }
  }

  /** Names are added in the order in which they are given. */
  lemma {:induction false} MissingInOrder(denied: seq<string>, more: seq<string>, k: nat)
    requires k <= |more|
    ensures Missing(denied, more[..k]) <= Missing(denied, more)
    decreases |more|
  {
    if k < |more| {
      var rest := more[..|more| - 1];
      assert more[..k] == rest[..k];
      MissingInOrder(denied, rest, k);
    } else {
      assert more[..k] == more;
    }
  }

  // ---- Along a chain of child handles ----

  /** The policy of a handle opened through `options`, one after the other. */
  function Inherited(root: LocalComponentPolicy, options: seq<LocalComponentPolicy>): LocalComponentPolicy
    decreases |options|
  {
    if options == [] then root
    else Inherited(root, options[..|options| - 1]).Union(options[|options| - 1])
  }

  /** A handle denies exactly what its root or any option on the way denied, so what is denied once
      stays denied for every handle below. */
  lemma {:induction false} DeniedByChain(root: LocalComponentPolicy, options: seq<LocalComponentPolicy>, n: string)
    ensures Inherited(root, options).Denies(n) <==> root.Denies(n) || exists o | o in options :: o.Denies(n)
    decreases |options|
  {
    if options != [] {
      var rest, last := options[..|options| - 1], options[|options| - 1];
      DeniedByChain(root, rest, n);
      MissingMembers(Inherited(root, rest).denied, last.denied, n);
      assert forall o :: o in options <==> o in rest || o == last;
      assert last in options;
    }
  }

  lemma DeniedOnlyGrows(root: LocalComponentPolicy, options: seq<LocalComponentPolicy>, k: nat, n: string)
    requires k <= |options| && Inherited(root, options[..k]).Denies(n)
    ensures Inherited(root, options).Denies(n)
  {
    DeniedByChain(root, options[..k], n);
    DeniedByChain(root, options, n);
  }
}
