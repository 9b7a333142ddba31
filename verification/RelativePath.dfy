/** Validated relative paths: what is accepted, and the algebra of joining. */
module RelativePath {
  import opened Wrappers
  import opened Paths

  datatype Error = InvalidInput(path: string)

  datatype LocalRelativePath = LocalRelativePath(path: string)

  predicate ContainsNul(text: string) { '\0' in text }

  predicate ContainsExplicitDot(text: string) { "." in Pieces(text) }

  function New(text: string): Result<LocalRelativePath, Error> {
    if text == "" || ContainsNul(text) || ContainsExplicitDot(text)
       || (exists c | c in Components(text) :: !c.Normal?)
    then Err(InvalidInput(text))
    else Ok(LocalRelativePath(text))
  }

  function Join(p: LocalRelativePath, child: string): Result<LocalRelativePath, Error> {
    match New(child)
    case Err(error) => Err(error)
    case Ok(c) => New(JoinText(p.path, c.path))
  }

  function JoinComponent(p: LocalRelativePath, child: string): Result<LocalRelativePath, Error> {
    var components := Components(child);
    if components == [] || !components[0].Normal? || |components| > 1
    then Err(InvalidInput(child))
    else Join(p, child)
  }

  // ---- Main results ----

  /** Non-empty, free of NUL, relative, and without a "." or ".." component. */
  predicate Accepted(text: string) {
    && text != "" && '\0' !in text && text[0] != '/'
    && "." !in Pieces(text) && ".." !in Pieces(text)
  }

  lemma AcceptanceIsExact(text: string)
    ensures New(text) == if Accepted(text) then Ok(LocalRelativePath(text)) else Err(InvalidInput(text))
    ensures Accepted(text) ==> Components(text) == Body(Pieces(text)) && |Components(text)| > 0
  {
    BodyNormal(Pieces(text));
    if Rooted(text) {
      assert RootDir in Components(text);
    } else if Pieces(text)[0] != "." {
      assert Components(text) == Body(Pieces(text));
      if Accepted(text) {
        FirstPiece(text);
        BodyLength(Pieces(text));
      }
    }
  }

  lemma FirstPiece(text: string)
    requires text != "" && text[0] != '/'
    ensures Pieces(text)[0] != ""
  {}

  /** Every component of an accepted path is a non-empty name without separator or NUL, other than
      "." and "..". */
  lemma {:induction false} NamesAreClean(pieces: seq<string>)
    requires "." !in pieces && ".." !in pieces
    requires forall i, k :: 0 <= i < |pieces| && 0 <= k < |pieces[i]| ==> pieces[i][k] != '/' && pieces[i][k] != '\0'
    ensures forall c | c in Body(pieces) :: c.Normal? && CleanName(c.name)
  {
    if pieces != [] {
      NamesAreClean(pieces[1..]);
      assert pieces[0] in pieces;
    }
  }

  predicate CleanName(name: string) {
    name != "" && name != "." && name != ".." && '/' !in name && '\0' !in name
  }

  lemma ComponentsAreClean(text: string)
    requires Accepted(text)
    ensures forall c | c in Components(text) :: c.Normal? && CleanName(c.name)
  {
    AcceptanceIsExact(text);
    forall i: nat, k: nat | i < |Pieces(text)| && k < |Pieces(text)[i]|
      ensures Pieces(text)[i][k] != '/' && Pieces(text)[i][k] != '\0'
    {
      PieceChars(text, i, k);
    }
    NamesAreClean(Pieces(text));
  }

  /** The text of a join splits into the pieces of both sides, up to empty ones. */
  lemma JoinPieces(a: string, b: string)
    requires a != "" && !Rooted(b)
    ensures
      || Pieces(JoinText(a, b)) == Pieces(a) + Pieces(b)
      || exists stem :: Pieces(a) == stem + [""] && Pieces(JoinText(a, b)) == stem + Pieces(b)
  {
    if a[|a| - 1] == '/' {
      var stem := a[..|a| - 1];
      assert a == stem + "/" + "" && a + b == stem + "/" + b;
      PiecesJoin(stem, "");
      PiecesJoin(stem, b);
    } else {
      PiecesJoin(a, b);
    }
  }

  /** An empty piece in the middle makes no difference. */
  lemma EmptyPiece(stem: seq<string>, rest: seq<string>)
    ensures Body(stem + rest) == Body(stem + [""]) + Body(rest)
  {
    BodyConcat(stem, [""]);
    BodyConcat(stem, rest);
    assert Body([""]) == [];
  }

  lemma JoinBody(a: string, b: string)
    requires a != "" && !Rooted(b)
    ensures Body(Pieces(JoinText(a, b))) == Body(Pieces(a)) + Body(Pieces(b))
  {
    JoinPieces(a, b);
    if Pieces(JoinText(a, b)) == Pieces(a) + Pieces(b) {
      BodyConcat(Pieces(a), Pieces(b));
    } else {
      var stem :| Pieces(a) == stem + [""] && Pieces(JoinText(a, b)) == stem + Pieces(b);
      EmptyPiece(stem, Pieces(b));
    }
  }

  lemma JoinMembers(a: string, b: string, piece: string)
    requires a != "" && !Rooted(b) && piece != ""
    ensures piece in Pieces(JoinText(a, b)) <==> piece in Pieces(a) || piece in Pieces(b)
  {
    JoinPieces(a, b);
  }

  lemma JoinKeepsNul(a: string, b: string)
    requires '\0' !in a && '\0' !in b
    ensures '\0' !in JoinText(a, b)
  {}

  /** Joining onto an accepted path succeeds exactly for accepted children, and the components of the
      result are those of both sides in order. */
  lemma JoinConcatenates(a: string, b: string)
    requires Accepted(a)
    ensures Join(LocalRelativePath(a), b).Ok? <==> Accepted(b)
    ensures Accepted(b) ==>
      var joined := JoinText(a, b);
      && Join(LocalRelativePath(a), b) == Ok(LocalRelativePath(joined)) && Accepted(joined)
      && Components(joined) == Components(a) + Components(b)
  {
    AcceptanceIsExact(b);
    if Accepted(b) {
      var joined := JoinText(a, b);
      JoinBody(a, b);
      JoinMembers(a, b, ".");
      JoinMembers(a, b, "..");
      JoinKeepsNul(a, b);
      assert joined[0] == a[0];
      AcceptanceIsExact(a);
      AcceptanceIsExact(joined);
    }
  }

  /** `join_component` accepts exactly the children with one component, and adds that component. */
  lemma JoinComponentAddsOne(a: string, child: string)
    requires Accepted(a)
    ensures var r := JoinComponent(LocalRelativePath(a), child);
      && (r.Ok? <==> Accepted(child) && |Components(child)| == 1)
      && (r.Ok? ==> Components(r.value.path) == Components(a) + Components(child))
  {
    JoinConcatenates(a, child);
    AcceptanceIsExact(child);
    if Accepted(child) { ComponentsAreClean(child); }
  }

  /** Joining is associative, down to the text. */
  lemma JoinAssociates(a: string, b: string, c: string)
    requires Accepted(a) && Accepted(b) && Accepted(c)
    ensures JoinText(JoinText(a, b), c) == JoinText(a, JoinText(b, c))
  {
    var (ab, bc) := (JoinText(a, b), JoinText(b, c));
    assert ab[|ab| - 1] == b[|b| - 1] && bc[0] == b[0];
    Regroup(a, if a[|a| - 1] == '/' then "" else "/", b, if b[|b| - 1] == '/' then "" else "/", c);
  }

  lemma Regroup(a: string, x: string, b: string, y: string, c: string)
    ensures ((a + x) + b + y) + c == a + x + (b + y + c)
    ensures a + "" == a && b + "" == b
  {}
}
