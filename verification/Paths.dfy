/** Unix path text, one character per byte, and the components the standard library sees in it. */
module Paths {
  datatype Component = RootDir | CurDir | ParentDir | Normal(name: string)

  /** The pieces between separators; there is always at least one. */
  function Pieces(text: string): (r: seq<string>)
    ensures |r| > 0
  {
    if text == "" then [""]
    else
      var rest := Pieces(text[1..]);
      if text[0] == '/' then [""] + rest else [[text[0]] + rest[0]] + rest[1..]
  }

  /** Empty pieces and single dots are passed over. */
  function Body(pieces: seq<string>): seq<Component> {
    if pieces == [] then [] else One(pieces[0]) + Body(pieces[1..])
  }

  function One(piece: string): seq<Component> {
    if piece == "" || piece == "." then [] else if piece == ".." then [ParentDir] else [Normal(piece)]
  }

  predicate Rooted(text: string) { text != "" && text[0] == '/' }

  /** Only a single dot in front of a relative path is seen. */
  function Components(text: string): seq<Component> {
    if Rooted(text) then [RootDir] + Body(Pieces(text))
    else if Pieces(text)[0] == "." then [CurDir] + Body(Pieces(text))
    else Body(Pieces(text))
  }

  /** `Path::join` on Unix. */
  function JoinText(base: string, child: string): string {
    if Rooted(child) then child
    else if base == "" || base[|base| - 1] == '/' then base + child
    else base + "/" + child
  }

  // ---- Laws ----

  lemma {:induction false} PiecesJoin(a: string, b: string)
    ensures Pieces(a + "/" + b) == Pieces(a) + Pieces(b)
  {
    if a == "" {
      assert a + "/" + b == ['/'] + b && (['/'] + b)[1..] == b;
    } else {
      PiecesJoin(a[1..], b);
      assert (a + "/" + b)[1..] == a[1..] + "/" + b && (a + "/" + b)[0] == a[0];
    }
  }

  lemma {:induction false} BodyConcat(a: seq<string>, b: seq<string>)
    ensures Body(a + b) == Body(a) + Body(b)
  {
    if a == [] {
      assert a + b == b;
    } else {
      BodyConcat(a[1..], b);
      assert (a + b)[1..] == a[1..] + b && (a + b)[0] == a[0];
    }
  }

  /** A piece never holds a separator, and holds only what is in the text. */
  lemma {:induction false} PieceChars(text: string, i: nat, k: nat)
    requires i < |Pieces(text)| && k < |Pieces(text)[i]|
    ensures Pieces(text)[i][k] != '/' && Pieces(text)[i][k] in text
  {
    var rest := Pieces(text[1..]);
    if text[0] == '/' {
      PieceChars(text[1..], i - 1, k);
    } else if i > 0 {
      assert Pieces(text)[i] == rest[i];
      PieceChars(text[1..], i, k);
    } else if k > 0 {
      PieceChars(text[1..], 0, k - 1);
    }
  }

  /** The body is all ordinary names exactly when no piece is "..". */
  lemma {:induction false} BodyNormal(pieces: seq<string>)
    ensures (forall c | c in Body(pieces) :: c.Normal?) <==> ".." !in pieces
  {
    if pieces != [] {
      BodyNormal(pieces[1..]);
      assert forall c :: c in Body(pieces) <==> c in One(pieces[0]) || c in Body(pieces[1..]);
      assert ".." in pieces <==> pieces[0] == ".." || ".." in pieces[1..];
      if pieces[0] == ".." { assert ParentDir in One(pieces[0]); }
    }
  }

  lemma {:induction false} BodyLength(pieces: seq<string>)
    requires "." !in pieces
    ensures Body(pieces) == [] <==> forall i | 0 <= i < |pieces| :: pieces[i] == ""
  {
    if pieces != [] { BodyLength(pieces[1..]); }
  }
}
