/** Paths that were built by joining, with their length kept beside them. */
module Locations {
  import opened Paths
  import opened RelativePath

  /** `base` with `names` joined onto it one after the other, and a final separator if `open`; `bytes`
      is the length of that text. */
  datatype Location = Location(base: string, names: seq<string>, bytes: nat, open: bool)
  {
    /** `Path::join`; joining nothing only adds a final separator. */
    function Push(step: string): Location {
      if step == "" then Location(base, names, bytes + (if open then 0 else 1), true)
      else Location(base, names + [step], bytes + (if open then 0 else 1) + |step|, step[|step| - 1] == '/')
    }

    /** The text without a final separator of its own. */
    function Core(): string
      decreases |names|
    {
      if names == [] then base else JoinText(this.(names := names[..|names| - 1]).Core(), names[|names| - 1])
    }

    function Text(): string { if open then JoinText(Core(), "") else Core() }

    /** The components below the root, step by step. */
    function Route(): seq<Component>
      decreases |names|
    {
      if names == [] then Body(Pieces(base))
      else this.(names := names[..|names| - 1]).Route() + Body(Pieces(names[|names| - 1]))
    }

    /** The steps that were joined on are relative and not empty. */
    predicate Stepwise() { base != "" && forall i | 0 <= i < |names| :: names[i] != "" && !Rooted(names[i]) }

    /** The kept length is that of the text. */
    predicate Measured() {
      bytes == |Text()| && Text() != "" && open == (Text()[|Text()| - 1] == '/')
    }

    /** The same directory path, up to a final separator. */
    predicate SamePlace(other: Location) { base == other.base && names == other.names }

    /** Exactly one name further down. */
    predicate Below(parent: Location, name: string) { base == parent.base && names == parent.names + [name] }
  }

  function Start(base: string): Location {
    Location(base, [], |base|, base != "" && base[|base| - 1] == '/')
  }

  lemma StartMeasured(base: string)
    requires base != ""
    ensures Start(base).Stepwise() && Start(base).Measured() && Start(base).Text() == base
  {}

  lemma {:induction false} SameCore(l: Location, m: Location)
    requires l.SamePlace(m)
    ensures l.Core() == m.Core()
    decreases |l.names|
  {
    if l.names != [] {
      SameCore(l.(names := l.names[..|l.names| - 1]), m.(names := m.names[..|m.names| - 1]));
    }
  }

  /** The text depends on the names and the final separator only. */
  lemma SameText(l: Location, m: Location)
    requires l.SamePlace(m) && l.open == m.open
    ensures l.Text() == m.Text()
  {
    SameCore(l, m);
  }

  lemma BelowCore(l: Location, m: Location, name: string)
    requires m.Below(l, name)
    ensures m.Core() == JoinText(l.Core(), name)
  {
    var shorter := m.(names := m.names[..|m.names| - 1]);
    assert shorter.names == l.names;
    SameCore(shorter, l);
  }

  /** A separator joined on in between makes no difference. */
  lemma ThroughSeparator(text: string, step: string)
    requires text != "" && !Rooted(step)
    ensures JoinText(JoinText(text, ""), step) == JoinText(text, step)
  {
    if text[|text| - 1] != '/' {
      assert text + "/" + "" + step == text + "/" + step;
    }
  }

  /** The text of a path one name down is the join of the two texts. */
  lemma BelowText(l: Location, m: Location, name: string)
    requires m.Below(l, name) && l.Core() != "" && !m.open && !Rooted(name)
    ensures m.Text() == JoinText(l.Text(), name)
  {
    BelowCore(l, m, name);
    ThroughSeparator(l.Core(), name);
  }

  lemma PushText(l: Location, step: string)
    requires l.Core() != "" && !Rooted(step)
    ensures l.Push(step).Text() == JoinText(l.Text(), step)
  {
    var m := l.Push(step);
    if step == "" {
      SameCore(l, m);
      ThroughSeparator(l.Core(), "");
    } else {
      BelowCore(l, m, step);
      ThroughSeparator(l.Core(), step);
      FinalSeparator(JoinText(l.Core(), step), step);
    }
  }

  /** Where the text ends in a separator already, joining nothing changes nothing. */
  lemma FinalSeparator(text: string, step: string)
    requires step != "" && text != "" && text[|text| - 1] == step[|step| - 1]
    ensures step[|step| - 1] == '/' ==> JoinText(text, "") == text
  {}

  lemma JoinLength(base: string, child: string)
    requires base != "" && !Rooted(child)
    ensures var slash := base[|base| - 1] == '/';
      var text := JoinText(base, child);
      && |text| == |base| + (if slash then 0 else 1) + |child| && text != ""
      && (text[|text| - 1] == '/' <==> child == "" || child[|child| - 1] == '/')
  {}

  /** The kept length stays right, whatever relative step is joined on. */
  lemma PushMeasured(l: Location, step: string)
    requires l.Measured() && l.Core() != "" && !Rooted(step)
    ensures l.Push(step).Measured()
  {
    PushText(l, step);
    JoinLength(l.Text(), step);
  }

  lemma {:induction false} CoreReads(l: Location)
    requires l.Stepwise()
    ensures l.Core() != "" && Body(Pieces(l.Core())) == l.Route()
    decreases |l.names|
  {
    if l.names != [] {
      var shorter := l.(names := l.names[..|l.names| - 1]);
      CoreReads(shorter);
      JoinBody(shorter.Core(), l.names[|l.names| - 1]);
      JoinLength(shorter.Core(), l.names[|l.names| - 1]);
    }
  }

  /** The route is what the text is read as. */
  lemma TextReads(l: Location)
    requires l.Stepwise()
    ensures l.Text() != "" && Body(Pieces(l.Text())) == l.Route()
  {
    CoreReads(l);
    JoinBody(l.Core(), "");
    JoinLength(l.Core(), "");
    assert Body(Pieces("")) == [];
  }

  /** One more step keeps all this. */
  lemma PushStep(l: Location, step: string)
    requires l.Stepwise() && l.Measured() && step != "" && !Rooted(step)
    ensures l.Push(step).Stepwise() && l.Push(step).Measured()
    ensures l.Push(step).Text() == JoinText(l.Text(), step)
  {
    CoreReads(l);
    PushText(l, step);
    PushMeasured(l, step);
  }

  lemma {:induction false} SameRoute(l: Location, m: Location)
    requires l.SamePlace(m)
    ensures l.Route() == m.Route()
    decreases |l.names|
  {
    if l.names != [] {
      SameRoute(l.(names := l.names[..|l.names| - 1]), m.(names := m.names[..|m.names| - 1]));
    }
  }

  lemma BelowRoute(l: Location, m: Location, step: string)
    requires m.Below(l, step)
    ensures m.Route() == l.Route() + Body(Pieces(step))
  {
    var shorter := m.(names := m.names[..|m.names| - 1]);
    assert shorter.names == l.names;
    SameRoute(shorter, l);
  }

  /** Joining adds the components of the step. */
  lemma PushRoute(l: Location, step: string)
    ensures l.Push(step).Route() == l.Route() + Body(Pieces(step))
  {
    if step == "" {
      SameRoute(l, l.Push(step));
      assert Body(Pieces("")) == [];
    } else {
      BelowRoute(l, l.Push(step), step);
    }
  }

  /** Joining a prefix that was built name by name is the same as joining the names one by one. */
  lemma JoinPrefix(base: string, prefix: string, name: string)
    requires base != "" && prefix != "" && name != "" && !Rooted(prefix) && !Rooted(name)
    ensures JoinText(base, JoinText(prefix, name)) == JoinText(JoinText(base, prefix), name)
  {
    var (text, inner) := (JoinText(base, prefix), JoinText(prefix, name));
    assert text[|text| - 1] == prefix[|prefix| - 1] && inner[0] == prefix[0];
    Regroup(base, if base[|base| - 1] == '/' then "" else "/", prefix,
            if prefix[|prefix| - 1] == '/' then "" else "/", name);
  }
}
