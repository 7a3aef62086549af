// From a text to its units, and from the units back to the text (src/parser.cc:51-77, src/unit.cc:36-54, 362-410).
module UnitReader {
  import opened UnitTree
  import opened UnitText
  import opened UnitGrow
  import opened UnitGather
  import opened Tokens
  import opened CharLevels

  // A whole unit is built, unless the row of symbols ends with a failure.
  lemma BuiltOrBad(tb: Tables, l: seq<Tok>)
    requires tb.phone < tb.top && Fit(tb, tb.top, l)
    ensures l[0].Tok? && l[0].level <= tb.top ==> (Build(tb, tb.top, l).1[0].Tok? <==> l[|l| - 1].Tok?)
  {
    if l[0].Tok? && l[0].level <= tb.top {
      BuildAllSpells(tb, tb.top, l);
      assert Peek(tb.top - 1);
      var rest := BuildAll(tb, tb.top, l).1;
      assert rest[0] == l[|l| - |rest|];
      if l[|l| - 1].Tok? {
        TextRest(tb, l);
      }
    }
  }

  // What the text of a parser is built from: all its symbols, none of them a failure.
  ghost predicate Parses(ps: Parser) {
    && Proper(ps.tb) && Bytes(ps.text) && Start(ps.tb, ps.text, 0).Some?
    && var l := Symbols(ps.tb, ps.text, Start(ps.tb, ps.text, 0).value, ps.tb.phone);
       l[0].Tok? && l[|l| - 1].Tok?
  }

  ghost function All(ps: Parser): (l: seq<Tok>)
    requires Parses(ps)
    ensures Ends(ps.tb, l) && l[|l| - 1].Tok? && l[0].Tok? && ps.tb.phone <= l[0].level <= ps.tb.top
  {
    Starts(ps);
    Symbols(ps.tb, ps.text, Start(ps.tb, ps.text, 0).value, ps.tb.phone)
  }

  lemma Starts(ps: Parser)
    requires Proper(ps.tb) && Bytes(ps.text) && Start(ps.tb, ps.text, 0).Some?
    ensures Normal(ps.tb, Symbols(ps.tb, ps.text, Start(ps.tb, ps.text, 0).value, ps.tb.phone), ps.tb.phone)
  {
    SymbolsNormal(ps.tb, ps.text, Start(ps.tb, ps.text, 0).value, ps.tb.phone);
  }

  ghost predicate Opened(ps: Parser)
    reads ps
  {
    && ps.Valid() && Start(ps.tb, ps.text, 0).Some?
    && ps.Ahead() == Symbols(ps.tb, ps.text, Start(ps.tb, ps.text, 0).value, ps.tb.phone)
  }

  lemma OpenedFits(ps: Parser)
    requires Opened(ps)
    ensures Fit(ps.tb, ps.tb.top, ps.Ahead())
    ensures Build(ps.tb, ps.tb.top, ps.Ahead()).1[0].Tok? == Parses(ps)
  {
    Starts(ps);
    Fits(ps.tb, ps.tb.top, ps.Ahead());
    BuiltOrBad(ps.tb, ps.Ahead());
  }

  // The unit of the highest level that the symbols of a parser make; it fails on a failure among them.
  method Grow(t: Text, ps: Parser) returns (parsed: bool, x: Ref)
    requires t.Valid() && Opened(ps)
    modifies t`at, t`kids, t`heap, ps
    ensures parsed == Parses(ps)
    ensures parsed ==>
              t.Valid() && IsBuilt(old(t.at), old(t.kids), t.at, t.kids, x, ps.tb.top, WholeUnit(ps.tb, All(ps)))
  {
    OpenedFits(ps);
    x, parsed := t.Construct(ps.tb.top, ps);
  }

  // Parses a text into a unit of the highest level. It fails on ambiguous lists, and on every text with a
  // character that has no level.
  method Parse(t: Text, perm: seq<seq<nat>>, phone: nat, root: bool, relax: bool, dflt: nat, source: seq<nat>)
    returns (parsed: bool, ps: Parser, x: Ref)
    requires t.Valid() && Lists(perm) && perm != [] && phone + |perm| < ILL && 0 < dflt < 256 && Bytes(source)
    modifies t`at, t`kids, t`heap
    ensures fresh(ps) && (Unambiguous(perm) ==> Proper(ps.tb) && Bytes(ps.text))
    ensures parsed == (Unambiguous(perm) && Parses(ps))
    ensures parsed ==>
              && ps.tb.phone == phone && ps.tb.top == phone + |perm| && Registered(perm, phone, |perm|, ps.tb.lev)
              && (exists transl ::
                    |transl| == 256 && Translated(perm, root, |perm|, transl) && ps.text == Retold(transl, source))
              && t.Valid() && IsBuilt(old(t.at), old(t.kids), t.at, t.kids, x, ps.tb.top, WholeUnit(ps.tb, All(ps)))
  {
    x := NULL;
    parsed, ps := Open(perm, phone, root, relax, dflt, source);
    if parsed {
      parsed, x := Grow(t, ps);
    }
  }

  // Parses a text, and gathers the unit it was parsed into: the text comes back as its symbols, but those that
  // would end an empty unit or stand for no contents. Of the units above the phones none is empty, except
  // where the text is, or begins with a '-' or '.' read as a symbol of a higher level.
  method ReadBack(t: Text, g: Gatherer, perm: seq<seq<nat>>, phone: nat, root: bool, relax: bool, dflt: nat,
                  source: seq<nat>, maxtext: nat)
    returns (parsed: bool, good: bool, l: nat, ps: Parser)
    requires t.Valid() && Lists(perm) && perm != [] && phone + |perm| < ILL && 0 < dflt < 256 && Bytes(source)
    requires g.gb.Length >= 4
    modifies t`at, t`kids, t`heap, g, g.gb
    ensures parsed == (Unambiguous(perm) && Parses(ps)) && (good ==> parsed)
    ensures good ==> l < g.gb.Length && g.gb[l] == 0 && g.gb[..l] == Chars(Said(All(ps)))
    ensures parsed && !good ==> g.gb.Length >= maxtext && |Said(All(ps))| + 3 >= g.gb.Length
    ensures parsed ==>
              && (exists transl ::
                    |transl| == 256 && Translated(perm, root, |perm|, transl) && ps.text == Retold(transl, source))
              && var p, n := Start(ps.tb, ps.text, 0).value, WholeUnit(ps.tb, All(ps));
                 if p == |ps.text| then n == Node(0, [])
                 else Full(n, ps.tb.top, phone) <==> ps.tb.lev[Relaxed(ps.tb, Lex(ps.text, p).0)] == phone
  {
    var x;
    good, l := false, 0;
    parsed, ps, x := Parse(t, perm, phone, root, relax, dflt, source);
    if parsed {
      TextReadBack(ps.tb, ps.text, Start(ps.tb, ps.text, 0).value);
      good, l := g.Gather(t.at, t.kids, x, false, true, phone, maxtext);
    }
  }
}
