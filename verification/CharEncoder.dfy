// Allocation of internal codes and the translation of strings in place (src/encoding.cc).
module CharEncoder {
  import opened CharCodes

  datatype Outcome = Done | Illegal | Unhandled | NoDefault | TableOverflow | Infiltrated

  // The string in a buffer, up to its zero byte.
  predicate Holds(buf: seq<Byte>, s: seq<Byte>) {
    |s| < |buf| && buf[..|s|] == s && buf[|s|] == NONE && forall i :: 0 <= i < |s| ==> s[i] != NONE
  }

  // What encode_string leaves when it allocates codes on the way: a byte that gets its code
  // at this place is passed over; a place where the code was there is encoded.
  predicate Passed(s: Charset, text: seq<Byte>, i: nat)
    requires |s.enc| == 256 && i < |text|
  {
    s.enc[text[i]] == NONE && text[i] !in text[..i]
  }

  predicate EncodedOrPassed(s: Charset, t: Charset, text: seq<Byte>, out: seq<Byte>)
    requires |s.enc| == |t.enc| == 256
  {
    |out| == |text| && forall i :: 0 <= i < |text| ==> out[i] == if Passed(s, text, i) then text[i] else t.enc[text[i]]
  }

  // The number b can be the code of the character u: it already is, or it is free and u has no code.
  predicate Own(epos: seq<nat>, u: nat, b: Byte)
    requires |epos| == 256
  {
    epos[b] == u || (u !in epos && epos[b] == NONE)
  }

  // Among the first bytes of the text, those without a code can keep their own numbers.
  predicate AllOwn(c: Codes, cs: nat, text: seq<Byte>, i: nat)
    requires Valid(c) && cs < |c.sets| && i <= |text| && |c.sets[cs].enc| == |c.sets[cs].uni| == 256
  {
    forall b: Byte :: b in text[..i] && c.sets[cs].enc[b] == NONE ==> Own(c.epos, Uni(c.sets[cs], b), b)
  }

  // They have kept them.
  predicate AllSelf(s: Charset, t: Charset, text: seq<Byte>, i: nat)
    requires |s.enc| == |t.enc| == 256 && i <= |text|
  {
    forall b: Byte :: b in text[..i] && s.enc[b] == NONE ==> t.enc[b] == b
  }

  // The text is fully encoded exactly when they have.
  lemma PassedSelf(s: Charset, t: Charset, text: seq<Byte>, out: seq<Byte>)
    requires |s.enc| == |t.enc| == 256 && EncodedOrPassed(s, t, text, out)
    ensures out == Encoded(t, text) <==> AllSelf(s, t, text, |text|)
  {
    assert text[..|text|] == text;
    if out == Encoded(t, text) {
      forall b: Byte | b in text && s.enc[b] == NONE ensures t.enc[b] == b {
        var i :| 0 <= i < |text| && text[i] == b;
        var j := FirstOf(text, i);
        assert Passed(s, text, j);
        assert out[j] == Encoded(t, text)[j];
      }
    }
  }

  lemma {:induction false} FirstOf(text: seq<Byte>, i: nat) returns (j: nat)
    requires i < |text|
    ensures j <= i && text[j] == text[i] && text[j] !in text[..j]
    decreases i
  {
    if text[i] in text[..i] {
      var k :| 0 <= k < i && text[..i][k] == text[i];
      j := FirstOf(text, k);
    } else {
      j := i;
    }
  }

  // No code is free.
  predicate Full(epos: seq<nat>)
    requires |epos| == 256
  {
    forall k :: 1 <= k < 256 ==> epos[k] != NONE
  }

  // The map of the character set leaves the byte out.
  predicate Uncharted(sets: seq<Charset>, cs: nat, b: Byte) {
    cs < |sets| && |sets[cs].uni| == 256 && sets[cs].uni[b] == NONE
  }

  // The codes given are codes of the text's characters.
  ghost predicate ForText(c: Codes, d: Codes, cs: nat, text: seq<Byte>)
    requires Valid(c) && Valid(d) && cs < |c.sets|
  {
    && |c.sets[cs].uni| == 256
    && forall e: Byte :: d.epos[e] == c.epos[e] || exists b: Byte :: b in text && d.epos[e] == Uni(c.sets[cs], b)
  }

  // While they have kept their numbers, nothing else has got a code.
  ghost predicate OnlyThem(c: Codes, d: Codes, cs: nat, text: seq<Byte>, i: nat)
    requires Valid(c) && Valid(d) && cs < |c.sets| && i <= |text| && |c.sets[cs].enc| == |c.sets[cs].uni| == 256
  {
    forall e: Byte :: d.epos[e] == if e in text[..i] && c.sets[cs].enc[e] == NONE then Uni(c.sets[cs], e) else c.epos[e]
  }

  // After i bytes: the bytes without a code have kept their numbers exactly when they could before any of
  // them got one.
  ghost predicate Trail(c: Codes, d: Codes, cs: nat, text: seq<Byte>, i: nat) {
    && Valid(c) && Valid(d) && cs < |c.sets| == |d.sets| && i <= |text|
    && Coded(c.epos, c.sets[cs]) && Coded(d.epos, d.sets[cs]) && (forall k :: 0 <= k < |text| ==> text[k] != NONE)
    && Grown(c.sets[cs], d.sets[cs], text, i)
    && (AllOwn(c, cs, text, i) <==> AllSelf(c.sets[cs], d.sets[cs], text, i))
    && (AllSelf(c.sets[cs], d.sets[cs], text, i) ==> OnlyThem(c, d, cs, text, i))
  }

  // What the next byte without a code could keep at the start, it can keep now.
  lemma OwnStill(c: Codes, d: Codes, cs: nat, text: seq<Byte>, i: nat)
    requires Trail(c, d, cs, text, i) && i < |text| && text[i] !in text[..i] && c.sets[cs].enc[text[i]] == NONE
    requires AllSelf(c.sets[cs], d.sets[cs], text, i)
    ensures Own(d.epos, Uni(c.sets[cs], text[i]), text[i]) <==> Own(c.epos, Uni(c.sets[cs], text[i]), text[i])
  {
    var s, b := c.sets[cs], text[i];
    var u := Uni(s, b);
    forall x: Byte | x in text[..i] && s.enc[x] == NONE ensures Uni(s, x) != u && c.epos[x] != u {
      assert Own(c.epos, Uni(s, x), x);
    }
    if u in c.epos {
      var x: Byte :| c.epos[x] == u;
      assert d.epos[x] == u;
    }
    if u in d.epos {
      var x: Byte :| d.epos[x] == u;
      assert c.epos[x] == u;
    }
  }

  lemma TrailPass(c: Codes, d: Codes, cs: nat, text: seq<Byte>, i: nat, e: Byte)
    requires Trail(c, d, cs, text, i) && i < |text| && d.sets[cs].enc[text[i]] == NONE
    requires e != NONE && Valid(Given(d, cs, text[i], e)) && d.sets[cs].uni == c.sets[cs].uni
    requires e == text[i] <==> Own(d.epos, Uni(d.sets[cs], text[i]), text[i])
    ensures Trail(c, Given(d, cs, text[i], e), cs, text, i + 1)
  {
    var s, t, b := c.sets[cs], d.sets[cs], text[i];
    var f := Given(d, cs, b, e);
    assert text[..i + 1] == text[..i] + [b];
    assert Coded(f.epos, f.sets[cs]);
    GrownMore(s, t, f.sets[cs], text, i);
    if AllSelf(s, t, text, i) {
      OwnStill(c, d, cs, text, i);
    }
    assert AllSelf(s, f.sets[cs], text, i + 1) <==> AllSelf(s, t, text, i) && e == b;
    assert AllOwn(c, cs, text, i + 1) <==> AllOwn(c, cs, text, i) && Own(c.epos, Uni(s, b), b);
  }

  lemma TrailOn(c: Codes, d: Codes, cs: nat, text: seq<Byte>, i: nat)
    requires Trail(c, d, cs, text, i) && i < |text| && d.sets[cs].enc[text[i]] != NONE
    ensures Trail(c, d, cs, text, i + 1)
  {
    assert text[..i + 1] == text[..i] + [text[i]];
    GrownOn(c.sets[cs], d.sets[cs], text, i);
  }

  lemma TrailStart(c: Codes, cs: nat, text: seq<Byte>)
    requires Valid(c) && cs < |c.sets| && forall k :: 0 <= k < |text| ==> text[k] != NONE
    ensures Trail(c, c, cs, text, 0)
  {
    assert Coded(c.epos, c.sets[cs]);
  }

  // One line of a unicode map: a byte and its character.
  datatype Line = Line(b: Byte, x: nat)

  // No byte and no character is mapped twice.
  predicate Sound(lines: seq<Line>) {
    && (forall i :: 0 <= i < |lines| ==> lines[i].b != NONE && lines[i].x != NONE)
    && forall i, j :: 0 <= i < j < |lines| ==> lines[i].b != lines[j].b && lines[i].x != lines[j].x
  }

  function Map(lines: seq<Line>): (w: seq<nat>)
    ensures |w| == 256
  {
    if lines == [] then seq(256, _ => NONE)
    else Map(lines[..|lines| - 1])[lines[|lines| - 1].b := lines[|lines| - 1].x]
  }

  lemma {:induction false} MapHas(lines: seq<Line>, b: Byte)
    ensures Map(lines)[b] == NONE || exists i :: 0 <= i < |lines| && lines[i] == Line(b, Map(lines)[b])
  {
    if lines != [] {
      MapHas(lines[..|lines| - 1], b);
      assert lines[|lines| - 1] == Line(lines[|lines| - 1].b, lines[|lines| - 1].x);
    }
  }

  lemma MapMore(lines: seq<Line>, i: nat)
    requires i < |lines| && Sound(lines)
    ensures Map(lines[..i + 1]) == Map(lines[..i])[lines[i].b := lines[i].x]
    ensures Map(lines[..i])[lines[i].b] == NONE && forall a: Byte :: Map(lines[..i])[a] != lines[i].x
  {
    assert lines[..i + 1][..i] == lines[..i];
    MapHas(lines[..i], lines[i].b);
    forall a: Byte ensures Map(lines[..i])[a] != lines[i].x { MapHas(lines[..i], a); }
  }

  // The tables of a character set while its map is read.
  predicate Loaded(epos: seq<nat>, s: Charset) {
    && |epos| == 256 && |s.enc| == 256 && |s.dec| == 256 && |s.uni| == 256 && s.enc[0] == NONE && s.dec[0] == NONE
    && (forall a: Byte, b: Byte :: s.uni[a] != NONE && s.uni[a] == s.uni[b] ==> a == b)
    && (forall b: Byte :: s.enc[b] != NONE <==> s.uni[b] != NONE && s.uni[b] in epos)
    && (forall b: Byte :: s.enc[b] != NONE ==> epos[s.enc[b]] == s.uni[b] && s.dec[s.enc[b]] == b)
    && (forall e: Byte :: s.dec[e] != NONE ==> s.enc[s.dec[e]] == e)
  }

  lemma LoadedMore(epos: seq<nat>, s: Charset, b: Byte, x: nat, e: Byte)
    requires OneCode(epos) && Loaded(epos, s) && b != NONE && x != NONE && s.uni[b] == NONE
             && forall a: Byte :: s.uni[a] != x
    requires (e != NONE <==> x in epos) && (e != NONE ==> epos[e] == x)
    ensures var t := s.(uni := s.uni[b := x]);
            Loaded(epos, if e == NONE then t else t.(enc := s.enc[b := e], dec := s.dec[e := b]))
  {
    if e != NONE { FreeCode(epos, s, x, e); }
  }

  lemma FreeCode(epos: seq<nat>, s: Charset, x: nat, e: Byte)
    requires Loaded(epos, s) && epos[e] == x && forall a: Byte :: s.uni[a] != x
    ensures s.dec[e] == NONE && forall a: Byte :: s.enc[a] != NONE ==> s.enc[a] != e
  {
  }

  lemma LoadedCoded(epos: seq<nat>, s: Charset)
    requires Loaded(epos, s) && Injective(Charset([], [], s.uni))
    ensures Coded(epos, s)
  {
    assert forall b: Byte :: Uni(Charset([], [], s.uni), b) == Uni(s, b);
  }

  class Encoder {
    var epos: seq<nat>
    var sets: seq<Charset>

    ghost function Tables(): Codes
      reads this
    {
      Codes(epos, sets)
    }

    constructor ()
      ensures Valid(Tables()) && sets == [] && forall e: Byte :: epos[e] == NONE
    {
      epos, sets := seq(256, _ => NONE), [];
    }

    // internal_code
    method InternalCode(c: nat, hint: Byte) returns (e: Byte)
      requires OneCode(epos) && c != NONE
      ensures e != NONE <==> c in epos
      ensures e != NONE ==> epos[e] == c
    {
      if epos[hint] == c { return hint; }
      var i := 255;
      while i > -1
        invariant -1 <= i <= 255 && forall k :: i < k < 256 ==> epos[k] != c
      {
        if epos[i] == c { return i; }
        i := i - 1;
      }
      return NONE;
    }

    // do_alloc_code: the table overflows only when all 255 codes are used.
    method DoAllocCode(c: nat, hint: Byte) returns (o: Outcome, e: Byte)
      requires OneCode(epos) && c != NONE && hint != NONE
      ensures o == Done || o == TableOverflow
      ensures o == Done ==> Usable(epos, c, e) && (e == hint <==> Own(epos, c, hint))
      ensures o == Done && c !in epos && e != hint ==> forall k :: e < k < 256 ==> epos[k] != NONE
      ensures o == TableOverflow <==> c !in epos && Full(epos)
    {
      var x := InternalCode(c, hint);
      if x != NONE { return Done, x; }
      if epos[hint] == NONE { return Done, hint; }
      var i := 255;
      while i != 0
        invariant 0 <= i <= 255 && forall k :: i < k < 256 ==> epos[k] != NONE
      {
        if epos[i] == NONE { return Done, i; }
        i := i - 1;
      }
      return TableOverflow, NONE;
    }

    // alloc_code
    method AllocCode(c: nat, b: Byte, cs: nat) returns (o: Outcome, e: Byte)
      requires Valid(Tables()) && cs < |sets| && b != NONE && sets[cs].enc[b] == NONE && c == Uni(sets[cs], b)
      modifies this
      ensures Valid(Tables()) && Extends(old(Tables()), Tables())
      ensures o == Done || (o == TableOverflow && Tables() == old(Tables()) && Full(epos))
      ensures o == Done ==>
                e != NONE && Tables() == Given(old(Tables()), cs, b, e) && (e == b <==> Own(old(epos), c, b))
      ensures o == Done ==>
                && epos == old(epos)[e := c]
                && sets == old(sets)[cs := old(sets)[cs].(enc := old(sets)[cs].enc[b := e],
                                                          dec := old(sets)[cs].dec[e := b])]
      ensures o == Done ==>
                if c in old(epos) then old(epos)[e] == c
                else
                  && old(epos)[e] == 0 && (old(epos)[b] == 0 ==> e == b)
                  && (old(epos)[b] != 0 ==> forall k :: e < k < 256 ==> old(epos)[k] != 0)
    {
      assert Coded(epos, sets[cs]);
      o, e := DoAllocCode(c, b);
      if o == TableOverflow { return; }
      GivenKeeps(Tables(), cs, b, e);
      epos := epos[e := c];
      sets := sets[cs := sets[cs].(enc := sets[cs].enc[b := e], dec := sets[cs].dec[e := b])];
    }

    // load_charset, given the lines of its map: the bytes whose characters have codes get them.
    method LoadCharset(lines: seq<Line>)
      requires Valid(Tables()) && Sound(lines) && Injective(Charset([], [], Map(lines)))
      modifies this
      ensures Valid(Tables()) && Extends(old(Tables()), Tables()) && epos == old(epos)
      ensures |sets| == |old(sets)| + 1 && sets[..|old(sets)|] == old(sets) && sets[|old(sets)|].uni == Map(lines)
      ensures |sets[|old(sets)|].enc| == 256
      ensures forall b: Byte :: sets[|old(sets)|].enc[b] != NONE <==> Map(lines)[b] != NONE && Map(lines)[b] in epos
    {
      ReflExtends(Tables());
      var c: seq<Byte>, d: seq<Byte>, w: seq<nat> := seq(256, _ => NONE), seq(256, _ => NONE), seq(256, _ => NONE);
      var i := 0;
      while i < |lines|
        invariant Valid(Tables()) && Tables() == old(Tables())
        invariant i <= |lines| && w == Map(lines[..i]) && Loaded(epos, Charset(c, d, w))
      {
        var b, x := lines[i].b, lines[i].x;
        var e := InternalCode(x, b);
        MapMore(lines, i);
        LoadedMore(epos, Charset(c, d, w), b, x, e);
        w := w[b := x];
        if e != NONE { c, d := c[b := e], d[e := b]; }
        i := i + 1;
      }
      assert lines[..|lines|] == lines;
      LoadedCoded(epos, Charset(c, d, w));
      MoreSets(Tables(), Charset(c, d, w));
      sets := sets + [Charset(c, d, w)];
    }

    // non_unicode_alloc_code
    method NonUnicode(request: Byte) returns (c: nat)
      requires OneCode(epos)
      ensures c == NONE || c == request
      ensures c != NONE <==> (request != NONE && ((request < 32 && epos[request] == NONE) || epos[request] == request))
    {
      if (request < 32 && epos[request] == NONE) || epos[request] == request { c := request; } else { c := NONE; }
    }

    // encode_string without allocation: every byte that has a code is replaced by it, and one
    // that has none by the code of the default character, if that is wanted.
    method Encode(a: array<Byte>, ghost text: seq<Byte>, cs: nat, relax: bool, dflt: Byte) returns (o: Outcome)
      requires Valid(Tables()) && cs < |sets| && Holds(a[..], text)
      modifies a
      ensures o in {Done, Unhandled, NoDefault}
      ensures |sets[cs].enc| == 256
      ensures o == Done <==> AllCoded(sets[cs], text) || (relax && sets[cs].enc[dflt] != NONE)
      ensures o == Unhandled ==> !relax
      ensures o == Done ==>
                var enc := sets[cs].enc;
                Holds(a[..], seq(|text|, i requires 0 <= i < |text| =>
                                   if enc[text[i]] != NONE then enc[text[i]] else enc[dflt]))
    {
      assert Coded(epos, sets[cs]);
      var enc := sets[cs].enc;
      var i := 0;
      assert forall k :: 0 <= k < |text| ==> a[k] == a[..][k] == text[k];
      while true
        invariant 0 <= i <= |text| < a.Length && forall k :: i <= k < |text| ==> a[k] == text[k]
        invariant a[|text|] == NONE
        invariant forall k :: 0 <= k < i ==>
                    a[k] == (if enc[text[k]] != NONE then enc[text[k]] else enc[dflt]) && a[k] != NONE
        invariant forall k :: 0 <= k < i ==> enc[text[k]] != NONE || (relax && enc[dflt] != NONE)
        decreases |text| - i
      {
        var t := enc[a[i]];
        if t == NONE && a[i] != NONE {
          if relax {
            if enc[dflt] == NONE { return NoDefault; }
            a[i] := enc[dflt];
          } else {
            return Unhandled;
          }
        } else {
          a[i] := t;
        }
        if a[i] == NONE { break; }
        i := i + 1;
      }
      assert i == |text|;
      o := Done;
    }

    // decode_string
    method Decode(a: array<Byte>, ghost text: seq<Byte>, cs: nat) returns (o: Outcome)
      requires Valid(Tables()) && cs < |sets| && Holds(a[..], text)
      modifies a
      ensures o in {Done, Infiltrated} && |sets[cs].dec| == 256
      ensures o == Done <==> forall i :: 0 <= i < |text| ==> sets[cs].dec[text[i]] != NONE
      ensures o == Done ==> Holds(a[..], Decoded(sets[cs], text))
    {
      assert Coded(epos, sets[cs]);
      var dec := sets[cs].dec;
      var i := 0;
      assert forall k :: 0 <= k < |text| ==> a[k] == a[..][k] == text[k];
      while true
        invariant 0 <= i <= |text| < a.Length && forall k :: i <= k < |text| ==> a[k] == text[k]
        invariant a[|text|] == NONE
        invariant forall k :: 0 <= k < i ==> a[k] == dec[text[k]] && a[k] != NONE
        decreases |text| - i
      {
        var t := dec[a[i]];
        if t == NONE && a[i] != NONE { return Infiltrated; }
        a[i] := t;
        if a[i] == NONE { break; }
        i := i + 1;
      }
      assert i == |text|;
      o := Done;
    }

    // The allocation branch of encode_string for one byte.
    method Allocate(b: Byte, cs: nat) returns (o: Outcome)
      requires Valid(Tables()) && cs < |sets| && b != NONE && |sets[cs].enc| == 256 && sets[cs].enc[b] == NONE
      modifies this
      ensures Valid(Tables()) && Extends(old(Tables()), Tables()) && o in {Done, Illegal, TableOverflow}
      ensures o != Done ==> Tables() == old(Tables())
      ensures o == Illegal <==> Uncharted(sets, cs, b) && old(epos)[b] != b && (b >= 32 || old(epos)[b] != 0)
      ensures o == TableOverflow ==> Full(epos)
      ensures o == Done ==> OnlyThis(old(sets), sets, cs, b)
      ensures o == Done ==>
                var e := sets[cs].enc[b];
                && e != NONE && |old(sets)[cs].dec| == |old(sets)[cs].uni| == 256
                && Tables() == Given(old(Tables()), cs, b, e)
                && (e == b <==> Own(old(epos), Uni(old(sets)[cs], b), b))
    {
      assert Coded(epos, sets[cs]);
      ReflExtends(Tables());
      var u := sets[cs].uni[b];
      if u == NONE { u := NonUnicode(b); }
      if u == NONE { return Illegal; }
      var e;
      o, e := AllocCode(u, b, cs);
    }

    // encode_string with allocation: a byte that gets its code is passed over. So the text is encoded exactly
    // when, by the tables as they were, each of its bytes without a code can have its own number for one.
    method EncodeAllocating(a: array<Byte>, ghost text: seq<Byte>, cs: nat) returns (o: Outcome)
      requires Valid(Tables()) && cs < |sets| && Holds(a[..], text)
      modifies this, a
      ensures Valid(Tables()) && Extends(old(Tables()), Tables()) && o in {Done, Illegal, TableOverflow}
      ensures cs < |sets| == |old(sets)| && |sets[cs].enc| == |old(sets[cs].enc)| == 256
      ensures o == Done ==> AllCoded(sets[cs], text) && a[|text|] == NONE
      ensures o == Done ==> EncodedOrPassed(old(sets[cs]), sets[cs], text, a[..][..|text|])
      ensures |old(sets[cs].uni)| == 256
      ensures o == Done ==> (a[..][..|text|] == Encoded(sets[cs], text) <==> AllOwn(old(Tables()), cs, text, |text|))
      ensures o == Illegal ==>
                exists b: Byte :: b in text && Uncharted(old(sets), cs, b) && old(epos)[b] != b
                                  && (b >= 32 || epos[b] != 0)
      ensures o == TableOverflow ==> Full(epos)
      ensures ForText(old(Tables()), Tables(), cs, text)
    {
      ghost var c := Tables();
      var i := 0;
      BetweenStart(c, cs, text, a[..]);
      while true
        invariant Between(c, Tables(), cs, text, a[..], i)
        decreases |text| - i
      {
        BetweenAt(c, Tables(), cs, text, a[..], i);
        var b := a[i];
        var t := sets[cs].enc[b];
        if t == NONE && b != NONE {
          ghost var d := Tables();
          o := Allocate(b, cs);
          if o != Done {
            assert b in text && SetExtends(c.sets[cs], d.sets[cs]);
            return;
          }
          BetweenPass(c, d, cs, text, a[..], i, sets[cs].enc[b]);
        } else {
          if b == NONE {
            break;
          }
          BetweenCode(c, Tables(), cs, text, a[..], i);
          ghost var buf := a[..];
          a[i] := t;
          assert a[..] == buf[i := t];
        }
        i := i + 1;
      }
      BetweenEnd(c, Tables(), cs, text, a[..]);
      o := Done;
    }
  }

  // The tables have grown from c to d, and the buffer is translated up to place i.
  ghost predicate Between(c: Codes, d: Codes, cs: nat, text: seq<Byte>, buf: seq<Byte>, i: nat) {
    && Valid(c) && Valid(d) && Extends(c, d) && Trail(c, d, cs, text, i) && Half(c.sets[cs], d.sets[cs], text, buf, i)
    && ForText(c, d, cs, text)
  }

  lemma BetweenStart(c: Codes, cs: nat, text: seq<Byte>, buf: seq<Byte>)
    requires Valid(c) && cs < |c.sets| && Holds(buf, text)
    ensures Between(c, c, cs, text, buf, 0)
  {
    ReflExtends(c);
    TrailStart(c, cs, text);
    HalfStart(c.sets[cs], text, buf);
  }

  lemma BetweenAt(c: Codes, d: Codes, cs: nat, text: seq<Byte>, buf: seq<Byte>, i: nat)
    requires Between(c, d, cs, text, buf, i)
    ensures Valid(d) && Extends(c, d) && cs < |d.sets| && |d.sets[cs].enc| == |c.sets[cs].enc| == 256
    ensures i <= |text| && i < |buf| && (buf[i] == NONE <==> i == |text|) && (i < |text| ==> buf[i] == text[i])
  {
    HalfAt(c.sets[cs], d.sets[cs], text, buf, i);
  }

  lemma BetweenPass(c: Codes, d: Codes, cs: nat, text: seq<Byte>, buf: seq<Byte>, i: nat, e: Byte)
    requires Between(c, d, cs, text, buf, i) && i < |text| && d.sets[cs].enc[text[i]] == NONE && e != NONE
    requires |d.sets[cs].uni| == |d.epos| == 256 && Valid(Given(d, cs, text[i], e))
             && Extends(d, Given(d, cs, text[i], e))
    requires e == text[i] <==> Own(d.epos, Uni(d.sets[cs], text[i]), text[i])
    ensures Between(c, Given(d, cs, text[i], e), cs, text, buf, i + 1)
  {
    assert SetExtends(c.sets[cs], d.sets[cs]);
    ExtendsTrans(c, d, Given(d, cs, text[i], e));
    TrailPass(c, d, cs, text, i, e);
    HalfPass(c.sets[cs], d.sets[cs], Given(d, cs, text[i], e).sets[cs], text, buf, i);
    ForTextMore(c, d, cs, text, i, e);
  }

  lemma ForTextMore(c: Codes, d: Codes, cs: nat, text: seq<Byte>, i: nat, e: Byte)
    requires Valid(c) && Valid(d) && cs < |c.sets| && cs < |d.sets| && i < |text| && ForText(c, d, cs, text)
    requires |d.sets[cs].enc| == |d.sets[cs].dec| == |d.sets[cs].uni| == 256 && d.sets[cs].uni == c.sets[cs].uni
    requires Valid(Given(d, cs, text[i], e))
    ensures ForText(c, Given(d, cs, text[i], e), cs, text)
  {
    var f := Given(d, cs, text[i], e);
    forall x: Byte | f.epos[x] != c.epos[x]
      ensures exists b: Byte :: b in text && f.epos[x] == Uni(c.sets[cs], b)
    {
      if x == e {
        assert text[i] in text && f.epos[x] == Uni(c.sets[cs], text[i]);
      }
    }
  }

  lemma BetweenCode(c: Codes, d: Codes, cs: nat, text: seq<Byte>, buf: seq<Byte>, i: nat)
    requires Between(c, d, cs, text, buf, i) && i < |text| && d.sets[cs].enc[text[i]] != NONE
    ensures Between(c, d, cs, text, buf[i := d.sets[cs].enc[text[i]]], i + 1)
  {
    TrailOn(c, d, cs, text, i);
    HalfCode(c.sets[cs], d.sets[cs], text, buf, i);
  }

  lemma BetweenEnd(c: Codes, d: Codes, cs: nat, text: seq<Byte>, buf: seq<Byte>)
    requires Between(c, d, cs, text, buf, |text|)
    ensures |text| < |buf| && buf[|text|] == NONE && |c.sets[cs].uni| == 256
    ensures AllCoded(d.sets[cs], text) && EncodedOrPassed(c.sets[cs], d.sets[cs], text, buf[..|text|])
    ensures buf[..|text|] == Encoded(d.sets[cs], text) <==> AllOwn(c, cs, text, |text|)
  {
    HalfEnd(c.sets[cs], d.sets[cs], text, buf);
    PassedSelf(c.sets[cs], d.sets[cs], text, buf[..|text|]);
  }

  // The buffer, translated up to place i.
  ghost predicate Half(s: Charset, t: Charset, text: seq<Byte>, buf: seq<Byte>, i: nat)
    requires |s.enc| == |t.enc| == 256 && i <= |text|
  {
    && |text| < |buf| && buf[|text|] == NONE && Grown(s, t, text, i)
    && (forall k :: 0 <= k < |text| ==> text[k] != NONE)
    && (forall k :: i <= k < |text| ==> buf[k] == text[k])
    && (forall k :: 0 <= k < i ==> buf[k] == if Passed(s, text, k) then text[k] else t.enc[text[k]])
  }

  lemma HalfStart(s: Charset, text: seq<Byte>, buf: seq<Byte>)
    requires |s.enc| == 256 && Holds(buf, text)
    ensures Half(s, s, text, buf, 0)
  {
    assert forall k :: 0 <= k < |text| ==> buf[k] == buf[..|text|][k];
  }

  lemma HalfAt(s: Charset, t: Charset, text: seq<Byte>, buf: seq<Byte>, i: nat)
    requires |s.enc| == |t.enc| == 256 && i <= |text| && Half(s, t, text, buf, i)
    ensures i < |buf| && (buf[i] == NONE <==> i == |text|) && (i < |text| ==> buf[i] == text[i])
  {
  }

  lemma HalfPass(s: Charset, t: Charset, u: Charset, text: seq<Byte>, buf: seq<Byte>, i: nat)
    requires |s.enc| == |t.enc| == |u.enc| == 256 && i < |text| && Half(s, t, text, buf, i) && t.enc[text[i]] == NONE
    requires u.enc[text[i]] != NONE && forall x: Byte :: x != text[i] ==> u.enc[x] == t.enc[x]
    ensures Half(s, u, text, buf, i + 1)
  {
    GrownMore(s, t, u, text, i);
  }

  lemma HalfCode(s: Charset, t: Charset, text: seq<Byte>, buf: seq<Byte>, i: nat)
    requires |s.enc| == |t.enc| == 256 && i < |text| && Half(s, t, text, buf, i) && t.enc[text[i]] != NONE
    ensures Half(s, t, text, buf[i := t.enc[text[i]]], i + 1)
  {
    GrownOn(s, t, text, i);
  }

  lemma HalfEnd(s: Charset, t: Charset, text: seq<Byte>, buf: seq<Byte>)
    requires |s.enc| == |t.enc| == 256 && Half(s, t, text, buf, |text|)
    ensures AllCoded(t, text) && EncodedOrPassed(s, t, text, buf[..|text|])
  {
    assert text[..|text|] == text;
  }

  lemma MoreSets(c: Codes, s: Charset)
    requires Valid(c) && Coded(c.epos, s)
    ensures Valid(c.(sets := c.sets + [s])) && Extends(c, c.(sets := c.sets + [s]))
  {
    var d := c.(sets := c.sets + [s]);
    forall k | 0 <= k < |d.sets| ensures Coded(d.epos, d.sets[k]) { assert k < |c.sets| ==> Coded(c.epos, c.sets[k]); }
    forall k | 0 <= k < |c.sets| ensures SetExtends(c.sets[k], d.sets[k]) { assert Coded(c.epos, c.sets[k]); }
  }

  lemma ReflExtends(c: Codes)
    requires Valid(c)
    ensures Extends(c, c)
  {
    forall k | 0 <= k < |c.sets| ensures SetExtends(c.sets[k], c.sets[k]) { assert Coded(c.epos, c.sets[k]); }
  }

  // One byte of one character set got a code.
  ghost predicate OnlyThis(was: seq<Charset>, now: seq<Charset>, cs: nat, b: Byte) {
    && |now| == |was| && cs < |was| && |was[cs].enc| == |now[cs].enc| == 256 && now[cs].enc[b] != NONE
    && forall x: Byte :: x != b ==> now[cs].enc[x] == was[cs].enc[x]
  }

  // After i bytes: the bytes seen have codes, and no others have got one.
  ghost predicate Grown(s: Charset, t: Charset, text: seq<Byte>, i: nat)
    requires |s.enc| == |t.enc| == 256 && i <= |text|
  {
    && (forall b: Byte :: b in text[..i] ==> t.enc[b] != NONE)
    && (forall b: Byte :: b !in text[..i] ==> t.enc[b] == s.enc[b])
  }

  lemma GrownMore(s: Charset, t: Charset, u: Charset, text: seq<Byte>, i: nat)
    requires |s.enc| == |t.enc| == |u.enc| == 256 && i < |text| && Grown(s, t, text, i) && t.enc[text[i]] == NONE
    requires u.enc[text[i]] != NONE && forall x: Byte :: x != text[i] ==> u.enc[x] == t.enc[x]
    ensures Grown(s, u, text, i + 1) && Passed(s, text, i)
    ensures forall k :: 0 <= k < i ==> u.enc[text[k]] == t.enc[text[k]]
  {
    assert text[..i + 1] == text[..i] + [text[i]];
    forall k | 0 <= k < i ensures text[k] != text[i] { assert text[k] in text[..i]; }
  }

  lemma GrownOn(s: Charset, t: Charset, text: seq<Byte>, i: nat)
    requires |s.enc| == |t.enc| == 256 && i < |text| && Grown(s, t, text, i) && t.enc[text[i]] != NONE
    ensures Grown(s, t, text, i + 1) && !Passed(s, text, i)
  {
    assert text[..i + 1] == text[..i] + [text[i]];
  }

  // A character set with nothing but byte 65, which is the character x.
  lemma OneLine(x: nat)
    requires x >= 256
    ensures Sound([Line(65, x)]) && Injective(Charset([], [], Map([Line(65, x)])))
    ensures forall b: Byte :: Map([Line(65, x)])[b] == if b == 65 then x else NONE
  {
    var m := Map([Line(65, x)]);
    assert [Line(65, x)][..0] == [];
    assert m == Map([])[65 := x];
  }

  // Encoding a text of one byte cannot fill tables with two codes free.
  lemma StillFree(c: Codes, d: Codes, cs: nat, text: seq<Byte>)
    requires Valid(c) && Valid(d) && cs < |c.sets| && ForText(c, d, cs, text) && |text| == 1
    requires c.epos[1] == NONE && c.epos[2] == NONE
    ensures !Full(d.epos)
  {
    var u := Uni(c.sets[cs], text[0]);
    assert d.epos[1] in {NONE, u} && d.epos[2] in {NONE, u};
  }

  // What a string of the one byte 65 comes to in the last character set, whose byte 65 is the character x.
  method EncodeOne(e: Encoder, cs: nat, x: nat, was: nat) returns (a: array<Byte>)
    requires Valid(e.Tables()) && cs < |e.sets|
    requires |e.sets[cs].uni| == |e.sets[cs].enc| == 256 && e.sets[cs].uni[65] == x && x >= 256
             && e.sets[cs].enc[65] == NONE
    requires was != x && forall b: Byte :: e.epos[b] == if b == 65 then was else NONE
    modifies e
    ensures Valid(e.Tables()) && |e.sets| == |old(e.sets)| && |e.sets[cs].enc| == 256 && a[..] == [65, NONE]
    ensures e.sets[cs].enc[65] != NONE && (e.sets[cs].enc[65] == 65 <==> was == NONE)
    ensures forall b: Byte :: e.epos[b] in {NONE, was, x}
    ensures was == NONE ==> forall b: Byte :: e.epos[b] == if b == 65 then x else NONE
  {
    a := new Byte[2][65, NONE];
    assert a[..][..1] == [65];
    ghost var c := e.Tables();
    assert Own(c.epos, x, 65) <==> was == NONE;
    assert AllOwn(c, cs, [65], 1) <==> was == NONE by {
      assert [65][..1] == [65];
    }
    var o := e.EncodeAllocating(a, [65], cs);
    StillFree(c, e.Tables(), cs, [65]);
    assert o == Done;
    assert Passed(c.sets[cs], [65], 0);
    assert a[..][..1] == [a[0]];
    assert Coded(e.epos, e.sets[cs]);
  }

  // Byte 65 is one character in one set and another in the next. In the first set its character gets the
  // code 65; the same string in the second set is left as it was, although its character has a code now.
  method LeavesAlone() returns (e: Encoder, a: array<Byte>)
    ensures Valid(e.Tables()) && |e.sets| == 2 && a[..] == [65, NONE]
    ensures |e.sets[1].enc| == 256 && e.sets[1].enc[65] !in {NONE, 65}
  {
    OneLine(1000);
    OneLine(2000);
    e := new Encoder();
    e.LoadCharset([Line(65, 1000)]);
    a := EncodeOne(e, 0, 1000, NONE);
    e.LoadCharset([Line(65, 2000)]);
    a := EncodeOne(e, 1, 2000, 1000);
  }
}
