// Internal character codes shared by several character sets (src/encoding.cc).
module CharCodes {

  type Byte = x: int | 0 <= x < 256

  // 0 stands for no character, no code and no byte.
  const NONE := 0

  // One character set: its bytes' codes, the codes' bytes, and its bytes' characters.
  datatype Charset = Charset(enc: seq<Byte>, dec: seq<Byte>, uni: seq<nat>)

  // epos gives the character of each code.
  datatype Codes = Codes(epos: seq<nat>, sets: seq<Charset>)

  // The character a byte stands for: a byte that the character set leaves out stands for the
  // character of the same number.
  function Uni(s: Charset, b: Byte): nat
    requires |s.uni| == 256
  {
    if s.uni[b] != NONE then s.uni[b] else b
  }

  // No two bytes of a character set stand for the same character.
  predicate Injective(s: Charset)
    requires |s.uni| == 256
  {
    forall a: Byte, b: Byte :: a != NONE && b != NONE && Uni(s, a) == Uni(s, b) ==> a == b
  }

  // A byte that has a code has that of its character, and the code leads back to the byte.
  predicate Coded(epos: seq<nat>, s: Charset) {
    && |epos| == 256 && |s.enc| == 256 && |s.dec| == 256 && |s.uni| == 256 && Injective(s)
    && s.enc[0] == NONE && s.dec[0] == NONE
    && (forall b: Byte :: s.enc[b] != NONE ==> epos[s.enc[b]] == Uni(s, b) && s.dec[s.enc[b]] == b)
    && (forall e: Byte :: s.dec[e] != NONE ==> s.enc[s.dec[e]] == e)
  }

  predicate OneCode(epos: seq<nat>) {
    && |epos| == 256 && epos[0] == NONE
    && forall i: Byte, j: Byte :: epos[i] != NONE && epos[i] == epos[j] ==> i == j
  }

  predicate Valid(c: Codes) {
    OneCode(c.epos) && forall k :: 0 <= k < |c.sets| ==> Coded(c.epos, c.sets[k])
  }

  // ---- what the codes mean ---------------------------------------------------------------

  // Two bytes of any two character sets have the same code exactly when they are the same
  // character.
  lemma SameCode(c: Codes, k: nat, a: Byte, l: nat, b: Byte)
    requires Valid(c) && k < |c.sets| && l < |c.sets| && c.sets[k].enc[a] != NONE && c.sets[l].enc[b] != NONE
    ensures c.sets[k].enc[a] == c.sets[l].enc[b] <==> Uni(c.sets[k], a) == Uni(c.sets[l], b)
  {
    assert Coded(c.epos, c.sets[k]) && Coded(c.epos, c.sets[l]);
    assert c.sets[k].enc[0] == NONE && c.sets[l].enc[0] == NONE;
    assert Uni(c.sets[k], a) != NONE;
  }

  // ---- growing -----------------------------------------------------------------------------

  // Nothing that has a code loses it or gets another one.
  predicate Extends(c: Codes, d: Codes)
    requires Valid(c) && Valid(d)
  {
    && (forall e: Byte :: c.epos[e] != NONE ==> d.epos[e] == c.epos[e])
    && |d.sets| >= |c.sets|
    && forall k :: 0 <= k < |c.sets| ==> SetExtends(c.sets[k], d.sets[k])
  }

  predicate SetExtends(s: Charset, t: Charset)
    requires |s.enc| == |t.enc| == 256
  {
    s.uni == t.uni && forall b: Byte :: s.enc[b] != NONE ==> t.enc[b] == s.enc[b]
  }

  lemma ExtendsTrans(a: Codes, b: Codes, c: Codes)
    requires Valid(a) && Valid(b) && Valid(c) && Extends(a, b) && Extends(b, c)
    ensures Extends(a, c)
  {
    forall k | 0 <= k < |a.sets| ensures SetExtends(a.sets[k], c.sets[k]) {
      assert SetExtends(a.sets[k], b.sets[k]) && SetExtends(b.sets[k], c.sets[k]);
    }
  }

  // Code e given to the character of byte b of set k.
  function Given(c: Codes, k: nat, b: Byte, e: Byte): Codes
    requires k < |c.sets| && |c.epos| == 256 && |c.sets[k].enc| == 256 && |c.sets[k].dec| == 256
             && |c.sets[k].uni| == 256
  {
    var s := c.sets[k];
    Codes(c.epos[e := Uni(s, b)], c.sets[k := s.(enc := s.enc[b := e], dec := s.dec[e := b])])
  }

  // A code for u that can be used: the one u has, or a free one when it has none.
  predicate Usable(epos: seq<nat>, u: nat, e: Byte)
    requires |epos| == 256
  {
    e != 0 && (epos[e] == u || (epos[e] == NONE && u !in epos))
  }

  lemma GivenOneCode(epos: seq<nat>, u: nat, e: Byte)
    requires OneCode(epos) && u != NONE && Usable(epos, u, e)
    ensures OneCode(epos[e := u]) && forall i: Byte :: epos[i] != NONE ==> epos[e := u][i] == epos[i]
  {
  }

  lemma OtherCoded(epos: seq<nat>, u: nat, e: Byte, s: Charset)
    requires OneCode(epos) && u != NONE && Usable(epos, u, e) && Coded(epos, s)
    ensures Coded(epos[e := u], s)
  {
    assert forall b: Byte :: b != NONE ==> Uni(s, b) != NONE;
  }

  // A code that is free, or that is the code of an uncoded byte's character, leads nowhere yet.
  lemma DecodesTo(epos: seq<nat>, s: Charset, e: Byte, u: nat)
    requires Coded(epos, s) && e != NONE && (epos[e] == NONE || epos[e] == u)
    ensures s.dec[e] != NONE ==> epos[e] == u == Uni(s, s.dec[e]) && s.enc[s.dec[e]] == e
  {
  }

  lemma GivenCoded(epos: seq<nat>, s: Charset, b: Byte, e: Byte)
    requires OneCode(epos) && Coded(epos, s) && b != NONE && s.enc[b] == NONE && Usable(epos, Uni(s, b), e)
    ensures Coded(epos[e := Uni(s, b)], s.(enc := s.enc[b := e], dec := s.dec[e := b]))
  {
    var u := Uni(s, b);
    assert u != NONE;
    DecodesTo(epos, s, e, u);
    OtherCoded(epos, u, e, s);
    var t := s.(enc := s.enc[b := e], dec := s.dec[e := b]);
    assert forall a: Byte :: Uni(t, a) == Uni(s, a);
  }

  lemma GivenKeeps(c: Codes, k: nat, b: Byte, e: Byte)
    requires Valid(c) && k < |c.sets| && b != NONE && c.sets[k].enc[b] == NONE && Usable(c.epos, Uni(c.sets[k], b), e)
    ensures Valid(Given(c, k, b, e)) && Extends(c, Given(c, k, b, e))
  {
    var s := c.sets[k];
    var d := Given(c, k, b, e);
    GivenOneCode(c.epos, Uni(s, b), e);
    GivenCoded(c.epos, s, b, e);
    forall l | 0 <= l < |d.sets| ensures Coded(d.epos, d.sets[l]) && SetExtends(c.sets[l], d.sets[l]) {
      if l != k { OtherCoded(c.epos, Uni(s, b), e, c.sets[l]); }
    }
  }

  // ---- strings --------------------------------------------------------------------------

  predicate AllCoded(s: Charset, text: seq<Byte>)
    requires |s.enc| == 256
  {
    forall i :: 0 <= i < |text| ==> text[i] != NONE && s.enc[text[i]] != NONE
  }

  function Encoded(s: Charset, text: seq<Byte>): (r: seq<Byte>)
    requires |s.enc| == 256
    ensures |r| == |text| && forall i :: 0 <= i < |r| ==> r[i] == s.enc[text[i]]
  {
    seq(|text|, i requires 0 <= i < |text| => s.enc[text[i]])
  }

  function Decoded(s: Charset, text: seq<Byte>): (r: seq<Byte>)
    requires |s.dec| == 256
    ensures |r| == |text| && forall i :: 0 <= i < |r| ==> r[i] == s.dec[text[i]]
  {
    seq(|text|, i requires 0 <= i < |text| => s.dec[text[i]])
  }

  // A text in character set k that is coded can be decoded again, now and after any later
  // growth of the tables.
  lemma RoundTrip(c: Codes, d: Codes, k: nat, text: seq<Byte>)
    requires Valid(c) && Valid(d) && Extends(c, d) && k < |c.sets| && AllCoded(c.sets[k], text)
    ensures Decoded(d.sets[k], Encoded(c.sets[k], text)) == text
  {
    assert SetExtends(c.sets[k], d.sets[k]) && Coded(d.epos, d.sets[k]);
  }

  // A text decoded in one character set and encoded in another keeps its characters.
  lemma Recoded(c: Codes, k: nat, l: nat, a: Byte, b: Byte)
    requires Valid(c) && k < |c.sets| && l < |c.sets| && c.sets[k].enc[a] != NONE
    requires b == c.sets[l].dec[c.sets[k].enc[a]] && b != NONE
    ensures Uni(c.sets[l], b) == Uni(c.sets[k], a)
  {
    assert Coded(c.epos, c.sets[k]) && Coded(c.epos, c.sets[l]);
  }
}
