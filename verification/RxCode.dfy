// The code a pattern of the subset stands for, as bytes.
module RxCode {
  import opened RxBytes
  import opened RxSyntax

  // ---- bitmaps ------------------------------------------------------------

  predicate InMap(m: seq<Byte>, c: Byte) {
    c < |m| * 8 && Bit(m[c / 8], c % 8)
  }

  // SET_LIST_BIT
  function SetListBit(m: seq<Byte>, c: Byte): (r: seq<Byte>)
    requires |m| == 32
    ensures |r| == 32
    ensures forall x: Byte :: InMap(r, x) <==> x == c || InMap(m, x)
  {
    WithBitBound(m[c / 8], c % 8, 8);
    assert Exp2(8) == 256 by { assert Exp2(4) == 16; assert Exp2(6) == 64; }
    var r := m[c / 8 := WithBit(m[c / 8], c % 8)];
    assert forall x: Byte :: InMap(r, x) <==> x == c || InMap(m, x) by {
      forall x: Byte ensures InMap(r, x) <==> x == c || InMap(m, x) {
        WithBitExact(m[c / 8], c % 8, x % 8);
      }
    }
    r
  }

  // The bits of a range, a up to b.
  function SetListRange(m: seq<Byte>, a: Byte, b: Byte): (r: seq<Byte>)
    requires |m| == 32
    ensures |r| == 32
    ensures forall x: Byte :: InMap(r, x) <==> a <= x <= b || InMap(m, x)
    decreases b - a
  {
    if a > b then m
    else if a == b then SetListBit(m, a)
    else SetListRange(SetListBit(m, a), a + 1, b)
  }

  function AddItem(m: seq<Byte>, it: Item): (r: seq<Byte>)
    requires |m| == 32
    ensures |r| == 32
    ensures forall x: Byte :: InMap(r, x) <==> ItemHas(it, x) || InMap(m, x)
  {
    match it
    case One(c) => SetListBit(m, c)
    case Range(a, b) => SetListRange(m, a, b)
    case Joined(a, b) => SetListRange(m, a, b)
  }

  function EmptyMap(): (m: seq<Byte>)
    ensures |m| == 32 && forall x: Byte :: !InMap(m, x)
  {
    var m: seq<Byte> := seq(32, i => 0);
    assert forall x: Byte :: !InMap(m, x) by {
      forall x: Byte ensures !InMap(m, x) { ZeroHasNoBits(x % 8); }
    }
    m
  }

  function BitMap(items: seq<Item>): (m: seq<Byte>)
    ensures |m| == 32
    ensures forall x: Byte :: InMap(m, x) <==> ItemsHave(items, x)
  {
    if items == [] then EmptyMap()
    else
      var init, last := items[..|items| - 1], items[|items| - 1];
      assert forall x: Byte :: ItemsHave(items, x) <==> ItemsHave(init, x) || ItemHas(last, x) by {
        forall x: Byte ensures ItemsHave(items, x) <==> ItemsHave(init, x) || ItemHas(last, x) {
          if ItemsHave(init, x) { var k :| 0 <= k < |init| && ItemHas(init[k], x); assert items[k] == init[k]; }
          if ItemsHave(items, x) {
            var k :| 0 <= k < |items| && ItemHas(items[k], x);
            assert k < |init| ==> init[k] == items[k];
          }
        }
      }
      AddItem(BitMap(init), last)
  }

  // Trailing zero bytes of the map are discarded.
  function Trim(m: seq<Byte>): (t: seq<Byte>)
    ensures |t| <= |m|
    ensures forall x: Byte :: InMap(t, x) <==> InMap(m, x)
  {
    if m != [] && m[|m| - 1] == 0 then
      var u := m[..|m| - 1];
      assert forall x: Byte :: InMap(u, x) <==> InMap(m, x) by {
        forall x: Byte ensures InMap(u, x) <==> InMap(m, x) { ZeroHasNoBits(x % 8); }
      }
      Trim(u)
    else m
  }

  // ---- code ---------------------------------------------------------------

  function LitBytes(lits: seq<Lit>): (b: seq<Byte>)
    ensures |b| == |lits| && forall t :: 0 <= t < |lits| ==> b[t] == lits[t].c
  {
    seq(|lits|, i requires 0 <= i < |lits| => lits[i].c)
  }

  function Memory(op: Byte, reg: nat, inner: nat): seq<Byte> {
    if reg <= 255 then [op, reg, inner % 256] else []
  }

  function CodeAtom(a: Atom): (c: seq<Byte>)
    ensures c != [] || a.AGroup?
    decreases a, 2
  {
    match a
    case AChar(l) => [EXACTN, 1, l.c]
    case ADot => [ANYCHAR]
    case ASet(neg, items) =>
      var t := Trim(BitMap(items));
      [if neg then CHARSET_NOT else CHARSET, |t|] + t
    case AGroup(reg, inner, alts) =>
      Memory(START_MEMORY, reg, inner) + CodeAlts(alts)
      + (if |alts| > 1 then [PUSH_DUMMY_FAILURE] else []) + Memory(STOP_MEMORY, reg, inner)
  }

  // Each alternative but the last is preceded by a failure jump to the next one and
  // followed by a jump to the corresponding jump of the next one, or to the end.
  function CodeAlts(alts: seq<Branch>): (c: seq<Byte>)
    decreases alts, 1
  {
    if alts == [] then []
    else
      var c0 := CodeBranch(alts[0].chunks);
      if |alts| == 1 then c0
      else Jmp(ON_FAILURE_JUMP, |c0| + 3) + c0 + Jmp(JUMP_PAST_ALT, Past(alts[1..])) + CodeAlts(alts[1..])
  }

  // Distance from the start of the remaining alternatives to where the jump before them lands.
  function Past(alts: seq<Branch>): (n: nat)
    requires alts != []
    decreases alts, 0
  {
    |CodeBranch(alts[0].chunks)| + (if |alts| == 1 then 0 else 3)
  }

  function CodeBranch(cs: seq<Chunk>): (c: seq<Byte>)
    decreases cs, 0
  {
    if cs == [] then [] else CodeChunk(cs[0]) + CodeBranch(cs[1..])
  }

  function CodeChunk(c: Chunk): (r: seq<Byte>)
    decreases c, 3
  {
    match c
    case Run(lits) => [EXACTN, |lits| % 256] + LitBytes(lits)
    case Rep(a, ops) => CodeRep(CodeAtom(a), ZeroOk(ops), ManyOk(ops))
  }

  function CodeRep(body: seq<Byte>, zero: bool, many: bool): (r: seq<Byte>) {
    var l := |body|;
    var once := if many then Jmp(ON_FAILURE_JUMP, l + 3) + body + Jmp(MAYBE_POP_JUMP, -(l + 6))
                else if zero then Jmp(ON_FAILURE_JUMP, l) + body
                else body;
    if many && !zero then Jmp(DUMMY_FAILURE_JUMP, 3) + once else once
  }
}
