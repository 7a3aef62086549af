// When a loop's back jump discards the failure point of its last round (src/rx.c:4663-4838).
module RxPops {
  import opened RxBytes
  import opened RxSyntax
  import opened RxCode
  import opened RxVm
  import opened RxMeaning
  import opened RxFlow

  // ---- the test as the matcher makes it ---------------------------------------------------------

  // What follows a loop, the commands of groups and the head of a following plus loop skipped.
  function Skip(code: seq<Byte>, p: int): (q: int)
    requires 0 <= p <= |code|
    ensures p <= q <= |code|
    decreases |code| - p
  {
    if p + 2 < |code| && code[p] in {STOP_MEMORY, START_MEMORY} then Skip(code, p + 3)
    else if p + 6 < |code| && code[p] == DUMMY_FAILURE_JUMP then Skip(code, p + 6)
    else p
  }

  // (a & ~b) == 0 and (a & b) == 0
  predicate Covered(a: Byte, b: Byte) { forall k :: 0 <= k < 8 ==> Bit(a, k) ==> Bit(b, k) }

  predicate Apart(a: Byte, b: Byte) { forall k :: 0 <= k < 8 ==> !(Bit(a, k) && Bit(b, k)) }

  // The bit map of a bracket list.
  function MapAt(code: seq<Byte>, q: int): (m: seq<Byte>) {
    if 0 <= q && q + 2 <= |code| && q + 2 + code[q + 1] <= |code| then code[q + 2..q + 2 + code[q + 1]] else []
  }

  predicate MapsCovered(a: seq<Byte>, b: seq<Byte>) {
    forall i :: 0 <= i < |a| ==> a[i] == 0 || (i < |b| && Covered(a[i], b[i]))
  }

  predicate MapsApart(a: seq<Byte>, b: seq<Byte>) {
    forall i :: 0 <= i < |a| && i < |b| ==> Apart(a[i], b[i])
  }

  // A loop over the literal lit, or over a list with the map m, is followed by the literal c. The size of
  // the map, in bits, is cut down to a byte.
  predicate PopsBefore(op: Byte, lit: Byte, m: seq<Byte>, c: Byte) {
    if op == EXACTN then lit != c
    else if op in {CHARSET, CHARSET_NOT} then (c < |m| * 8 % 256 && Bit(m[c / 8], c % 8)) == (op == CHARSET_NOT)
    else false
  }

  // The loop is followed by a list. Against a literal, it is the literal's count n that is looked up.
  predicate PopsBeforeSet(op: Byte, n: Byte, m: seq<Byte>, list: seq<Byte>) {
    if op == EXACTN then !(|list| * 8 > n && Bit(list[n / 8], n % 8))
    else if op == CHARSET_NOT then MapsCovered(list, m)
    else if op == CHARSET then MapsApart(list, m)
    else false
  }

  // The body begins at q; at r is what follows the loop.
  predicate PopsOn(code: seq<Byte>, q: int, r: int) {
    var op, n, lit, m := ByteAt(code, q), ByteAt(code, q + 1), ByteAt(code, q + 2), MapAt(code, q);
    if r == |code| then true
    else if ByteAt(code, r) == EXACTN then PopsBefore(op, lit, m, ByteAt(code, r + 2))
    else if ByteAt(code, r) == CHARSET then PopsBeforeSet(op, n, m, MapAt(code, r))
    else false
  }

  // Mentioning Peek(q) unfolds the test.
  ghost predicate PopsAt(code: seq<Byte>, q: int, r: int) {
    forall x: int {:trigger Peek(x)} :: Peek(x) && x == q ==> PopsOn(code, q, r)
  }

  ghost predicate Pops(code: seq<Byte>, p: int)
    requires 0 <= p && p + 3 <= |code|
  {
    PopsAt(code, Target(code, p) + 3, Skip(code, p + 3))
  }

  // ---- what it is for ------------------------------------------------------------------------------

  // A test of one character accepts c.
  predicate Accepts(code: seq<Byte>, q: int, c: Byte)
    requires OneChar(code, q)
  {
    if code[q] == EXACTN then c == code[q + 2]
    else if code[q] == ANYCHAR then c != 0
    else SetAccepts(code, q, c)
  }

  // After the loop that the jump at p closes, the pattern ends, or no character the body accepts can come.
  ghost predicate Disjoint(code: seq<Byte>, p: int)
    requires OneCharLoop(code, p)
  {
    var q, r := Target(code, p) + 3, Skip(code, p + 3);
    r == |code|
    || (r + 2 < |code| && code[r] == EXACTN && !Accepts(code, q, code[r + 2]))
    || (r + 2 <= |code| && code[r] == CHARSET && r + Len(code, r) <= |code|
        && forall c: Byte :: SetAccepts(code, r, c) ==> !Accepts(code, q, c))
  }

  // ---- the test against what it is for ---------------------------------------------------------------

  // The two cases where the test looks at the wrong thing: a list whose map is all 32 bytes long
  // before a literal, and a literal before a list.
  predicate Odd(code: seq<Byte>, p: int)
    requires OneCharLoop(code, p)
  {
    var q, r := Target(code, p) + 3, Skip(code, p + 3);
    || (r < |code| && code[r] == EXACTN && code[q] in {CHARSET, CHARSET_NOT} && Len(code, q) == 34)
    || (r < |code| && code[r] == CHARSET && code[q] == EXACTN)
  }

  lemma BeforeExactly(code: seq<Byte>, q: int, c: Byte)
    requires OneChar(code, q) && code[q] != ANYCHAR && (code[q] != EXACTN ==> code[q + 1] < 32)
    ensures PopsBefore(code[q], ByteAt(code, q + 2), MapAt(code, q), c) <==> !Accepts(code, q, c)
  {
  }

  lemma {:induction false} HasBit(b: Byte, w: nat)
    requires 0 < b < Exp2(w)
    ensures exists k :: 0 <= k < w && Bit(b, k)
  {
    if b % 2 == 1 {
      assert Bit(b, 0);
    } else {
      HasBit(b / 2, w - 1);
      var k :| 0 <= k < w - 1 && Bit(b / 2, k);
      assert Bit(b, k + 1);
    }
  }

  // Two maps byte by byte, and character by character.
  lemma ApartExactly(a: seq<Byte>, b: seq<Byte>)
    requires |a| <= 32 && |b| <= 32
    ensures MapsApart(a, b) <==> forall c: Byte :: InMap(a, c) ==> !InMap(b, c)
  {
    if forall c: Byte :: InMap(a, c) ==> !InMap(b, c) {
      forall i, k | 0 <= i < |a| && i < |b| && 0 <= k < 8 ensures !(Bit(a[i], k) && Bit(b[i], k)) {
        var c: Byte := i * 8 + k;
        assert c / 8 == i && c % 8 == k;
        assert InMap(a, c) ==> !InMap(b, c);
      }
    }
    if MapsApart(a, b) {
      forall c: Byte | InMap(a, c) ensures !InMap(b, c) {
        if c < |b| * 8 {
          assert Apart(a[c / 8], b[c / 8]);
        }
      }
    }
  }

  lemma CoveredExactly(a: seq<Byte>, b: seq<Byte>)
    requires |a| <= 32 && |b| <= 32
    ensures MapsCovered(a, b) <==> forall c: Byte :: InMap(a, c) ==> InMap(b, c)
  {
    if forall c: Byte :: InMap(a, c) ==> InMap(b, c) {
      forall i | 0 <= i < |a| && a[i] != 0 ensures i < |b| && Covered(a[i], b[i]) {
        assert Exp2(8) == 256 by { assert Exp2(4) == 16; assert Exp2(6) == 64; }
        HasBit(a[i], 8);
        forall k | 0 <= k < 8 && Bit(a[i], k) ensures i < |b| && Bit(b[i], k) {
          var c: Byte := i * 8 + k;
          assert c / 8 == i && c % 8 == k;
          assert InMap(a, c) ==> InMap(b, c);
        }
      }
    }
    if MapsCovered(a, b) {
      forall c: Byte | InMap(a, c) ensures InMap(b, c) {
        ZeroHasNoBits(c % 8);
        assert a[c / 8] == 0 || Covered(a[c / 8], b[c / 8]);
      }
    }
  }

  lemma SetsExactly(code: seq<Byte>, q: int, r: int)
    requires OneChar(code, q) && code[q] in {CHARSET, CHARSET_NOT} && Len(code, q) <= 34
    requires 0 <= r && r + 2 <= |code| && code[r] == CHARSET && r + Len(code, r) <= |code| && Len(code, r) <= 34
    ensures PopsBeforeSet(code[q], code[q + 1], MapAt(code, q), MapAt(code, r)) <==>
              forall c: Byte :: SetAccepts(code, r, c) ==> !Accepts(code, q, c)
  {
    var a, b := MapAt(code, r), MapAt(code, q);
    forall c: Byte ensures SetAccepts(code, r, c) <==> InMap(a, c) {
    }
    forall c: Byte ensures Accepts(code, q, c) <==> (InMap(b, c) == (code[q] == CHARSET)) {
    }
    if code[q] == CHARSET {
      ApartExactly(a, b);
    } else {
      CoveredExactly(a, b);
    }
  }

  // What there is to read before and after a loop is complete, as it is in compiled code.
  predicate Readable(code: seq<Byte>, p: int)
    requires OneCharLoop(code, p)
  {
    var q, r := Target(code, p) + 3, Skip(code, p + 3);
    && (code[q] in {CHARSET, CHARSET_NOT} ==> Len(code, q) <= 34)
    && (r < |code| ==> r + Len(code, r) <= |code|)
    && (r < |code| && code[r] == EXACTN ==> Len(code, r) > 2)
    && (r < |code| && code[r] == CHARSET ==> Len(code, r) <= 34)
  }

  // Outside the odd cases the failure point is discarded exactly when the pattern ends after the loop, or a
  // literal or a list follows that has no character in common with the body; but never before either one
  // when the body is '.'.
  lemma PopsExactly(code: seq<Byte>, p: int)
    requires OneCharLoop(code, p) && Readable(code, p) && !Odd(code, p)
    ensures Pops(code, p) <==>
            Disjoint(code, p) && (code[Target(code, p) + 3] == ANYCHAR ==> Skip(code, p + 3) == |code|)
  {
    assert Peek(Target(code, p) + 3);
    var r := Skip(code, p + 3);
    if r < |code| && code[r] == EXACTN {
      LiteralExactly(code, p);
    } else if r < |code| && code[r] == CHARSET {
      ListExactly(code, p);
    }
  }

  lemma LiteralExactly(code: seq<Byte>, p: int)
    requires OneCharLoop(code, p) && Readable(code, p) && !Odd(code, p)
    requires var r := Skip(code, p + 3); r < |code| && code[r] == EXACTN
    ensures Pops(code, p) <==> Disjoint(code, p) && code[Target(code, p) + 3] != ANYCHAR
  {
    assert Peek(Target(code, p) + 3);
    var q, r := Target(code, p) + 3, Skip(code, p + 3);
    if code[q] != ANYCHAR {
      BeforeExactly(code, q, code[r + 2]);
    }
  }

  lemma ListExactly(code: seq<Byte>, p: int)
    requires OneCharLoop(code, p) && Readable(code, p) && !Odd(code, p)
    requires var r := Skip(code, p + 3); r < |code| && code[r] == CHARSET
    ensures Pops(code, p) <==> Disjoint(code, p) && code[Target(code, p) + 3] != ANYCHAR
  {
    assert Peek(Target(code, p) + 3);
    var q, r := Target(code, p) + 3, Skip(code, p + 3);
    if code[q] != ANYCHAR {
      SetsExactly(code, q, r);
    }
  }

  lemma PopsIs(code: seq<Byte>, p: int)
    requires 0 <= p && p + 3 <= |code|
    ensures Pops(code, p) == PopsOn(code, Target(code, p) + 3, Skip(code, p + 3))
  {
    assert Peek(Target(code, p) + 3);
  }

  lemma FullBefore(code: seq<Byte>, q: int, r: int)
    requires OneChar(code, q) && code[q] in {CHARSET, CHARSET_NOT} && Len(code, q) == 34
    requires 0 <= r < |code| && code[r] == EXACTN
    ensures PopsOn(code, q, r) <==> code[q] == CHARSET
  {
    assert |MapAt(code, q)| == 32;
  }

  lemma CountBefore(code: seq<Byte>, q: int, r: int)
    requires OneChar(code, q) && code[q] == EXACTN && Len(code, q) == 3
    requires 0 <= r && r + 2 <= |code| && r + Len(code, r) <= |code| && code[r] == CHARSET
    ensures PopsOn(code, q, r) <==> !SetAccepts(code, r, 1)
  {
    assert code[q + 1] == 1 && MapAt(code, r) == code[r + 2..r + 2 + code[r + 1]];
  }

  // In the odd cases: before a literal, a list with a map of 32 bytes always counts as rejecting it, and a
  // negated one never does; before a list, the literal is taken for the character of code 1.
  lemma OddExactly(code: seq<Byte>, p: int)
    requires OneCharLoop(code, p) && Readable(code, p) && Odd(code, p)
    ensures var q, r := Target(code, p) + 3, Skip(code, p + 3);
            && (code[r] == EXACTN ==> (Pops(code, p) <==> code[q] == CHARSET))
            && (code[r] == CHARSET ==> (Pops(code, p) <==> !SetAccepts(code, r, 1)))
  {
    PopsIs(code, p);
    var q, r := Target(code, p) + 3, Skip(code, p + 3);
    if code[r] == EXACTN {
      FullBefore(code, q, r);
    } else if code[r] == CHARSET {
      CountBefore(code, q, r);
    }
  }
}
