// Bytes, opcodes and two-byte offsets of a compiled pattern (src/rx.c).
module RxBytes {

  type Byte = x: int | 0 <= x < 256

  // Opcodes, numbered as in the re_opcode_t enumeration.
  const EXACTN: Byte := 2
  const ANYCHAR: Byte := 3
  const CHARSET: Byte := 4
  const CHARSET_NOT: Byte := 5
  const START_MEMORY: Byte := 6
  const STOP_MEMORY: Byte := 7
  const JUMP: Byte := 13
  const JUMP_PAST_ALT: Byte := 14
  const ON_FAILURE_JUMP: Byte := 15
  const POP_FAILURE_JUMP: Byte := 17
  const MAYBE_POP_JUMP: Byte := 18
  const DUMMY_FAILURE_JUMP: Byte := 19
  const PUSH_DUMMY_FAILURE: Byte := 20

  // A byte, or NUL outside of the text; a pattern ends with a NUL.
  function ByteAt(code: seq<Byte>, i: int): (b: Byte) {
    if 0 <= i < |code| then code[i] else 0
  }

  // Asked of a number to unfold what is known at that place.
  predicate Peek(p: int) { true }

  // STORE_NUMBER: the low byte, then the next byte, of an int.
  function Enc16(n: int): (e: seq<Byte>)
    ensures |e| == 2
  {
    [n % 256, (n / 256) % 256]
  }

  // EXTRACT_NUMBER: the second byte is sign-extended.
  function Dec16(lo: Byte, hi: Byte): int {
    lo + 256 * (if hi < 128 then hi else hi - 256)
  }

  // A stored offset is read back unchanged exactly when it fits a signed 16-bit number.
  lemma OffsetExact(n: int)
    ensures Dec16(Enc16(n)[0], Enc16(n)[1]) == n <==> -32768 <= n <= 32767
  {
    var q := n / 256;
    assert n == 256 * q + n % 256;
    var h := q % 256;
    assert q == 256 * (q / 256) + h;
  }

  // A three-byte jump instruction.
  function Jmp(op: Byte, off: int): (c: seq<Byte>)
    ensures |c| == 3 && c[0] == op
  {
    [op] + Enc16(off)
  }

  // ---- bits, low-order first --------------------------------------------

  // b & (1 << k)
  predicate Bit(b: nat, k: nat) {
    if k == 0 then b % 2 == 1 else Bit(b / 2, k - 1)
  }

  // b | (1 << k)
  function WithBit(b: nat, k: nat): nat {
    if k == 0 then b / 2 * 2 + 1 else b % 2 + 2 * WithBit(b / 2, k - 1)
  }

  // Setting a bit changes that bit and no other.
  lemma {:induction false} WithBitExact(b: nat, k: nat, j: nat)
    ensures Bit(WithBit(b, k), j) <==> j == k || Bit(b, j)
  {
    if k > 0 && j > 0 {
      WithBitExact(b / 2, k - 1, j - 1);
      assert WithBit(b, k) / 2 == WithBit(b / 2, k - 1);
    }
  }

  function Exp2(k: nat): (r: nat)
    ensures r > 0
  {
    if k == 0 then 1 else 2 * Exp2(k - 1)
  }

  // A byte stays a byte.
  lemma {:induction false} WithBitBound(b: nat, k: nat, w: nat)
    requires k < w && b < Exp2(w)
    ensures WithBit(b, k) < Exp2(w)
  {
    if k > 0 { WithBitBound(b / 2, k - 1, w - 1); }
  }

  lemma {:induction false} ZeroHasNoBits(k: nat)
    ensures !Bit(0, k)
  {
    if k > 0 { ZeroHasNoBits(k - 1); }
  }
}
