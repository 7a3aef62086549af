// How a pattern's bytes are read: the concrete text of patterns, and the unfinished
// pattern the compiler holds at each point of its single pass.
module RxReading {
  import opened RxBytes
  import opened RxSyntax
  import opened RxCode

  const BACKSLASH: Byte := 92
  const DOT: Byte := 46
  const LBRACK: Byte := 91
  const RBRACK: Byte := 93
  const CARET: Byte := 94
  const DOLLAR: Byte := 36
  const STAR: Byte := 42
  const PLUS: Byte := 43
  const QM: Byte := 63
  const DASH: Byte := 45
  const COLON: Byte := 58
  const LPAREN: Byte := 40
  const RPAREN: Byte := 41
  const BAR: Byte := 124
  const LBRACE: Byte := 123

  // Adjoining slices.
  lemma Abut(s: seq<Byte>, i: nat, j: nat, k: nat)
    requires i <= j <= k <= |s|
    ensures s[i..k] == s[i..j] + s[j..k]
  {
  }

  // ---- text ------------------------------------------------------------------

  function TextLit(l: Lit): seq<Byte> { if l.esc then [BACKSLASH, l.c] else [l.c] }

  function TextLits(ls: seq<Lit>): seq<Byte> {
    if ls == [] then [] else TextLits(ls[..|ls| - 1]) + TextLit(ls[|ls| - 1])
  }

  function TextItem(it: Item): seq<Byte> {
    match it
    case One(c) => [c]
    case Range(a, b) => [a, DASH, b]
    case Joined(_, b) => [DASH, b]
  }

  function TextItems(items: seq<Item>): seq<Byte> {
    if items == [] then [] else TextItems(items[..|items| - 1]) + TextItem(items[|items| - 1])
  }

  function TextOps(ops: seq<Op>): seq<Byte> {
    if ops == [] then [] else TextOps(ops[..|ops| - 1]) + TextOp(ops[|ops| - 1])
  }

  function TextOp(op: Op): seq<Byte> {
    match op case Star => [STAR] case Plus => [BACKSLASH, PLUS] case Opt => [BACKSLASH, QM]
  }

  function TextAtom(a: Atom): seq<Byte>
    decreases a, 2
  {
    match a
    case AChar(l) => TextLit(l)
    case ADot => [DOT]
    case ASet(neg, items) => [LBRACK] + (if neg then [CARET] else []) + TextItems(items) + [RBRACK]
    case AGroup(_, _, alts) =>
      if alts == [] then []
      else
        var k := |alts| - 1;
        [BACKSLASH, LPAREN] + TextDone(alts[..k]) + TextBranch(alts[k].chunks) + [BACKSLASH, RPAREN]
  }

  // Alternatives each followed by \|
  function TextDone(alts: seq<Branch>): seq<Byte>
    decreases alts, 1
  {
    if alts == [] then []
    else TextDone(alts[..|alts| - 1]) + TextBranch(alts[|alts| - 1].chunks) + [BACKSLASH, BAR]
  }

  function TextBranch(cs: seq<Chunk>): seq<Byte>
    decreases cs, 0
  {
    if cs == [] then [] else TextBranch(cs[..|cs| - 1]) + TextChunk(cs[|cs| - 1])
  }

  function TextChunk(c: Chunk): seq<Byte>
    decreases c, 3
  {
    match c
    case Run(ls) => TextLits(ls)
    case Rep(a, ops) => TextAtom(a) + TextOps(ops)
  }

  // The text of a whole pattern.
  function TextAlts(alts: seq<Branch>): seq<Byte>
    requires alts != []
  {
    TextDone(alts[..|alts| - 1]) + TextBranch(alts[|alts| - 1].chunks)
  }

  // The text of a list begins with the text of its first item.
  lemma {:induction false} ItemsBegin(items: seq<Item>)
    requires items != []
    ensures TextItems(items) != [] && TextItems(items)[0] == FirstByte(items[0])
  {
    if |items| > 1 {
      ItemsBegin(items[..|items| - 1]);
    } else {
      assert items[..0] == [];
    }
  }

  // ---- canonical readings ------------------------------------------------------

  // Which bytes may stand for themselves; an operator does only at the start of a branch.
  predicate PlainLit(l: Lit, first: bool) {
    if l.esc then
      l.c !in {LPAREN, RPAREN, BAR, LBRACE, 119, 87, 60, 62, 98, 66, 96, 39} && !(49 <= l.c <= 57)
      && (l.c in {PLUS, QM} ==> first)
    else
      l.c !in {BACKSLASH, DOT, LBRACK} && (l.c == STAR ==> first)
  }

  predicate PlainLits(ls: seq<Lit>, first: bool) {
    forall t :: 0 <= t < |ls| ==> PlainLit(ls[t], first && t == 0)
  }

  function LastByte(it: Item): Byte {
    match it case One(c) => c case Range(_, b) => b case Joined(_, b) => b
  }

  function FirstByte(it: Item): Byte {
    match it case One(c) => c case Range(a, _) => a case Joined(_, _) => DASH
  }

  // The ends of a range; a ']' ends the list instead.
  predicate Ends(a: Byte, b: Byte) { a <= b && b != RBRACK }

  // How an item may follow the one before it in a bracket list.
  predicate ItemAfter(prev: Item, it: Item) {
    match it
    case One(c) => c != RBRACK
    case Range(a, b) => Ends(a, b) && a != RBRACK && (a == DASH ==> !prev.One? && LastByte(prev) == LBRACK)
    case Joined(a, b) => Ends(a, b) && !prev.One? && a == LastByte(prev) && a != LBRACK
  }

  // A hyphen that stands for itself ends the list, opens it, or follows a range up to '['.
  predicate HyphenOk(items: seq<Item>, k: int)
    requires 0 <= k < |items|
  {
    items[k] == One(DASH) ==> k == 0 || k + 1 == |items| || (!items[k - 1].One? && LastByte(items[k - 1]) == LBRACK)
  }

  predicate PlainItems(items: seq<Item>) {
    && items != []
    && !items[0].Joined? && (items[0].Range? ==> Ends(items[0].a, items[0].b))
    && (forall k :: 0 < k < |items| ==> ItemAfter(items[k - 1], items[k]))
    && (forall k :: 0 <= k < |items| ==> HyphenOk(items, k))
  }

  predicate PlainAtom(a: Atom, first: bool) {
    match a
    case AChar(l) => PlainLit(l, first)
    case ADot => true
    case ASet(neg, items) => PlainItems(items) && (neg || FirstByte(items[0]) != CARET)
    case AGroup(_, _, alts) => alts != [] && PlainAlts(alts)
  }

  predicate PlainAlts(alts: seq<Branch>) {
    forall k :: 0 <= k < |alts| ==> PlainBranch(alts[k].chunks)
  }

  predicate PlainBranch(cs: seq<Chunk>) {
    forall k :: 0 <= k < |cs| ==> PlainChunk(cs[k], k == 0)
  }

  predicate PlainChunk(c: Chunk, first: bool) {
    match c
    case Run(ls) => ls != [] && PlainLits(ls, first)
    case Rep(a, ops) => PlainAtom(a, first) && (a.AChar? ==> ops != [])
  }

  // ---- unfinished patterns -------------------------------------------------------

  // Finished alternatives, the three bytes left for the jump after the last of them, and
  // the branch being read, at top level or inside an open group.
  datatype Ctx =
    | Top(alts: seq<Branch>, slot: seq<Byte>, cur: seq<Chunk>)
    | Inside(outer: Ctx, reg: nat, alts: seq<Branch>, slot: seq<Byte>, cur: seq<Chunk>)

  function TextOf(x: Ctx): seq<Byte> {
    (if x.Inside? then TextOf(x.outer) + [BACKSLASH, LPAREN] else []) + TextDone(x.alts) + TextBranch(x.cur)
  }

  predicate PlainCtx(x: Ctx) {
    PlainAlts(x.alts) && PlainBranch(x.cur) && (x.Inside? ==> PlainCtx(x.outer))
  }

  // The code of finished alternatives still waiting for the next one.
  function Pre(alts: seq<Branch>, slot: seq<Byte>): (c: seq<Byte>)
    requires |slot| == 3
  {
    if alts == [] then []
    else
      var rest := if |alts| == 1 then slot
                  else Jmp(JUMP_PAST_ALT, |CodeBranch(alts[1].chunks)| + 3) + Pre(alts[1..], slot);
      Lead(CodeBranch(alts[0].chunks)) + rest
  }

  // An alternative that is not the last: a failure jump past it and its jump, then its code.
  function Lead(c: seq<Byte>): seq<Byte> {
    Jmp(ON_FAILURE_JUMP, |c| + 3) + c
  }

  predicate Slots(x: Ctx) {
    |x.slot| == 3 && (x.Inside? ==> Slots(x.outer))
  }

  function Before(x: Ctx): seq<Byte>
    requires Slots(x)
    decreases x, 0
  {
    (if x.Inside? then CodeOf(x.outer) + Memory(START_MEMORY, x.reg, 0) else []) + Pre(x.alts, x.slot)
  }

  function CodeOf(x: Ctx): seq<Byte>
    requires Slots(x)
    decreases x, 1
  {
    Before(x) + CodeBranch(x.cur)
  }

  // begalt, fixup_alt_jump and laststart as offsets; -1 for a null pointer.
  function BegAlt(x: Ctx): nat
    requires Slots(x)
  {
    |Before(x)|
  }

  function Fixup(x: Ctx): int
    requires Slots(x)
  {
    if x.alts == [] then -1 else BegAlt(x) - 3
  }

  function LastStart(x: Ctx): int
    requires Slots(x)
  {
    if x.cur == [] then -1 else |CodeOf(x)| - |CodeChunk(x.cur[|x.cur| - 1])|
  }

  // compile_stack_elt_t; fixup is stored plus one, 0 when there is none.
  datatype Elt = Elt(begalt: nat, fixup: nat, inner: nat, laststart: nat, regnum: nat)

  lemma {:induction false} PreLength(alts: seq<Branch>, slot: seq<Byte>)
    requires |slot| == 3
    ensures alts != [] ==> |Pre(alts, slot)| >= 6
    ensures alts != [] ==> Pre(alts, slot)[|Pre(alts, slot)| - 3..] == slot
  {
    if |alts| > 1 {
      PreLength(alts[1..], slot);
      var h, q := Between(alts, slot);
      assert (h + q)[|h + q| - 3..] == q[|q| - 3..];
    }
  }

  // The code of two or more finished alternatives is some first part and the code of the rest.
  lemma Between(alts: seq<Branch>, slot: seq<Byte>) returns (h: seq<Byte>, q: seq<Byte>)
    requires |slot| == 3 && |alts| > 1
    ensures h == Lead(CodeBranch(alts[0].chunks)) + Jmp(JUMP_PAST_ALT, |CodeBranch(alts[1].chunks)| + 3)
    ensures q == Pre(alts[1..], slot) && Pre(alts, slot) == h + q
  {
    h := Lead(CodeBranch(alts[0].chunks)) + Jmp(JUMP_PAST_ALT, |CodeBranch(alts[1].chunks)| + 3);
    q := Pre(alts[1..], slot);
  }

  function StackOf(x: Ctx): seq<Elt>
    requires Slots(x)
  {
    if x.Top? then []
    else
      assert Slots(x.outer);
      PreLength(x.outer.alts, x.outer.slot);
      StackOf(x.outer) + [Elt(BegAlt(x.outer), Fixup(x.outer) + 1, if x.reg <= 255 then |CodeOf(x.outer)| + 2 else 0,
                              |CodeOf(x.outer)|, x.reg)]
  }

  // Every open group's register is among the regnum seen so far.
  predicate RegsIn(x: Ctx, n: nat) {
    x.Inside? ==> 0 < x.reg <= n && RegsIn(x.outer, n)
  }

  // ---- how the code grows ----------------------------------------------------------

  lemma {:induction false} BranchSnoc(cs: seq<Chunk>, c: Chunk)
    ensures CodeBranch(cs + [c]) == CodeBranch(cs) + CodeChunk(c)
    ensures TextBranch(cs + [c]) == TextBranch(cs) + TextChunk(c)
    decreases |cs|
  {
    var t := cs + [c];
    assert t[..|t| - 1] == cs;
    if cs == [] {
      assert CodeBranch(t) == CodeChunk(c) + CodeBranch([]);
    } else {
      assert t[0] == cs[0] && t[1..] == cs[1..] + [c];
      BranchSnoc(cs[1..], c);
    }
  }

  lemma DropSlot(h: seq<Byte>, q: seq<Byte>, z: seq<Byte>)
    requires |q| >= 3
    ensures (h + q)[..|h + q| - 3] + z == h + (q[..|q| - 3] + z)
  {
    assert (h + q)[..|h + q| - 3] == h + q[..|q| - 3];
  }

  // whole is pre with the last alternative, of code cb, ended.
  ghost predicate Finished(pre: seq<Byte>, cb: seq<Byte>, whole: seq<Byte>) {
    forall n: int {:trigger Peek(n)} :: Peek(n) && n == |pre| ==>
      if n == 0 then whole == cb else n >= 6 && whole == pre[..n - 3] + (Jmp(JUMP_PAST_ALT, |cb|) + cb)
  }

  // The pending jump filled in and a last alternative added: the finished alternation.
  lemma {:induction false} PreFinish(alts: seq<Branch>, slot: seq<Byte>, b: Branch)
    requires |slot| == 3 && alts != []
    ensures Finished(Pre(alts, slot), CodeBranch(b.chunks), CodeAlts(alts + [b]))
  {
    if |alts| == 1 {
      FinishOne(alts[0], slot, b);
      assert alts == [alts[0]] && alts + [b] == [alts[0], b];
    } else {
      PreFinish(alts[1..], slot, b);
      FinishShift(alts, slot, b);
    }
  }

  lemma FinishOne(a: Branch, slot: seq<Byte>, b: Branch)
    requires |slot| == 3
    ensures Finished(Pre([a], slot), CodeBranch(b.chunks), CodeAlts([a, b]))
  {
    var cb := CodeBranch(b.chunks);
    DropSlot(Lead(CodeBranch(a.chunks)), slot, Jmp(JUMP_PAST_ALT, |cb|) + cb);
    AltsTwo(a, b);
  }

  lemma FinishShift(alts: seq<Branch>, slot: seq<Byte>, b: Branch)
    requires |slot| == 3 && |alts| > 1
    requires Finished(Pre(alts[1..], slot), CodeBranch(b.chunks), CodeAlts(alts[1..] + [b]))
    ensures Finished(Pre(alts, slot), CodeBranch(b.chunks), CodeAlts(alts + [b]))
  {
    PreLength(alts[1..], slot);
    AltsAnd(alts, b);
    var h, q := Between(alts, slot);
    FinishedMore(h, q, CodeBranch(b.chunks), CodeAlts(alts[1..] + [b]));
  }

  lemma AltsAnd(alts: seq<Branch>, b: Branch)
    requires |alts| > 1
    ensures CodeAlts(alts + [b])
            == Lead(CodeBranch(alts[0].chunks)) + Jmp(JUMP_PAST_ALT, |CodeBranch(alts[1].chunks)| + 3)
              + CodeAlts(alts[1..] + [b])
  {
    var t := alts + [b];
    assert t[0] == alts[0] && t[1..] == alts[1..] + [b] && t[1] == alts[1];
    AltsMore(t);
  }

  // A first part before both.
  lemma FinishedMore(h: seq<Byte>, q: seq<Byte>, cb: seq<Byte>, whole: seq<Byte>)
    requires |q| >= 6 && Finished(q, cb, whole)
    ensures Finished(h + q, cb, h + whole)
  {
    assert Peek(|q|);
    DropSlot(h, q, Jmp(JUMP_PAST_ALT, |cb|) + cb);
  }

  lemma AltsTwo(a: Branch, b: Branch)
    ensures CodeAlts([a, b]) == Lead(CodeBranch(a.chunks))
            + (Jmp(JUMP_PAST_ALT, |CodeBranch(b.chunks)|) + CodeBranch(b.chunks))
  {
    var t := [a, b];
    assert t[1..] == [b];
    assert CodeAlts([b]) == CodeBranch(b.chunks);
    assert Past([b]) == |CodeBranch(b.chunks)|;
  }

  lemma AltsMore(t: seq<Branch>)
    requires |t| > 2
    ensures CodeAlts(t) == Lead(CodeBranch(t[0].chunks)) + Jmp(JUMP_PAST_ALT, |CodeBranch(t[1].chunks)| + 3)
            + CodeAlts(t[1..])
  {
    assert t[1..][0] == t[1];
    assert Past(t[1..]) == |CodeBranch(t[1].chunks)| + 3;
  }

  // What is added when the alternative with code cb ends and another one begins.
  function Switch(cb: seq<Byte>, slot: seq<Byte>): seq<Byte> {
    Jmp(JUMP_PAST_ALT, |cb| + 3) + (Lead(cb) + slot)
  }

  // pre' is pre with the alternative of code cb ended and another one begun.
  ghost predicate Switched(pre: seq<Byte>, cb: seq<Byte>, slot: seq<Byte>, pre': seq<Byte>) {
    forall n: int {:trigger Peek(n)} :: Peek(n) && n == |pre| ==>
      if n == 0 then pre' == Lead(cb) + slot else n >= 6 && pre' == pre[..n - 3] + Switch(cb, slot)
  }

  // The pending jump filled in and one more alternative begun after this one.
  lemma {:induction false} PreExtend(alts: seq<Branch>, slot: seq<Byte>, b: Branch, slot': seq<Byte>)
    requires |slot| == 3 && |slot'| == 3 && alts != []
    ensures Switched(Pre(alts, slot), CodeBranch(b.chunks), slot', Pre(alts + [b], slot'))
  {
    if |alts| == 1 {
      ExtendOne(alts[0], slot, b, slot');
      assert alts == [alts[0]] && alts + [b] == [alts[0], b];
    } else {
      PreExtend(alts[1..], slot, b, slot');
      ExtendShift(alts, slot, b, slot');
    }
  }

  lemma ExtendOne(a: Branch, slot: seq<Byte>, b: Branch, slot': seq<Byte>)
    requires |slot| == 3 && |slot'| == 3
    ensures Switched(Pre([a], slot), CodeBranch(b.chunks), slot', Pre([a, b], slot'))
  {
    DropSlot(Lead(CodeBranch(a.chunks)), slot, Switch(CodeBranch(b.chunks), slot'));
    PreTwo(a, b, slot');
  }

  // One more alternative at the end leaves the first part as it is.
  lemma BetweenMore(alts: seq<Branch>, slot: seq<Byte>, b: Branch, slot': seq<Byte>) returns (h: seq<Byte>)
    requires |slot| == 3 && |slot'| == 3 && |alts| > 1
    ensures Pre(alts, slot) == h + Pre(alts[1..], slot)
    ensures Pre(alts + [b], slot') == h + Pre(alts[1..] + [b], slot')
  {
    var t := alts + [b];
    assert t[0] == alts[0] && t[1..] == alts[1..] + [b] && t[1] == alts[1];
    var h0, q0 := Between(t, slot');
    var q;
    h, q := Between(alts, slot);
  }

  lemma ExtendShift(alts: seq<Branch>, slot: seq<Byte>, b: Branch, slot': seq<Byte>)
    requires |slot| == 3 && |slot'| == 3 && |alts| > 1
    requires Switched(Pre(alts[1..], slot), CodeBranch(b.chunks), slot', Pre(alts[1..] + [b], slot'))
    ensures Switched(Pre(alts, slot), CodeBranch(b.chunks), slot', Pre(alts + [b], slot'))
  {
    var h := BetweenMore(alts, slot, b, slot');
    PreLength(alts[1..], slot);
    SwitchedMore(h, Pre(alts[1..], slot), CodeBranch(b.chunks), slot', Pre(alts[1..] + [b], slot'));
  }

  lemma SwitchedMore(h: seq<Byte>, q: seq<Byte>, cb: seq<Byte>, slot: seq<Byte>, q': seq<Byte>)
    requires |q| >= 6 && Switched(q, cb, slot, q')
    ensures Switched(h + q, cb, slot, h + q')
  {
    assert Peek(|q|);
    DropSlot(h, q, Switch(cb, slot));
  }

  lemma PreTwo(a: Branch, b: Branch, slot: seq<Byte>)
    requires |slot| == 3
    ensures Pre([a, b], slot) == Lead(CodeBranch(a.chunks)) + Switch(CodeBranch(b.chunks), slot)
  {
    var t := [a, b];
    assert t[1..] == [b];
    assert Pre([b], slot) == Lead(CodeBranch(b.chunks)) + slot;
  }
}
