// The matcher that rewrites its loops' back jumps in the buffer as it runs, and discards failure points by them
// (src/rx.c:4663-4856).
module RxRewrite {
  import opened RxBytes
  import opened RxSyntax
  import opened RxCode
  import opened RxVm
  import opened RxMeaning
  import opened RxMatch
  import opened RxFlow
  import opened RxPops
  import opened RxRun
  import opened RxPlace
  import opened RxTame

  // ---- the buffer ------------------------------------------------------------------------------------

  // The opcode a loop's back jump is rewritten to.
  ghost function Settled(code: seq<Byte>, p: int): (op: Byte)
    requires 0 <= p && p + 3 <= |code|
  {
    if Pops(code, p) then POP_FAILURE_JUMP else JUMP
  }

  ghost predicate ByteKept(code: seq<Byte>, now: seq<Byte>, p: int)
    requires 0 <= p < |code| == |now|
  {
    now[p] == code[p]
    || (p in Starts(code, 0) && code[p] == MAYBE_POP_JUMP && p + 3 <= |code| && now[p] == Settled(code, p))
  }

  // The buffer holds the code, some of its back jumps rewritten.
  ghost predicate Rewritten(code: seq<Byte>, now: seq<Byte>) {
    |now| == |code| && forall p {:trigger Peek(p)} :: Peek(p) && 0 <= p < |code| ==> ByteKept(code, now, p)
  }

  // An instruction other than a back jump is what it was.
  lemma SameInstr(code: seq<Byte>, E: set<int>, P: set<int>, now: seq<Byte>, p: int)
    requires Kept(code, E, P) && Rewritten(code, now) && p in Starts(code, 0)
    ensures 0 <= p < |code| && p + Len(code, p) <= |code|
    ensures forall k :: p < k < p + Len(code, p) ==> now[k] == code[k]
    ensures code[p] != MAYBE_POP_JUMP ==> now[p] == code[p]
    ensures code[p] == MAYBE_POP_JUMP ==> now[p] == MAYBE_POP_JUMP || now[p] == Settled(code, p)
  {
    FlowIn(code, Starts(code, 0), E, P, 0, |code|, p);
    assert Peek(0) && Peek(p);
    forall k | p < k < p + Len(code, p) ensures now[k] == code[k] {
      assert Peek(k);
    }
  }

  // A place that is no back jump is none in the buffer either.
  lemma SameLanding(code: seq<Byte>, E: set<int>, P: set<int>, now: seq<Byte>, t: int)
    requires Kept(code, E, P) && Rewritten(code, now) && t in Starts(code, 0) + {|code|} && 0 <= t
    requires !BackJump(code, t)
    ensures !BackJump(now, t)
  {
    if t < |code| {
      FlowIn(code, Starts(code, 0), E, P, 0, |code|, t);
      SameInstr(code, E, P, now, t);
      if t + 3 <= |code| {
        assert Peek(Target(now, t));
      }
    }
  }

  lemma SameLegal(code: seq<Byte>, E: set<int>, P: set<int>, now: seq<Byte>, p: int)
    requires Kept(code, E, P) && Rewritten(code, now) && p in Starts(code, 0) && Legal(code, p)
    requires code[p] != MAYBE_POP_JUMP
    ensures now[p] == code[p] && Legal(now, p)
    ensures Len(code, p) == 3 && p + 3 <= |code| ==> Target(now, p) == Target(code, p)
  {
    SameInstr(code, E, P, now, p);
    FlowIn(code, Starts(code, 0), E, P, 0, |code|, p);
    if code[p] == ON_FAILURE_JUMP {
      SameLanding(code, E, P, now, Target(code, p));
    }
    assert Peek(p + 3);
  }

  lemma SameStep(code: seq<Byte>, E: set<int>, P: set<int>, now: seq<Byte>, p: int, s: seq<Byte>, d: int)
    requires Kept(code, E, P) && Rewritten(code, now) && p in Starts(code, 0) && Legal(code, p)
    requires code[p] != MAYBE_POP_JUMP
    ensures now[p] == code[p] && Legal(now, p) && Succ(now, s, p, d) == Succ(code, s, p, d)
  {
    SameLegal(code, E, P, now, p);
    if code[p] in {EXACTN, CHARSET, CHARSET_NOT} {
      SameText(code, E, P, now, p);
    }
  }

  lemma SlicesSame(code: seq<Byte>, now: seq<Byte>, p: int)
    requires 0 <= p && p + 1 < |code| == |now| && p + 2 + code[p + 1] <= |code|
    requires forall k :: p < k < p + 2 + code[p + 1] ==> now[k] == code[k]
    ensures now[p + 1] == code[p + 1]
    ensures now[p + 2..p + 2 + code[p + 1]] == code[p + 2..p + 2 + code[p + 1]]
  {
  }

  lemma SameBody(code: seq<Byte>, E: set<int>, P: set<int>, now: seq<Byte>, p: int)
    requires Kept(code, E, P) && Rewritten(code, now) && p in Starts(code, 0)
    requires 0 <= p < |code| && code[p] in {EXACTN, CHARSET, CHARSET_NOT} && p + 1 < |code|
    ensures |now| == |code| && p + 2 + code[p + 1] <= |code|
    ensures forall k :: p < k < p + 2 + code[p + 1] ==> now[k] == code[k]
  {
    FlowIn(code, Starts(code, 0), E, P, 0, |code|, p);
    SameInstr(code, E, P, now, p);
  }

  lemma SameText(code: seq<Byte>, E: set<int>, P: set<int>, now: seq<Byte>, p: int)
    requires Kept(code, E, P) && Rewritten(code, now) && p in Starts(code, 0)
    requires 0 <= p < |code| && code[p] in {EXACTN, CHARSET, CHARSET_NOT} && p + 1 < |code|
    ensures p + 2 <= |code| && now[p + 1] == code[p + 1] && p + 2 + code[p + 1] <= |code|
    ensures now[p + 2..p + 2 + code[p + 1]] == code[p + 2..p + 2 + code[p + 1]]
  {
    SameBody(code, E, P, now, p);
    SlicesSame(code, now, p);
  }

  // ---- the test made on the buffer ---------------------------------------------------------------------

  lemma {:induction false} SameSkip(code: seq<Byte>, E: set<int>, P: set<int>, now: seq<Byte>, p: int)
    requires Kept(code, E, P) && Rewritten(code, now) && p in Starts(code, 0) + {|code|} && 0 <= p <= |code|
    ensures Skip(now, p) == Skip(code, p) && Skip(code, p) in Starts(code, 0) + {|code|}
    decreases |code| - p
  {
    if p < |code| {
      SameInstr(code, E, P, now, p);
      FlowIn(code, Starts(code, 0), E, P, 0, |code|, p);
      if p + 2 < |code| && code[p] in {STOP_MEMORY, START_MEMORY} {
        SameSkip(code, E, P, now, p + 3);
      } else if p + 6 < |code| && code[p] == DUMMY_FAILURE_JUMP {
        SameSkip(code, E, P, now, p + 6);
      }
    }
  }

  // What the test reads of a test of one character, or of a literal or list after the loop.
  lemma SameBytes(code: seq<Byte>, E: set<int>, P: set<int>, now: seq<Byte>, p: int)
    requires Kept(code, E, P) && Rewritten(code, now) && p in Starts(code, 0)
    ensures 0 <= p < |code|
    ensures now[p] == code[p] || (code[p] == MAYBE_POP_JUMP && now[p] in {JUMP, POP_FAILURE_JUMP})
    ensures code[p] == EXACTN ==> ByteAt(now, p + 1) == ByteAt(code, p + 1) && ByteAt(now, p + 2) == ByteAt(code, p + 2)
    ensures code[p] in {CHARSET, CHARSET_NOT} ==> MapAt(now, p) == MapAt(code, p)
  {
    SameInstr(code, E, P, now, p);
    if code[p] in {EXACTN, CHARSET, CHARSET_NOT} && p + 1 < |code| {
      SameText(code, E, P, now, p);
    }
    if code[p] == EXACTN {
      FlowIn(code, Starts(code, 0), E, P, 0, |code|, p);
    }
  }

  // The test comes out the same on the buffer as on the code.
  lemma SamePops(code: seq<Byte>, E: set<int>, P: set<int>, now: seq<Byte>, p: int)
    requires Kept(code, E, P) && Rewritten(code, now) && p in Starts(code, 0)
    requires 0 <= p < |code| && code[p] == MAYBE_POP_JUMP
    ensures p + 3 <= |code| && Target(now, p) == Target(code, p) && Pops(now, p) == Pops(code, p)
  {
    SameTarget(code, E, P, now, p);
    SameSkip(code, E, P, now, p + 3);
    SameTests(code, E, P, now, Target(code, p) + 3, Skip(code, p + 3));
    PopsSame(code, now, p);
  }

  lemma PopsSame(code: seq<Byte>, now: seq<Byte>, p: int)
    requires 0 <= p && p + 3 <= |code| == |now| && Target(now, p) == Target(code, p)
             && Skip(now, p + 3) == Skip(code, p + 3)
    requires PopsAt(now, Target(code, p) + 3, Skip(code, p + 3)) == PopsAt(code, Target(code, p) + 3, Skip(code, p + 3))
    ensures Pops(now, p) == Pops(code, p)
  {
  }

  lemma SameTarget(code: seq<Byte>, E: set<int>, P: set<int>, now: seq<Byte>, p: int)
    requires Kept(code, E, P) && Rewritten(code, now) && p in Starts(code, 0)
    requires 0 <= p < |code| && code[p] == MAYBE_POP_JUMP
    ensures p + 3 <= |code| && Target(now, p) == Target(code, p)
    ensures p + 3 in Starts(code, 0) + {|code|}
    ensures 0 <= Target(code, p) && Target(code, p) + 3 in Starts(code, 0) + {|code|}
  {
    FlowIn(code, Starts(code, 0), E, P, 0, |code|, p);
    SameInstr(code, E, P, now, p);
    FlowIn(code, Starts(code, 0), E, P, 0, |code|, Target(code, p));
  }

  lemma SameTests(code: seq<Byte>, E: set<int>, P: set<int>, now: seq<Byte>, q: int, r: int)
    requires Kept(code, E, P) && Rewritten(code, now) && 0 <= q && 0 <= r
    requires q in Starts(code, 0) + {|code|} && r in Starts(code, 0) + {|code|}
    ensures PopsAt(now, q, r) == PopsAt(code, q, r)
  {
    assert Peek(q);
    if r < |code| {
      SameBytes(code, E, P, now, r);
    }
    if q < |code| {
      SameBytes(code, E, P, now, q);
    }
  }

  // ---- the test ------------------------------------------------------------------------------------------

  // The maps of a loop's list and of the list after it, byte by byte, until one byte decides.
  method CompareMaps(negated: bool, list: seq<Byte>, m: seq<Byte>) returns (pop: bool)
    ensures pop == if negated then MapsCovered(list, m) else MapsApart(list, m)
  {
    var i := 0;
    if negated {
      while i < |list|
        invariant 0 <= i <= |list|
        invariant forall k :: 0 <= k < i ==> list[k] == 0 || (k < |m| && Covered(list[k], m[k]))
      {
        if !(list[i] == 0 || (i < |m| && Covered(list[i], m[i]))) {
          return false;
        }
        i := i + 1;
      }
    } else {
      while i < |list| && i < |m|
        invariant 0 <= i <= |list| && i <= |m|
        invariant forall k :: 0 <= k < i ==> Apart(list[k], m[k])
      {
        if !Apart(list[i], m[i]) {
          return false;
        }
        i := i + 1;
      }
    }
    pop := true;
  }

  // Where the code goes on after groups and the head of a plus loop.
  method SkipAhead(code: seq<Byte>, p: int) returns (r: int)
    requires 0 <= p <= |code|
    ensures r == Skip(code, p)
  {
    r := p;
    var more := true;
    while more
      invariant 0 <= r <= |code| && Skip(code, r) == Skip(code, p) && (!more ==> Skip(code, r) == r)
      decreases more, |code| - r
    {
      if r + 2 < |code| && code[r] in {STOP_MEMORY, START_MEMORY} {
        r := r + 3;
      } else if r + 6 < |code| && code[r] == DUMMY_FAILURE_JUMP {
        r := r + 6;
      } else {
        more := false;
      }
    }
  }

  // The body against the literal after the loop.
  method DecideLiteral(op: Byte, lit: Byte, m: seq<Byte>, c: Byte) returns (pop: bool)
    ensures pop == PopsBefore(op, lit, m, c)
  {
    pop := false;
    if op == EXACTN {
      pop := lit != c;
    } else if op in {CHARSET, CHARSET_NOT} {
      var not := op == CHARSET_NOT;
      if c < |m| * 8 % 256 && Bit(m[c / 8], c % 8) {
        not := !not;
      }
      pop := !not;
    }
  }

  // The body against the list after the loop.
  method DecideList(op: Byte, n: Byte, m: seq<Byte>, list: seq<Byte>) returns (pop: bool)
    ensures pop == PopsBeforeSet(op, n, m, list)
  {
    pop := false;
    if op == EXACTN {
      pop := !(|list| * 8 > n && Bit(list[n / 8], n % 8));
    } else if op in {CHARSET, CHARSET_NOT} {
      pop := CompareMaps(op == CHARSET_NOT, list, m);
    }
  }

  // The test for a body at q and what follows the loop at r.
  method DecideOn(code: seq<Byte>, q: int, r: int) returns (pop: bool)
    requires 0 <= r <= |code|
    ensures pop == PopsOn(code, q, r)
  {
    pop := r == |code|;
    if r < |code| && code[r] == EXACTN {
      pop := DecideLiteral(ByteAt(code, q), ByteAt(code, q + 2), MapAt(code, q), ByteAt(code, r + 2));
    } else if r < |code| && code[r] == CHARSET {
      pop := DecideList(ByteAt(code, q), ByteAt(code, q + 1), MapAt(code, q), MapAt(code, r));
    }
  }

  // The test on the buffer as it stands.
  method DecidePops(code: seq<Byte>, p: int) returns (pop: bool)
    requires 0 <= p && p + 3 <= |code|
    ensures pop == Pops(code, p)
  {
    var r := SkipAhead(code, p + 3);
    pop := DecideOn(code, Target(code, p) + 3, r);
    PopsIs(code, p);
  }

  // ---- the matcher -----------------------------------------------------------------------------------------

  // The run comes by h, where it can be gone on with.
  ghost predicate Under(code: seq<Byte>, E: set<int>, P: set<int>, s: seq<Byte>, pos: int, h: Hunt) {
    Comes(code, s, pos, h) && Safe(code, s, h) && Stands(code, E, P, s, h)
  }

  lemma Onward(code: seq<Byte>, E: set<int>, P: set<int>, s: seq<Byte>, pos: int, h: Hunt)
    requires Under(code, E, P, s, pos, h)
    ensures match Turned(code, s, pos, h)
            case On(g) => Under(code, E, P, s, pos, g) && Work(code, s, g) < Work(code, s, h)
            case Over(r) => Yields(code, s, pos, r)
  {
    ComesOn(code, s, pos, h);
    SafeTurn(code, s, pos, h);
    PlaceTurn(code, E, P, s, pos, h);
  }

  lemma Begin(code: seq<Byte>, E: set<int>, P: set<int>, s: seq<Byte>, pos: int)
    requires Kept(code, E, P) && 0 <= pos && Halts(code, s, 0, pos)
    ensures Under(code, E, P, s, pos, Outset(pos))
  {
    ComesFirst(code, s, pos);
    SafeFirst(code, s, pos);
    PlaceFirst(code, E, P, s, pos);
  }

  // A failure point taken off: what is no back jump in the code is none in the buffer.
  lemma TopSame(code: seq<Byte>, E: set<int>, P: set<int>, now: seq<Byte>, s: seq<Byte>, h: Hunt)
    requires Rewritten(code, now) && Safe(code, s, h) && Stands(code, E, P, s, h) && h.stack != []
    ensures var top := h.stack[|h.stack| - 1];
            top.Resume? ==> 0 <= top.p && !BackJump(code, top.p) && !BackJump(now, top.p)
  {
    var top := h.stack[|h.stack| - 1];
    if top.Resume? {
      SameLanding(code, E, P, now, top.p);
    }
  }

  // Takes failure points off the stack until one can be resumed at.
  method Resumed(buf: array<Byte>, stack: seq<Fail>, ghost found: bool, ghost best: int, ghost code: seq<Byte>,
                 ghost E: set<int>, ghost P: set<int>, ghost s: seq<Byte>, ghost pos: int)
    returns (ok: bool, p: int, d: int, rest: seq<Fail>)
    requires Rewritten(code, buf[..]) && Under(code, E, P, s, pos, Hunt(false, 0, 0, stack, found, best))
    ensures Under(code, E, P, s, pos, Hunt(ok, p, d, rest, found, best)) && (!ok ==> (p, d, rest) == (0, 0, []))
    ensures ok ==>
              Work(code, s, Hunt(ok, p, d, rest, found, best)) < Work(code, s, Hunt(false, 0, 0, stack, found, best))
  {
    rest, p, d := stack, 0, 0;
    while rest != []
      invariant Under(code, E, P, s, pos, Hunt(false, 0, 0, rest, found, best))
      invariant Work(code, s, Hunt(false, 0, 0, rest, found, best))
                <= Work(code, s, Hunt(false, 0, 0, stack, found, best))
      decreases |rest|
    {
      ghost var h := Hunt(false, 0, 0, rest, found, best);
      Onward(code, E, P, s, pos, h);
      TopSame(code, E, P, buf[..], s, h);
      var top := rest[|rest| - 1];
      rest := rest[..|rest| - 1];
      if top.Resume? && !BackJump(buf[..], top.p) {
        return true, top.p, top.d, rest;
      }
    }
    ok := false;
  }

  // An instruction other than a back jump, executed from the buffer.
  method Run(buf: array<Byte>, s: seq<Byte>, p: int, d: int, stack: seq<Fail>, ghost code: seq<Byte>, ghost E: set<int>,
             ghost P: set<int>, ghost found: bool, ghost best: int)
    returns (ok: bool, p': int, d': int, stack': seq<Fail>)
    requires Rewritten(code, buf[..]) && Kept(code, E, P) && p in Starts(code, 0) && 0 <= d
    requires Legal(code, p) && code[p] != MAYBE_POP_JUMP
    ensures Hunt(ok, p', d', stack', found, best) == Performed(code, s, Hunt(true, p, d, stack, found, best))
  {
    SameStep(code, E, P, buf[..], p, s, d);
    SameLegal(code, E, P, buf[..], p);
    ok, p', d', stack' := Execute(buf[..], s, p, d, stack);
    assert stack + [] == stack;
    if !ok {
      p', d' := 0, 0;
    }
  }

  // A loop's back jump: decided on when it is first come to, and rewritten. With nothing on the stack there is
  // nothing to take off.
  method JumpBack(buf: array<Byte>, p: int, stack: seq<Fail>, ghost s: seq<Byte>, ghost d: int, ghost code: seq<Byte>,
                  ghost E: set<int>, ghost P: set<int>, ghost found: bool, ghost best: int)
    returns (p': int, stack': seq<Fail>)
    requires Rewritten(code, buf[..]) && Kept(code, E, P) && p in Starts(code, 0)
    requires Legal(code, p) && code[p] == MAYBE_POP_JUMP
    modifies buf
    ensures Rewritten(code, buf[..]) && buf[p] == Settled(code, p)
    ensures Hunt(true, p', d, stack', found, best) == Performed(code, s, Hunt(true, p, d, stack, found, best))
  {
    SamePops(code, E, P, buf[..], p);
    SameInstr(code, E, P, buf[..], p);
    if buf[p] == MAYBE_POP_JUMP {
      var pop := DecidePops(buf[..], p);
      ghost var was := buf[..];
      buf[p] := if pop then POP_FAILURE_JUMP else JUMP;
      Settling(code, was, buf[..], p);
      SamePops(code, E, P, buf[..], p);
    }
    p', stack' := Target(buf[..], p), stack;
    if buf[p] == POP_FAILURE_JUMP && stack != [] {
      stack' := stack[..|stack| - 1];
    }
  }

  lemma Settling(code: seq<Byte>, was: seq<Byte>, now: seq<Byte>, p: int)
    requires Rewritten(code, was) && p in Starts(code, 0) && 0 <= p && p + 3 <= |code| && code[p] == MAYBE_POP_JUMP
    requires |now| == |was| && now == was[p := Settled(code, p)]
    ensures Rewritten(code, now)
  {
    forall k {:trigger Peek(k)} | Peek(k) && 0 <= k < |code| ensures ByteKept(code, now, k) {
      assert ByteKept(code, was, k);
    }
  }

  // One instruction, whichever it is.
  method Advance(buf: array<Byte>, s: seq<Byte>, p: int, d: int, stack: seq<Fail>, ghost code: seq<Byte>,
                 ghost E: set<int>, ghost P: set<int>, ghost found: bool, ghost best: int)
    returns (ok: bool, p': int, d': int, stack': seq<Fail>)
    requires Rewritten(code, buf[..]) && Kept(code, E, P) && p in Starts(code, 0) && 0 <= d && Legal(code, p)
    modifies buf
    ensures Rewritten(code, buf[..])
    ensures Hunt(ok, p', d', stack', found, best) == Performed(code, s, Hunt(true, p, d, stack, found, best))
  {
    SameInstr(code, E, P, buf[..], p);
    if buf[p] in {MAYBE_POP_JUMP, POP_FAILURE_JUMP, JUMP} {
      ok, d' := true, d;
      p', stack' := JumpBack(buf, p, stack, s, d, code, E, P, found, best);
    } else {
      ok, p', d', stack' := Run(buf, s, p, d, stack, code, E, P, found, best);
    }
  }

  // The end of the code come to at d: the best end so far, and whether that is all.
  method Arrive(s: seq<Byte>, pos: int, d: int, stack: seq<Fail>, found: bool, best: int) returns (over: bool, top: int)
    ensures var h := Hunt(true, 0, d, stack, found, best);
            Arrived(s, pos, h) == if over then Over(top - pos) else On(Hunt(false, 0, 0, stack, true, top))
  {
    top := if found && best >= d then best else d;
    over := d == |s| || stack == [];
  }

  lemma Somewhere(code: seq<Byte>, E: set<int>, P: set<int>, s: seq<Byte>, pos: int, h: Hunt)
    requires Under(code, E, P, s, pos, h) && h.live && h.p != |code|
    ensures Legal(code, h.p) && h.p in Starts(code, 0) && Kept(code, E, P) && 0 <= h.d
  {
    SafePerformed(code, s, h);
  }

  // re_match_2_internal with its loops' back jumps rewritten as they are come to.
  method MatchRewriting(buf: array<Byte>, s: seq<Byte>, pos: int, ghost code: seq<Byte>, ghost E: set<int>,
                        ghost P: set<int>)
    returns (r: int)
    requires Rewritten(code, buf[..]) && Kept(code, E, P)
    requires 0 <= pos <= |s| ==> Halts(code, s, 0, pos)
    modifies buf
    ensures Rewritten(code, buf[..])
    ensures 0 <= pos <= |s| ==> Yields(code, s, pos, r)
    ensures !(0 <= pos <= |s|) ==> r == -1
  {
    if pos < 0 || pos > |s| {
      return -1;
    }
    var p, d := 0, pos;
    var stack: seq<Fail> := [];
    var found, best := false, 0;
    Begin(code, E, P, s, pos);
    while true
      invariant Rewritten(code, buf[..]) && Under(code, E, P, s, pos, Hunt(true, p, d, stack, found, best))
      decreases Work(code, s, Hunt(true, p, d, stack, found, best))
    {
      var ok := true;
      Onward(code, E, P, s, pos, Hunt(true, p, d, stack, found, best));
      if p == buf.Length {
        var over;
        over, best := Arrive(s, pos, d, stack, found, best);
        if over {
          return best - pos;
        }
        found, ok, p, d := true, false, 0, 0;
      } else {
        Somewhere(code, E, P, s, pos, Hunt(true, p, d, stack, found, best));
        ok, p, d, stack := Advance(buf, s, p, d, stack, code, E, P, found, best);
      }
      if !ok {
        ok, p, d, stack := Resumed(buf, stack, found, best, code, E, P, s, pos);
        if !ok {
          Onward(code, E, P, s, pos, Hunt(false, 0, 0, [], found, best));
          return if found then best - pos else -1;
        }
      }
    }
  }

  // ---- on a compiled pattern --------------------------------------------------------------------------------

  // A buffer just compiled has no jump rewritten.
  lemma FreshCode(code: seq<Byte>)
    ensures Rewritten(code, code)
  {
  }

  // The matcher on a pattern's buffer, however many of its jumps earlier matches have rewritten. It does what it
  // does on the buffer as it was compiled; a length it finds is that of a prefix in the language; and for tame
  // code it finds the longest one, exactly as if no jump were ever rewritten.
  method MatchInPlace(ghost alts: seq<Branch>, buf: array<Byte>, s: seq<Byte>, pos: int) returns (r: int)
    requires Runnable(alts) && Rewritten(CodeAlts(alts), buf[..])
    modifies buf
    ensures Rewritten(CodeAlts(alts), buf[..])
    ensures 0 <= pos <= |s| ==> Yields(CodeAlts(alts), s, pos, r)
    ensures 0 <= pos <= |s| ==> r == -1 || (0 <= r && MatchAlts(alts, s, pos, pos + r))
    ensures 0 <= pos <= |s| && Tame(CodeAlts(alts)) ==> LongestPrefix(alts, s, pos, r)
    ensures !(0 <= pos <= |s|) ==> r == -1
  {
    ghost var code := CodeAlts(alts);
    ghost var E, P := WholeFlow(alts);
    if 0 <= pos <= |s| {
      WholeCode(alts, s, pos);
    }
    r := MatchRewriting(buf, s, pos, code, E, P);
    if 0 <= pos <= |s| {
      YieldsPrefix(alts, s, pos, r);
      if Tame(code) {
        YieldsLongest(alts, s, pos, r);
      }
    }
  }
}
