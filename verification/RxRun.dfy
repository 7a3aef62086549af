// The run of the matcher that rewrites its loops' back jumps, turn by turn (src/rx.c:3768-5158). The back
// jump of a loop whose test comes out so discards the last failure point each time it is come to.
module RxRun {
  import opened RxBytes
  import opened RxSyntax
  import opened RxCode
  import opened RxVm
  import opened RxMeaning
  import opened RxMatch
  import opened RxPops

  // The matcher's state: whether it is going on, where, what is on its stack, and the best end so far.
  datatype Hunt = Hunt(live: bool, p: int, d: int, stack: seq<Fail>, found: bool, best: int)

  datatype Turn = On(h: Hunt) | Over(r: int)

  function Cut(stack: seq<Fail>): (rest: seq<Fail>) {
    if stack == [] then [] else stack[..|stack| - 1]
  }

  // The better of the end come to and the best so far.
  function Better(h: Hunt): int { if h.found && h.best >= h.d then h.best else h.d }

  // The last failure point is taken off, and resumed at unless it is a dummy or at a back jump.
  function Failed(code: seq<Byte>, pos: int, h: Hunt): Turn {
    if h.stack == [] then Over(if h.found then h.best - pos else -1)
    else
      var top := h.stack[|h.stack| - 1];
      if top.Resume? && 0 <= top.p && !BackJump(code, top.p) then
        On(Hunt(true, top.p, top.d, Cut(h.stack), h.found, h.best))
      else On(Hunt(false, 0, 0, Cut(h.stack), h.found, h.best))
  }

  // The end of the code: that is all when the whole subject is matched, or nothing is left to resume at.
  function Arrived(s: seq<Byte>, pos: int, h: Hunt): Turn {
    if h.d == |s| || h.stack == [] then Over(Better(h) - pos)
    else On(Hunt(false, 0, 0, h.stack, true, Better(h)))
  }

  // The failure point an instruction leaves.
  function Leaves(code: seq<Byte>, p: int, d: int): (f: seq<Fail>)
    requires Legal(code, p)
  {
    if code[p] == ON_FAILURE_JUMP then [Resume(Target(code, p), d)]
    else if code[p] in {DUMMY_FAILURE_JUMP, PUSH_DUMMY_FAILURE} then [Dummy]
    else []
  }

  ghost function Performed(code: seq<Byte>, s: seq<Byte>, h: Hunt): Hunt
    requires Legal(code, h.p)
  {
    var u := Succ(code, s, h.p, h.d);
    if code[h.p] == MAYBE_POP_JUMP then
      h.(p := Target(code, h.p), stack := if Pops(code, h.p) then Cut(h.stack) else h.stack)
    else if u == [] then Hunt(false, 0, 0, h.stack, h.found, h.best)
    else h.(p := u[0].p, d := u[0].d, stack := h.stack + Leaves(code, h.p, h.d))
  }

  // One turn; what is no instruction ends the run.
  ghost function Turned(code: seq<Byte>, s: seq<Byte>, pos: int, h: Hunt): Turn {
    if !h.live then Failed(code, pos, h)
    else if h.p == |code| then Arrived(s, pos, h)
    else if Legal(code, h.p) then On(Performed(code, s, h))
    else Over(-2)
  }

  ghost function After(code: seq<Byte>, s: seq<Byte>, pos: int, h: Hunt, n: nat): Turn
    decreases n
  {
    if n == 0 then On(h)
    else match Turned(code, s, pos, h)
         case On(g) => After(code, s, pos, g, n - 1)
         case Over(r) => Over(r)
  }

  function Outset(pos: int): Hunt { Hunt(true, 0, pos, [], false, 0) }

  // The run on s from pos ends with r.
  ghost predicate Yields(code: seq<Byte>, s: seq<Byte>, pos: int, r: int) {
    exists n: nat :: After(code, s, pos, Outset(pos), n) == Over(r)
  }

  // The run comes by h.
  ghost predicate Comes(code: seq<Byte>, s: seq<Byte>, pos: int, h: Hunt) {
    exists n: nat :: After(code, s, pos, Outset(pos), n) == On(h)
  }

  lemma {:induction false} AfterMore(code: seq<Byte>, s: seq<Byte>, pos: int, h: Hunt, n: nat, g: Hunt)
    requires After(code, s, pos, h, n) == On(g)
    ensures After(code, s, pos, h, n + 1) == Turned(code, s, pos, g)
    decreases n
  {
    if n > 0 {
      AfterMore(code, s, pos, Turned(code, s, pos, h).h, n - 1, g);
    } else if Turned(code, s, pos, h).On? {
      assert After(code, s, pos, Turned(code, s, pos, h).h, 0) == Turned(code, s, pos, h);
    }
  }

  lemma ComesOn(code: seq<Byte>, s: seq<Byte>, pos: int, h: Hunt)
    requires Comes(code, s, pos, h)
    ensures match Turned(code, s, pos, h)
            case On(g) => Comes(code, s, pos, g)
            case Over(r) => Yields(code, s, pos, r)
  {
    var n: nat :| After(code, s, pos, Outset(pos), n) == On(h);
    AfterMore(code, s, pos, Outset(pos), n, h);
  }

  lemma ComesFirst(code: seq<Byte>, s: seq<Byte>, pos: int)
    ensures Comes(code, s, pos, Outset(pos))
  {
    assert After(code, s, pos, Outset(pos), 0) == On(Outset(pos));
  }

  // A run has one result.
  lemma {:induction false} AfterOne(code: seq<Byte>, s: seq<Byte>, pos: int, h: Hunt, n: nat, m: nat, r: int, q: int)
    requires After(code, s, pos, h, n) == Over(r) && After(code, s, pos, h, m) == Over(q)
    ensures r == q
    decreases n
  {
    match Turned(code, s, pos, h)
    case On(g) => AfterOne(code, s, pos, g, n - 1, m - 1, r, q);
    case Over(_) =>
  }

  lemma OneResult(code: seq<Byte>, s: seq<Byte>, pos: int, r: int, q: int)
    requires Yields(code, s, pos, r) && Yields(code, s, pos, q)
    ensures r == q
  {
    var n: nat :| After(code, s, pos, Outset(pos), n) == Over(r);
    var m: nat :| After(code, s, pos, Outset(pos), m) == Over(q);
    AfterOne(code, s, pos, Outset(pos), n, m, r, q);
  }

  // ---- every run ends --------------------------------------------------------------------------------

  // Whatever is gone on with ends.
  ghost predicate Safe(code: seq<Byte>, s: seq<Byte>, h: Hunt) {
    && StackOk(code, s, h.stack) && (forall k :: 0 <= k < |h.stack| && h.stack[k].Resume? ==> 0 <= h.stack[k].d)
    && (h.live ==> 0 <= h.p && 0 <= h.d && Halts(code, s, h.p, h.d))
  }

  // How much is left to do.
  ghost function Work(code: seq<Byte>, s: seq<Byte>, h: Hunt): nat
    requires Safe(code, s, h)
  {
    StackCost(code, s, h.stack) + if h.live then Cost(code, s, h.p, h.d) else 1
  }

  // The failure point on top taken off.
  lemma StackCut(code: seq<Byte>, s: seq<Byte>, stack: seq<Fail>)
    requires StackOk(code, s, stack) && stack != []
    ensures var init, top := Cut(stack), stack[|stack| - 1];
            && StackOk(code, s, init) && stack == init + [top]
            && StackCost(code, s, stack) == StackCost(code, s, init)
               + (if top.Dummy? then 1 else Cost(code, s, top.p, top.d))
            && (forall e :: Held(code, s, init, e) ==> Held(code, s, stack, e))
            && (forall e :: Held(code, s, stack, e) ==>
                  Held(code, s, init, e) || (top.Resume? && Reach(code, s, top.p, top.d, e)))
  {
    var init, top := Cut(stack), stack[|stack| - 1];
    assert stack == init + [top];
    assert StackOk(code, s, init) by {
      assert forall k :: 0 <= k < |init| ==> init[k] == stack[k];
    }
    Pushed(code, s, init, top);
  }

  lemma CostTwo(code: seq<Byte>, s: seq<Byte>, p: int, d: int)
    requires Halts(code, s, p, d)
    ensures Cost(code, s, p, d) >= 2
  {
    var n: nat :| HaltIn(code, s, p, d, n);
    CostIs(code, s, p, d, n);
  }

  lemma SafeFailed(code: seq<Byte>, s: seq<Byte>, pos: int, h: Hunt)
    requires Safe(code, s, h) && !h.live && h.stack != []
    ensures Failed(code, pos, h).On?
    ensures var g := Failed(code, pos, h).h;
            && g.stack == Cut(h.stack) && (g.live <==> h.stack[|h.stack| - 1].Resume?)
            && (g.live ==> h.stack[|h.stack| - 1] == Resume(g.p, g.d) && !BackJump(code, g.p))
            && Safe(code, s, g) && Work(code, s, g) < Work(code, s, h)
  {
    StackCut(code, s, h.stack);
  }

  lemma SafeArrived(code: seq<Byte>, s: seq<Byte>, pos: int, h: Hunt)
    requires Safe(code, s, h) && h.live && h.p == |code|
    ensures match Arrived(s, pos, h)
            case On(g) => Safe(code, s, g) && Work(code, s, g) < Work(code, s, h)
            case Over(_) => true
  {
    CostTwo(code, s, h.p, h.d);
  }

  lemma Jumped(code: seq<Byte>, s: seq<Byte>, p: int, d: int)
    requires Halts(code, s, p, d) && 0 <= p < |code| && code[p] == MAYBE_POP_JUMP
    ensures Legal(code, p) && 0 < d && 0 <= Target(code, p) && Halts(code, s, Target(code, p), d)
    ensures Cost(code, s, Target(code, p), d) < Cost(code, s, p, d)
    ensures forall e :: Reach(code, s, p, d, e) <==> Reach(code, s, Target(code, p), d, e)
  {
    var n: nat :| HaltIn(code, s, p, d, n);
    CostStep(code, s, p, d);
    JumpIs(code, s, p, d);
    var u := Succ(code, s, p, d);
    assert u == [Point(Target(code, p), d)] && u[0].p == Target(code, p) && u[0].d == d;
  }

  lemma SafeBack(code: seq<Byte>, s: seq<Byte>, h: Hunt)
    requires Safe(code, s, h) && h.live && Legal(code, h.p) && code[h.p] == MAYBE_POP_JUMP
    ensures var g := Performed(code, s, h); Safe(code, s, g) && Work(code, s, g) < Work(code, s, h)
  {
    Jumped(code, s, h.p, h.d);
    if Pops(code, h.p) && h.stack != [] {
      StackCut(code, s, h.stack);
    }
  }

  lemma SafeStepped(code: seq<Byte>, s: seq<Byte>, h: Hunt)
    requires Safe(code, s, h) && h.live && h.p != |code| && Legal(code, h.p) && code[h.p] != MAYBE_POP_JUMP
    ensures var g := Performed(code, s, h); Safe(code, s, g) && Work(code, s, g) < Work(code, s, h)
  {
    var u, g := Succ(code, s, h.p, h.d), Performed(code, s, h);
    CostStep(code, s, h.p, h.d);
    if u != [] {
      assert u[0].p == g.p && u[0].d == g.d;
      LegalAt(code, s, g.p, g.d);
      if code[h.p] == ON_FAILURE_JUMP {
        assert u[1].p == Target(code, h.p) && u[1].d == h.d;
        Pushed(code, s, h.stack, Resume(Target(code, h.p), h.d));
      } else if code[h.p] in {DUMMY_FAILURE_JUMP, PUSH_DUMMY_FAILURE} {
        Pushed(code, s, h.stack, Dummy);
      } else {
        assert h.stack + [] == h.stack;
      }
    }
  }

  lemma SafePerformed(code: seq<Byte>, s: seq<Byte>, h: Hunt)
    requires Safe(code, s, h) && h.live && h.p != |code|
    ensures Legal(code, h.p)
    ensures var g := Performed(code, s, h); Safe(code, s, g) && Work(code, s, g) < Work(code, s, h)
  {
    CostStep(code, s, h.p, h.d);
    if code[h.p] == MAYBE_POP_JUMP {
      SafeBack(code, s, h);
    } else {
      SafeStepped(code, s, h);
    }
  }

  lemma SafeTurn(code: seq<Byte>, s: seq<Byte>, pos: int, h: Hunt)
    requires Safe(code, s, h)
    ensures match Turned(code, s, pos, h)
            case On(g) => Safe(code, s, g) && Work(code, s, g) < Work(code, s, h)
            case Over(_) => true
  {
    if !h.live {
      if h.stack != [] {
        SafeFailed(code, s, pos, h);
      }
    } else if h.p == |code| {
      SafeArrived(code, s, pos, h);
    } else {
      SafePerformed(code, s, h);
    }
  }

  lemma SafeFirst(code: seq<Byte>, s: seq<Byte>, pos: int)
    requires 0 <= pos && Halts(code, s, 0, pos)
    ensures Safe(code, s, Outset(pos))
  {
  }

  // The run ends.
  lemma {:induction false} Ends(code: seq<Byte>, s: seq<Byte>, pos: int, h: Hunt)
    requires Safe(code, s, h) && Comes(code, s, pos, h)
    ensures exists r :: Yields(code, s, pos, r)
    decreases Work(code, s, h)
  {
    SafeTurn(code, s, pos, h);
    ComesOn(code, s, pos, h);
    match Turned(code, s, pos, h)
    case On(g) => Ends(code, s, pos, g);
    case Over(_) =>
  }
}
