// One step of the matcher over compiled code, its nondeterministic reading, and the
// algebra of code regions: what a stretch of code does to the subject position.
module RxVm {
  import opened RxBytes
  import opened RxSyntax
  import opened RxCode

  datatype Point = Point(p: int, d: int)

  function Target(code: seq<Byte>, p: int): int
    requires 0 <= p && p + 3 <= |code|
  {
    p + 3 + Dec16(code[p + 1], code[p + 2])
  }

  // A failure point that is a backward jump of a loop is discarded by the matcher.
  predicate BackJump(code: seq<Byte>, p: int)
    requires 0 <= p
  {
    p + 3 <= |code| && code[p] in {JUMP, MAYBE_POP_JUMP, POP_FAILURE_JUMP}
    && 0 <= Target(code, p) < |code| && code[Target(code, p)] == ON_FAILURE_JUMP
  }

  predicate Landing(code: seq<Byte>, p: int) {
    0 <= p <= |code| && (p < |code| ==> code[p] != ON_FAILURE_JUMP)
  }

  // The instruction at p lies inside the buffer, and its jump too; a failure point it
  // pushes is one the matcher will resume at, and a jump past an alternative that goes
  // nowhere does not land on a loop.
  predicate Legal(code: seq<Byte>, p: int) {
    0 <= p < |code| &&
    var op := code[p];
    if op == EXACTN then p + 2 <= |code| && 0 < code[p + 1] && p + 2 + code[p + 1] <= |code|
    else if op in {CHARSET, CHARSET_NOT} then p + 2 <= |code| && p + 2 + code[p + 1] <= |code|
    else if op in {START_MEMORY, STOP_MEMORY} then p + 3 <= |code|
    else if op == MAYBE_POP_JUMP then p + 3 <= |code| && 0 <= Target(code, p) <= |code|
    else if op == DUMMY_FAILURE_JUMP then p + 6 <= |code| && Target(code, p) == p + 6
    else if op == JUMP_PAST_ALT then
      p + 3 <= |code| && p + 3 <= Target(code, p) <= |code|
      && (Target(code, p) == p + 3 ==> Landing(code, p + 3))
    else if op == ON_FAILURE_JUMP then
      p + 3 <= |code| && 0 <= Target(code, p) <= |code| && !BackJump(code, Target(code, p))
    else op in {ANYCHAR, PUSH_DUMMY_FAILURE}
  }

  predicate Spells(code: seq<Byte>, p: int, n: nat, s: seq<Byte>, d: int)
    requires 0 <= p && p + n <= |code|
  {
    0 <= d && d + n <= |s| && s[d..d + n] == code[p..p + n]
  }

  // charset and charset_not at p accept c
  predicate SetAccepts(code: seq<Byte>, p: int, c: Byte)
    requires 0 <= p && p + 2 <= |code| && p + 2 + code[p + 1] <= |code|
  {
    InMap(code[p + 2..p + 2 + code[p + 1]], c) == (code[p] == CHARSET)
  }

  // Where control may go from p with the subject at d, the preferred way first.
  function Succ(code: seq<Byte>, s: seq<Byte>, p: int, d: int): (r: seq<Point>)
    requires Legal(code, p)
    ensures |r| <= 2
  {
    var op := code[p];
    if op == EXACTN then
      var n := code[p + 1];
      if Spells(code, p + 2, n, s, d) then [Point(p + 2 + n, d + n)] else []
    else if op == ANYCHAR then
      if 0 <= d < |s| && s[d] != 0 then [Point(p + 1, d + 1)] else []
    else if op in {CHARSET, CHARSET_NOT} then
      if 0 <= d < |s| && SetAccepts(code, p, s[d]) then [Point(p + 2 + code[p + 1], d + 1)] else []
    else if op in {START_MEMORY, STOP_MEMORY} then [Point(p + 3, d)]
    else if op == ON_FAILURE_JUMP then [Point(p + 3, d), Point(Target(code, p), d)]
    else if op == PUSH_DUMMY_FAILURE then [Point(p + 1, d)]
    else [Point(Target(code, p), d)]
  }

  // ---- reachability and termination ---------------------------------------

  // Some choice of n steps or fewer leads from (p, d) to the end of the code at e.
  ghost predicate ReachIn(code: seq<Byte>, s: seq<Byte>, p: int, d: int, e: int, n: nat)
    decreases n
  {
    if p == |code| then d == e
    else (
      n > 0 && Legal(code, p) &&
      exists k :: 0 <= k < |Succ(code, s, p, d)| &&
        ReachIn(code, s, Succ(code, s, p, d)[k].p, Succ(code, s, p, d)[k].d, e, n - 1))
  }

  ghost predicate Reach(code: seq<Byte>, s: seq<Byte>, p: int, d: int, e: int) {
    exists n: nat :: ReachIn(code, s, p, d, e, n)
  }

  // Every run from (p, d) stays legal and ends within n steps, and goes round a loop only
  // after consuming something.
  ghost predicate HaltIn(code: seq<Byte>, s: seq<Byte>, p: int, d: int, n: nat)
    decreases n
  {
    p == |code| ||
    (n > 0 && Legal(code, p) && Consumed(code, p, d) &&
     forall k :: 0 <= k < |Succ(code, s, p, d)| ==>
       HaltIn(code, s, Succ(code, s, p, d)[k].p, Succ(code, s, p, d)[k].d, n - 1))
  }

  predicate Consumed(code: seq<Byte>, p: int, d: int)
    requires 0 <= p < |code|
  {
    code[p] == MAYBE_POP_JUMP ==> d > 0
  }

  ghost predicate Halts(code: seq<Byte>, s: seq<Byte>, p: int, d: int) {
    exists n: nat :: HaltIn(code, s, p, d, n)
  }

  lemma {:induction false} ReachMore(code: seq<Byte>, s: seq<Byte>, p: int, d: int, e: int, n: nat, m: nat)
    requires ReachIn(code, s, p, d, e, n) && n <= m
    ensures ReachIn(code, s, p, d, e, m)
    decreases n
  {
    if p != |code| {
      var k :| 0 <= k < |Succ(code, s, p, d)| &&
        ReachIn(code, s, Succ(code, s, p, d)[k].p, Succ(code, s, p, d)[k].d, e, n - 1);
      ReachMore(code, s, Succ(code, s, p, d)[k].p, Succ(code, s, p, d)[k].d, e, n - 1, m - 1);
    }
  }

  lemma {:induction false} HaltMore(code: seq<Byte>, s: seq<Byte>, p: int, d: int, n: nat, m: nat)
    requires HaltIn(code, s, p, d, n) && n <= m
    ensures HaltIn(code, s, p, d, m)
    decreases n
  {
    if p != |code| {
      forall k | 0 <= k < |Succ(code, s, p, d)|
        ensures HaltIn(code, s, Succ(code, s, p, d)[k].p, Succ(code, s, p, d)[k].d, m - 1)
      {
        HaltMore(code, s, Succ(code, s, p, d)[k].p, Succ(code, s, p, d)[k].d, n - 1, m - 1);
      }
    }
  }

  lemma {:induction false} ReachEnd(code: seq<Byte>, s: seq<Byte>, d: int, e: int)
    ensures Reach(code, s, |code|, d, e) <==> d == e
    ensures Halts(code, s, |code|, d)
  {
    assert HaltIn(code, s, |code|, d, 0);
    if d == e { assert ReachIn(code, s, |code|, d, e, 0); }
  }

  lemma {:induction false} ReachStep(code: seq<Byte>, s: seq<Byte>, p: int, d: int, e: int)
    requires p != |code| && Legal(code, p)
    ensures Reach(code, s, p, d, e) <==>
            exists k :: 0 <= k < |Succ(code, s, p, d)|
              && Reach(code, s, Succ(code, s, p, d)[k].p, Succ(code, s, p, d)[k].d, e)
  {
    var u := Succ(code, s, p, d);
    if Reach(code, s, p, d, e) {
      var n: nat :| ReachIn(code, s, p, d, e, n);
      var k :| 0 <= k < |u| && ReachIn(code, s, u[k].p, u[k].d, e, n - 1);
      assert Reach(code, s, u[k].p, u[k].d, e);
    }
    if exists k :: 0 <= k < |u| && Reach(code, s, u[k].p, u[k].d, e) {
      var k :| 0 <= k < |u| && Reach(code, s, u[k].p, u[k].d, e);
      var n: nat :| ReachIn(code, s, u[k].p, u[k].d, e, n);
      assert ReachIn(code, s, p, d, e, n + 1);
    }
  }

  lemma {:induction false} HaltStep(code: seq<Byte>, s: seq<Byte>, p: int, d: int)
    requires p != |code| && Legal(code, p) && Consumed(code, p, d)
    ensures Halts(code, s, p, d) <==>
            forall k :: 0 <= k < |Succ(code, s, p, d)| ==>
              Halts(code, s, Succ(code, s, p, d)[k].p, Succ(code, s, p, d)[k].d)
  {
    var u := Succ(code, s, p, d);
    if Halts(code, s, p, d) {
      var n: nat :| HaltIn(code, s, p, d, n);
      forall k | 0 <= k < |u| ensures Halts(code, s, u[k].p, u[k].d) {
        assert HaltIn(code, s, u[k].p, u[k].d, n - 1);
      }
    }
    if forall k :: 0 <= k < |u| ==> Halts(code, s, u[k].p, u[k].d) {
      if |u| == 0 {
        assert HaltIn(code, s, p, d, 1);
      } else {
        var n0: nat :| HaltIn(code, s, u[0].p, u[0].d, n0);
        var l := u[|u| - 1];
        var n1: nat :| HaltIn(code, s, l.p, l.d, n1);
        var n := n0 + n1;
        HaltMore(code, s, u[0].p, u[0].d, n0, n);
        HaltMore(code, s, l.p, l.d, n1, n);
        assert HaltIn(code, s, p, d, n + 1);
      }
    }
  }

  // ---- regions of code ------------------------------------------------------

  // From lo at d, the code up to hi takes the subject to exactly the positions R allows.
  ghost predicate ActsAt(code: seq<Byte>, s: seq<Byte>, lo: int, hi: int, R: Lang, d: int) {
    (forall e :: Reach(code, s, lo, d, e) <==> exists j :: R(d, j) && Reach(code, s, hi, j, e)) &&
    ((forall j :: R(d, j) ==> Halts(code, s, hi, j)) ==> Halts(code, s, lo, d))
  }

  // R never leaves the subject and never goes back.
  ghost predicate Inside(s: seq<Byte>, R: Lang) {
    forall i, j :: 0 <= i <= |s| && R(i, j) ==> i <= j <= |s|
  }

  // From every place in the subject. Mentioning Peek(lo) unfolds Acts for the code at lo;
  // elsewhere the verifier carries it as it is.
  ghost predicate Acts(code: seq<Byte>, s: seq<Byte>, lo: int, hi: int, R: Lang) {
    forall p: int {:trigger Peek(p)} :: p == lo ==> Inside(s, R) && forall d :: 0 <= d <= |s| ==>
      ActsAt(code, s, lo, hi, R, d)
  }

  ghost predicate Same(R: Lang, Q: Lang) {
    forall i, j :: R(i, j) <==> Q(i, j)
  }

  lemma ActsSame(code: seq<Byte>, s: seq<Byte>, lo: int, hi: int, R: Lang, Q: Lang)
    requires Acts(code, s, lo, hi, R) && Same(R, Q)
    ensures Acts(code, s, lo, hi, Q)
  {
    assert Peek(lo);
    forall d | 0 <= d <= |s| ensures ActsAt(code, s, lo, hi, Q, d) {
      assert ActsAt(code, s, lo, hi, R, d);
    }
  }

  function Id(): Lang { (i, j) => i == j }

  lemma ActsNothing(code: seq<Byte>, s: seq<Byte>, lo: int)
    ensures Acts(code, s, lo, lo, Id())
  {
    assert Inside(s, Id());
    forall d | 0 <= d <= |s| ensures ActsAt(code, s, lo, lo, Id(), d) {
      assert Id()(d, d);
    }
  }

  ghost function Compose(R: Lang, Q: Lang): Lang {
    (i, j) => exists k :: R(i, k) && Q(k, j)
  }

  lemma ActsCompose(code: seq<Byte>, s: seq<Byte>, lo: int, mid: int, hi: int, R: Lang, Q: Lang)
    requires Acts(code, s, lo, mid, R) && Acts(code, s, mid, hi, Q)
    ensures Acts(code, s, lo, hi, Compose(R, Q))
  {
    var C := Compose(R, Q);
    assert Peek(lo) && Peek(mid);
    assert Inside(s, C);
    forall d | 0 <= d <= |s| ensures ActsAt(code, s, lo, hi, C, d) {
      assert ActsAt(code, s, lo, mid, R, d);
      assert forall k | R(d, k) :: 0 <= k <= |s|;
      ComposeReach(code, s, lo, mid, hi, R, Q, d);
      ComposeHalts(code, s, lo, mid, hi, R, Q, d);
    }
  }

  lemma ComposeReach(code: seq<Byte>, s: seq<Byte>, lo: int, mid: int, hi: int, R: Lang, Q: Lang, d: int)
    requires ActsAt(code, s, lo, mid, R, d) && forall k :: R(d, k) ==> ActsAt(code, s, mid, hi, Q, k)
    ensures forall e :: Reach(code, s, lo, d, e) <==> exists j :: Compose(R, Q)(d, j) && Reach(code, s, hi, j, e)
  {
    var C := Compose(R, Q);
    forall e ensures Reach(code, s, lo, d, e) <==> exists j :: C(d, j) && Reach(code, s, hi, j, e) {
      if Reach(code, s, lo, d, e) {
        var k :| R(d, k) && Reach(code, s, mid, k, e);
        assert ActsAt(code, s, mid, hi, Q, k);
        var j :| Q(k, j) && Reach(code, s, hi, j, e);
        assert C(d, j);
      }
      if exists j :: C(d, j) && Reach(code, s, hi, j, e) {
        var j :| C(d, j) && Reach(code, s, hi, j, e);
        var k :| R(d, k) && Q(k, j);
        assert ActsAt(code, s, mid, hi, Q, k);
        assert Reach(code, s, mid, k, e);
      }
    }
  }

  lemma ComposeHalts(code: seq<Byte>, s: seq<Byte>, lo: int, mid: int, hi: int, R: Lang, Q: Lang, d: int)
    requires ActsAt(code, s, lo, mid, R, d) && forall k :: R(d, k) ==> ActsAt(code, s, mid, hi, Q, k)
    ensures (forall j :: Compose(R, Q)(d, j) ==> Halts(code, s, hi, j)) ==> Halts(code, s, lo, d)
  {
    var C := Compose(R, Q);
    if forall j :: C(d, j) ==> Halts(code, s, hi, j) {
      forall k | R(d, k) ensures Halts(code, s, mid, k) {
        assert ActsAt(code, s, mid, hi, Q, k);
        forall j | Q(k, j) ensures Halts(code, s, hi, j) { assert C(d, j); }
      }
    }
  }

  // An instruction whose only outcome at d is (hi, d') for R(d, d'), or failure.
  lemma ActsOne(code: seq<Byte>, s: seq<Byte>, lo: int, hi: int, R: Lang)
    requires Legal(code, lo) && code[lo] != MAYBE_POP_JUMP && Inside(s, R)
    requires forall d :: 0 <= d <= |s| ==>
               |Succ(code, s, lo, d)| <= 1 &&
               (forall k :: 0 <= k < |Succ(code, s, lo, d)| ==> Succ(code, s, lo, d)[k].p == hi) &&
               (forall j :: R(d, j) <==> |Succ(code, s, lo, d)| == 1 && Succ(code, s, lo, d)[0].d == j)
    ensures Acts(code, s, lo, hi, R)
  {
    forall d | 0 <= d <= |s| ensures ActsAt(code, s, lo, hi, R, d) {
      HaltStep(code, s, lo, d);
      forall e ensures Reach(code, s, lo, d, e) <==> exists j :: R(d, j) && Reach(code, s, hi, j, e) {
        ReachStep(code, s, lo, d, e);
        if |Succ(code, s, lo, d)| == 1 { assert R(d, Succ(code, s, lo, d)[0].d); }
      }
    }
  }

  ghost function Union(R: Lang, Q: Lang): Lang {
    (i, j) => R(i, j) || Q(i, j)
  }

  // A failure jump chooses between the code after it and its target.
  lemma ActsChoice(code: seq<Byte>, s: seq<Byte>, lo: int, hi: int, R: Lang, Q: Lang)
    requires Legal(code, lo) && code[lo] == ON_FAILURE_JUMP
    requires Acts(code, s, lo + 3, hi, R) && Acts(code, s, Target(code, lo), hi, Q)
    ensures Acts(code, s, lo, hi, Union(R, Q))
  {
    var U := Union(R, Q);
    assert Peek(lo + 3) && Peek(Target(code, lo));
    assert Inside(s, U);
    forall d | 0 <= d <= |s| ensures ActsAt(code, s, lo, hi, U, d) {
      assert ActsAt(code, s, lo + 3, hi, R, d) && ActsAt(code, s, Target(code, lo), hi, Q, d);
      var u := Succ(code, s, lo, d);
      assert u == [Point(lo + 3, d), Point(Target(code, lo), d)];
      HaltStep(code, s, lo, d);
      forall e ensures Reach(code, s, lo, d, e) <==> exists j :: U(d, j) && Reach(code, s, hi, j, e) {
        ReachStep(code, s, lo, d, e);
        assert Reach(code, s, lo, d, e) <==> Reach(code, s, u[0].p, u[0].d, e) || Reach(code, s, u[1].p, u[1].d, e);
      }
    }
  }

  ghost function StarOf(R: Lang): Lang {
    (i, j) => exists n: nat :: Pow(R, n, i, j)
  }

  ghost predicate Advances(s: seq<Byte>, R: Lang) {
    forall i, j :: 0 <= i <= |s| && R(i, j) ==> i < j
  }

  lemma {:induction false} PowInside(s: seq<Byte>, R: Lang, n: nat, i: int, j: int)
    requires Inside(s, R) && 0 <= i <= |s| && Pow(R, n, i, j)
    ensures i <= j <= |s|
  {
    if n > 0 {
      var k :| R(i, k) && Pow(R, n - 1, k, j);
      PowInside(s, R, n - 1, k, j);
    }
  }

  // A plain jump goes where it points.
  lemma JumpIs(code: seq<Byte>, s: seq<Byte>, p: int, d: int)
    requires Legal(code, p) && code[p] in {JUMP_PAST_ALT, MAYBE_POP_JUMP, DUMMY_FAILURE_JUMP}
    requires Consumed(code, p, d)
    ensures Halts(code, s, p, d) <==> Halts(code, s, Target(code, p), d)
    ensures forall e :: Reach(code, s, p, d, e) <==> Reach(code, s, Target(code, p), d, e)
  {
    var b := Succ(code, s, p, d);
    assert b == [Point(Target(code, p), d)];
    assert b[0].p == Target(code, p) && b[0].d == d;
    HaltStep(code, s, p, d);
    forall e ensures Reach(code, s, p, d, e) <==> Reach(code, s, Target(code, p), d, e) { ReachStep(code, s, p, d, e); }
  }

  ghost predicate Loop(code: seq<Byte>, s: seq<Byte>, lo: int, back: int, hi: int, R: Lang) {
    && Legal(code, lo) && code[lo] == ON_FAILURE_JUMP && Target(code, lo) == hi
    && Legal(code, back) && code[back] == MAYBE_POP_JUMP && Target(code, back) == lo
    && Acts(code, s, lo + 3, back, R) && Advances(s, R)
  }

  lemma {:induction false} LoopAt(code: seq<Byte>, s: seq<Byte>, lo: int, back: int, hi: int, R: Lang, d: int)
    requires Loop(code, s, lo, back, hi, R) && 0 <= d <= |s|
    ensures ActsAt(code, s, lo, hi, StarOf(R), d)
    decreases |s| - d
  {
    assert Peek(lo + 3);
    forall k | R(d, k) ensures ActsAt(code, s, lo, hi, StarOf(R), k) { LoopAt(code, s, lo, back, hi, R, k); }
    forall e ensures Reach(code, s, lo, d, e) <==> exists j :: StarOf(R)(d, j) && Reach(code, s, hi, j, e) {
      LoopReach(code, s, lo, back, hi, R, d, e);
    }
    if forall j :: StarOf(R)(d, j) ==> Halts(code, s, hi, j) { LoopHalts(code, s, lo, back, hi, R, d); }
  }

  lemma {:induction false} LoopReach(code: seq<Byte>, s: seq<Byte>, lo: int, back: int, hi: int, R: Lang, d: int,
                                     e: int)
    requires Loop(code, s, lo, back, hi, R) && 0 <= d <= |s|
    requires forall k :: R(d, k) ==> ActsAt(code, s, lo, hi, StarOf(R), k)
    ensures Reach(code, s, lo, d, e) <==> exists j :: StarOf(R)(d, j) && Reach(code, s, hi, j, e)
  {
    var S := StarOf(R);
    var u := Succ(code, s, lo, d);
    assert u == [Point(lo + 3, d), Point(hi, d)];
    ReachStep(code, s, lo, d, e);
    assert Reach(code, s, lo, d, e) <==> Reach(code, s, u[0].p, u[0].d, e) || Reach(code, s, u[1].p, u[1].d, e);
    assert Peek(lo + 3);
    assert ActsAt(code, s, lo + 3, back, R, d);
    if Reach(code, s, lo + 3, d, e) {
      var k :| R(d, k) && Reach(code, s, back, k, e);
      JumpIs(code, s, back, k);
      var j :| S(k, j) && Reach(code, s, hi, j, e);
      StarMore(R, d, k, j);
    }
    if Reach(code, s, hi, d, e) {
      assert Pow(R, 0, d, d);
      assert S(d, d);
    }
    if exists j :: S(d, j) && Reach(code, s, hi, j, e) {
      var j :| S(d, j) && Reach(code, s, hi, j, e);
      var n: nat :| Pow(R, n, d, j);
      if n > 0 {
        var k :| R(d, k) && Pow(R, n - 1, k, j);
        assert S(k, j);
        JumpIs(code, s, back, k);
        assert Reach(code, s, back, k, e);
      }
    }
  }

  lemma StarMore(R: Lang, d: int, k: int, j: int)
    requires R(d, k) && StarOf(R)(k, j)
    ensures StarOf(R)(d, j)
  {
    var n: nat :| Pow(R, n, k, j);
    assert Pow(R, n + 1, d, j);
  }

  lemma {:induction false} LoopHalts(code: seq<Byte>, s: seq<Byte>, lo: int, back: int, hi: int, R: Lang, d: int)
    requires Loop(code, s, lo, back, hi, R) && 0 <= d <= |s|
    requires forall k :: R(d, k) ==> ActsAt(code, s, lo, hi, StarOf(R), k)
    requires forall j :: StarOf(R)(d, j) ==> Halts(code, s, hi, j)
    ensures Halts(code, s, lo, d)
  {
    assert Peek(lo + 3);
    forall k | R(d, k) ensures Halts(code, s, back, k) {
      forall j | StarOf(R)(k, j) ensures Halts(code, s, hi, j) { StarMore(R, d, k, j); }
      JumpIs(code, s, back, k);
    }
    assert Pow(R, 0, d, d);
    assert StarOf(R)(d, d);
    assert ActsAt(code, s, lo + 3, back, R, d);
    assert Succ(code, s, lo, d) == [Point(lo + 3, d), Point(hi, d)];
    HaltStep(code, s, lo, d);
  }

  // A loop whose body always advances: a failure jump out, the body, a jump back.
  lemma ActsLoop(code: seq<Byte>, s: seq<Byte>, lo: int, back: int, hi: int, R: Lang)
    requires Loop(code, s, lo, back, hi, R)
    ensures Acts(code, s, lo, hi, StarOf(R))
  {
    assert Peek(lo + 3);
    forall i, j | 0 <= i <= |s| && StarOf(R)(i, j) ensures i <= j <= |s| {
      var n: nat :| Pow(R, n, i, j);
      PowInside(s, R, n, i, j);
    }
    assert Inside(s, StarOf(R));
    forall d | 0 <= d <= |s| ensures ActsAt(code, s, lo, hi, StarOf(R), d) {
      LoopAt(code, s, lo, back, hi, R, d);
    }
  }
}
