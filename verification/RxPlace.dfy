// Where control is in a run of the rewriting matcher, and what a loop of one character has on the stack.
module RxPlace {
  import opened RxBytes
  import opened RxSyntax
  import opened RxCode
  import opened RxVm
  import opened RxMeaning
  import opened RxMatch
  import opened RxFlow
  import opened RxPops
  import opened RxRun

  // Every failure point is one at an instruction, outside the one-character loops.
  predicate Outside(code: seq<Byte>, P: set<int>, stack: seq<Fail>) {
    forall k :: 0 <= k < |stack| && stack[k].Resume? ==> stack[k].p in Starts(code, 0) + {|code|} && stack[k].p !in P
  }

  // At the body q of a loop, or at the jump after it, the last failure point is the loop's own, or a dummy.
  predicate OwnOnTop(code: seq<Byte>, s: seq<Byte>, q: int, p: int, d: int, stack: seq<Fail>)
    requires OneChar(code, q)
  {
    stack != [] &&
    var top := stack[|stack| - 1];
    top.Dummy? || (
      && top.p == q + Len(code, q) + 3
      && top.d == (if p == q then d else d - 1)
      && (p != q ==> 0 < d <= |s| && Accepts(code, q, s[d - 1])))
  }

  ghost predicate Guarded(code: seq<Byte>, E: set<int>, s: seq<Byte>, p: int, d: int, stack: seq<Fail>) {
    forall q {:trigger Peek(q)} :: Peek(q) && q in E && OneChar(code, q) && (p == q || p == q + Len(code, q)) ==>
      OwnOnTop(code, s, q, p, d, stack)
  }

  // Where the matcher is, and what it has on its stack.
  ghost predicate Placed(code: seq<Byte>, E: set<int>, P: set<int>, s: seq<Byte>, live: bool, p: int, d: int,
                         stack: seq<Fail>) {
    && Kept(code, E, P) && Outside(code, P, stack)
    && (live ==> p in Starts(code, 0) + {|code|} && Guarded(code, E, s, p, d, stack))
  }

  // Away from the one-character loops there is nothing to guard.
  lemma Unguarded(code: seq<Byte>, E: set<int>, P: set<int>, s: seq<Byte>, p: int, d: int, stack: seq<Fail>)
    requires Kept(code, E, P) && p !in P
    ensures Guarded(code, E, s, p, d, stack)
  {
    assert Peek(0);
  }

  // A failure point pushed, and control gone on from p to p'.
  lemma PushedPlace(code: seq<Byte>, E: set<int>, P: set<int>, s: seq<Byte>, p: int, d: int, stack: seq<Fail>)
    requires Placed(code, E, P, s, true, p, d, stack) && 0 <= p < |code| && code[p] == ON_FAILURE_JUMP
    ensures p + 3 <= |code|
    ensures Placed(code, E, P, s, true, p + 3, d, stack + [Resume(Target(code, p), d)])
  {
    FlowIn(code, Starts(code, 0), E, P, 0, |code|, p);
    var t := stack + [Resume(Target(code, p), d)];
    if p + 3 in P {
      assert Peek(0) && Peek(p) && Peek(p + 3);
      forall q {:trigger Peek(q)} | Peek(q) && q in E && OneChar(code, q) && (p + 3 == q || p + 3 == q + Len(code, q))
        ensures OwnOnTop(code, s, q, p + 3, d, t)
      {
        assert LoopBody(code, P, q);
        assert q == p + 3;
      }
    } else {
      Unguarded(code, E, P, s, p + 3, d, t);
    }
  }

  // A dummy pushed.
  lemma DummyPlace(code: seq<Byte>, E: set<int>, P: set<int>, s: seq<Byte>, p: int, d: int, stack: seq<Fail>)
    requires Placed(code, E, P, s, true, p, d, stack) && 0 <= p < |code|
    requires code[p] in {DUMMY_FAILURE_JUMP, PUSH_DUMMY_FAILURE}
    ensures code[p] == DUMMY_FAILURE_JUMP ==>
      p + 3 <= |code| && Placed(code, E, P, s, true, Target(code, p), d, stack + [Dummy])
    ensures code[p] == PUSH_DUMMY_FAILURE ==> Placed(code, E, P, s, true, p + 1, d, stack + [Dummy])
  {
    FlowIn(code, Starts(code, 0), E, P, 0, |code|, p);
    var t := stack + [Dummy];
    assert Outside(code, P, t);
    assert Peek(0) && Peek(p);
    if code[p] == PUSH_DUMMY_FAILURE {
      assert p !in E && p + 1 !in P;
      Unguarded(code, E, P, s, p + 1, d, t);
    }
  }

  // An instruction that leaves the stack alone.
  lemma StepPlace(code: seq<Byte>, E: set<int>, P: set<int>, s: seq<Byte>, p: int, d: int, stack: seq<Fail>, p': int,
                  d': int)
    requires Placed(code, E, P, s, true, p, d, stack) && Legal(code, p) && 0 <= d
    requires code[p] !in {ON_FAILURE_JUMP, DUMMY_FAILURE_JUMP, PUSH_DUMMY_FAILURE, MAYBE_POP_JUMP}
    requires Succ(code, s, p, d) == [Point(p', d')]
    ensures Placed(code, E, P, s, true, p', d', stack)
  {
    FlowIn(code, Starts(code, 0), E, P, 0, |code|, p);
    assert Peek(0) && Peek(p);
    if p in E {
      forall q {:trigger Peek(q)} | Peek(q) && q in E && OneChar(code, q) && (p' == q || p' == q + Len(code, q))
        ensures OwnOnTop(code, s, q, p', d', stack)
      {
        BodyStep(code, E, P, s, p, d, stack, p', d', q);
      }
    } else {
      assert p' !in P;
      Unguarded(code, E, P, s, p', d', stack);
    }
  }

  lemma BodyStep(code: seq<Byte>, E: set<int>, P: set<int>, s: seq<Byte>, p: int, d: int, stack: seq<Fail>, p': int,
                 d': int, q: int)
    requires Placed(code, E, P, s, true, p, d, stack) && Legal(code, p) && 0 <= d && p in E && q in E
             && OneChar(code, q)
    requires Succ(code, s, p, d) == [Point(p', d')] && (p' == q || p' == q + Len(code, q))
    ensures OwnOnTop(code, s, q, p', d', stack)
  {
    assert Peek(0) && Peek(p) && Peek(q);
    assert LoopBody(code, P, p) && LoopBody(code, P, q);
    assert p' == p + Len(code, p) && d' == d + 1;
    assert q == p;
    assert OwnOnTop(code, s, p, p, d, stack);
    if code[p] == EXACTN {
      assert s[d..d + 1] == code[p + 2..p + 3];
      assert s[d] == s[d..d + 1][0] && code[p + 2] == code[p + 2..p + 3][0];
    }
  }

  // A back jump, with or without a failure point less.
  lemma BackPlace(code: seq<Byte>, E: set<int>, P: set<int>, s: seq<Byte>, p: int, d: int, stack: seq<Fail>, n: nat)
    requires Placed(code, E, P, s, true, p, d, stack) && 0 <= p < |code| && code[p] == MAYBE_POP_JUMP && n <= |stack|
    ensures p + 3 <= |code| && Placed(code, E, P, s, true, Target(code, p), d, stack[..n])
  {
    FlowIn(code, Starts(code, 0), E, P, 0, |code|, p);
    Unguarded(code, E, P, s, Target(code, p), d, stack[..n]);
  }


  // ---- one turn ----------------------------------------------------------------------------------------

  ghost predicate Stands(code: seq<Byte>, E: set<int>, P: set<int>, s: seq<Byte>, h: Hunt) {
    Placed(code, E, P, s, h.live, h.p, h.d, h.stack)
  }

  lemma FailedPlace(code: seq<Byte>, E: set<int>, P: set<int>, s: seq<Byte>, pos: int, h: Hunt)
    requires Safe(code, s, h) && Stands(code, E, P, s, h) && !h.live && h.stack != []
    ensures Failed(code, pos, h).On? && Stands(code, E, P, s, Failed(code, pos, h).h)
  {
    SafeFailed(code, s, pos, h);
    var g, top := Failed(code, pos, h).h, h.stack[|h.stack| - 1];
    assert Outside(code, P, g.stack) by {
      assert forall k :: 0 <= k < |g.stack| ==> g.stack[k] == h.stack[k];
    }
    if g.live {
      Unguarded(code, E, P, s, g.p, g.d, g.stack);
    }
  }

  lemma PerformedPlace(code: seq<Byte>, E: set<int>, P: set<int>, s: seq<Byte>, h: Hunt)
    requires Safe(code, s, h) && Stands(code, E, P, s, h) && h.live && h.p != |code| && Legal(code, h.p)
    ensures Stands(code, E, P, s, Performed(code, s, h))
  {
    var u, g := Succ(code, s, h.p, h.d), Performed(code, s, h);
    if code[h.p] == MAYBE_POP_JUMP {
      BackPlace(code, E, P, s, h.p, h.d, h.stack, |g.stack|);
      assert h.stack[..|g.stack|] == g.stack;
    } else if code[h.p] == ON_FAILURE_JUMP {
      PushedPlace(code, E, P, s, h.p, h.d, h.stack);
    } else if code[h.p] in {DUMMY_FAILURE_JUMP, PUSH_DUMMY_FAILURE} {
      DummyPlace(code, E, P, s, h.p, h.d, h.stack);
    } else if u != [] {
      assert h.stack + [] == h.stack;
      StepPlace(code, E, P, s, h.p, h.d, h.stack, g.p, g.d);
    }
  }

  lemma PlaceTurn(code: seq<Byte>, E: set<int>, P: set<int>, s: seq<Byte>, pos: int, h: Hunt)
    requires Safe(code, s, h) && Stands(code, E, P, s, h)
    ensures match Turned(code, s, pos, h)
            case On(g) => Stands(code, E, P, s, g)
            case Over(_) => true
  {
    if !h.live {
      if h.stack != [] {
        FailedPlace(code, E, P, s, pos, h);
      }
    } else if h.p != |code| {
      SafePerformed(code, s, h);
      PerformedPlace(code, E, P, s, h);
    }
  }

  lemma PlaceFirst(code: seq<Byte>, E: set<int>, P: set<int>, s: seq<Byte>, pos: int)
    requires Kept(code, E, P)
    ensures Stands(code, E, P, s, Outset(pos))
  {
    FlowFacts(code, Starts(code, 0), E, P, 0, |code|);
    Unguarded(code, E, P, s, 0, pos, []);
  }
}
