// When discarding failure points at the loops' back jumps loses nothing (src/rx.c:4663-4838).
module RxTame {
  import opened RxBytes
  import opened RxSyntax
  import opened RxCode
  import opened RxVm
  import opened RxMeaning
  import opened RxMatch
  import opened RxFlow
  import opened RxPops
  import opened RxRun
  import opened RxPlace

  // ---- the condition ---------------------------------------------------------------------------------

  // Control comes from the instruction at p to a place in G only with a dummy on top of the stack, with the
  // failure point of the loop that is left at x on top, or from a place in G, or back from a loop of one
  // character that has taken its own failure point off.
  predicate ClearOn(code: seq<Byte>, G: set<int>, x: int, p: int)
    requires 0 <= p < |code|
  {
    var op, next := code[p], p + Len(code, p);
    if op == PUSH_DUMMY_FAILURE then true
    else if op == ON_FAILURE_JUMP then
      p + 3 <= |code| && (p + 3 in G ==> Target(code, p) == x) && (Target(code, p) in G ==> p in G)
    else if op == DUMMY_FAILURE_JUMP then p + 3 in G && OneChar(code, p + 6) ==> p in G
    else if op == JUMP_PAST_ALT then p + 3 <= |code| && (Target(code, p) in G ==> p in G)
    else next in G ==> p in G
  }

  ghost predicate ClearAt(code: seq<Byte>, G: set<int>, x: int, p: int)
    requires 0 <= p < |code|
  {
    if code[p] == MAYBE_POP_JUMP then
      p + 3 <= |code| && (Target(code, p) in G ==> if Pops(code, p) then OneCharLoop(code, p) else p in G)
    else ClearOn(code, G, x, p)
  }

  // Whenever control is at a place in G, a dummy or the failure point of the loop that is left at x is on top.
  ghost predicate Clear(code: seq<Byte>, G: set<int>, x: int) {
    0 !in G && forall p {:trigger Peek(p)} :: Peek(p) && p in Starts(code, 0) && 0 <= p < |code| ==>
      ClearAt(code, G, x, p)
  }

  // A back jump that discards failure points finds only ones that do not matter: a loop of one character with
  // nothing in common with what follows it in the odd cases; or a loop at the end of the pattern whose body
  // leaves no failure point on top, or a dummy.
  ghost predicate TameAt(code: seq<Byte>, p: int)
    requires 0 <= p && p + 3 <= |code|
  {
    if OneCharLoop(code, p) then Odd(code, p) ==> Disjoint(code, p)
    else Skip(code, p + 3) == |code| && exists G: set<int> :: p in G && Clear(code, G, p + 3)
  }

  ghost predicate Tame(code: seq<Byte>) {
    forall p {:trigger Peek(p)} ::
      (Peek(p) && p in Starts(code, 0) && 0 <= p && p + 3 <= |code| && code[p] == MAYBE_POP_JUMP && Pops(code, p)) ==>
        TameAt(code, p)
  }

  // ---- what is on top --------------------------------------------------------------------------------

  // A dummy, or the failure point at x, no further than d.
  predicate LoopOnTop(x: int, d: int, stack: seq<Fail>) {
    stack != [] &&
    var top := stack[|stack| - 1];
    top.Dummy? || (top.p == x && top.d <= d)
  }

  // At a place in G the loop's point is on top; and around the body of a loop of one character that begins in
  // G, below that loop's own point.
  ghost predicate Firm(code: seq<Byte>, E: set<int>, G: set<int>, x: int, p: int, d: int, stack: seq<Fail>) {
    && (p in G ==> LoopOnTop(x, d, stack))
    && forall q {:trigger Peek(q)} ::
         (Peek(q) && q in E && OneChar(code, q) && (p == q || p == q + Len(code, q)) && q - 3 in G) ==>
           LoopOnTop(x, d, Cut(stack))
  }

  // Wherever the matcher is, and at every place it can resume at.
  ghost predicate AllFirm(code: seq<Byte>, E: set<int>, G: set<int>, x: int, h: Hunt) {
    && (h.live ==> Firm(code, E, G, x, h.p, h.d, h.stack))
    && forall k :: 0 <= k < |h.stack| && h.stack[k].Resume? && h.stack[k].p in G ==>
         LoopOnTop(x, h.stack[k].d, h.stack[..k])
  }

  // One point less, or one more.
  lemma FirmCut(code: seq<Byte>, E: set<int>, G: set<int>, x: int, h: Hunt, g: Hunt)
    requires AllFirm(code, E, G, x, h) && g.stack == Cut(h.stack)
    requires g.live ==> Firm(code, E, G, x, g.p, g.d, g.stack)
    ensures AllFirm(code, E, G, x, g)
  {
    forall k | 0 <= k < |g.stack| && g.stack[k].Resume? && g.stack[k].p in G
      ensures LoopOnTop(x, g.stack[k].d, g.stack[..k])
    {
      assert g.stack[k] == h.stack[k] && g.stack[..k] == h.stack[..k];
    }
  }

  lemma FirmPush(code: seq<Byte>, E: set<int>, G: set<int>, x: int, h: Hunt, g: Hunt, f: Fail)
    requires AllFirm(code, E, G, x, h) && g.stack == h.stack + [f]
    requires f.Resume? && f.p in G ==> LoopOnTop(x, f.d, h.stack)
    requires g.live ==> Firm(code, E, G, x, g.p, g.d, g.stack)
    ensures AllFirm(code, E, G, x, g)
  {
    forall k | 0 <= k < |g.stack| && g.stack[k].Resume? && g.stack[k].p in G
      ensures LoopOnTop(x, g.stack[k].d, g.stack[..k])
    {
      if k < |h.stack| {
        assert g.stack[k] == h.stack[k] && g.stack[..k] == h.stack[..k];
      } else {
        assert g.stack[..k] == h.stack;
      }
    }
  }

  lemma FirmSame(code: seq<Byte>, E: set<int>, G: set<int>, x: int, h: Hunt, g: Hunt)
    requires AllFirm(code, E, G, x, h) && g.stack == h.stack
    requires g.live ==> Firm(code, E, G, x, g.p, g.d, g.stack)
    ensures AllFirm(code, E, G, x, g)
  {
  }

  // Away from the loops of one character.
  lemma FirmOut(code: seq<Byte>, E: set<int>, P: set<int>, G: set<int>, x: int, p: int, d: int, stack: seq<Fail>)
    requires Kept(code, E, P) && p !in P && (p in G ==> LoopOnTop(x, d, stack))
    ensures Firm(code, E, G, x, p, d, stack)
  {
    assert Peek(0);
  }

  lemma ClearHere(code: seq<Byte>, G: set<int>, x: int, p: int)
    requires Clear(code, G, x) && p in Starts(code, 0) && 0 <= p < |code|
    ensures ClearAt(code, G, x, p)
  {
    assert Peek(p);
  }

  lemma FailedFirm(code: seq<Byte>, E: set<int>, P: set<int>, G: set<int>, x: int, s: seq<Byte>, pos: int, h: Hunt)
    requires Safe(code, s, h) && Stands(code, E, P, s, h) && AllFirm(code, E, G, x, h) && !h.live && h.stack != []
    ensures Failed(code, pos, h).On? && AllFirm(code, E, G, x, Failed(code, pos, h).h)
  {
    SafeFailed(code, s, pos, h);
    var g, top, k := Failed(code, pos, h).h, h.stack[|h.stack| - 1], |h.stack| - 1;
    if g.live {
      assert h.stack[..k] == g.stack;
      FirmOut(code, E, P, G, x, g.p, g.d, g.stack);
    }
    FirmCut(code, E, G, x, h, g);
  }

  // Where control is to go on from, and what is known of the instruction there.
  ghost predicate Here(code: seq<Byte>, E: set<int>, P: set<int>, G: set<int>, x: int, h: Hunt) {
    && Kept(code, E, P) && h.live && h.p in Starts(code, 0) && 0 <= h.p < |code| && ClearAt(code, G, x, h.p)
    && Legal(code, h.p)
  }

  // The body of a loop, and the jump after it.
  lemma BodyIs(code: seq<Byte>, E: set<int>, P: set<int>, q: int)
    requires Kept(code, E, P) && q in E
    ensures LoopBody(code, P, q) && q in P
  {
    assert Peek(0) && Peek(q);
  }

  // Only the instruction before it, or the body itself, comes to the body of a loop or the jump after it.
  lemma BodyApart(code: seq<Byte>, E: set<int>, P: set<int>, q: int, p: int)
    requires Kept(code, E, P) && q in E && OneChar(code, q) && p in Starts(code, 0) && 0 <= p < |code|
    requires p + Len(code, p) == q || p + Len(code, p) == q + Len(code, q)
    ensures p == q || (p != q && code[p] == ON_FAILURE_JUMP ==> p == q - 3)
  {
    assert Peek(0) && Peek(p) && Peek(q);
    assert LoopBody(code, P, q);
  }

  // A failure jump leaves its point, which is the loop's own where that is wanted.
  lemma PushFirm(code: seq<Byte>, E: set<int>, P: set<int>, G: set<int>, x: int, s: seq<Byte>, h: Hunt)
    requires Here(code, E, P, G, x, h) && AllFirm(code, E, G, x, h) && code[h.p] == ON_FAILURE_JUMP
    ensures AllFirm(code, E, G, x, Performed(code, s, h))
  {
    var g, f := Performed(code, s, h), Resume(Target(code, h.p), h.d);
    assert Cut(g.stack) == h.stack;
    forall q {:trigger Peek(q)} | Peek(q) && q in E && OneChar(code, q) && (g.p == q || g.p == q + Len(code, q))
      && q - 3 in G ensures LoopOnTop(x, g.d, h.stack)
    {
      NotAfterBody(code, E, P, q, h.p);
    }
    FirmPush(code, E, G, x, h, g, f);
  }

  lemma NotAfterBody(code: seq<Byte>, E: set<int>, P: set<int>, q: int, p: int)
    requires Kept(code, E, P) && q in E && OneChar(code, q) && p in Starts(code, 0) && 0 <= p < |code|
    requires code[p] == ON_FAILURE_JUMP && (p + 3 == q || p + 3 == q + Len(code, q))
    ensures p == q - 3
  {
    BodyIs(code, E, P, q);
    BodyApart(code, E, P, q, p);
  }

  // A dummy on top is what is wanted anywhere but below a loop's own point.
  lemma DummyFirm(code: seq<Byte>, E: set<int>, P: set<int>, G: set<int>, x: int, s: seq<Byte>, h: Hunt)
    requires Here(code, E, P, G, x, h) && AllFirm(code, E, G, x, h)
    requires code[h.p] in {DUMMY_FAILURE_JUMP, PUSH_DUMMY_FAILURE}
    ensures AllFirm(code, E, G, x, Performed(code, s, h))
  {
    var g := Performed(code, s, h);
    assert Cut(g.stack) == h.stack;
    DummyLands(code, E, P, h.p, g.p);
    forall q {:trigger Peek(q)} | Peek(q) && q in E && OneChar(code, q) && (g.p == q || g.p == q + Len(code, q))
      && q - 3 in G ensures LoopOnTop(x, g.d, h.stack)
    {
      OneBody(code, E, P, q, g.p);
      assert h.p in G;
    }
    FirmPush(code, E, G, x, h, g, Dummy);
  }

  // Where an instruction that leaves a dummy leads: to no jump after a body.
  lemma DummyLands(code: seq<Byte>, E: set<int>, P: set<int>, p: int, t: int)
    requires Kept(code, E, P) && p in Starts(code, 0) && 0 <= p < |code| && Legal(code, p)
    requires (code[p] == DUMMY_FAILURE_JUMP && t == Target(code, p)) || (code[p] == PUSH_DUMMY_FAILURE && t == p + 1)
    ensures t in P ==> t in E && code[p] == DUMMY_FAILURE_JUMP
  {
    FlowIn(code, Starts(code, 0), E, P, 0, |code|, p);
    if p in E {
      BodyIs(code, E, P, p);
    }
  }

  // A body is not the jump after another.
  lemma OneBody(code: seq<Byte>, E: set<int>, P: set<int>, q: int, t: int)
    requires Kept(code, E, P) && q in E && OneChar(code, q) && (t in P ==> t in E)
    requires t == q || t == q + Len(code, q)
    ensures t == q && q in P
  {
    BodyIs(code, E, P, q);
    if t != q {
      BodyIs(code, E, P, t);
    }
  }

  // A back jump.
  lemma BackFirm(code: seq<Byte>, E: set<int>, P: set<int>, G: set<int>, x: int, s: seq<Byte>, h: Hunt)
    requires Here(code, E, P, G, x, h) && AllFirm(code, E, G, x, h) && code[h.p] == MAYBE_POP_JUMP
    ensures AllFirm(code, E, G, x, Performed(code, s, h))
  {
    var g := Performed(code, s, h);
    BackLands(code, E, P, h.p);
    if Pops(code, h.p) {
      if g.p in G {
        BelowOwn(code, E, P, G, x, h);
      }
      FirmOut(code, E, P, G, x, g.p, g.d, g.stack);
      FirmCut(code, E, G, x, h, g);
    } else {
      FirmOut(code, E, P, G, x, g.p, g.d, g.stack);
      FirmSame(code, E, G, x, h, g);
    }
  }

  lemma BackLands(code: seq<Byte>, E: set<int>, P: set<int>, p: int)
    requires Kept(code, E, P) && p in Starts(code, 0) && 0 <= p < |code| && code[p] == MAYBE_POP_JUMP
    ensures p + 3 <= |code| && Target(code, p) !in P
    ensures OneCharLoop(code, p) ==> Target(code, p) + 3 in E
  {
    FlowIn(code, Starts(code, 0), E, P, 0, |code|, p);
  }

  // Below the own point of a loop of one character.
  lemma BelowOwn(code: seq<Byte>, E: set<int>, P: set<int>, G: set<int>, x: int, h: Hunt)
    requires Here(code, E, P, G, x, h) && AllFirm(code, E, G, x, h) && code[h.p] == MAYBE_POP_JUMP
    requires Pops(code, h.p) && Target(code, h.p) in G
    ensures LoopOnTop(x, h.d, Cut(h.stack))
  {
    BackLands(code, E, P, h.p);
    assert Peek(Target(code, h.p) + 3);
  }

  // Any other instruction.
  lemma StepFirm(code: seq<Byte>, E: set<int>, P: set<int>, G: set<int>, x: int, s: seq<Byte>, h: Hunt)
    requires Here(code, E, P, G, x, h) && AllFirm(code, E, G, x, h) && 0 <= h.d
    requires code[h.p] !in {ON_FAILURE_JUMP, DUMMY_FAILURE_JUMP, PUSH_DUMMY_FAILURE, MAYBE_POP_JUMP}
    ensures AllFirm(code, E, G, x, Performed(code, s, h))
  {
    var u, g := Succ(code, s, h.p, h.d), Performed(code, s, h);
    assert h.stack + [] == h.stack;
    if u != [] {
      if h.p in E {
        InBodyLands(code, E, P, s, h.p, h.d);
        BodyFirm(code, E, P, G, x, s, h);
      } else {
        OutsideLands(code, E, P, s, h.p, h.d);
        FirmOut(code, E, P, G, x, g.p, g.d, g.stack);
      }
    }
    FirmSame(code, E, G, x, h, g);
  }

  // Where an instruction leads that neither jumps nor leaves a failure point.
  lemma NextLands(code: seq<Byte>, s: seq<Byte>, p: int, d: int)
    requires Legal(code, p) && 0 <= d && Succ(code, s, p, d) != []
    requires code[p] !in {ON_FAILURE_JUMP, DUMMY_FAILURE_JUMP, PUSH_DUMMY_FAILURE, MAYBE_POP_JUMP, JUMP_PAST_ALT}
    ensures var v := Succ(code, s, p, d)[0]; v.p == p + Len(code, p) && d <= v.d
  {
  }

  lemma PastLands(code: seq<Byte>, s: seq<Byte>, p: int, d: int)
    requires Legal(code, p) && code[p] == JUMP_PAST_ALT
    ensures Succ(code, s, p, d) == [Point(Target(code, p), d)]
  {
  }

  lemma NotInBody(code: seq<Byte>, E: set<int>, P: set<int>, p: int)
    requires Kept(code, E, P) && p in Starts(code, 0) && 0 <= p < |code| && p !in E
    requires code[p] !in {ON_FAILURE_JUMP, DUMMY_FAILURE_JUMP}
    ensures p + Len(code, p) !in P && (code[p] == JUMP_PAST_ALT ==> p + 3 <= |code| && Target(code, p) !in P)
  {
    FlowIn(code, Starts(code, 0), E, P, 0, |code|, p);
  }

  lemma InBodyLands(code: seq<Byte>, E: set<int>, P: set<int>, s: seq<Byte>, p: int, d: int)
    requires Kept(code, E, P) && p in E && Legal(code, p) && 0 <= d && Succ(code, s, p, d) != []
    ensures var v := Succ(code, s, p, d)[0]; OneChar(code, p) && v.p == p + Len(code, p) && d <= v.d
  {
    BodyIs(code, E, P, p);
    NextLands(code, s, p, d);
  }

  lemma OutsideLands(code: seq<Byte>, E: set<int>, P: set<int>, s: seq<Byte>, p: int, d: int)
    requires Kept(code, E, P) && p in Starts(code, 0) && p !in E && Legal(code, p) && 0 <= d
    requires code[p] !in {ON_FAILURE_JUMP, DUMMY_FAILURE_JUMP, PUSH_DUMMY_FAILURE, MAYBE_POP_JUMP}
    requires Succ(code, s, p, d) != []
    ensures var v := Succ(code, s, p, d)[0]; v.p !in P && d <= v.d
  {
    NotInBody(code, E, P, p);
    if code[p] == JUMP_PAST_ALT {
      PastLands(code, s, p, d);
    } else {
      NextLands(code, s, p, d);
    }
  }

  // The body of a loop of one character.
  lemma BodyFirm(code: seq<Byte>, E: set<int>, P: set<int>, G: set<int>, x: int, s: seq<Byte>, h: Hunt)
    requires Here(code, E, P, G, x, h) && AllFirm(code, E, G, x, h) && h.p in E && OneChar(code, h.p)
    requires var g := Performed(code, s, h);
             g.live && h.d <= g.d && g.stack == h.stack && g.p == h.p + Len(code, h.p)
    requires code[h.p] != MAYBE_POP_JUMP
    ensures var g := Performed(code, s, h); Firm(code, E, G, x, g.p, g.d, g.stack)
  {
    var g := Performed(code, s, h);
    AfterBody(code, E, P, G, x, h.p);
    forall q {:trigger Peek(q)} | Peek(q) && q in E && OneChar(code, q) && (g.p == q || g.p == q + Len(code, q))
      && q - 3 in G ensures LoopOnTop(x, g.d, Cut(g.stack))
    {
      SameBody(code, E, P, q, h.p);
    }
  }

  // The jump after a body is a place in G only if the body is.
  lemma AfterBody(code: seq<Byte>, E: set<int>, P: set<int>, G: set<int>, x: int, q: int)
    requires Kept(code, E, P) && q in E && 0 <= q < |code| && ClearAt(code, G, x, q)
    ensures q + Len(code, q) in G ==> q in G
  {
    BodyIs(code, E, P, q);
  }

  lemma SameBody(code: seq<Byte>, E: set<int>, P: set<int>, q: int, p: int)
    requires Kept(code, E, P) && q in E && p in E && OneChar(code, q) && OneChar(code, p)
    requires p + Len(code, p) == q || p + Len(code, p) == q + Len(code, q)
    ensures q == p
  {
    BodyIs(code, E, P, q);
    BodyIs(code, E, P, p);
    assert Peek(0) && Peek(p) && Peek(q);
  }

  lemma FirmTurn(code: seq<Byte>, E: set<int>, P: set<int>, G: set<int>, x: int, s: seq<Byte>, pos: int, h: Hunt)
    requires Safe(code, s, h) && Stands(code, E, P, s, h) && Clear(code, G, x) && AllFirm(code, E, G, x, h)
    ensures match Turned(code, s, pos, h)
            case On(g) => AllFirm(code, E, G, x, g)
            case Over(_) => true
  {
    if !h.live {
      if h.stack != [] {
        FailedFirm(code, E, P, G, x, s, pos, h);
      }
    } else if h.p == |code| {
      if !(h.d == |s| || h.stack == []) {
        FirmSame(code, E, G, x, h, Arrived(s, pos, h).h);
      }
    } else {
      SafePerformed(code, s, h);
      FlowIn(code, Starts(code, 0), E, P, 0, |code|, h.p);
      ClearHere(code, G, x, h.p);
      if code[h.p] == MAYBE_POP_JUMP {
        BackFirm(code, E, P, G, x, s, h);
      } else if code[h.p] == ON_FAILURE_JUMP {
        PushFirm(code, E, P, G, x, s, h);
      } else if code[h.p] in {DUMMY_FAILURE_JUMP, PUSH_DUMMY_FAILURE} {
        DummyFirm(code, E, P, G, x, s, h);
      } else {
        StepFirm(code, E, P, G, x, s, h);
      }
    }
  }

  // For every loop that is to be clear.
  ghost predicate Steady(code: seq<Byte>, E: set<int>, h: Hunt) {
    forall G: set<int>, x: int :: Clear(code, G, x) ==> AllFirm(code, E, G, x, h)
  }

  lemma SteadyTurn(code: seq<Byte>, E: set<int>, P: set<int>, s: seq<Byte>, pos: int, h: Hunt)
    requires Safe(code, s, h) && Stands(code, E, P, s, h) && Steady(code, E, h)
    ensures match Turned(code, s, pos, h)
            case On(g) => Steady(code, E, g)
            case Over(_) => true
  {
    if Turned(code, s, pos, h).On? {
      forall G: set<int>, x: int | Clear(code, G, x) ensures AllFirm(code, E, G, x, Turned(code, s, pos, h).h) {
        FirmTurn(code, E, P, G, x, s, pos, h);
      }
    }
  }

  lemma SteadyFirst(code: seq<Byte>, E: set<int>, P: set<int>, pos: int)
    requires Kept(code, E, P)
    ensures Steady(code, E, Outset(pos))
  {
    FlowFacts(code, Starts(code, 0), E, P, 0, |code|);
    forall G: set<int>, x: int | Clear(code, G, x) ensures AllFirm(code, E, G, x, Outset(pos)) {
      FirmOut(code, E, P, G, x, 0, pos, []);
    }
  }

  // ---- what a discarded failure point could have led to ------------------------------------------------

  // At r a character is wanted that the body at q does not accept.
  ghost predicate Refuses(code: seq<Byte>, q: int, r: int)
    requires OneChar(code, q)
  {
    || (0 <= r && r + 2 < |code| && code[r] == EXACTN && !Accepts(code, q, code[r + 2]))
    || (0 <= r && r + 2 <= |code| && code[r] == CHARSET && r + Len(code, r) <= |code|
        && forall c: Byte :: SetAccepts(code, r, c) ==> !Accepts(code, q, c))
  }

  lemma FirstSpelt(code: seq<Byte>, p: int, n: nat, s: seq<Byte>, d: int)
    requires 0 <= p && 0 < n && p + n <= |code|
    ensures Spells(code, p, n, s, d) ==> d < |s| && s[d] == code[p]
  {
    if Spells(code, p, n, s, d) {
      assert s[d..d + n][0] == code[p..p + n][0];
    }
  }

  lemma RefusedHere(code: seq<Byte>, s: seq<Byte>, q: int, r: int, d: int)
    requires OneChar(code, q) && Refuses(code, q, r) && Legal(code, r) && 0 <= d < |s| && Accepts(code, q, s[d])
    ensures Succ(code, s, r, d) == []
  {
    if code[r] == EXACTN {
      FirstSpelt(code, r + 2, code[r + 1], s, d);
    }
  }

  // Nothing that begins with a character the body accepts goes on from there.
  lemma {:induction false} DeadIn(code: seq<Byte>, s: seq<Byte>, q: int, p: int, d: int, e: int, n: nat)
    requires OneChar(code, q) && 0 <= p <= |code| && Refuses(code, q, Skip(code, p)) && 0 <= d < |s|
             && Accepts(code, q, s[d])
    ensures !ReachIn(code, s, p, d, e, n)
    decreases n
  {
    if n > 0 && p < |code| && Legal(code, p) {
      if Skip(code, p) == p {
        RefusedHere(code, s, q, p, d);
      } else {
        var t := if code[p] == DUMMY_FAILURE_JUMP then p + 6 else p + 3;
        assert Succ(code, s, p, d) == [Point(t, d)];
        DeadIn(code, s, q, t, d, e, n - 1);
      }
    }
  }

  // Up to the end of the pattern there is nothing that depends on the subject.
  lemma {:induction false} EndIn(code: seq<Byte>, s: seq<Byte>, p: int, d: int, e: int, d': int, n: nat)
    requires 0 <= p <= |code| && Skip(code, p) == |code| && ReachIn(code, s, p, d, e, n)
    ensures e == d && ReachIn(code, s, p, d', d', n)
    decreases n
  {
    if p < |code| {
      var t := if code[p] == DUMMY_FAILURE_JUMP then p + 6 else p + 3;
      assert Succ(code, s, p, d) == [Point(t, d)] && Succ(code, s, p, d') == [Point(t, d')];
      EndIn(code, s, t, d, e, d', n - 1);
      assert Succ(code, s, p, d')[0].p == t && Succ(code, s, p, d')[0].d == d';
    }
  }

  // A way on from the failure point of the round before means that the pattern ends there.
  lemma OnlyEnd(code: seq<Byte>, s: seq<Byte>, p: int, d: int, e: int, n: nat)
    requires OneCharLoop(code, p) && Disjoint(code, p) && 0 <= d < |s| && Accepts(code, Target(code, p) + 3, s[d])
    requires ReachIn(code, s, p + 3, d, e, n)
    ensures Skip(code, p + 3) == |code|
  {
    var q, r := Target(code, p) + 3, Skip(code, p + 3);
    assert r == |code| || Refuses(code, q, r);
    if r != |code| {
      DeadIn(code, s, q, p + 3, d, e, n);
    }
  }

  // The failure point of the round before would have led to no end further than one the loop still leads to.
  lemma Discarded(code: seq<Byte>, s: seq<Byte>, p: int, d: int, e: int)
    requires OneCharLoop(code, p) && Disjoint(code, p) && 0 < d <= |s| && Accepts(code, Target(code, p) + 3, s[d - 1])
    requires Legal(code, p) && Halts(code, s, p, d) && 0 <= Target(code, p) < |code|
    requires code[Target(code, p)] == ON_FAILURE_JUMP && Target(code, p) + 3 <= |code|
    requires Target(code, Target(code, p)) == p + 3
    requires Reach(code, s, p + 3, d - 1, e)
    ensures e <= d && Reach(code, s, p, d, d)
  {
    var n: nat :| ReachIn(code, s, p + 3, d - 1, e, n);
    OnlyEnd(code, s, p, d - 1, e, n);
    EndIn(code, s, p + 3, d - 1, e, d, n);
    LeftAt(code, s, p, d, d);
  }

  // Where the loop can be left, it can be gone round to be left.
  lemma LeftAt(code: seq<Byte>, s: seq<Byte>, p: int, d: int, e: int)
    requires Legal(code, p) && code[p] == MAYBE_POP_JUMP && Halts(code, s, p, d) && 0 <= Target(code, p) < |code|
    requires code[Target(code, p)] == ON_FAILURE_JUMP && Target(code, p) + 3 <= |code|
    requires Target(code, Target(code, p)) == p + 3 && Reach(code, s, p + 3, d, e)
    ensures Reach(code, s, p, d, e)
  {
    var l := Target(code, p);
    CostStep(code, s, p, d);
    var u := Succ(code, s, p, d);
    assert u == [Point(l, d)] && u[0].p == l && u[0].d == d;
    CostStep(code, s, l, d);
    var v := Succ(code, s, l, d);
    assert v == [Point(l + 3, d), Point(p + 3, d)] && v[1].p == p + 3 && v[1].d == d;
    ReachStep(code, s, l, d, e);
    ReachStep(code, s, p, d, e);
  }

  // ---- the search ----------------------------------------------------------------------------------------

  // An end the run still has in view: ahead of where it is, ahead of a failure point, or below the best so far.
  ghost predicate InView(code: seq<Byte>, s: seq<Byte>, h: Hunt, e: int) {
    (h.live && Reach(code, s, h.p, h.d, e)) || Held(code, s, h.stack, e) || (h.found && e <= h.best)
  }

  // What is in view is there.
  ghost predicate Real(code: seq<Byte>, s: seq<Byte>, pos: int, h: Hunt) {
    && Safe(code, s, h)
    && (forall e :: h.live && Reach(code, s, h.p, h.d, e) ==> Reach(code, s, 0, pos, e))
    && (forall e :: Held(code, s, h.stack, e) ==> Reach(code, s, 0, pos, e))
    && (h.found ==> Reach(code, s, 0, pos, h.best))
  }

  // An end as far as e or further is in view.
  ghost predicate Ahead(code: seq<Byte>, s: seq<Byte>, h: Hunt, e: int) {
    exists f :: e <= f && InView(code, s, h, f)
  }

  // Whatever h has in view, g has in view, or something further.
  ghost predicate Wider(code: seq<Byte>, s: seq<Byte>, h: Hunt, g: Hunt) {
    forall e {:trigger Peek(e)} :: Peek(e) && InView(code, s, h, e) ==> Ahead(code, s, g, e)
  }

  // Every end, or one further, is in view.
  ghost predicate Seeks(code: seq<Byte>, s: seq<Byte>, pos: int, h: Hunt) {
    forall e {:trigger Peek(e)} :: Peek(e) && Reach(code, s, 0, pos, e) ==> Ahead(code, s, h, e)
  }

  lemma SeeksOn(code: seq<Byte>, s: seq<Byte>, pos: int, h: Hunt, g: Hunt)
    requires Seeks(code, s, pos, h) && Wider(code, s, h, g)
    ensures Seeks(code, s, pos, g)
  {
    forall e {:trigger Peek(e)} | Peek(e) && Reach(code, s, 0, pos, e) ensures Ahead(code, s, g, e) {
      var f :| e <= f && InView(code, s, h, f);
      assert Peek(f);
      var k :| f <= k && InView(code, s, g, k);
    }
  }

  // The same in view, and nothing else.
  ghost predicate SameView(code: seq<Byte>, s: seq<Byte>, h: Hunt, g: Hunt) {
    && h.found == g.found && h.best == g.best
    && forall e :: ((h.live && Reach(code, s, h.p, h.d, e)) || Held(code, s, h.stack, e))
                   <==> ((g.live && Reach(code, s, g.p, g.d, e)) || Held(code, s, g.stack, e))
  }

  lemma ViewOn(code: seq<Byte>, s: seq<Byte>, pos: int, h: Hunt, g: Hunt)
    requires Real(code, s, pos, h) && Safe(code, s, g) && SameView(code, s, h, g)
    ensures Real(code, s, pos, g) && Wider(code, s, h, g)
  {
    forall e {:trigger Peek(e)} | Peek(e) && InView(code, s, h, e) ensures Ahead(code, s, g, e) {
      assert InView(code, s, g, e);
    }
  }

  // What an instruction that is no back jump leads to.
  lemma StepReach(code: seq<Byte>, s: seq<Byte>, h: Hunt, e: int)
    requires h.p != |code| && Legal(code, h.p) && code[h.p] != MAYBE_POP_JUMP && h.live
    ensures var g := Performed(code, s, h);
            Reach(code, s, h.p, h.d, e) <==>
              (g.live && Reach(code, s, g.p, g.d, e))
              || (code[h.p] == ON_FAILURE_JUMP && Reach(code, s, Target(code, h.p), h.d, e))
  {
    var u := Succ(code, s, h.p, h.d);
    ReachStep(code, s, h.p, h.d, e);
    if code[h.p] == ON_FAILURE_JUMP {
      assert u == [Point(h.p + 3, h.d), Point(Target(code, h.p), h.d)];
      assert u[0].p == h.p + 3 && u[1].p == Target(code, h.p) && u[1].d == h.d;
    }
  }

  // And what it leaves.
  lemma StepHeld(code: seq<Byte>, s: seq<Byte>, h: Hunt, e: int)
    requires Safe(code, s, h) && h.live && h.p != |code| && Legal(code, h.p) && code[h.p] != MAYBE_POP_JUMP
    ensures Held(code, s, Performed(code, s, h).stack, e) <==>
              Held(code, s, h.stack, e)
              || (code[h.p] == ON_FAILURE_JUMP && Reach(code, s, Target(code, h.p), h.d, e))
  {
    var u := Succ(code, s, h.p, h.d);
    CostStep(code, s, h.p, h.d);
    if u == [] {
    } else if code[h.p] == ON_FAILURE_JUMP {
      assert u[1].p == Target(code, h.p) && u[1].d == h.d;
      LegalAt(code, s, u[1].p, u[1].d);
      Pushed(code, s, h.stack, Resume(Target(code, h.p), h.d));
    } else if code[h.p] in {DUMMY_FAILURE_JUMP, PUSH_DUMMY_FAILURE} {
      Pushed(code, s, h.stack, Dummy);
    } else {
      assert h.stack + [] == h.stack;
    }
  }

  lemma StepView(code: seq<Byte>, s: seq<Byte>, h: Hunt)
    requires Safe(code, s, h) && h.live && h.p != |code| && Legal(code, h.p) && code[h.p] != MAYBE_POP_JUMP
    ensures SameView(code, s, h, Performed(code, s, h))
  {
    var g := Performed(code, s, h);
    forall e
      ensures (Reach(code, s, h.p, h.d, e) || Held(code, s, h.stack, e))
              <==> ((g.live && Reach(code, s, g.p, g.d, e)) || Held(code, s, g.stack, e))
    {
      StepReach(code, s, h, e);
      StepHeld(code, s, h, e);
    }
  }

  lemma FailedView(code: seq<Byte>, s: seq<Byte>, pos: int, h: Hunt)
    requires Safe(code, s, h) && !h.live && h.stack != []
    ensures Failed(code, pos, h).On? && SameView(code, s, h, Failed(code, pos, h).h)
  {
    SafeFailed(code, s, pos, h);
    StackCut(code, s, h.stack);
    var g, k := Failed(code, pos, h).h, |h.stack| - 1;
    if g.live {
      forall e | Reach(code, s, g.p, g.d, e) ensures Held(code, s, h.stack, e) {
        assert h.stack[k].Resume? && Reach(code, s, h.stack[k].p, h.stack[k].d, e);
      }
    }
  }

  // The end of the code.
  lemma ArrivedView(code: seq<Byte>, s: seq<Byte>, pos: int, h: Hunt)
    requires Real(code, s, pos, h) && h.live && h.p == |code|
    ensures Reach(code, s, 0, pos, Better(h))
    ensures match Arrived(s, pos, h)
            case On(g) => Real(code, s, pos, g) && Wider(code, s, h, g)
            case Over(r) => h.d == |s| || forall e :: InView(code, s, h, e) ==> e <= pos + r
  {
    ReachEnd(code, s, h.d, h.d);
    forall e | Reach(code, s, h.p, h.d, e) ensures e == h.d {
      ReachEnd(code, s, h.d, e);
    }
    if Arrived(s, pos, h).On? {
      var g := Arrived(s, pos, h).h;
      forall e {:trigger Peek(e)} | Peek(e) && InView(code, s, h, e) ensures Ahead(code, s, g, e) {
        assert InView(code, s, g, e);
      }
    }
  }

  // ---- back jumps ----------------------------------------------------------------------------------------

  // Whether the failure point on top is kept or taken off, nothing is seen that is not there.
  lemma BackReal(code: seq<Byte>, s: seq<Byte>, pos: int, h: Hunt)
    requires Real(code, s, pos, h) && h.live && 0 <= h.p < |code| && code[h.p] == MAYBE_POP_JUMP && Legal(code, h.p)
    ensures Real(code, s, pos, Performed(code, s, h))
  {
    SafePerformed(code, s, h);
    Jumped(code, s, h.p, h.d);
    if h.stack != [] {
      StackCut(code, s, h.stack);
    }
  }

  lemma JumpView(code: seq<Byte>, s: seq<Byte>, h: Hunt)
    requires Safe(code, s, h) && h.live && 0 <= h.p < |code| && code[h.p] == MAYBE_POP_JUMP && Legal(code, h.p)
    requires !Pops(code, h.p)
    ensures SameView(code, s, h, Performed(code, s, h))
  {
    Jumped(code, s, h.p, h.d);
  }

  // What is known at the jump of a loop that discards: the point on top is a dummy, or the loop's own, and that
  // one leads to no end further than one the loop still leads to.
  ghost predicate Spent(code: seq<Byte>, s: seq<Byte>, h: Hunt) {
    h.stack != [] &&
    var top := h.stack[|h.stack| - 1];
    top.Resume? ==> forall e :: Reach(code, s, top.p, top.d, e) ==> e <= h.d && Reach(code, s, h.p, h.d, h.d)
  }

  lemma LoopFacts(code: seq<Byte>, E: set<int>, P: set<int>, s: seq<Byte>, h: Hunt)
    requires Safe(code, s, h) && Stands(code, E, P, s, h) && h.live && 0 <= h.p < |code|
             && code[h.p] == MAYBE_POP_JUMP
    ensures h.p + 3 <= |code| && Legal(code, h.p)
    ensures var l := Target(code, h.p);
            && 0 <= l && l + 3 <= |code| && code[l] == ON_FAILURE_JUMP && Target(code, l) == h.p + 3
  {
    SafePerformed(code, s, h);
    FlowIn(code, Starts(code, 0), E, P, 0, |code|, h.p);
    FlowIn(code, Starts(code, 0), E, P, 0, |code|, Target(code, h.p));
  }

  // At the jump of a loop of one character its own point is on top, or a dummy.
  lemma OwnIs(code: seq<Byte>, E: set<int>, P: set<int>, s: seq<Byte>, h: Hunt)
    requires Stands(code, E, P, s, h) && h.live && 0 <= h.p < |code| && OneCharLoop(code, h.p)
    ensures OwnOnTop(code, s, Target(code, h.p) + 3, h.p, h.d, h.stack)
  {
    BackLands(code, E, P, h.p);
    var q := Target(code, h.p) + 3;
    assert Peek(q);
  }

  // A loop of one character.
  lemma CharSpent(code: seq<Byte>, E: set<int>, P: set<int>, s: seq<Byte>, h: Hunt)
    requires Safe(code, s, h) && Stands(code, E, P, s, h) && h.live && 0 <= h.p < |code|
    requires OneCharLoop(code, h.p) && Disjoint(code, h.p)
    ensures Spent(code, s, h)
  {
    LoopFacts(code, E, P, s, h);
    OwnIs(code, E, P, s, h);
    var top := h.stack[|h.stack| - 1];
    if top.Resume? {
      forall e | Reach(code, s, top.p, top.d, e) ensures e <= h.d && Reach(code, s, h.p, h.d, h.d) {
        Discarded(code, s, h.p, h.d, e);
      }
    }
  }

  // A loop at the end of the pattern.
  lemma EndSpent(code: seq<Byte>, E: set<int>, P: set<int>, s: seq<Byte>, h: Hunt, G: set<int>)
    requires Safe(code, s, h) && Stands(code, E, P, s, h) && h.live && 0 <= h.p < |code|
             && code[h.p] == MAYBE_POP_JUMP && h.p + 3 <= |code|
    requires Skip(code, h.p + 3) == |code| && h.p in G && Firm(code, E, G, h.p + 3, h.p, h.d, h.stack)
    ensures Spent(code, s, h)
  {
    LoopFacts(code, E, P, s, h);
    var top := h.stack[|h.stack| - 1];
    if top.Resume? {
      forall e | Reach(code, s, top.p, top.d, e) ensures e <= h.d && Reach(code, s, h.p, h.d, h.d) {
        var n: nat :| ReachIn(code, s, h.p + 3, top.d, e, n);
        EndIn(code, s, h.p + 3, top.d, e, h.d, n);
        LeftAt(code, s, h.p, h.d, h.d);
      }
    }
  }

  // What there is to read before and after a loop is complete.
  lemma ReadableIs(code: seq<Byte>, E: set<int>, P: set<int>, p: int)
    requires Kept(code, E, P) && p in Starts(code, 0) && OneCharLoop(code, p)
    ensures Readable(code, p)
  {
    var S, q, r := Starts(code, 0), Target(code, p) + 3, Skip(code, p + 3);
    FlowIn(code, S, E, P, 0, |code|, p);
    FlowIn(code, S, E, P, 0, |code|, Target(code, p));
    FlowIn(code, S, E, P, 0, |code|, q);
    SkipStays(code, E, P, p + 3);
    if r < |code| {
      FlowIn(code, S, E, P, 0, |code|, r);
    }
  }

  lemma {:induction false} SkipStays(code: seq<Byte>, E: set<int>, P: set<int>, p: int)
    requires Kept(code, E, P) && p in Starts(code, 0) + {|code|} && 0 <= p <= |code|
    ensures Skip(code, p) in Starts(code, 0) + {|code|}
    decreases |code| - p
  {
    if p < |code| {
      FlowIn(code, Starts(code, 0), E, P, 0, |code|, p);
      if p + 2 < |code| && code[p] in {STOP_MEMORY, START_MEMORY} {
        SkipStays(code, E, P, p + 3);
      } else if p + 6 < |code| && code[p] == DUMMY_FAILURE_JUMP {
        SkipStays(code, E, P, p + 6);
      }
    }
  }

  // In tame code a back jump discards nothing that is wanted.
  lemma TameSpent(code: seq<Byte>, E: set<int>, P: set<int>, s: seq<Byte>, h: Hunt)
    requires Safe(code, s, h) && Stands(code, E, P, s, h) && Steady(code, E, h) && Tame(code) && h.live
    requires 0 <= h.p < |code| && code[h.p] == MAYBE_POP_JUMP && h.p + 3 <= |code| && Pops(code, h.p)
    ensures Spent(code, s, h)
  {
    assert Peek(h.p) && TameAt(code, h.p);
    if OneCharLoop(code, h.p) {
      if !Odd(code, h.p) {
        ReadableIs(code, E, P, h.p);
        PopsExactly(code, h.p);
      }
      CharSpent(code, E, P, s, h);
    } else {
      var G: set<int> :| h.p in G && Clear(code, G, h.p + 3);
      assert AllFirm(code, E, G, h.p + 3, h);
      EndSpent(code, E, P, s, h, G);
    }
  }

  lemma PopView(code: seq<Byte>, s: seq<Byte>, h: Hunt)
    requires Safe(code, s, h) && h.live && 0 <= h.p < |code| && code[h.p] == MAYBE_POP_JUMP && Legal(code, h.p)
    requires Pops(code, h.p) && Spent(code, s, h)
    ensures Wider(code, s, h, Performed(code, s, h))
  {
    var g := Performed(code, s, h);
    Jumped(code, s, h.p, h.d);
    StackCut(code, s, h.stack);
    forall e {:trigger Peek(e)} | Peek(e) && InView(code, s, h, e) ensures Ahead(code, s, g, e) {
      if InView(code, s, g, e) {
        assert Ahead(code, s, g, e);
      } else {
        assert InView(code, s, g, h.d);
      }
    }
  }

  // ---- whole runs ----------------------------------------------------------------------------------------

  lemma RealTurn(code: seq<Byte>, s: seq<Byte>, pos: int, h: Hunt)
    requires Real(code, s, pos, h)
    ensures match Turned(code, s, pos, h)
            case On(g) => Real(code, s, pos, g)
            case Over(r) => r == -1 || Reach(code, s, 0, pos, pos + r)
  {
    if !h.live {
      if h.stack != [] {
        SafeFailed(code, s, pos, h);
        FailedView(code, s, pos, h);
        ViewOn(code, s, pos, h, Failed(code, pos, h).h);
      }
    } else if h.p == |code| {
      ArrivedView(code, s, pos, h);
    } else {
      SafePerformed(code, s, h);
      if code[h.p] == MAYBE_POP_JUMP {
        BackReal(code, s, pos, h);
      } else {
        StepView(code, s, h);
        ViewOn(code, s, pos, h, Performed(code, s, h));
      }
    }
  }

  // The run in tame code, at h.
  ghost predicate Good(code: seq<Byte>, E: set<int>, P: set<int>, s: seq<Byte>, pos: int, h: Hunt) {
    Real(code, s, pos, h) && Stands(code, E, P, s, h) && Steady(code, E, h) && Seeks(code, s, pos, h)
  }

  lemma SeeksTurn(code: seq<Byte>, E: set<int>, P: set<int>, s: seq<Byte>, pos: int, h: Hunt)
    requires Good(code, E, P, s, pos, h) && Tame(code) && Turned(code, s, pos, h).On?
    ensures Seeks(code, s, pos, Turned(code, s, pos, h).h)
  {
    var g := Turned(code, s, pos, h).h;
    if !h.live {
      SafeFailed(code, s, pos, h);
      FailedView(code, s, pos, h);
      ViewOn(code, s, pos, h, g);
    } else if h.p == |code| {
      ArrivedView(code, s, pos, h);
    } else {
      SafePerformed(code, s, h);
      if code[h.p] != MAYBE_POP_JUMP {
        StepView(code, s, h);
        ViewOn(code, s, pos, h, g);
      } else if Pops(code, h.p) {
        TameSpent(code, E, P, s, h);
        PopView(code, s, h);
      } else {
        JumpView(code, s, h);
        ViewOn(code, s, pos, h, g);
      }
    }
    SeeksOn(code, s, pos, h, g);
  }

  // What the run ends with is the longest end there is.
  lemma LastTurn(code: seq<Byte>, s: seq<Byte>, pos: int, h: Hunt)
    requires Real(code, s, pos, h) && Seeks(code, s, pos, h) && Turned(code, s, pos, h).Over?
    requires forall e :: Reach(code, s, 0, pos, e) ==> pos <= e <= |s|
    ensures Longest(code, s, pos, Turned(code, s, pos, h).r)
  {
    var r := Turned(code, s, pos, h).r;
    RealTurn(code, s, pos, h);
    if h.live && h.p != |code| {
      SafePerformed(code, s, h);
    } else if h.live {
      ArrivedView(code, s, pos, h);
    }
    forall e | Reach(code, s, 0, pos, e) ensures r != -1 && e <= pos + r {
      assert Peek(e);
      var f :| e <= f && InView(code, s, h, f);
    }
  }

  lemma {:induction false} GoodEnds(code: seq<Byte>, E: set<int>, P: set<int>, s: seq<Byte>, pos: int, h: Hunt, n: nat,
                                    r: int)
    requires Good(code, E, P, s, pos, h) && Tame(code) && After(code, s, pos, h, n) == Over(r)
    requires forall e :: Reach(code, s, 0, pos, e) ==> pos <= e <= |s|
    ensures Longest(code, s, pos, r)
    decreases n
  {
    if Turned(code, s, pos, h).On? {
      RealTurn(code, s, pos, h);
      PlaceTurn(code, E, P, s, pos, h);
      SteadyTurn(code, E, P, s, pos, h);
      SeeksTurn(code, E, P, s, pos, h);
      GoodEnds(code, E, P, s, pos, Turned(code, s, pos, h).h, n - 1, r);
    } else {
      LastTurn(code, s, pos, h);
    }
  }

  lemma {:induction false} RealEnds(code: seq<Byte>, s: seq<Byte>, pos: int, h: Hunt, n: nat, r: int)
    requires Real(code, s, pos, h) && After(code, s, pos, h, n) == Over(r)
    ensures r == -1 || Reach(code, s, 0, pos, pos + r)
    decreases n
  {
    RealTurn(code, s, pos, h);
    if Turned(code, s, pos, h).On? {
      RealEnds(code, s, pos, Turned(code, s, pos, h).h, n - 1, r);
    }
  }

  lemma RealFirst(code: seq<Byte>, s: seq<Byte>, pos: int)
    requires 0 <= pos && Halts(code, s, 0, pos)
    ensures Real(code, s, pos, Outset(pos)) && Seeks(code, s, pos, Outset(pos))
  {
    SafeFirst(code, s, pos);
    forall e {:trigger Peek(e)} | Peek(e) && Reach(code, s, 0, pos, e) ensures Ahead(code, s, Outset(pos), e) {
      assert InView(code, s, Outset(pos), e);
    }
  }

  // ---- on a compiled pattern -------------------------------------------------------------------------------

  // Whatever the rewriting does, a length found is that of a prefix in the language.
  lemma YieldsPrefix(alts: seq<Branch>, s: seq<Byte>, pos: int, r: int)
    requires Runnable(alts) && 0 <= pos <= |s| && Yields(CodeAlts(alts), s, pos, r)
    ensures r == -1 || (0 <= r && MatchAlts(alts, s, pos, pos + r))
  {
    var code := CodeAlts(alts);
    WholeCode(alts, s, pos);
    RealFirst(code, s, pos);
    var n: nat :| After(code, s, pos, Outset(pos), n) == Over(r);
    RealEnds(code, s, pos, Outset(pos), n, r);
  }

  // In tame code the rewriting changes nothing: the run still ends with the longest prefix.
  lemma YieldsLongest(alts: seq<Branch>, s: seq<Byte>, pos: int, r: int)
    requires Runnable(alts) && Tame(CodeAlts(alts)) && 0 <= pos <= |s| && Yields(CodeAlts(alts), s, pos, r)
    ensures LongestPrefix(alts, s, pos, r)
  {
    var code := CodeAlts(alts);
    var E, P := WholeFlow(alts);
    WholeCode(alts, s, pos);
    RealFirst(code, s, pos);
    PlaceFirst(code, E, P, s, pos);
    SteadyFirst(code, E, P, pos);
    var n: nat :| After(code, s, pos, Outset(pos), n) == Over(r);
    GoodEnds(code, E, P, s, pos, Outset(pos), n, r);
  }

  // There is one longest prefix.
  lemma OneLongest(alts: seq<Branch>, s: seq<Byte>, pos: int, r: int, q: int)
    requires LongestPrefix(alts, s, pos, r) && LongestPrefix(alts, s, pos, q)
    ensures r == q
  {
    if r != -1 && q != -1 {
      assert MatchAlts(alts, s, pos, pos + r) && MatchAlts(alts, s, pos, pos + q);
    }
  }
}
