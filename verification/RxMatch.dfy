// The backtracking matcher, re_match_2_internal, and the search around it.
module RxMatch {
  import opened RxBytes
  import opened RxSyntax
  import opened RxCode
  import opened RxVm
  import opened RxMeaning

  // ---- how much work a run is --------------------------------------------------

  ghost function CostIn(code: seq<Byte>, s: seq<Byte>, p: int, d: int, n: nat): (c: nat)
    requires HaltIn(code, s, p, d, n)
    decreases n
  {
    if p == |code| then 2
    else
      var u := Succ(code, s, p, d);
      2 + (if |u| > 0 then CostIn(code, s, u[0].p, u[0].d, n - 1) else 0)
        + (if |u| > 1 then CostIn(code, s, u[1].p, u[1].d, n - 1) else 0)
  }

  lemma {:induction false} CostSame(code: seq<Byte>, s: seq<Byte>, p: int, d: int, n: nat, m: nat)
    requires HaltIn(code, s, p, d, n) && HaltIn(code, s, p, d, m)
    ensures CostIn(code, s, p, d, n) == CostIn(code, s, p, d, m)
    decreases n
  {
    if p != |code| {
      var u := Succ(code, s, p, d);
      if |u| > 0 { CostSame(code, s, u[0].p, u[0].d, n - 1, m - 1); }
      if |u| > 1 { CostSame(code, s, u[1].p, u[1].d, n - 1, m - 1); }
    }
  }

  ghost function Cost(code: seq<Byte>, s: seq<Byte>, p: int, d: int): nat
    requires Halts(code, s, p, d)
  {
    var n: nat :| HaltIn(code, s, p, d, n);
    CostIn(code, s, p, d, n)
  }

  lemma CostIs(code: seq<Byte>, s: seq<Byte>, p: int, d: int, n: nat)
    requires HaltIn(code, s, p, d, n)
    ensures Halts(code, s, p, d) && Cost(code, s, p, d) == CostIn(code, s, p, d, n)
  {
    var m: nat :| HaltIn(code, s, p, d, m) && Cost(code, s, p, d) == CostIn(code, s, p, d, m);
    CostSame(code, s, p, d, n, m);
  }

  // One instruction: what is left to do is the work of its outcomes.
  lemma CostStep(code: seq<Byte>, s: seq<Byte>, p: int, d: int)
    requires Halts(code, s, p, d) && p != |code|
    ensures Legal(code, p)
    ensures var u := Succ(code, s, p, d);
            && (forall k :: 0 <= k < |u| ==> Halts(code, s, u[k].p, u[k].d))
            && Cost(code, s, p, d) == 2 + (if |u| > 0 then Cost(code, s, u[0].p, u[0].d) else 0)
                                        + (if |u| > 1 then Cost(code, s, u[1].p, u[1].d) else 0)
  {
    var n: nat :| HaltIn(code, s, p, d, n);
    CostIs(code, s, p, d, n);
    var u := Succ(code, s, p, d);
    forall k | 0 <= k < |u| ensures Halts(code, s, u[k].p, u[k].d) { assert HaltIn(code, s, u[k].p, u[k].d, n - 1); }
    if |u| > 0 { CostIs(code, s, u[0].p, u[0].d, n - 1); }
    if |u| > 1 { CostIs(code, s, u[1].p, u[1].d, n - 1); }
  }

  // ---- the failure stack ----------------------------------------------------------

  // A failure point is a place to resume at, or a dummy that is thrown away.
  datatype Fail = Dummy | Resume(p: int, d: int)

  ghost predicate StackOk(code: seq<Byte>, s: seq<Byte>, stack: seq<Fail>) {
    forall k :: 0 <= k < |stack| && stack[k].Resume? ==>
      Halts(code, s, stack[k].p, stack[k].d) && 0 <= stack[k].p && !BackJump(code, stack[k].p)
  }

  ghost function StackCost(code: seq<Byte>, s: seq<Byte>, stack: seq<Fail>): nat
    requires StackOk(code, s, stack)
  {
    if stack == [] then 0
    else
      var init, top := stack[..|stack| - 1], stack[|stack| - 1];
      StackCost(code, s, init) + (if top.Dummy? then 1 else Cost(code, s, top.p, top.d))
  }

  ghost predicate Held(code: seq<Byte>, s: seq<Byte>, stack: seq<Fail>, e: int) {
    exists k :: 0 <= k < |stack| && stack[k].Resume? && Reach(code, s, stack[k].p, stack[k].d, e)
  }

  lemma Pushed(code: seq<Byte>, s: seq<Byte>, stack: seq<Fail>, f: Fail)
    requires StackOk(code, s, stack)
    requires f.Resume? ==> Halts(code, s, f.p, f.d) && 0 <= f.p && !BackJump(code, f.p)
    ensures StackOk(code, s, stack + [f])
    ensures StackCost(code, s, stack + [f]) == StackCost(code, s, stack)
            + (if f.Dummy? then 1 else Cost(code, s, f.p, f.d))
    ensures forall e :: Held(code, s, stack + [f], e) <==>
              Held(code, s, stack, e) || (f.Resume? && Reach(code, s, f.p, f.d, e))
  {
    var t := stack + [f];
    assert t[..|t| - 1] == stack && t[|t| - 1] == f;
    forall e ensures Held(code, s, t, e) <==> Held(code, s, stack, e) || (f.Resume? && Reach(code, s, f.p, f.d, e)) {
      if Held(code, s, stack, e) {
        var k :| 0 <= k < |stack| && stack[k].Resume? && Reach(code, s, stack[k].p, stack[k].d, e);
        assert t[k] == stack[k];
      }
    }
  }

  // r is the length of the longest way from pos to the end of the code, or -1 if there is none.
  ghost predicate Longest(code: seq<Byte>, s: seq<Byte>, pos: int, r: int) {
    if r == -1 then forall e :: !Reach(code, s, 0, pos, e)
    else (0 <= r && Reach(code, s, 0, pos, pos + r) && forall e :: Reach(code, s, 0, pos, e) ==> e <= pos + r)
  }

  // What the search keeps: every end found is a real one, and every real end is below the
  // best so far, ahead of the current state, or ahead of a failure point.
  ghost predicate Search(code: seq<Byte>, s: seq<Byte>, pos: int, live: bool, p: int, d: int, stack: seq<Fail>,
                         found: bool, best: int) {
    && StackOk(code, s, stack)
    && (live ==> 0 <= p && Halts(code, s, p, d))
    && (forall e :: live && Reach(code, s, p, d, e) ==> Reach(code, s, 0, pos, e))
    && (forall e :: Held(code, s, stack, e) ==> Reach(code, s, 0, pos, e))
    && (found ==> Reach(code, s, 0, pos, best))
    && (forall e :: Reach(code, s, 0, pos, e) ==>
          (live && Reach(code, s, p, d, e)) || Held(code, s, stack, e) || (found && e <= best))
  }

  // exactn: the characters one by one.
  method MatchExact(code: seq<Byte>, s: seq<Byte>, p: int, d: int) returns (ok: bool)
    requires Legal(code, p) && code[p] == EXACTN && 0 <= d
    ensures ok <==> Spells(code, p + 2, code[p + 1], s, d)
  {
    var n := code[p + 1];
    var k := 0;
    while k < n
      invariant 0 <= k <= n && (k > 0 ==> d + k <= |s| && s[d..d + k] == code[p + 2..p + 2 + k])
    {
      if d + k >= |s| { return false; }
      if s[d + k] != code[p + 2 + k] {
        if d + n <= |s| { assert s[d..d + n][k] != code[p + 2..p + 2 + n][k]; }
        return false;
      }
      assert s[d..d + k + 1] == s[d..d + k] + [s[d + k]];
      assert code[p + 2..p + 2 + k + 1] == code[p + 2..p + 2 + k] + [code[p + 2 + k]];
      k := k + 1;
    }
    return true;
  }

  // One instruction: either the state moves on, perhaps leaving a failure point, or it fails.
  method Execute(code: seq<Byte>, s: seq<Byte>, p: int, d: int, stack: seq<Fail>)
    returns (ok: bool, p': int, d': int, stack': seq<Fail>)
    requires Legal(code, p) && 0 <= d
    ensures 0 <= d'
    ensures var u := Succ(code, s, p, d);
            if code[p] == ON_FAILURE_JUMP then
              ok && u == [Point(p', d'), Point(Target(code, p), d)] && stack' == stack + [Resume(Target(code, p), d)]
            else
              (if ok then u == [Point(p', d')] else u == []) &&
              stack' == if code[p] in {DUMMY_FAILURE_JUMP, PUSH_DUMMY_FAILURE} then stack + [Dummy] else stack
  {
    var op := code[p];
    ok, p', d', stack' := true, p, d, stack;
    if op == EXACTN {
      ok := MatchExact(code, s, p, d);
      p', d' := p + 2 + code[p + 1], d + code[p + 1];
    } else if op == ANYCHAR {
      if d >= |s| || s[d] == 0 { ok := false; } else { p', d' := p + 1, d + 1; }
    } else if op in {CHARSET, CHARSET_NOT} {
      if d >= |s| { ok := false; }
      else {
        var not := op == CHARSET_NOT;
        if InMap(code[p + 2..p + 2 + code[p + 1]], s[d]) { not := !not; }
        if not { p', d' := p + 2 + code[p + 1], d + 1; } else { ok := false; }
      }
    } else if op in {START_MEMORY, STOP_MEMORY} {
      p' := p + 3;
    } else if op == ON_FAILURE_JUMP {
      stack' := stack + [Resume(Target(code, p), d)];
      p' := p + 3;
    } else if op == PUSH_DUMMY_FAILURE {
      stack' := stack + [Dummy];
      p' := p + 1;
    } else {
      if op == DUMMY_FAILURE_JUMP { stack' := stack + [Dummy]; }
      p' := Target(code, p);
    }
  }

  lemma Executed(code: seq<Byte>, s: seq<Byte>, pos: int, p: int, d: int, stack: seq<Fail>, found: bool, best: int,
                 ok: bool, p': int, d': int, stack': seq<Fail>)
    requires Search(code, s, pos, true, p, d, stack, found, best) && p != |code| && Legal(code, p)
    requires var u := Succ(code, s, p, d);
             if code[p] == ON_FAILURE_JUMP then
               ok && u == [Point(p', d'), Point(Target(code, p), d)] && stack' == stack + [Resume(Target(code, p), d)]
             else
               (if ok then u == [Point(p', d')] else u == []) &&
               stack' == if code[p] in {DUMMY_FAILURE_JUMP, PUSH_DUMMY_FAILURE} then stack + [Dummy] else stack
    ensures Search(code, s, pos, ok, p', d', stack', found, best)
    ensures StackCost(code, s, stack') + (if ok then Cost(code, s, p', d') else 0) < StackCost(code, s, stack)
            + Cost(code, s, p, d)
  {
    var u := Succ(code, s, p, d);
    CostStep(code, s, p, d);
    if |u| > 0 { assert u[0].p == p' && u[0].d == d'; LegalAt(code, s, p', d'); }
    if |u| > 1 {
      assert u[1].p == Target(code, p) && u[1].d == d;
      Pushed(code, s, stack, Resume(Target(code, p), d));
    } else if code[p] in {DUMMY_FAILURE_JUMP, PUSH_DUMMY_FAILURE} {
      Pushed(code, s, stack, Dummy);
    }
    forall e
      ensures Reach(code, s, p, d, e) <==>
              (ok && Reach(code, s, p', d', e)) || (|u| > 1 && Reach(code, s, Target(code, p), d, e))
    {
      ReachStep(code, s, p, d, e);
    }
  }

  lemma LegalAt(code: seq<Byte>, s: seq<Byte>, p: int, d: int)
    requires Halts(code, s, p, d)
    ensures 0 <= p <= |code|
  {
    var n: nat :| HaltIn(code, s, p, d, n);
  }

  // Take failure points off the stack until one can be resumed at. A dummy is discarded,
  // and so is one at a loop's backward jump (which never occurs in compiled code).
  method Backtrack(code: seq<Byte>, ghost s: seq<Byte>, ghost pos: int, stack: seq<Fail>, ghost found: bool,
                   ghost best: int)
    returns (ok: bool, p: int, d: int, stack': seq<Fail>)
    requires Search(code, s, pos, false, 0, 0, stack, found, best)
    requires forall k :: 0 <= k < |stack| && stack[k].Resume? ==> 0 <= stack[k].d
    ensures Search(code, s, pos, ok, p, d, stack', found, best)
    ensures !ok ==> stack' == []
    ensures ok ==> 0 <= d
    ensures StackCost(code, s, stack') + (if ok then Cost(code, s, p, d) else 0) <= StackCost(code, s, stack)
    ensures forall k :: 0 <= k < |stack'| ==> k < |stack| && stack'[k] == stack[k]
  {
    stack' := stack;
    p, d := 0, 0;
    while stack' != []
      invariant Search(code, s, pos, false, 0, 0, stack', found, best)
      invariant StackCost(code, s, stack') <= StackCost(code, s, stack)
      invariant |stack'| <= |stack| && stack' == stack[..|stack'|]
      decreases |stack'|
    {
      var top := stack'[|stack'| - 1];
      var rest := stack'[..|stack'| - 1];
      assert stack' == rest + [top];
      assert StackOk(code, s, rest) by { assert forall k :: 0 <= k < |rest| ==> rest[k] == stack'[k]; }
      Pushed(code, s, rest, top);
      stack' := rest;
      if top.Resume? && !BackJump(code, top.p) {
        return true, top.p, top.d, stack';
      }
    }
    return false, p, d, stack';
  }

  // re_match_2_internal: the length of the longest match at pos, or -1.
  method MatchCode(code: seq<Byte>, s: seq<Byte>, pos: int) returns (r: int)
    requires 0 <= pos <= |s| ==> Halts(code, s, 0, pos)
    requires forall e :: 0 <= pos <= |s| && Reach(code, s, 0, pos, e) ==> pos <= e <= |s|
    ensures 0 <= pos <= |s| ==> Longest(code, s, pos, r)
    ensures !(0 <= pos <= |s|) ==> r == -1
  {
    if pos < 0 || pos > |s| { return -1; }
    var p, d := 0, pos;
    var stack: seq<Fail> := [];
    var found, best := false, 0;
    while true
      invariant Search(code, s, pos, true, p, d, stack, found, best)
      invariant 0 <= d && forall k :: 0 <= k < |stack| && stack[k].Resume? ==> 0 <= stack[k].d
      decreases StackCost(code, s, stack) + Cost(code, s, p, d)
    {
      ghost var work := StackCost(code, s, stack) + Cost(code, s, p, d);
      var ok := true;
      if p == |code| {
        ReachEnd(code, s, d, d);
        assert forall e :: Reach(code, s, p, d, e) <==> d == e by {
          forall e ensures Reach(code, s, p, d, e) <==> d == e { ReachEnd(code, s, d, e); }
        }
        if d == |s| { return d - pos; }
        if stack == [] {
          if found && best >= d { d := best; }
          return d - pos;
        }
        if !found || d > best { found, best := true, d; }
        assert Search(code, s, pos, false, 0, 0, stack, found, best);
        ok := false;
        assert StackCost(code, s, stack) < work by { var n: nat :| HaltIn(code, s, p, d, n); CostIs(code, s, p, d, n); }
      } else {
        CostStep(code, s, p, d);
        var p', d', stack';
        ok, p', d', stack' := Execute(code, s, p, d, stack);
        Executed(code, s, pos, p, d, stack, found, best, ok, p', d', stack');
        p, d, stack := p', d', stack';
      }
      if !ok {
        var more;
        more, p, d, stack := Backtrack(code, s, pos, stack, found, best);
        if !more {
          if found { return best - pos; }
          return -1;
        }
      }
    }
  }

  // ---- the matcher on a compiled pattern -----------------------------------------

  // r is the length of the longest prefix of s[pos..] in the language, or -1 if none is.
  ghost predicate LongestPrefix(alts: seq<Branch>, s: seq<Byte>, pos: int, r: int) {
    if r == -1 then forall e :: !MatchAlts(alts, s, pos, e)
    else (0 <= r && MatchAlts(alts, s, pos, pos + r) && forall e :: MatchAlts(alts, s, pos, e) ==> e <= pos + r)
  }

  // Patterns whose code the matcher runs correctly: jump distances fit two bytes, there are
  // at most 255 groups, and no loop body can match the empty string.
  predicate Runnable(alts: seq<Branch>) {
    alts != [] && SoundAlts(alts) && ProperAlts(alts) && |CodeAlts(alts)| <= LIMIT
  }

  method MatchPattern(ghost alts: seq<Branch>, code: seq<Byte>, s: seq<Byte>, pos: int) returns (r: int)
    requires Runnable(alts) && code == CodeAlts(alts)
    ensures 0 <= pos <= |s| ==> LongestPrefix(alts, s, pos, r)
    ensures !(0 <= pos <= |s|) ==> r == -1
  {
    if 0 <= pos <= |s| { WholeCode(alts, s, pos); }
    r := MatchCode(code, s, pos);
  }
}
