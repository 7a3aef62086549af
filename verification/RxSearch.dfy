// The first-character map, re_compile_fastmap, and searching with it, re_search_2.
module RxSearch {
  import opened RxBytes
  import opened RxSyntax
  import opened RxCode
  import opened RxVm
  import opened RxMeaning
  import opened RxMatch
  import opened RxFlow
  import opened RxRun
  import opened RxTame
  import opened RxRewrite

  // A match at d is announced by the map: it may be empty, or its first character is marked.
  ghost predicate Announced(fm: seq<bool>, can: bool, s: seq<Byte>, d: int)
    requires |fm| == 256
  {
    can || (0 <= d < |s| && fm[s[d]])
  }

  // Every position where the code matches is announced.
  ghost predicate SoundMap(code: seq<Byte>, fm: seq<bool>, can: bool)
    requires |fm| == 256
  {
    forall s, d, e :: 0 <= d <= |s| && Reach(code, s, 0, d, e) ==> Announced(fm, can, s, d)
  }

  ghost predicate Waits(code: seq<Byte>, stack: seq<nat>, s: seq<Byte>, d: int, e: int) {
    exists k :: 0 <= k < |stack| && Reach(code, s, stack[k], d, e)
  }

  // What the traversal keeps: a match not announced yet goes on from the current
  // instruction or from one on the stack.
  ghost predicate Covered(code: seq<Byte>, fm: seq<bool>, can: bool, live: bool, p: nat, stack: seq<nat>)
    requires |fm| == 256
  {
    forall s, d, e :: 0 <= d <= |s| && Reach(code, s, 0, d, e) ==>
      Announced(fm, can, s, d) || (live && Reach(code, s, p, d, e)) || Waits(code, stack, s, d, e)
  }

  ghost function Points(stack: seq<nat>): (f: seq<Fail>)
    ensures |f| == |stack| && forall k :: 0 <= k < |f| ==> f[k] == Resume(stack[k], 0)
  {
    seq(|stack|, i requires 0 <= i < |stack| => Resume(stack[i], 0))
  }

  // The instructions on the stack can be run on an empty subject.
  ghost predicate Runs(code: seq<Byte>, stack: seq<nat>) {
    StackOk(code, [], Points(stack))
  }

  ghost function Effort(code: seq<Byte>, stack: seq<nat>): nat
    requires Runs(code, stack)
  {
    StackCost(code, [], Points(stack))
  }

  lemma PushedPoint(code: seq<Byte>, stack: seq<nat>, t: nat)
    requires Runs(code, stack) && Halts(code, [], t, 0) && !BackJump(code, t)
    ensures Runs(code, stack + [t]) && Effort(code, stack + [t]) == Effort(code, stack) + Cost(code, [], t, 0)
    ensures forall s, d, e :: Waits(code, stack + [t], s, d, e) <==>
              Waits(code, stack, s, d, e) || Reach(code, s, t, d, e)
  {
    assert Points(stack + [t]) == Points(stack) + [Resume(t, 0)];
    Pushed(code, [], Points(stack), Resume(t, 0));
    forall s, d, e
      ensures Waits(code, stack + [t], s, d, e) <==> Waits(code, stack, s, d, e) || Reach(code, s, t, d, e)
    {
      if Waits(code, stack, s, d, e) {
        var k :| 0 <= k < |stack| && Reach(code, s, stack[k], d, e);
        assert (stack + [t])[k] == stack[k];
      }
      assert (stack + [t])[|stack|] == t;
    }
  }

  lemma PoppedPoint(code: seq<Byte>, stack: seq<nat>) returns (rest: seq<nat>, t: nat)
    requires Runs(code, stack) && stack != []
    ensures rest == stack[..|stack| - 1] && t == stack[|stack| - 1]
    ensures Runs(code, rest) && Halts(code, [], t, 0)
    ensures Effort(code, stack) == Effort(code, rest) + Cost(code, [], t, 0)
    ensures forall s, d, e :: Waits(code, stack, s, d, e) <==> Waits(code, rest, s, d, e) || Reach(code, s, t, d, e)
  {
    rest, t := stack[..|stack| - 1], stack[|stack| - 1];
    assert Points(stack)[|stack| - 1] == Resume(t, 0);
    assert Runs(code, rest) by { assert forall k :: 0 <= k < |rest| ==> Points(rest)[k] == Points(stack)[k]; }
    PushedPoint(code, rest, t);
    assert rest + [t] == stack;
  }

  // The characters with which the consuming instruction at p can begin.
  ghost predicate Marks(code: seq<Byte>, p: int, fm: seq<bool>)
    requires Legal(code, p) && |fm| == 256
  {
    forall c: Byte :: FirstOf(code, p, c) ==> fm[c]
  }

  predicate Consuming(code: seq<Byte>, p: int)
    requires 0 <= p < |code|
  {
    code[p] in {EXACTN, ANYCHAR, CHARSET, CHARSET_NOT}
  }

  predicate FirstOf(code: seq<Byte>, p: int, c: Byte)
    requires Legal(code, p)
  {
    match code[p]
    case 2 => c == code[p + 2]
    case 3 => true
    case 4 => SetAccepts(code, p, c)
    case 5 => SetAccepts(code, p, c)
    case _ => false
  }

  lemma FirstIs(code: seq<Byte>, p: int, s: seq<Byte>, d: int)
    requires Legal(code, p) && Consuming(code, p) && Succ(code, s, p, d) != []
    ensures 0 <= d < |s| && FirstOf(code, p, s[d])
  {
    if code[p] == EXACTN {
      var n := code[p + 1];
      assert s[d..d + n][0] == code[p + 2..p + 2 + n][0];
    }
  }

  // Mark the first characters of the instruction at p.
  method Mark(code: seq<Byte>, p: nat, fm: array<bool>)
    requires Legal(code, p) && Consuming(code, p) && fm.Length == 256
    modifies fm
    ensures forall c: Byte :: old(fm[c]) ==> fm[c]
    ensures Marks(code, p, fm[..])
  {
    var op := code[p];
    if op == EXACTN {
      fm[code[p + 2]] := true;
    } else if op == ANYCHAR {
      forall j | 0 <= j < 256 { fm[j] := true; }
    } else {
      var n := code[p + 1];
      var bits := code[p + 2..p + 2 + n];
      var not := op == CHARSET_NOT;
      var j: int := 0;
      while j < 256
        invariant 0 <= j <= 256
        invariant forall c: Byte :: old(fm[c]) ==> fm[c]
        invariant forall c: Byte :: c < j && InMap(bits, c) != not ==> fm[c]
      {
        if InMap(bits, j) != not { fm[j] := true; }
        j := j + 1;
      }
    }
  }

  lemma Consumes(code: seq<Byte>, p: nat, stack: seq<nat>, fm: seq<bool>, fm': seq<bool>, can: bool)
    requires |fm| == 256 && |fm'| == 256 && Legal(code, p) && Consuming(code, p) && p != |code|
    requires Covered(code, fm, can, true, p, stack) && Marks(code, p, fm') && forall c: Byte :: fm[c] ==> fm'[c]
    ensures Covered(code, fm', can, false, p, stack)
  {
    forall s, d, e | 0 <= d <= |s| && Reach(code, s, 0, d, e)
      ensures Announced(fm', can, s, d) || Waits(code, stack, s, d, e)
    {
      if Reach(code, s, p, d, e) {
        ReachStep(code, s, p, d, e);
        FirstIs(code, p, s, d);
      }
    }
  }

  // An instruction that consumes nothing: its outcomes are covered instead.
  lemma Passes(code: seq<Byte>, p: nat, q: nat, stack: seq<nat>, fm: seq<bool>, can: bool)
    requires |fm| == 256 && Legal(code, p) && !Consuming(code, p) && code[p] != ON_FAILURE_JUMP && p != |code|
    requires forall s, d :: Succ(code, s, p, d) == [Point(q, d)]
    requires Covered(code, fm, can, true, p, stack)
    ensures Covered(code, fm, can, true, q, stack)
  {
    forall s, d, e | 0 <= d <= |s| && Reach(code, s, 0, d, e)
      ensures Announced(fm, can, s, d) || Reach(code, s, q, d, e) || Waits(code, stack, s, d, e)
    {
      assert Succ(code, s, p, d) == [Point(q, d)];
      if Reach(code, s, p, d, e) { ReachStep(code, s, p, d, e); }
    }
  }

  lemma Forks(code: seq<Byte>, p: nat, stack: seq<nat>, fm: seq<bool>, can: bool, stack': seq<nat>, can': bool)
    requires |fm| == 256 && Legal(code, p) && code[p] == ON_FAILURE_JUMP && p != |code|
    requires Covered(code, fm, can, true, p, stack) && (can ==> can')
    requires can' || forall s, d, e :: Waits(code, stack', s, d, e) <==>
               Waits(code, stack, s, d, e) || Reach(code, s, Target(code, p), d, e)
    ensures Covered(code, fm, can', true, p + 3, stack')
  {
    forall s, d, e | 0 <= d <= |s| && Reach(code, s, 0, d, e)
      ensures Announced(fm, can', s, d) || Reach(code, s, p + 3, d, e) || Waits(code, stack', s, d, e)
    {
      var u := Succ(code, s, p, d);
      assert u == [Point(p + 3, d), Point(Target(code, p), d)];
      if Reach(code, s, p, d, e) {
        ReachStep(code, s, p, d, e);
        assert Reach(code, s, u[0].p, u[0].d, e) || Reach(code, s, u[1].p, u[1].d, e);
      }
    }
  }

  // What an instruction costs on an empty subject.
  lemma Spends(code: seq<Byte>, p: nat)
    requires Halts(code, [], p, 0) && p != |code|
    ensures Legal(code, p) && code[p] != MAYBE_POP_JUMP && Cost(code, [], p, 0) >= 2
    ensures !Consuming(code, p) ==>
              var u := Succ(code, [], p, 0);
              && |u| >= 1 && Halts(code, [], u[0].p, 0) && Cost(code, [], u[0].p, 0) + 2 <= Cost(code, [], p, 0)
              && (|u| > 1 ==>
                    Halts(code, [], u[1].p, 0)
                    && Cost(code, [], u[0].p, 0) + Cost(code, [], u[1].p, 0) + 2 == Cost(code, [], p, 0))
  {
    CostStep(code, [], p, 0);
    var n: nat :| HaltIn(code, [], p, 0, n);
  }

  // What is marked from the buffer is marked from the code.
  lemma MarksSame(code: seq<Byte>, E: set<int>, P: set<int>, now: seq<Byte>, p: int, fm: seq<bool>)
    requires Kept(code, E, P) && Rewritten(code, now) && p in Starts(code, 0) && |fm| == 256
    requires Legal(code, p) && Consuming(code, p) && Legal(now, p) && now[p] == code[p] && Marks(now, p, fm)
    ensures Marks(code, p, fm)
  {
    if code[p] != ANYCHAR {
      SameText(code, E, P, now, p);
      SameInstr(code, E, P, now, p);
      FlowIn(code, Starts(code, 0), E, P, 0, |code|, p);
    }
    forall c: Byte | FirstOf(code, p, c) ensures fm[c] {
      assert FirstOf(now, p, c);
    }
  }

  // The instructions on the stack, and where the traversal is.
  ghost predicate Among(code: seq<Byte>, stack: seq<nat>) {
    forall k :: 0 <= k < |stack| ==> stack[k] in Starts(code, 0) + {|code|}
  }

  // Where an instruction that consumes nothing leads.
  lemma Leads(code: seq<Byte>, E: set<int>, P: set<int>, now: seq<Byte>, p: nat)
    requires Kept(code, E, P) && Rewritten(code, now) && p in Starts(code, 0)
    requires Halts(code, [], p, 0) && p != |code|
    ensures Legal(code, p) && code[p] != MAYBE_POP_JUMP && now[p] == code[p] && Legal(now, p)
    ensures !Consuming(code, p) ==>
              var u := Succ(code, [], p, 0);
              && Succ(now, [], p, 0) == u && (forall k :: 0 <= k < |u| ==> u[k].p in Starts(code, 0) + {|code|})
              && (code[p] in {ON_FAILURE_JUMP, JUMP_PAST_ALT, DUMMY_FAILURE_JUMP} ==> Target(now, p) == Target(code, p))
  {
    Spends(code, p);
    SameStep(code, E, P, now, p, [], 0);
    SameLegal(code, E, P, now, p);
    FlowIn(code, Starts(code, 0), E, P, 0, |code|, p);
  }

  // What the traversal keeps at p.
  ghost predicate Tracing(code: seq<Byte>, fm: seq<bool>, can: bool, live: bool, p: nat, stack: seq<nat>)
    requires |fm| == 256
  {
    && p <= |code| && (live ==> Halts(code, [], p, 0)) && (!live ==> p == |code|)
    && Runs(code, stack) && Among(code, stack) && p in Starts(code, 0) + {|code|}
    && Covered(code, fm, can, live, p, stack)
  }

  ghost function Todo(code: seq<Byte>, live: bool, p: nat, stack: seq<nat>): nat
    requires Runs(code, stack) && (live ==> Halts(code, [], p, 0))
  {
    Effort(code, stack) + if live then Cost(code, [], p, 0) else 1
  }

  // A path is at its end: the next one is the last on the stack.
  lemma NextPath(code: seq<Byte>, fm: seq<bool>, can: bool, live: bool, p: nat, stack: seq<nat>)
    requires |fm| == 256 && Tracing(code, fm, can, live, p, stack) && p == |code|
    ensures stack == [] ==> SoundMap(code, fm, can || live)
    ensures stack != [] ==>
              var t, rest := stack[|stack| - 1], stack[..|stack| - 1];
              Tracing(code, fm, can || live, true, t, rest)
              && Todo(code, true, t, rest) < Todo(code, live, p, stack)
  {
    forall s, d, e | 0 <= d <= |s| && live && Reach(code, s, p, d, e) ensures Announced(fm, can || live, s, d) {
    }
    if stack != [] {
      var rest, t := PoppedPoint(code, stack);
      LegalAt(code, [], t, 0);
      var n: nat :| live ==> HaltIn(code, [], p, 0, n);
      if live { CostIs(code, [], p, 0, n); }
      assert stack[|stack| - 1] in Starts(code, 0) + {|code|};
    }
  }

  // An instruction that consumes something ends the path.
  method Consume(now: seq<Byte>, p: nat, fm: array<bool>, ghost code: seq<Byte>, ghost E: set<int>, ghost P: set<int>,
                 ghost can: bool, ghost stack: seq<nat>)
    requires fm.Length == 256 && Kept(code, E, P) && Rewritten(code, now) && p != |code|
    requires Tracing(code, fm[..], can, true, p, stack) && Legal(now, p) && Consuming(now, p)
    modifies fm
    ensures Tracing(code, fm[..], can, false, |code|, stack)
    ensures Todo(code, false, |code|, stack) < Todo(code, true, p, stack)
  {
    Leads(code, E, P, now, p);
    Spends(code, p);
    ghost var was := fm[..];
    Mark(now, p, fm);
    MarksSame(code, E, P, now, p, fm[..]);
    Consumes(code, p, stack, was, fm[..], can);
  }

  // A failure jump opens another path, unless it leads to the end.
  lemma Opens(code: seq<Byte>, E: set<int>, P: set<int>, fm: seq<bool>, can: bool, p: nat, stack: seq<nat>)
    requires |fm| == 256 && Kept(code, E, P) && Tracing(code, fm, can, true, p, stack) && p != |code|
    requires Legal(code, p) && code[p] == ON_FAILURE_JUMP
    ensures var t := Target(code, p);
            && 0 <= t && (t < |code| ==>
                 Tracing(code, fm, can, true, p + 3, stack + [t])
                 && Todo(code, true, p + 3, stack + [t]) < Todo(code, true, p, stack))
            && (t >= |code| ==>
                  Tracing(code, fm, true, true, p + 3, stack)
                  && Todo(code, true, p + 3, stack) < Todo(code, true, p, stack))
  {
    var t := Target(code, p);
    Spends(code, p);
    assert Succ(code, [], p, 0) == [Point(p + 3, 0), Point(t, 0)];
    assert Succ(code, [], p, 0)[0].p == p + 3 && Succ(code, [], p, 0)[1].p == t;
    FlowIn(code, Starts(code, 0), E, P, 0, |code|, p);
    LegalAt(code, [], p + 3, 0);
    if t < |code| {
      PushedPoint(code, stack, t);
      Forks(code, p, stack, fm, can, stack + [t], can);
    } else {
      Forks(code, p, stack, fm, can, stack, true);
    }
  }

  // Where an instruction leads that consumes nothing and opens nothing. A jump back to a failure jump is met only
  // after consuming something, so never here.
  function Onto(code: seq<Byte>, p: nat): (q: int)
    requires Legal(code, p)
  {
    if code[p] in {START_MEMORY, STOP_MEMORY} then p + 3 else if code[p] == PUSH_DUMMY_FAILURE then p + 1
    else if p + 3 <= |code| then Target(code, p) else p
  }

  lemma Goes(code: seq<Byte>, E: set<int>, P: set<int>, fm: seq<bool>, can: bool, p: nat, stack: seq<nat>)
    requires |fm| == 256 && Kept(code, E, P) && Tracing(code, fm, can, true, p, stack) && p != |code|
    requires Legal(code, p) && !Consuming(code, p) && code[p] != ON_FAILURE_JUMP
    ensures var q := Onto(code, p);
            && 0 <= q && Tracing(code, fm, can, true, q, stack)
            && Todo(code, true, q, stack) < Todo(code, true, p, stack)
            && (q > p || q == |code| || code[q] != ON_FAILURE_JUMP)
  {
    var q := Onto(code, p);
    Spends(code, p);
    assert Succ(code, [], p, 0) == [Point(q, 0)] && Succ(code, [], p, 0)[0].p == q;
    LegalAt(code, [], q, 0);
    Passes(code, p, q, stack, fm, can);
    FlowIn(code, Starts(code, 0), E, P, 0, |code|, p);
  }

  // re_compile_fastmap, on a buffer some of whose jumps may have been rewritten.
  method CompileFastmap(now: seq<Byte>, fm: array<bool>, ghost code: seq<Byte>, ghost E: set<int>, ghost P: set<int>)
    returns (can: bool)
    requires fm.Length == 256 && Halts(code, [], 0, 0) && Kept(code, E, P) && Rewritten(code, now)
    modifies fm
    ensures SoundMap(code, fm[..], can)
  {
    forall j | 0 <= j < 256 { fm[j] := false; }
    can := false;
    var p: nat, live := 0, true;
    var stack: seq<nat> := [];
    LegalAt(code, [], 0, 0);
    FlowFacts(code, Starts(code, 0), E, P, 0, |code|);
    while true
      invariant Tracing(code, fm[..], can, live, p, stack)
      decreases Todo(code, live, p, stack)
    {
      if p == |now| {
        NextPath(code, fm[..], can, live, p, stack);
        can := can || live;
        if stack == [] { return; }
        live := true;
        p, stack := stack[|stack| - 1], stack[..|stack| - 1];
        continue;
      }
      Leads(code, E, P, now, p);
      var op := now[p];
      if op in {EXACTN, ANYCHAR, CHARSET, CHARSET_NOT} {
        Consume(now, p, fm, code, E, P, can, stack);
        if op == ANYCHAR && can { return; }
        live, p := false, |now|;
      } else if op == ON_FAILURE_JUMP {
        Opens(code, E, P, fm[..], can, p, stack);
        var t: nat := Target(now, p);
        if t < |now| { stack := stack + [t]; } else { can := true; }
        p := p + 3;
      } else {
        Goes(code, E, P, fm[..], can, p, stack);
        p := Onto(now, p);
      }
    }
  }

  // ---- searching ------------------------------------------------------------------------

  ghost predicate MatchesAt(code: seq<Byte>, s: seq<Byte>, k: int) {
    exists e :: Reach(code, s, 0, k, e)
  }

  lemma Skipped(code: seq<Byte>, fm: seq<bool>, s: seq<Byte>, k: int)
    requires |fm| == 256 && SoundMap(code, fm, false) && 0 <= k <= |s| && (k < |s| ==> !fm[s[k]])
    ensures !MatchesAt(code, s, k)
  {
  }

  // Over the characters that no match begins with.
  method Along(fm: seq<bool>, s: seq<Byte>, pos: int, range: int) returns (to: int, left: int)
    requires |fm| == 256 && 0 <= pos && 0 <= range && pos + range <= |s|
    ensures pos <= to && 0 <= left && to + left == pos + range
    ensures forall k :: pos <= k < to ==> !fm[s[k]]
  {
    to, left := pos, range;
    while left > 0 && !fm[s[to]]
      invariant pos <= to && 0 <= left && to + left == pos + range
      invariant forall k :: pos <= k < to ==> !fm[s[k]]
    {
      left, to := left - 1, to + 1;
    }
  }

  // re_search_2 on one string: the first position of the scan, forward or backward, at
  // which the code matches. The map, when there is one, changes nothing.
  method Search2(code: seq<Byte>, useMap: bool, fm: seq<bool>, can: bool, s: seq<Byte>, start: int, scan: int)
    returns (r: int)
    requires |fm| == 256 && (useMap ==> SoundMap(code, fm, can))
    requires forall k :: 0 <= k <= |s| ==> Halts(code, s, 0, k)
    requires forall k, e :: 0 <= k <= |s| && Reach(code, s, 0, k, e) ==> k <= e <= |s|
    ensures !(0 <= start <= |s|) ==> r == -1
    ensures 0 <= start <= |s| ==>
              var last := if start + scan < 0 then 0 else if start + scan > |s| then |s| else start + scan;
              if r == -1 then
                forall k :: (start <= k <= last || last <= k <= start) ==> !MatchesAt(code, s, k)
              else
                && (start <= r <= last || last <= r <= start) && MatchesAt(code, s, r)
                && (forall k :: (start <= k < r || r < k <= start) ==> !MatchesAt(code, s, k))
  {
    if start < 0 || start > |s| { return -1; }
    var range := if start + scan < 0 then -start else if start + scan > |s| then |s| - start else scan;
    var pos := start;
    ghost var last := start + range;
    while true
      invariant 0 <= pos <= |s| && pos + range == last
      invariant scan >= 0 ==> range >= 0 && start <= pos
      invariant scan < 0 ==> range <= 0 && pos <= start
      invariant forall k :: (start <= k < pos || pos < k <= start) ==> !MatchesAt(code, s, k)
      decreases if range < 0 then -range else range
    {
      var attempt := true;
      if useMap && pos < |s| && !can {
        if range > 0 {
          ghost var was := pos;
          pos, range := Along(fm, s, pos, range);
          forall k | was <= k < pos ensures !MatchesAt(code, s, k) { Skipped(code, fm, s, k); }
        } else if !fm[s[pos]] {
          Skipped(code, fm, s, pos);
          attempt := false;
        }
      }
      if range >= 0 && pos == |s| && useMap && !can {
        Skipped(code, fm, s, pos);
        return -1;
      }
      if attempt {
        var m := MatchCode(code, s, pos);
        if m >= 0 { return pos; }
        assert !MatchesAt(code, s, pos);
      }
      if range == 0 { return -1; }
      if range > 0 { range, pos := range - 1, pos + 1; } else { range, pos := range + 1, pos - 1; }
    }
  }

  // ---- on compiled patterns ----------------------------------------------------------------

  ghost predicate Occurs(alts: seq<Branch>, s: seq<Byte>, k: int) {
    exists e :: MatchAlts(alts, s, k, e)
  }

  // A match can begin at a position only if the map announces it.
  lemma FastmapSound(alts: seq<Branch>, fm: seq<bool>, can: bool, s: seq<Byte>, d: int, e: int)
    requires Runnable(alts) && |fm| == 256 && SoundMap(CodeAlts(alts), fm, can)
    requires 0 <= d <= |s| && MatchAlts(alts, s, d, e)
    ensures can || (d < |s| && fm[s[d]])
  {
    WholeCode(alts, s, d);
    assert Announced(fm, can, s, d);
  }

  // A search of a compiled pattern, with its map or without: the first occurrence.
  method SearchPattern(ghost alts: seq<Branch>, code: seq<Byte>, useMap: bool, s: seq<Byte>, start: int, scan: int)
    returns (r: int)
    requires Runnable(alts) && code == CodeAlts(alts)
    ensures !(0 <= start <= |s|) ==> r == -1
    ensures 0 <= start <= |s| ==>
              var last := if start + scan < 0 then 0 else if start + scan > |s| then |s| else start + scan;
              if r == -1 then
                forall k :: (start <= k <= last || last <= k <= start) ==> !Occurs(alts, s, k)
              else
                && (start <= r <= last || last <= r <= start) && Occurs(alts, s, r)
                && (forall k :: (start <= k < r || r < k <= start) ==> !Occurs(alts, s, k))
  {
    var fm := new bool[256];
    WholeCode(alts, [], 0);
    ghost var E, P := WholeFlow(alts);
    var can := CompileFastmap(code, fm, code, E, P);
    forall k | 0 <= k <= |s| ensures Halts(code, s, 0, k) && (MatchesAt(code, s, k) <==> Occurs(alts, s, k)) {
      WholeCode(alts, s, k);
      if MatchesAt(code, s, k) { var e :| Reach(code, s, 0, k, e); assert MatchAlts(alts, s, k, e); }
      if Occurs(alts, s, k) { var e :| MatchAlts(alts, s, k, e); assert Reach(code, s, 0, k, e); }
    }
    forall k, e | 0 <= k <= |s| && Reach(code, s, 0, k, e) ensures k <= e <= |s| { WholeCode(alts, s, k); }
    r := Search2(code, useMap, fm[..], can, s, start, scan);
  }

  // ---- searching with the rewriting matcher ----------------------------------------------------------------

  // The rewriting matcher finds something at k.
  ghost predicate Hits(code: seq<Byte>, s: seq<Byte>, k: int) {
    exists m :: m >= 0 && Yields(code, s, k, m)
  }

  // What it finds is there; in tame code it finds something wherever there is something.
  lemma HitsOccurs(alts: seq<Branch>, s: seq<Byte>, k: int)
    requires Runnable(alts) && 0 <= k <= |s|
    ensures Hits(CodeAlts(alts), s, k) ==> Occurs(alts, s, k)
    ensures Tame(CodeAlts(alts)) ==> (Hits(CodeAlts(alts), s, k) <==> Occurs(alts, s, k))
  {
    var code := CodeAlts(alts);
    if Hits(code, s, k) {
      var m :| m >= 0 && Yields(code, s, k, m);
      YieldsPrefix(alts, s, k, m);
    }
    if Tame(code) && Occurs(alts, s, k) {
      WholeCode(alts, s, k);
      var E, P := WholeFlow(alts);
      SafeFirst(code, s, k);
      ComesFirst(code, s, k);
      Ends(code, s, k, Outset(k));
      var r :| Yields(code, s, k, r);
      YieldsLongest(alts, s, k, r);
      assert r >= 0;
    }
  }

  lemma Misses(alts: seq<Branch>, fm: seq<bool>, s: seq<Byte>, k: int)
    requires Runnable(alts) && |fm| == 256 && SoundMap(CodeAlts(alts), fm, false) && 0 <= k <= |s|
    requires k < |s| ==> !fm[s[k]]
    ensures !Hits(CodeAlts(alts), s, k)
  {
    HitsOccurs(alts, s, k);
    if Occurs(alts, s, k) {
      var e :| MatchAlts(alts, s, k, e);
      FastmapSound(alts, fm, false, s, k, e);
    }
  }

  // k is a place of s that a scan of that length, forwards or backwards, comes to.
  predicate InScan(s: seq<Byte>, start: int, scan: int, k: int) {
    0 <= k <= |s| && (start <= k <= start + scan || start + scan <= k <= start)
  }

  // The first position of the scan at which the rewriting matcher finds something; the map, when there is one,
  // changes nothing.
  ghost predicate FirstHit(code: seq<Byte>, s: seq<Byte>, start: int, scan: int, r: int) {
    if r == -1 then forall k :: InScan(s, start, scan, k) ==> !Hits(code, s, k)
    else
      && InScan(s, start, scan, r) && Hits(code, s, r)
      && (forall k :: (start <= k < r || r < k <= start) ==> !Hits(code, s, k))
  }

  // Forwards, the characters are passed over that no match begins with; backwards, one of them is not tried.
  method PassOver(ghost alts: seq<Branch>, fm: seq<bool>, s: seq<Byte>, pos: int, range: int)
    returns (attempt: bool, to: int, left: int)
    requires Runnable(alts) && |fm| == 256 && SoundMap(CodeAlts(alts), fm, false)
    requires 0 <= pos < |s| && (range >= 0 ==> pos + range <= |s|)
    ensures to + left == pos + range && pos <= to && (range >= 0 ==> 0 <= left) && (range <= 0 ==> to == pos)
    ensures forall k :: pos <= k < to ==> !Hits(CodeAlts(alts), s, k)
    ensures !attempt ==> to == pos && !Hits(CodeAlts(alts), s, pos)
  {
    attempt, to, left := true, pos, range;
    if range > 0 {
      to, left := Along(fm, s, pos, range);
      forall k | pos <= k < to ensures !Hits(CodeAlts(alts), s, k) { Misses(alts, fm, s, k); }
    } else if !fm[s[pos]] {
      Misses(alts, fm, s, pos);
      attempt := false;
    }
  }

  lemma Missed(code: seq<Byte>, s: seq<Byte>, pos: int, m: int)
    requires Yields(code, s, pos, m) && m < 0
    ensures !Hits(code, s, pos)
  {
    if Hits(code, s, pos) {
      var q :| q >= 0 && Yields(code, s, pos, q);
      OneResult(code, s, pos, m, q);
    }
  }

  // Nothing is found between start and pos, pos left out.
  ghost predicate Barren(code: seq<Byte>, s: seq<Byte>, start: int, pos: int) {
    forall k :: (start <= k < pos || pos < k <= start) ==> !Hits(code, s, k)
  }

  // One attempt.
  method TryAt(ghost alts: seq<Branch>, buf: array<Byte>, s: seq<Byte>, pos: int) returns (m: int)
    requires Runnable(alts) && Rewritten(CodeAlts(alts), buf[..]) && 0 <= pos <= |s|
    modifies buf
    ensures Rewritten(CodeAlts(alts), buf[..]) && Yields(CodeAlts(alts), s, pos, m)
    ensures if m >= 0 then Hits(CodeAlts(alts), s, pos) else !Hits(CodeAlts(alts), s, pos)
  {
    m := MatchInPlace(alts, buf, s, pos);
    if m < 0 {
      Missed(CodeAlts(alts), s, pos, m);
    }
  }

  // The loop, with the range cut down to the subject.
  method Scan(ghost alts: seq<Branch>, buf: array<Byte>, useMap: bool, fm: seq<bool>, can: bool, s: seq<Byte>,
              start: int, full: int)
    returns (r: int, m: int)
    requires Runnable(alts) && Rewritten(CodeAlts(alts), buf[..])
    requires |fm| == 256 && (useMap ==> SoundMap(CodeAlts(alts), fm, can))
    requires 0 <= start <= |s| && 0 <= start + full <= |s|
    modifies buf
    ensures Rewritten(CodeAlts(alts), buf[..])
    ensures r == -1 ==>
              Barren(CodeAlts(alts), s, start, start + full) && !Hits(CodeAlts(alts), s, start + full)
    ensures r != -1 ==>
              && 0 <= m && Yields(CodeAlts(alts), s, r, m)
              && (start <= r <= start + full || start + full <= r <= start) && Barren(CodeAlts(alts), s, start, r)
  {
    ghost var code := CodeAlts(alts);
    var pos, range := start, full;
    m := -1;
    while true
      invariant Rewritten(code, buf[..]) && 0 <= pos <= |s| && pos + range == start + full
      invariant if full >= 0 then range >= 0 && start <= pos else range <= 0 && pos <= start
      invariant Barren(code, s, start, pos)
      decreases if range < 0 then -range else range
    {
      var attempt := true;
      if useMap && pos < |s| && !can {
        attempt, pos, range := PassOver(alts, fm, s, pos, range);
      }
      if range >= 0 && pos == |s| && useMap && !can {
        Misses(alts, fm, s, pos);
        return -1, m;
      }
      if attempt {
        m := TryAt(alts, buf, s, pos);
        if m >= 0 { return pos, m; }
      }
      if range == 0 { return -1, m; }
      if range > 0 { range, pos := range - 1, pos + 1; } else { range, pos := range + 1, pos - 1; }
    }
  }

  // re_search_2 with the matcher that rewrites its back jumps: where it finds something, and how much.
  method SearchInPlace(ghost alts: seq<Branch>, buf: array<Byte>, useMap: bool, fm: seq<bool>, can: bool, s: seq<Byte>,
                       start: int, scan: int)
    returns (r: int, m: int)
    requires Runnable(alts) && Rewritten(CodeAlts(alts), buf[..])
    requires |fm| == 256 && (useMap ==> SoundMap(CodeAlts(alts), fm, can))
    modifies buf
    ensures Rewritten(CodeAlts(alts), buf[..])
    ensures !(0 <= start <= |s|) ==> r == -1
    ensures 0 <= start <= |s| ==> FirstHit(CodeAlts(alts), s, start, scan, r)
    ensures r != -1 ==> 0 <= r <= |s| && 0 <= m && Yields(CodeAlts(alts), s, r, m)
  {
    m := -1;
    if start < 0 || start > |s| { return -1, m; }
    var range := if start + scan < 0 then -start else if start + scan > |s| then |s| - start else scan;
    r, m := Scan(alts, buf, useMap, fm, can, s, start, range);
  }
}
