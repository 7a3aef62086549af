// What holds in every reachable state of a stream: order and completeness of the data, flow
// control, wake-ups and completion.
module PipelineRuns {
  import opened Pipeline

  // Unquenching works when the two limits are set so that it can.
  predicate Limits(c: Config) { c.n >= 2 && c.pendMax >= 0 && 1 <= c.pendMin <= c.pendMax + 1 }

  ghost predicate Shape(c: Config, s: State) {
    && Limits(c) && |s.st| == c.n && QueueFits(c, s) && !s.failed
    && s.st[0].pend == [] && s.st[1].pend == []
    && |s.st[0].todo| <= 1 && |s.st[c.n - 1].todo| <= 1
  }

  // Flow control: no list is ever longer than pend_max + 1.
  predicate Bounded(c: Config, s: State) {
    forall j :: 0 < j < |s.st| ==> |s.st[j].pend| <= c.pendMax + 1
  }

  function Entries(s: State, i: nat): nat { multiset(s.queue)[Own(i)] }

  function One(b: bool): nat { if b then 1 else 0 }

  // The agents at the ends wait in exactly one place when they have work, and nowhere when they
  // have none. e is the agent that is being served, if any.
  ghost predicate EndsWait(c: Config, s: State, e: int)
    requires |s.st| == c.n >= 2
  {
    && Entries(s, 0) + One(s.inSleep) + One(e == 0) == One(s.st[0].Busy())
    && Entries(s, c.n - 1) + One(s.outSleep) + One(e == c.n - 1) == One(s.st[c.n - 1].Busy())
  }

  // An agent in between that has work is in the run queue, or the list after it is so long
  // that its owner will wake the agent up.
  ghost predicate Woken(c: Config, st: seq<Stage>, queue: seq<Who>, i: nat)
    requires i + 1 < |st|
  {
    st[i].Busy() ==> Own(i) in queue || |st[i + 1].pend| >= c.pendMin
  }

  ghost predicate AllWoken(c: Config, st: seq<Stage>, queue: seq<Who>, e: int) {
    forall i :: 0 < i && i + 1 < |st| && i != e ==> Woken(c, st, queue, i)
  }

  // The input agent has data only at the very start of an apply.
  predicate InputFirst(s: State) {
    |s.st| > 0 && s.st[0].todo != [] ==> forall j :: 0 < j < |s.st| ==> !s.st[j].Busy()
  }

  // An apply is under way just as long as some agent has work, and every other one is done.
  predicate Accounted(s: State) {
    s.callbk == !Idle(s.st) && s.done + One(s.callbk) == |s.inputs|
  }

  ghost predicate Inv(c: Config, s: State, e: int) {
    Shape(c, s) && Bounded(c, s) && EndsWait(c, s, e) && AllWoken(c, s.st, s.queue, e) && InputFirst(s) && Accounted(s)
      && Conserved(c, s)
  }

  // ---- fetching the next input ------------------------------------------------------

  lemma FetchKeeps(c: Config, s: State, i: nat)
    requires Inv(c, s, i) && Works(c) && i < c.n && s.st[i].todo == [] && s.st[i].pend != []
    ensures i > 1 && Inv(c, Fetch(c, s, i), i) && Fetch(c, s, i).st[i].todo != []
  {
    var t := Fetch(c, s, i);
    assert s.st[i].Busy();
    assert !Idle(s.st);
    FetchShare(c, i, s.st[i]);
    SameShare(c, s.st, i, t.st[i]);
    assert t.st == s.st[i := t.st[i]];
    assert t.st[i].Busy();
    assert !Idle(t.st);
    FetchWakes(c, s, i);
    FetchEnds(c, s, i);
  }

  lemma FetchWakes(c: Config, s: State, i: nat)
    requires Shape(c, s) && AllWoken(c, s.st, s.queue, i) && 1 < i < c.n && s.st[i].todo == [] && s.st[i].pend != []
    ensures AllWoken(c, Fetch(c, s, i).st, Fetch(c, s, i).queue, i)
  {
    var t := Fetch(c, s, i);
    forall k | 0 < k && k + 1 < c.n && k != i ensures Woken(c, t.st, t.queue, k) {
      assert Woken(c, s.st, s.queue, k);
    }
  }

  lemma FetchEnds(c: Config, s: State, i: nat)
    requires Shape(c, s) && EndsWait(c, s, i) && 1 < i < c.n && s.st[i].todo == [] && s.st[i].pend != []
    ensures EndsWait(c, Fetch(c, s, i), i)
  {
  }

  // ---- passing on --------------------------------------------------------------------

  lemma EmitKeeps(c: Config, s: State, i: nat, early: bool)
    requires Inv(c, s, i) && Works(c) && i + 1 < c.n && s.st[i].todo != [] && |s.st[i + 1].pend| <= c.pendMax
    ensures Inv(c, After(Emit(c, s, i, early), i), -1)
  {
    var u := Emit(c, s, i, early);
    var t := After(u, i);
    assert s.st[i].Busy();
    assert !Idle(s.st);
    assert t.st == u.st;
    EmitStages(c, s, i, early);
    EmitFlight(c, s, i, early);
    assert t.st[i + 1].Busy();
    assert !Idle(t.st);
    EmitQueue(c, s, i, early);
    EmitShape(c, s, i, early);
    EmitWakes(c, s, i, early);
    EmitMoves(c, s, i, early);
    EmitEnds(c, s, t, i);
  }

  lemma EmitShape(c: Config, s: State, i: nat, early: bool)
    requires Shape(c, s) && Bounded(c, s) && InputFirst(s) && Works(c)
    requires i + 1 < c.n && s.st[i].todo != [] && |s.st[i + 1].pend| <= c.pendMax
    ensures var t := After(Emit(c, s, i, early), i);
            Shape(c, t) && Bounded(c, t) && InputFirst(t)
  {
    var g := s.st[i];
    var h := Pass(c, s, i + 1, g.todo[0]).st[i + 1];
    EmitStages(c, s, i, early);
    EmitQueue(c, s, i, early);
    assert s.st[i].Busy();
    StagesFit(c, s, i, g.(todo := g.todo[1..]), h);
    QueueGrows(c, s.queue, After(Emit(c, s, i, early), i).queue, !s.st[i + 1].Busy(),
               After(Emit(c, s, i, early), i).st[i].Busy(), i);
  }

  // Passing respects the limit and what is known of the two ends.
  lemma StagesFit(c: Config, s: State, i: nat, g: Stage, h: Stage)
    requires Shape(c, s) && Bounded(c, s) && InputFirst(s) && i + 1 < c.n && s.st[i].todo != []
             && |s.st[i + 1].pend| <= c.pendMax
    requires g == s.st[i].(todo := s.st[i].todo[1..])
    requires if s.st[i + 1].Busy() then h.todo == s.st[i + 1].todo && |h.pend| == |s.st[i + 1].pend| + 1
             else h == Stage(Outputs(c, i + 1, s.st[i].todo[0]), [])
    ensures var st := s.st[i := g][i + 1 := h];
            && st[0].pend == [] && st[1].pend == [] && |st[0].todo| <= 1 && |st[c.n - 1].todo| <= 1
            && (forall j :: 0 < j < c.n ==> |st[j].pend| <= c.pendMax + 1) && st[0].todo == []
  {
    assert s.st[i].Busy();
  }

  lemma QueueGrows(c: Config, q: seq<Who>, r: seq<Who>, next: bool, self: bool, i: nat)
    requires multiset(r) == Grown(multiset(q), next, self, i) && i + 1 < c.n
    requires forall k :: 0 <= k < |q| && q[k].Own? ==> q[k].i < c.n
    ensures forall k :: 0 <= k < |r| && r[k].Own? ==> r[k].i < c.n
  {
    forall k | 0 <= k < |r| && r[k].Own? ensures r[k].i < c.n {
      assert r[k] in multiset(r);
      if r[k] in multiset(q) { assert r[k] in q; }
    }
  }

  lemma PassQueue(c: Config, s: State, j: nat, x: Item)
    requires j < |s.st|
    ensures var t := Pass(c, s, j, x);
            t.(st := s.st) == s.(queue := if s.st[j].Busy() then s.queue else [Own(j)] + s.queue)
  {
  }

  lemma Added(q: seq<Who>, w: Who)
    ensures multiset([w] + q) == multiset(q) + multiset{w}
  {
  }

  // The queue only grows: by the next agent if it had nothing, by this one if it has more.
  ghost function Grown(q: multiset<Who>, next: bool, self: bool, i: nat): multiset<Who> {
    q + (if next then multiset{Own(i + 1)} else multiset{}) + (if self then multiset{Own(i)} else multiset{})
  }

  lemma EmitEntries(c: Config, s: State, i: nat, early: bool)
    requires |s.st| == c.n && i + 1 < c.n && s.st[i].todo != []
    ensures var t := Emit(c, s, i, early);
            && t.(st := s.st, queue := s.queue) == s
            && t.queue == (if |s.st[i].todo| <= 1 then (if s.st[i + 1].Busy() then s.queue else [Own(i + 1)] + s.queue)
                           else if s.st[i + 1].Busy() then [Own(i)] + s.queue
                           else if early then [Own(i + 1)] + ([Own(i)] + s.queue)
                           else [Own(i)] + ([Own(i + 1)] + s.queue))
  {
    var g := s.st[i];
    var t := Put(s, i, g.(todo := g.todo[1..]));
    PassQueue(c, if |g.todo| > 1 then Schedule(t, Own(i)) else t, i + 1, g.todo[0]);
    PassQueue(c, t, i + 1, g.todo[0]);
  }

  lemma EmitGrows(c: Config, s: State, i: nat, early: bool)
    requires |s.st| == c.n && i + 1 < c.n && s.st[i].todo != []
    ensures multiset(Emit(c, s, i, early).queue) == Grown(multiset(s.queue), !s.st[i + 1].Busy(), |s.st[i].todo| > 1, i)
  {
    EmitEntries(c, s, i, early);
    Added(s.queue, Own(i));
    Added(s.queue, Own(i + 1));
    Added([Own(i)] + s.queue, Own(i + 1));
    Added([Own(i + 1)] + s.queue, Own(i));
  }

  lemma EmitQueue(c: Config, s: State, i: nat, early: bool)
    requires |s.st| == c.n && i + 1 < c.n && s.st[i].todo != []
    ensures var t := After(Emit(c, s, i, early), i);
            && multiset(t.queue) == Grown(multiset(s.queue), !s.st[i + 1].Busy(), t.st[i].Busy(), i)
            && t.(st := s.st, queue := s.queue) == s
  {
    var u := Emit(c, s, i, early);
    EmitGrows(c, s, i, early);
    EmitEntries(c, s, i, early);
    EmitStages(c, s, i, early);
    Added(u.queue, Own(i));
  }

  lemma EmitWakes(c: Config, s: State, i: nat, early: bool)
    requires Shape(c, s) && AllWoken(c, s.st, s.queue, i) && i + 1 < c.n && s.st[i].todo != []
    ensures var t := After(Emit(c, s, i, early), i);
            AllWoken(c, t.st, t.queue, -1)
  {
    var t := After(Emit(c, s, i, early), i);
    EmitQueue(c, s, i, early);
    EmitStages(c, s, i, early);
    forall k | 0 < k && k + 1 < c.n ensures Woken(c, t.st, t.queue, k) {
      if k != i {
        assert Woken(c, s.st, s.queue, k);
        if Own(k) in s.queue { assert Own(k) in multiset(t.queue); }
        if k == i + 1 && !s.st[k].Busy() { assert Own(k) in multiset(t.queue); }
      } else if t.st[i].Busy() {
        assert Own(i) in multiset(t.queue);
      }
    }
  }

  // How often agent j is in the queue that has grown.
  lemma GrownEntries(q: multiset<Who>, next: bool, self: bool, i: nat, j: nat)
    ensures Grown(q, next, self, i)[Own(j)] == q[Own(j)] + One(next && j == i + 1) + One(self && j == i)
  {
    var a: multiset<Who> := if next then multiset{Own(i + 1)} else multiset{};
    var b: multiset<Who> := if self then multiset{Own(i)} else multiset{};
    assert Grown(q, next, self, i)[Own(j)] == q[Own(j)] + a[Own(j)] + b[Own(j)];
  }

  // What emitting does to the waiting of agents.
  ghost predicate Moved(c: Config, s: State, t: State, i: nat)
    requires |s.st| == c.n && i + 1 < c.n
  {
    && |t.st| == c.n && t.inSleep == s.inSleep && t.outSleep == s.outSleep
    && multiset(t.queue) == Grown(multiset(s.queue), !s.st[i + 1].Busy(), t.st[i].Busy(), i)
    && (i + 1 == c.n - 1 ==> t.st[i + 1].Busy())
    && forall j :: 0 <= j < c.n && j != i && j != i + 1 ==> t.st[j] == s.st[j]
  }

  lemma EmitMoves(c: Config, s: State, i: nat, early: bool)
    requires |s.st| == c.n && i + 1 < c.n && s.st[i].todo != []
    ensures Moved(c, s, After(Emit(c, s, i, early), i), i)
  {
    EmitQueue(c, s, i, early);
    EmitStages(c, s, i, early);
  }

  // One of the ends, while agent i is served: how often it waits, and whether it has work.
  lemma EmitEnd(c: Config, s: State, t: State, i: nat, j: nat)
    requires |s.st| == c.n && i + 1 < c.n && Moved(c, s, t, i) && (j == 0 || j == c.n - 1)
    ensures Entries(t, j) - Entries(s, j) == One(t.st[j].Busy()) - One(s.st[j].Busy() && j != i)
  {
    GrownEntries(multiset(s.queue), !s.st[i + 1].Busy(), t.st[i].Busy(), i, j);
  }

  // Both ends together.
  lemma EndsLeft(c: Config, s: State, t: State, i: nat)
    requires |s.st| == |t.st| == c.n >= 2 && EndsWait(c, s, i) && i + 1 < c.n && s.st[i].Busy()
    requires t.inSleep == s.inSleep && t.outSleep == s.outSleep
    requires Entries(t, 0) - Entries(s, 0) == One(t.st[0].Busy()) - One(s.st[0].Busy() && 0 != i)
    requires Entries(t, c.n - 1) - Entries(s, c.n - 1)
             == One(t.st[c.n - 1].Busy()) - One(s.st[c.n - 1].Busy() && c.n - 1 != i)
    ensures EndsWait(c, t, -1)
  {
  }

  lemma EmitEnds(c: Config, s: State, t: State, i: nat)
    requires |s.st| == c.n && i + 1 < c.n && EndsWait(c, s, i) && s.st[i].Busy() && Moved(c, s, t, i)
    ensures EndsWait(c, t, -1)
  {
    EmitEnd(c, s, t, i, 0);
    EmitEnd(c, s, t, i, c.n - 1);
    EndsLeft(c, s, t, i);
  }

  // ---- writing ------------------------------------------------------------------------

  // The last agent has written what it had; its list is as it was.
  ghost predicate Wrote(c: Config, s: State, t: State, x: Item)
    requires |s.st| == c.n >= 2
  {
    && t.st == s.st[c.n - 1 := Stage([], s.st[c.n - 1].pend)] && t.inputs == s.inputs && t.written == s.written + [x]
    && t.inSleep == s.inSleep && t.outSleep == s.outSleep
    && (Idle(t.st) ==> t.queue == [Other] + s.queue && !t.callbk && t.done == s.done + 1 && t.failed == !s.callbk)
    && (!Idle(t.st) ==> t.queue == (if t.st[c.n - 1].Busy() then [Own(c.n - 1)] + s.queue else s.queue)
                        && t.callbk == s.callbk && t.done == s.done && t.failed == s.failed)
  }

  lemma WriteIs(c: Config, s: State, early: bool)
    requires |s.st| == c.n >= 2 && |s.st[c.n - 1].todo| == 1 && !s.outSleep && !s.failed && s.callbk
    ensures Wrote(c, s, After(Run(c, s, c.n - 1, true, early), c.n - 1), s.st[c.n - 1].todo[0])
  {
    var i := c.n - 1;
    var u := Put(s, i, s.st[i].(todo := [])).(written := s.written + [s.st[i].todo[0]]);
    assert After(Finis(u), i).st == u.st == s.st[i := Stage([], s.st[i].pend)];
    if Idle(u.st) { assert !u.st[i].Busy(); }
  }

  lemma WroteEnds(c: Config, s: State, t: State, x: Item)
    requires |s.st| == c.n >= 2 && Wrote(c, s, t, x) && EndsWait(c, s, c.n - 1) && s.st[c.n - 1].todo != []
    ensures EndsWait(c, t, -1)
  {
    Added(s.queue, Other);
    Added(s.queue, Own(c.n - 1));
    assert s.st[c.n - 1].Busy();
    if Idle(t.st) { assert !t.st[c.n - 1].Busy() && !t.st[0].Busy(); }
  }

  lemma WroteFits(c: Config, s: State, t: State, x: Item)
    requires Shape(c, s) && Bounded(c, s) && InputFirst(s) && Accounted(s) && s.callbk && Wrote(c, s, t, x)
    ensures Shape(c, t) && Bounded(c, t) && InputFirst(t) && Accounted(t)
  {
  }

  lemma WriteKeeps(c: Config, s: State, early: bool)
    requires Inv(c, s, c.n - 1) && Works(c) && s.st[c.n - 1].todo != []
    ensures !s.outSleep && Inv(c, After(Run(c, s, c.n - 1, true, early), c.n - 1), -1)
  {
    var i := c.n - 1;
    var t := After(Run(c, s, i, true, early), i);
    assert s.st[i].Busy() && !Idle(s.st);
    WriteIs(c, s, early);
    WroteEnds(c, s, t, s.st[i].todo[0]);
    WroteFits(c, s, t, s.st[i].todo[0]);
    WriteFlight(c, s);
    WriteWakes(c, s);
  }

  lemma WriteFlight(c: Config, s: State)
    requires |s.st| == c.n >= 2 && |s.st[c.n - 1].todo| == 1 && Conserved(c, s)
    ensures var i := c.n - 1;
            (s.written + [s.st[i].todo[0]]) + InFlight(c, s.st[i := Stage([], s.st[i].pend)], 0)
              == Through(c, 0, s.inputs)
  {
    var i := c.n - 1;
    var x := s.st[i].todo[0];
    var st' := s.st[i := Stage([], s.st[i].pend)];
    assert s.st[i].todo == [x];
    assert InFlight(c, s.st, i) == [x] + InFlight(c, st', i);
    FrontFrom(c, s.st, st', 0, i, [x]);
  }

  // What is in front of everything stays in front of everything.
  lemma {:induction false} FrontFrom(c: Config, a: seq<Stage>, b: seq<Stage>, j: nat, k: nat, x: seq<Item>)
    requires j <= k <= |a| == |b| && InFlight(c, a, k) == x + InFlight(c, b, k)
    requires forall i :: j <= i < k ==> a[i] == b[i]
    ensures InFlight(c, a, j) == x + InFlight(c, b, j)
    decreases k - j
  {
    if j < k {
      FrontFrom(c, a, b, j + 1, k, x);
      assert (x + InFlight(c, b, j + 1)) + Share(c, j, b[j]) == x + (InFlight(c, b, j + 1) + Share(c, j, b[j]));
    }
  }

  lemma WriteWakes(c: Config, s: State)
    requires Shape(c, s) && AllWoken(c, s.st, s.queue, c.n - 1) && |s.st[c.n - 1].todo| == 1
    ensures var i := c.n - 1;
            var t := After(Finis(Put(s, i, s.st[i].(todo := [])).(written := s.written + [s.st[i].todo[0]])), i);
            AllWoken(c, t.st, t.queue, -1)
  {
    var i := c.n - 1;
    var t := After(Finis(Put(s, i, s.st[i].(todo := [])).(written := s.written + [s.st[i].todo[0]])), i);
    forall k | 0 < k && k + 1 < c.n ensures Woken(c, t.st, t.queue, k) {
      assert Woken(c, s.st, s.queue, k);
    }
  }

  // ---- a timeslice ------------------------------------------------------------------------

  lemma RestKeeps(c: Config, s: State, i: nat)
    requires Inv(c, s, i) && i < c.n
    requires (i + 1 < c.n && |s.st[i + 1].pend| > c.pendMax) || !s.st[i].Busy()
    ensures Inv(c, s, -1)
  {
  }

  lemma SleepKeeps(c: Config, s: State, i: nat, early: bool)
    requires Inv(c, s, i) && (i == 0 || i + 1 == c.n) && s.st[i].todo != []
    ensures Inv(c, After(Run(c, s, i, false, early), i), -1)
  {
  }

  lemma RunKeeps(c: Config, s: State, i: nat, io: bool, early: bool)
    requires Inv(c, s, i) && Works(c) && i < c.n && s.st[i].todo != []
    requires i + 1 < c.n ==> |s.st[i + 1].pend| <= c.pendMax
    ensures Inv(c, After(Run(c, s, i, io, early), i), -1)
  {
    if i + 1 == c.n && io {
      WriteKeeps(c, s, early);
    } else if (i == 0 && !io) || i + 1 == c.n {
      SleepKeeps(c, s, i, early);
    } else {
      EmitKeeps(c, s, i, early);
      Awake(c, s, i);
    }
  }

  lemma Awake(c: Config, s: State, i: nat)
    requires Inv(c, s, i) && i < c.n && s.st[i].todo != []
    ensures i == 0 ==> !s.inSleep
    ensures i + 1 == c.n ==> !s.outSleep
  {
  }

  lemma FetchLeaves(c: Config, s: State, i: nat)
    requires 0 < i && i + 1 < |s.st| && s.st[i].pend != []
    ensures Fetch(c, s, i).st[i + 1] == s.st[i + 1]
  {
  }

  lemma TimesliceKeeps(c: Config, s: State, i: nat, io: bool, early: bool)
    requires Inv(c, s, i) && Works(c) && i < c.n
    ensures Inv(c, Timeslice(c, s, i, io, early), -1)
  {
    if (i + 1 < c.n && |s.st[i + 1].pend| > c.pendMax) || !s.st[i].Busy() {
      RestKeeps(c, s, i);
    } else if s.st[i].todo == [] {
      FetchKeeps(c, s, i);
      if i + 1 < c.n { FetchLeaves(c, s, i); }
      RunKeeps(c, Fetch(c, s, i), i, io, early);
    } else {
      RunKeeps(c, s, i, io, early);
    }
  }

  // ---- every event ----------------------------------------------------------------------------

  lemma PopKeeps(c: Config, s: State)
    requires Inv(c, s, -1) && s.queue != [] && s.queue[|s.queue| - 1].Own?
    ensures Inv(c, Popped(s), s.queue[|s.queue| - 1].i)
  {
    var i := s.queue[|s.queue| - 1].i;
    var t := Popped(s);
    assert s.queue == t.queue + [Own(i)];
    assert multiset(s.queue) == multiset(t.queue) + multiset{Own(i)};
    forall k | 0 < k && k + 1 < c.n && k != i ensures Woken(c, t.st, t.queue, k) {
      assert Woken(c, s.st, s.queue, k);
      if Own(k) in s.queue { assert Own(k) in multiset(t.queue); }
    }
  }

  lemma OthersKeep(c: Config, s: State, others: nat)
    requires Inv(c, s, -1) && s.queue != [] && s.queue[|s.queue| - 1] == Other
    ensures Inv(c, s.(queue := seq(others, _ => Other) + Popped(s).queue), -1)
  {
    var more, rest := seq(others, _ => Other), Popped(s).queue;
    assert s.queue == rest + [Other];
    var t := s.(queue := more + rest);
    forall i: nat ensures multiset(more + rest)[Own(i)] == multiset(s.queue)[Own(i)] { SameOwn(more, rest, i); }
    SameWaits(c, s, more + rest);
  }

  lemma SameOwn(more: seq<Who>, rest: seq<Who>, i: nat)
    requires forall k :: 0 <= k < |more| ==> more[k] == Other
    ensures multiset(more + rest)[Own(i)] == multiset(rest + [Other])[Own(i)]
  {
    NoOwn(more, i);
    assert multiset(more + rest) == multiset(more) + multiset(rest);
    assert multiset(rest + [Other]) == multiset(rest) + multiset{Other};
  }

  // Only this stream's entries in the queue matter.
  lemma SameWaits(c: Config, s: State, q: seq<Who>)
    requires Inv(c, s, -1) && forall i: nat :: multiset(q)[Own(i)] == multiset(s.queue)[Own(i)]
    ensures Inv(c, s.(queue := q), -1)
  {
    forall i: nat ensures Own(i) in q <==> Own(i) in s.queue {
      assert Own(i) in q <==> Own(i) in multiset(q);
      assert Own(i) in s.queue <==> Own(i) in multiset(s.queue);
    }
    forall k | 0 <= k < |q| && q[k].Own? ensures q[k].i < c.n {
      assert q[k] == Own(q[k].i);
      assert Own(q[k].i) in s.queue;
    }
    forall k | 0 < k && k + 1 < c.n ensures Woken(c, s.st, q, k) { assert Woken(c, s.st, s.queue, k); }
  }

  lemma NoOwn(q: seq<Who>, i: nat)
    requires forall k :: 0 <= k < |q| ==> q[k] == Other
    ensures multiset(q)[Own(i)] == 0
  {
    assert Own(i) !in q;
  }

  lemma ApplyKeeps(c: Config, s: State, x: Item)
    requires Inv(c, s, -1) && !s.callbk && Works(c)
    ensures Inv(c, Step(c, s, Apply(x)), -1)
  {
    var t := Step(c, s, Apply(x));
    assert Idle(s.st);
    assert !s.st[0].Busy() && !s.st[1].Busy();
    assert t.st == s.st[0 := Stage([x], [])];
    assert t.st[0].Busy();
    assert !Idle(t.st);
    AppliedFlight(c, s, x);
    forall k | 0 < k && k + 1 < c.n ensures Woken(c, t.st, t.queue, k) { assert !s.st[k].Busy(); }
  }

  // What the input agent's input will come to.
  lemma InputShare(c: Config, x: Item)
    requires c.n >= 2
    ensures Share(c, 0, Stage([x], [])) == Through(c, 0, [x]) && Share(c, 0, Stage([], [])) == []
  {
    ThroughOne(c, 0, x);
    ThroughNone(c, 0);
    ThroughNone(c, 1);
  }

  lemma InputFlight(c: Config, st: seq<Stage>, g: Stage)
    requires |st| >= 2
    ensures InFlight(c, st[0 := g], 0) == InFlight(c, st, 1) + Share(c, 0, g)
  {
    InFlightTail(c, st, st[0 := g], 1);
  }

  lemma AppliedFlight(c: Config, s: State, x: Item)
    requires |s.st| == c.n >= 2 && Conserved(c, s) && !s.st[0].Busy()
    ensures s.written + InFlight(c, s.st[0 := Stage([x], [])], 0) == Through(c, 0, s.inputs + [x])
  {
    InputShare(c, x);
    InputFlight(c, s.st, Stage([x], []));
    InputFlight(c, s.st, Stage([], []));
    assert s.st[0 := Stage([], [])] == s.st;
    ThroughSum(c, 0, s.inputs, [x]);
    Onto(s.written, InFlight(c, s.st, 1), Through(c, 0, [x]));
  }

  lemma Onto(a: seq<Item>, b: seq<Item>, x: seq<Item>)
    ensures a + (b + x) == (a + (b + [])) + x
  {
  }

  lemma StepKeeps(c: Config, s: State, e: Event)
    requires Inv(c, s, -1) && Works(c) && Enabled(s, e)
    ensures Inv(c, Step(c, s, e), -1)
  {
    match e
    case Serve(io, early, others) =>
      ServeKeeps(c, s, io, early, others);
    case WakeIn(io) => WakeInKeeps(c, s, io);
    case WakeOut(io) => WakeOutKeeps(c, s, io);
    case Apply(x) => ApplyKeeps(c, s, x);
  }

  lemma ServeKeeps(c: Config, s: State, io: bool, early: bool, others: nat)
    requires Inv(c, s, -1) && Works(c) && s.queue != []
    ensures Inv(c, Step(c, s, Serve(io, early, others)), -1)
  {
    if s.queue[|s.queue| - 1].Own? {
      PopKeeps(c, s);
      TimesliceKeeps(c, Popped(s), s.queue[|s.queue| - 1].i, io, early);
    } else {
      OthersKeep(c, s, others);
    }
  }

  lemma WokenUp(c: Config, s: State)
    requires Inv(c, s, -1)
    ensures s.inSleep ==> Inv(c, s.(inSleep := false), 0)
    ensures s.outSleep ==> Inv(c, s.(outSleep := false), c.n - 1)
  {
  }

  lemma WakeInKeeps(c: Config, s: State, io: bool)
    requires Inv(c, s, -1) && Works(c) && s.inSleep
    ensures Inv(c, Step(c, s, WakeIn(io)), -1)
  {
    WokenUp(c, s);
    TimesliceKeeps(c, s.(inSleep := false), 0, io, false);
    assert Step(c, s, WakeIn(io)) == Timeslice(c, s.(inSleep := false), 0, io, false);
  }

  lemma WakeOutKeeps(c: Config, s: State, io: bool)
    requires Inv(c, s, -1) && Works(c) && s.outSleep
    ensures Inv(c, Step(c, s, WakeOut(io)), -1)
  {
    WokenUp(c, s);
    TimesliceKeeps(c, s.(outSleep := false), c.n - 1, io, false);
    assert Step(c, s, WakeOut(io)) == Timeslice(c, s.(outSleep := false), c.n - 1, io, false);
  }

  // ---- whole runs ---------------------------------------------------------------------------------

  ghost predicate May(c: Config, s: State, e: Event) {
    |s.st| == c.n && c.n >= 2 && s.st[0].pend == [] && Enabled(s, e) && QueueFits(c, s)
  }

  // states are what the events es lead through from the start, in any order the events allow.
  ghost predicate Trace(c: Config, states: seq<State>, es: seq<Event>)
    requires Works(c)
  {
    && |states| == |es| + 1 && states[0] == Init(c)
    && forall k :: 0 <= k < |es| ==> May(c, states[k], es[k]) && states[k + 1] == Step(c, states[k], es[k])
  }

  lemma {:induction false} InitHolds(c: Config)
    requires Limits(c)
    ensures Inv(c, Init(c), -1)
  {
    var s := Init(c);
    assert Idle(s.st);
    IdleFlight(c, s.st, 0);
    ThroughNone(c, 0);
    forall k | 0 < k && k + 1 < c.n ensures Woken(c, s.st, s.queue, k) { assert !s.st[k].Busy(); }
  }

  lemma {:induction false} IdleFlight(c: Config, st: seq<Stage>, j: nat)
    requires Idle(st)
    ensures InFlight(c, st, j) == []
    decreases |st| - j
  {
    if j < |st| {
      IdleFlight(c, st, j + 1);
      assert !st[j].Busy();
      ThroughNone(c, j);
      ThroughNone(c, j + 1);
    }
  }

  // Every state of every run.
  lemma {:induction false} TraceHolds(c: Config, states: seq<State>, es: seq<Event>, k: nat)
    requires Limits(c) && Works(c) && Trace(c, states, es) && k < |states|
    ensures Inv(c, states[k], -1)
  {
    if k == 0 {
      InitHolds(c);
    } else {
      TraceHolds(c, states, es, k - 1);
      StepKeeps(c, states[k - 1], es[k - 1]);
    }
  }

  // No fatal error; no list beyond its limit; what has been written is a beginning of what the
  // inputs come to, in order; and it is all of it whenever no apply is under way.
  lemma InOrderExactlyOnce(c: Config, states: seq<State>, es: seq<Event>, k: nat)
    requires Limits(c) && Works(c) && Trace(c, states, es) && k < |states|
    ensures !states[k].failed && Bounded(c, states[k])
    ensures states[k].written <= Through(c, 0, states[k].inputs)
    ensures !states[k].callbk ==> states[k].written == Through(c, 0, states[k].inputs)
  {
    TraceHolds(c, states, es, k);
    if !states[k].callbk { IdleFlight(c, states[k].st, 0); }
  }

  // An apply is reported complete once, and not before its last item has been written.
  lemma CompletedOnce(c: Config, states: seq<State>, es: seq<Event>, k: nat)
    requires Limits(c) && Works(c) && Trace(c, states, es) && k < |es|
    ensures states[k].done <= states[k + 1].done <= |states[k].inputs|
    ensures states[k + 1].done > states[k].done ==>
              states[k + 1].done == |states[k].inputs| && states[k + 1].written == Through(c, 0, states[k].inputs)
  {
    TraceHolds(c, states, es, k);
    TraceHolds(c, states, es, k + 1);
    InOrderExactlyOnce(c, states, es, k + 1);
    DoneGrows(c, states[k], es[k]);
  }

  lemma DoneGrows(c: Config, s: State, e: Event)
    requires Inv(c, s, -1) && Works(c) && Enabled(s, e)
    ensures var t := Step(c, s, e);
            && s.done <= t.done && t.inputs == (if e.Apply? then s.inputs + [e.x] else s.inputs)
            && (t.done > s.done ==> !t.callbk && !e.Apply?)
  {
    match e
    case Serve(io, early, others) =>
      if s.queue[|s.queue| - 1].Own? {
        PopKeeps(c, s);
        SliceDone(c, Popped(s), s.queue[|s.queue| - 1].i, io, early);
      }
    case WakeIn(io) => SliceDone(c, s.(inSleep := false), 0, io, false);
    case WakeOut(io) => SliceDone(c, s.(outSleep := false), c.n - 1, io, false);
    case Apply(x) =>
  }

  lemma RunDone(c: Config, s: State, i: nat, io: bool, early: bool)
    requires |s.st| == c.n >= 2 && i < c.n && s.st[i].todo != []
    ensures var t := Run(c, s, i, io, early);
            s.done <= t.done && t.inputs == s.inputs && (t.done > s.done ==> !t.callbk)
  {
    if i + 1 < c.n && (i > 0 || io) { EmitEntries(c, s, i, early); }
  }

  lemma FetchDone(c: Config, s: State, i: nat)
    requires 0 < i < |s.st| && s.st[i].pend != []
    ensures Fetch(c, s, i).(st := s.st, queue := s.queue) == s
  {
  }

  lemma WorkDone(c: Config, s: State, i: nat, io: bool, early: bool)
    requires |s.st| == c.n >= 2 && i < c.n && s.st[0].pend == [] && s.st[i].Busy() && Works(c)
    ensures var t := Work(c, s, i, io, early);
            s.done <= t.done && t.inputs == s.inputs && (t.done > s.done ==> !t.callbk)
  {
    if s.st[i].todo == [] { FetchDone(c, s, i); }
    RunDone(c, if s.st[i].todo == [] then Fetch(c, s, i) else s, i, io, early);
  }

  lemma SliceDone(c: Config, s: State, i: nat, io: bool, early: bool)
    requires |s.st| == c.n >= 2 && i < c.n && s.st[0].pend == [] && Works(c)
    ensures var t := Timeslice(c, s, i, io, early);
            s.done <= t.done && t.inputs == s.inputs && (t.done > s.done ==> !t.callbk)
  {
    if s.st[i].Busy() { WorkDone(c, s, i, io, early); }
  }

  // ---- nothing is ever forgotten ------------------------------------------------------------------

  // When no agent of the stream is in the run queue and none waits for its descriptor, no
  // agent has work: from the output agent back, each of them would have to be somewhere.
  lemma {:induction false} NoneLeft(c: Config, s: State, j: nat)
    requires Inv(c, s, -1) && !s.inSleep && !s.outSleep && (forall i :: Own(i) !in s.queue) && j < c.n
    ensures forall i :: j <= i < c.n ==> !s.st[i].Busy()
    decreases c.n - j
  {
    assert Own(j) !in multiset(s.queue);
    assert Own(c.n - 1) !in multiset(s.queue);
    if j + 1 < c.n {
      NoneLeft(c, s, j + 1);
      if j > 0 { assert Woken(c, s.st, s.queue, j); }
    }
  }

  lemma NoLostWakeup(c: Config, states: seq<State>, es: seq<Event>, k: nat)
    requires Limits(c) && Works(c) && Trace(c, states, es) && k < |states|
    requires !states[k].inSleep && !states[k].outSleep && forall i :: Own(i) !in states[k].queue
    ensures Idle(states[k].st) && states[k].done == |states[k].inputs|
    ensures states[k].written == Through(c, 0, states[k].inputs)
  {
    TraceHolds(c, states, es, k);
    NoneLeft(c, states[k], 0);
    IdleFlight(c, states[k].st, 0);
  }
}
