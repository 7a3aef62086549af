// The flow control limits that let a stream finish (src/agent.cc:145): with any others some run
// of some stream gets stuck with work left.
module PipelineLimits {
  import opened Pipeline
  import opened PipelineRuns

  ghost predicate Reached(c: Config, s: State)
    requires Works(c)
  {
    exists states, es :: Trace(c, states, es) && states[|states| - 1] == s
  }

  lemma ReachInit(c: Config)
    requires Works(c)
    ensures Reached(c, Init(c))
  {
    assert Trace(c, [Init(c)], []);
  }

  lemma ReachStep(c: Config, s: State, e: Event, t: State)
    requires Works(c) && Reached(c, s) && May(c, s, e) && t == Step(c, s, e)
    ensures Reached(c, t)
  {
    var states, es :| Trace(c, states, es) && states[|states| - 1] == s;
    var more, fs := states + [t], es + [e];
    forall k | 0 <= k < |fs| ensures May(c, more[k], fs[k]) && more[k + 1] == Step(c, more[k], fs[k]) {
      if k < |es| { assert May(c, states[k], es[k]); }
    }
    assert Trace(c, more, fs);
  }

  // Nothing of this stream is scheduled or waiting, yet an agent has work: nothing more happens.
  predicate Stuck(s: State) {
    !s.inSleep && !s.outSleep && s.queue == [] && !Idle(s.st)
  }

  // One agent between the two ends; it makes pend_max + 3 pieces of its one input.
  function Pieces(c: Config): seq<Item>
    requires c.pendMax >= 0
  {
    seq(c.pendMax + 3, k => k)
  }

  ghost predicate Flood(c: Config) {
    c.n == 3 && c.pendMax >= 0 && Works(c) && forall x :: c.work(1, x) == Pieces(c)
  }

  // The output agent sleeps over the first piece and k - 1 more are pending for it.
  function Filling(c: Config, k: nat): State
    requires c.pendMax >= 0 && 1 <= k <= c.pendMax + 2
  {
    var w := Pieces(c);
    State([Stage([], []), Stage(w[k..], []), Stage([w[0]], w[1..k])], [Own(1)], false, true, true, [7], [], 0, false)
  }

  // The output agent has written k pieces; the agent before it is not in the queue.
  function Drying(c: Config, k: nat): State
    requires c.pendMax >= 0 && 1 <= k <= c.pendMax + 2
  {
    var w := Pieces(c);
    State([Stage([], []), Stage(w[c.pendMax + 2..], []), Stage([], w[k..c.pendMax + 2])],
          if k < c.pendMax + 2 then [Own(2)] else [], false, false, true, [7], w[..k], 0, false)
  }

  lemma Start(c: Config)
    requires Flood(c)
    ensures Reached(c, Filling(c, 1))
  {
    var w := Pieces(c);
    var none := Stage([], []);
    ReachInit(c);
    assert Init(c).st == [none, none, none];
    var s1 := State([Stage([7], []), none, none], [], true, false, true, [7], [], 0, false);
    ReachStep(c, Init(c), Apply(7), s1);
    var s2 := State([none, Stage(w, []), none], [Own(1)], false, false, true, [7], [], 0, false);
    assert [7][1..] == [];
    assert Emit(c, s1.(inSleep := false), 0, false) == s2;
    ReachStep(c, s1, WakeIn(true), s2);
    var s3 := State([none, Stage(w[1..], []), Stage([w[0]], [])], [Own(1), Own(2)], false, false, true, [7], [], 0,
                    false);
    ReachStep(c, s2, Serve(false, false, 0), s3);
    assert Popped(s3).queue == [Own(1)] && w[1..1] == [];
    assert Filling(c, 1) == Popped(s3).(outSleep := true);
    ReachStep(c, s3, Serve(false, false, 0), Filling(c, 1));
  }

  lemma {:induction false} Fill(c: Config, k: nat)
    requires Flood(c) && 1 <= k <= c.pendMax + 2
    ensures Reached(c, Filling(c, k))
  {
    if k == 1 {
      Start(c);
    } else {
      Fill(c, k - 1);
      var w := Pieces(c);
      assert w[k - 1..][1..] == w[k..] && w[1..k - 1] + [w[k - 1]] == w[1..k];
      assert Popped(Filling(c, k - 1)).queue == [];
      ReachStep(c, Filling(c, k - 1), Serve(false, false, 0), Filling(c, k));
    }
  }

  lemma DryStart(c: Config)
    requires Flood(c) && !(1 <= c.pendMin <= c.pendMax + 1)
    ensures Reached(c, Drying(c, 1))
  {
    var w := Pieces(c);
    Fill(c, c.pendMax + 2);
    var full := Filling(c, c.pendMax + 2);
    assert Popped(full).queue == [];
    ReachStep(c, full, Serve(false, false, 0), full.(queue := []));
    ReachStep(c, full.(queue := []), WakeOut(true), Drying(c, 1));
  }

  lemma DryStep(c: Config, k: nat)
    requires Flood(c) && 1 < k <= c.pendMax + 2 && !(1 <= c.pendMin <= c.pendMax + 1)
    ensures May(c, Drying(c, k - 1), Serve(true, false, 0))
    ensures Step(c, Drying(c, k - 1), Serve(true, false, 0)) == Drying(c, k)
  {
    var w := Pieces(c);
    var s := Popped(Drying(c, k - 1));
    assert s.queue == [];
    var rest := w[k..c.pendMax + 2];
    assert s.st[2].pend == w[k - 1..c.pendMax + 2] && s.st[2].pend[0] == w[k - 1] && s.st[2].pend[1..] == rest;
    var f := Fetch(c, s, 2);
    assert f == s.(st := [s.st[0], s.st[1], Stage([w[k - 1]], rest)]);
    assert s.st[1].Busy();
    var u := Put(f, 2, Stage([], rest)).(written := f.written + [w[k - 1]]);
    assert w[..k - 1] + [w[k - 1]] == w[..k];
    assert u.st[1].Busy();
    assert Run(c, f, 2, true, false) == u;
    assert After(u, 2) == Drying(c, k);
  }

  lemma {:induction false} Dry(c: Config, k: nat)
    requires Flood(c) && 1 <= k <= c.pendMax + 2 && !(1 <= c.pendMin <= c.pendMax + 1)
    ensures Reached(c, Drying(c, k))
  {
    if k == 1 {
      DryStart(c);
    } else {
      Dry(c, k - 1);
      DryStep(c, k);
      ReachStep(c, Drying(c, k - 1), Serve(true, false, 0), Drying(c, k));
    }
  }

  // The limits are exact: with pend_min from 1 to pend_max + 1 no run gets stuck, with any
  // other pend_min some run does.
  lemma LimitsExact(pendMin: int, pendMax: int)
    requires pendMax >= 0
    ensures 1 <= pendMin <= pendMax + 1 <==>
            forall c: Config, s: State | c.n >= 2 && c.pendMin == pendMin && c.pendMax == pendMax && Works(c)
              && Reached(c, s) :: !Stuck(s)
  {
    if 1 <= pendMin <= pendMax + 1 {
      forall c: Config, s: State | c.n >= 2 && c.pendMin == pendMin && c.pendMax == pendMax && Works(c) && Reached(c, s)
        ensures !Stuck(s)
      {
        var states, es :| Trace(c, states, es) && states[|states| - 1] == s;
        if Stuck(s) { NoLostWakeup(c, states, es, |states| - 1); }
      }
    } else {
      var work := (i: nat, x: Item) => seq(pendMax + 3, k => k);
      var c := Config(3, pendMin, pendMax, work);
      assert forall i, x :: |c.work(i, x)| == pendMax + 3;
      assert Works(c);
      assert forall x :: c.work(1, x) == Pieces(c);
      Dry(c, pendMax + 2);
      var s := Drying(c, pendMax + 2);
      assert s.st[1].Busy();
      assert Stuck(s);
    }
  }
}
