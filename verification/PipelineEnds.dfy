// A stream never spins: the number of timeslices it takes is bounded by what is applied.
module PipelineEnds {
  import opened Pipeline
  import opened PipelineRuns

  // How many pieces the agents from j on pass on or write for the inputs xs.
  function Load(c: Config, j: nat, xs: seq<Item>): nat
    decreases if j < c.n then c.n - j else 0
  {
    if j >= c.n then 0 else |Flat(c, j, xs)| + Load(c, j + 1, Flat(c, j, xs))
  }

  lemma {:induction false} LoadSum(c: Config, j: nat, a: seq<Item>, b: seq<Item>)
    ensures Load(c, j, a + b) == Load(c, j, a) + Load(c, j, b)
    decreases if j < c.n then c.n - j else 0
  {
    if j < c.n {
      FlatSum(c, j, a, b);
      LoadSum(c, j + 1, Flat(c, j, a), Flat(c, j, b));
    }
  }

  lemma {:induction false} LoadNone(c: Config, j: nat)
    ensures Load(c, j, []) == 0
    decreases if j < c.n then c.n - j else 0
  {
    if j < c.n { LoadNone(c, j + 1); }
  }

  lemma LoadOne(c: Config, j: nat, x: Item)
    requires j < c.n
    ensures Load(c, j, [x]) == |Outputs(c, j, x)| + Load(c, j + 1, Outputs(c, j, x))
  {
    assert [x][1..] == [];
    assert Flat(c, j, [x]) == Outputs(c, j, x);
  }

  // What a stage, and the stages from j on, still have to do.
  function Left(c: Config, j: nat, g: Stage): nat { |g.todo| + Load(c, j + 1, g.todo) + Load(c, j, g.pend) }

  function AllLeft(c: Config, st: seq<Stage>, j: nat): nat
    decreases |st| - j
  {
    if j >= |st| then 0 else AllLeft(c, st, j + 1) + Left(c, j, st[j])
  }

  lemma {:induction false} LeftFrom(c: Config, a: seq<Stage>, b: seq<Stage>, j: nat, k: nat)
    requires j <= k <= |a| == |b| && forall i :: j <= i < k ==> a[i] == b[i]
    ensures AllLeft(c, a, j) - AllLeft(c, a, k) == AllLeft(c, b, j) - AllLeft(c, b, k)
    decreases k - j
  {
    if j < k { LeftFrom(c, a, b, j + 1, k); }
  }

  lemma OneLeft(c: Config, st: seq<Stage>, j: nat, g: Stage)
    requires j < |st|
    ensures AllLeft(c, st[j := g], 0) - Left(c, j, g) == AllLeft(c, st, 0) - Left(c, j, st[j])
  {
    LeftFrom(c, st[j := g], st, j + 1, |st|);
    LeftFrom(c, st[j := g], st, 0, j);
  }

  lemma FetchLeft(c: Config, s: State, i: nat)
    requires 0 < i < |s.st| == c.n && s.st[i].todo == [] && s.st[i].pend != []
    ensures AllLeft(c, Fetch(c, s, i).st, 0) == AllLeft(c, s.st, 0)
  {
    var g := s.st[i];
    var x, rest := g.pend[0], g.pend[1..];
    assert g.pend == [x] + rest;
    LoadSum(c, i, [x], rest);
    LoadOne(c, i, x);
    LoadNone(c, i + 1);
    OneLeft(c, s.st, i, Stage(Outputs(c, i, x), rest));
  }

  lemma PassLeft(c: Config, s: State, j: nat, x: Item)
    requires j < |s.st| == c.n
    ensures Left(c, j, Pass(c, s, j, x).st[j]) == Left(c, j, s.st[j]) + Load(c, j, [x])
  {
    LoadSum(c, j, s.st[j].pend, [x]);
    LoadOne(c, j, x);
    LoadNone(c, j);
    LoadNone(c, j + 1);
  }

  lemma EmitLeft(c: Config, s: State, i: nat, early: bool)
    requires |s.st| == c.n && i + 1 < c.n && s.st[i].todo != []
    ensures AllLeft(c, Emit(c, s, i, early).st, 0) == AllLeft(c, s.st, 0) - 1
  {
    var g := s.st[i];
    var x, rest := g.todo[0], g.todo[1..];
    var h := Pass(c, s, i + 1, x).st[i + 1];
    EmitStages(c, s, i, early);
    PassLeft(c, s, i + 1, x);
    assert g.todo == [x] + rest;
    LoadSum(c, i + 1, [x], rest);
    OneLeft(c, s.st, i, g.(todo := rest));
    OneLeft(c, s.st[i := g.(todo := rest)], i + 1, h);
  }

  // ---- the queue ----------------------------------------------------------------

  function Owns(q: seq<Who>): nat {
    if q == [] then 0 else (if q[0].Own? then 1 else 0) + Owns(q[1..])
  }

  lemma {:induction false} OwnsSum(a: seq<Who>, b: seq<Who>)
    ensures Owns(a + b) == Owns(a) + Owns(b)
    decreases |a|
  {
    if a == [] { assert a + b == b; } else { OwnsSum(a[1..], b); assert (a + b)[1..] == a[1..] + b; }
  }

  lemma OwnsMore(w: Who, q: seq<Who>)
    ensures Owns([w] + q) == (if w.Own? then 1 else 0) + Owns(q)
  {
    assert ([w] + q)[1..] == q;
  }

  lemma {:induction false} OwnsOthers(n: nat)
    ensures Owns(seq(n, _ => Other)) == 0
  {
    if n > 0 {
      OwnsOthers(n - 1);
      assert seq(n, _ => Other)[1..] == seq(n - 1, _ => Other);
    }
  }

  // What is left to do, counted so that every timeslice that is served lessens it.
  function Effort(c: Config, s: State): nat { 8 * AllLeft(c, s.st, 0) + 2 * AllPend(s.st) + Owns(s.queue) }

  function AllPend(st: seq<Stage>): nat {
    if st == [] then 0 else |st[0].pend| + AllPend(st[1..])
  }

  lemma {:induction false} OnePend(st: seq<Stage>, j: nat, g: Stage)
    requires j < |st|
    ensures AllPend(st[j := g]) - |g.pend| == AllPend(st) - |st[j].pend|
    decreases j
  {
    if j == 0 {
      assert st[j := g][1..] == st[1..];
    } else {
      OnePend(st[1..], j - 1, g);
      assert st[j := g][1..] == st[1..][j - 1 := g];
    }
  }

  lemma FetchEffort(c: Config, s: State, i: nat)
    requires 0 < i < |s.st| == c.n && s.st[i].todo == [] && s.st[i].pend != []
    ensures Effort(c, Fetch(c, s, i)) <= Effort(c, s) - 1
  {
    FetchLeft(c, s, i);
    OnePend(s.st, i, Stage(Outputs(c, i, s.st[i].pend[0]), s.st[i].pend[1..]));
    OwnsMore(Own(i - 1), s.queue);
  }

  lemma AfterEffort(c: Config, s: State, i: nat)
    requires i < |s.st|
    ensures Effort(c, After(s, i)) <= Effort(c, s) + 1
  {
    OwnsMore(Own(i), s.queue);
  }

  lemma EmitEffort(c: Config, s: State, i: nat, early: bool)
    requires |s.st| == c.n && i + 1 < c.n && s.st[i].todo != []
    ensures Effort(c, Emit(c, s, i, early)) <= Effort(c, s) - 4
  {
    EmitLeft(c, s, i, early);
    EmitStages(c, s, i, early);
    var g := s.st[i].(todo := s.st[i].todo[1..]);
    OnePend(s.st, i, g);
    OnePend(s.st[i := g], i + 1, Pass(c, s, i + 1, s.st[i].todo[0]).st[i + 1]);
    EmitEntries(c, s, i, early);
    OwnsMore(Own(i), s.queue);
    OwnsMore(Own(i + 1), s.queue);
    OwnsMore(Own(i + 1), [Own(i)] + s.queue);
    OwnsMore(Own(i), [Own(i + 1)] + s.queue);
  }

  lemma WriteEffort(c: Config, s: State, early: bool)
    requires |s.st| == c.n >= 2 && |s.st[c.n - 1].todo| == 1 && !s.outSleep
    ensures Effort(c, Run(c, s, c.n - 1, true, early)) <= Effort(c, s) - 3
  {
    var i := c.n - 1;
    var g := Stage([], s.st[i].pend);
    assert Left(c, i, s.st[i]) == 1 + Left(c, i, g);
    OneLeft(c, s.st, i, g);
    OnePend(s.st, i, g);
    OwnsMore(Other, s.queue);
  }

  lemma RunEffort(c: Config, s: State, i: nat, io: bool, early: bool)
    requires Shape(c, s) && i < c.n && s.st[i].todo != []
    requires i == 0 ==> !s.inSleep
    requires i + 1 == c.n ==> !s.outSleep
    ensures Effort(c, Run(c, s, i, io, early)) <= Effort(c, s)
    ensures io || (0 < i && i + 1 < c.n) ==> Effort(c, Run(c, s, i, io, early)) <= Effort(c, s) - 3
  {
    if i + 1 == c.n {
      if io { WriteEffort(c, s, early); }
    } else if i > 0 || io {
      EmitEffort(c, s, i, early);
    }
  }

  // A timeslice never adds to what is left, and takes from it when an agent at an end reads
  // or writes all it has to.
  lemma SliceEffort(c: Config, s: State, i: nat, io: bool, early: bool)
    requires Inv(c, s, i) && Works(c) && i < c.n
    ensures Effort(c, Timeslice(c, s, i, io, early)) <= Effort(c, s)
    ensures io && (i == 0 || i + 1 == c.n) ==> Effort(c, Timeslice(c, s, i, io, early)) < Effort(c, s)
  {
    if i == 0 || i + 1 == c.n { Ready(c, s, i); }
    if (i + 1 < c.n && |s.st[i + 1].pend| > c.pendMax) || !s.st[i].Busy() {
    } else if s.st[i].todo == [] {
      FetchKeeps(c, s, i);
      FetchEffort(c, s, i);
      BusyEffort(c, Fetch(c, s, i), i, io, early);
    } else {
      BusyEffort(c, s, i, io, early);
    }
  }

  lemma BusyEffort(c: Config, s: State, i: nat, io: bool, early: bool)
    requires Inv(c, s, i) && i < c.n && s.st[i].todo != []
    ensures var t := After(Run(c, s, i, io, early), i);
            Effort(c, t) <= Effort(c, s) && (io && (i == 0 || i + 1 == c.n) ==> Effort(c, t) < Effort(c, s))
  {
    Awake(c, s, i);
    RunEffort(c, s, i, io, early);
    AfterEffort(c, Run(c, s, i, io, early), i);
    if !io && (i == 0 || i + 1 == c.n) { NotBoth(c, s, i, io, early); }
  }

  // The agents at the ends are served only when they have work and room for it.
  lemma Ready(c: Config, s: State, i: nat)
    requires Inv(c, s, i) && (i == 0 || i + 1 == c.n)
    ensures s.st[i].Busy() && (i + 1 < c.n ==> s.st[i + 1].pend == [])
  {
  }

  // An agent that goes to sleep is not scheduled as well.
  lemma NotBoth(c: Config, s: State, i: nat, io: bool, early: bool)
    requires Shape(c, s) && i < c.n && s.st[i].todo != [] && !io && (i == 0 || i + 1 == c.n)
    requires i == 0 ==> !s.inSleep
    requires i + 1 == c.n ==> !s.outSleep
    ensures After(Run(c, s, i, io, early), i) == Run(c, s, i, io, early)
  {
  }

  // ---- whole runs -----------------------------------------------------------------

  // Events that are progress: a timeslice from the queue for an agent of the stream, or a
  // descriptor on which everything asked for could be read or written.
  predicate Counts(s: State, e: Event)
    requires Enabled(s, e)
  {
    match e
    case Serve(_, _, _) => s.queue[|s.queue| - 1].Own?
    case WakeIn(io) => io
    case WakeOut(io) => io
    case Apply(_) => false
  }

  lemma PopEffort(c: Config, s: State)
    requires s.queue != []
    ensures Effort(c, Popped(s)) == Effort(c, s) - One(s.queue[|s.queue| - 1].Own?)
  {
    var q := s.queue[..|s.queue| - 1];
    assert s.queue == q + [s.queue[|s.queue| - 1]];
    OwnsSum(q, [s.queue[|s.queue| - 1]]);
  }

  lemma OthersEffort(c: Config, s: State, others: nat)
    requires s.queue != [] && s.queue[|s.queue| - 1] == Other
    ensures Effort(c, s.(queue := seq(others, _ => Other) + Popped(s).queue)) == Effort(c, s)
  {
    PopEffort(c, s);
    OwnsOthers(others);
    OwnsSum(seq(others, _ => Other), Popped(s).queue);
  }

  lemma ApplyEffort(c: Config, s: State, x: Item)
    requires Inv(c, s, -1) && !s.callbk && Works(c)
    ensures Effort(c, Step(c, s, Apply(x))) == Effort(c, s) + 8 * Load(c, 0, [x])
  {
    assert Idle(s.st);
    assert !s.st[0].Busy();
    LoadOne(c, 0, x);
    LoadNone(c, 0);
    LoadNone(c, 1);
    OneLeft(c, s.st, 0, Stage([x], []));
    OnePend(s.st, 0, Stage([x], []));
  }

  lemma ServeEffort(c: Config, s: State, io: bool, early: bool, others: nat)
    requires Inv(c, s, -1) && Works(c) && s.queue != []
    ensures Effort(c, Step(c, s, Serve(io, early, others))) + One(s.queue[|s.queue| - 1].Own?) <= Effort(c, s)
  {
    PopEffort(c, s);
    if s.queue[|s.queue| - 1].Own? {
      PopKeeps(c, s);
      SliceEffort(c, Popped(s), s.queue[|s.queue| - 1].i, io, early);
    } else {
      OthersEffort(c, s, others);
    }
  }

  lemma WakeInEffort(c: Config, s: State, io: bool)
    requires Inv(c, s, -1) && Works(c) && s.inSleep
    ensures Effort(c, Step(c, s, WakeIn(io))) + One(io) <= Effort(c, s)
  {
    WokenUp(c, s);
    SliceEffort(c, s.(inSleep := false), 0, io, false);
  }

  lemma WakeOutEffort(c: Config, s: State, io: bool)
    requires Inv(c, s, -1) && Works(c) && s.outSleep
    ensures Effort(c, Step(c, s, WakeOut(io))) + One(io) <= Effort(c, s)
  {
    WokenUp(c, s);
    SliceEffort(c, s.(outSleep := false), c.n - 1, io, false);
  }

  lemma StepEffort(c: Config, s: State, e: Event)
    requires Inv(c, s, -1) && Works(c) && Enabled(s, e)
    ensures var t := Step(c, s, e);
            Effort(c, t) - 8 * Load(c, 0, t.inputs) + One(Counts(s, e)) <= Effort(c, s) - 8 * Load(c, 0, s.inputs)
  {
    DoneGrows(c, s, e);
    match e
    case Serve(io, early, others) => ServeEffort(c, s, io, early, others);
    case WakeIn(io) => WakeInEffort(c, s, io);
    case WakeOut(io) => WakeOutEffort(c, s, io);
    case Apply(x) =>
      ApplyEffort(c, s, x);
      LoadSum(c, 0, s.inputs, [x]);
  }

  function Progress(states: seq<State>, es: seq<Event>, k: nat): nat
    requires k <= |es| < |states| && forall i :: 0 <= i < |es| ==> Enabled(states[i], es[i])
  {
    if k == 0 then 0 else Progress(states, es, k - 1) + One(Counts(states[k - 1], es[k - 1]))
  }

  // However the events are ordered, a run has no more than eight such events for every piece
  // of data that is to be passed on or written.
  lemma {:induction false} NoSpinning(c: Config, states: seq<State>, es: seq<Event>, k: nat)
    requires Limits(c) && Works(c) && Trace(c, states, es) && k <= |es|
    requires forall i :: 0 <= i < |es| ==> Enabled(states[i], es[i])
    ensures Progress(states, es, k) + Effort(c, states[k]) <= 8 * Load(c, 0, states[k].inputs)
  {
    if k == 0 {
      NoLoad(c, states[0].st, 0);
      NoPend(states[0].st);
    } else {
      NoSpinning(c, states, es, k - 1);
      TraceHolds(c, states, es, k - 1);
      StepEffort(c, states[k - 1], es[k - 1]);
    }
  }

  lemma {:induction false} NoLoad(c: Config, st: seq<Stage>, j: nat)
    requires forall i :: 0 <= i < |st| ==> st[i] == Stage([], [])
    ensures AllLeft(c, st, j) == 0
    decreases |st| - j
  {
    if j < |st| { NoLoad(c, st, j + 1); LoadNone(c, j); LoadNone(c, j + 1); }
  }

  lemma {:induction false} NoPend(st: seq<Stage>)
    requires forall i :: 0 <= i < |st| ==> st[i] == Stage([], [])
    ensures AllPend(st) == 0
  {
    if st != [] { NoPend(st[1..]); }
  }
}
