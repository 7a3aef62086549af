// A stream of agents as a state machine (src/agent.cc, src/agent.h): what each timeslice does
// to the agents' inputs, their pending lists and the run queue.
module Pipeline {

  // A piece of data handed from agent to agent.
  type Item = int

  // The agents of one stream: 0 is the input agent, n - 1 the output agent. work says what an
  // agent in between makes of one piece of input, in the order it passes the results on; every
  // agent but the join agent makes at least one.
  datatype Config = Config(n: nat, pendMin: int, pendMax: int, work: (nat, Item) -> seq<Item>)

  // Every agent makes something of every input.
  ghost predicate Works(c: Config) { forall i, x :: c.work(i, x) != [] }

  function Outputs(c: Config, i: nat, x: Item): seq<Item> {
    if i == 0 || i + 1 == c.n then [x] else c.work(i, x)
  }

  // What an agent still has to pass on of the input it works on (none: inb is null), and the
  // list of inputs pending for it.
  datatype Stage = Stage(todo: seq<Item>, pend: seq<Item>) {
    predicate Busy() { todo != [] || pend != [] }
  }

  // An entry of the run queue: an agent of this stream, or any other agent.
  datatype Who = Own(i: nat) | Other

  // The queue is entered at its head, index 0, and served from its tail. inSleep and outSleep:
  // the input agent waits in block_table, the output agent in push_table. callbk: an apply is
  // under way. inputs, written and done are the history: what was applied, what was written and
  // how many applies were reported complete. failed: a fatal error was raised.
  datatype State = State(st: seq<Stage>, queue: seq<Who>, inSleep: bool, outSleep: bool, callbk: bool,
                         inputs: seq<Item>, written: seq<Item>, done: nat, failed: bool)

  function Init(c: Config): State {
    State(seq(c.n, _ => Stage([], [])), [], false, false, false, [], [], 0, false)
  }

  // ---- the operations ----------------------------------------------------------

  // agent::schedule
  function Schedule(s: State, w: Who): (r: State)
    ensures |r.st| == |s.st|
  {
    s.(queue := [w] + s.queue)
  }

  function Put(s: State, j: nat, g: Stage): (r: State)
    requires j < |s.st|
    ensures |r.st| == |s.st|
  {
    s.(st := s.st[j := g])
  }

  // agent::pass, seen from the agent j that is passed x.
  function Pass(c: Config, s: State, j: nat, x: Item): (r: State)
    requires j < |s.st|
    ensures |r.st| == |s.st|
  {
    var g := s.st[j];
    if g.pend != [] || g.todo != [] then Put(s, j, g.(pend := g.pend + [x]))
    else Schedule(Put(s, j, Stage(Outputs(c, j, x), [])), Own(j))
  }

  // agent::unquench
  function Unquench(s: State, i: nat): (r: State)
    requires i < |s.st|
    ensures |r.st| == |s.st|
  {
    if s.st[i].Busy() then Schedule(s, Own(i)) else s
  }

  // The middle of agent::timeslice: the first pending input becomes the current one.
  function Fetch(c: Config, s: State, i: nat): (r: State)
    requires 0 < i < |s.st| && s.st[i].pend != []
    ensures |r.st| == |s.st|
  {
    var g := s.st[i];
    var t := Put(s, i, Stage(Outputs(c, i, g.pend[0]), g.pend[1..]));
    if |g.pend| == c.pendMin then Unquench(t, i - 1) else t
  }

  // One run() of an agent that passes data on: it passes one piece, and schedules itself when
  // more is left, before or after the passing.
  function Emit(c: Config, s: State, i: nat, early: bool): (r: State)
    requires i + 1 < |s.st| && s.st[i].todo != []
    ensures |r.st| == |s.st|
  {
    var g := s.st[i];
    var t := Put(s, i, g.(todo := g.todo[1..]));
    var more := |g.todo| > 1;
    if early then Pass(c, if more then Schedule(t, Own(i)) else t, i + 1, g.todo[0])
    else
      var u := Pass(c, t, i + 1, g.todo[0]);
      if more then Schedule(u, Own(i)) else u
  }

  predicate Idle(st: seq<Stage>) { forall i :: 0 <= i < |st| ==> !st[i].Busy() }

  // stream::finis without an error
  function Finis(s: State): (r: State)
    ensures |r.st| == |s.st|
  {
    if !Idle(s.st) then s
    else if s.callbk then Schedule(s, Other).(callbk := false, done := s.done + 1)
    else s.(failed := true)
  }

  // run(), with the outcome of the reading or writing for the two agents at the ends. An agent
  // that goes to sleep twice is a fatal error.
  function Run(c: Config, s: State, i: nat, io: bool, early: bool): (r: State)
    requires |s.st| == c.n && i < c.n && c.n >= 2 && s.st[i].todo != []
    ensures |r.st| == |s.st|
  {
    if i == 0 then
      if s.inSleep then s.(failed := true)
      else if io then Emit(c, s, 0, early)
      else s.(inSleep := true)
    else if i + 1 < c.n then Emit(c, s, i, early)
    else if s.outSleep then s.(failed := true)
    else if io then
      Finis(Put(s, i, s.st[i].(todo := [])).(written := s.written + [s.st[i].todo[0]]))
    else s.(outSleep := true)
  }

  // The end of agent::timeslice.
  function After(s: State, i: nat): (r: State)
    requires i < |s.st|
    ensures |r.st| == |s.st|
  {
    if s.st[i].pend != [] && s.st[i].todo == [] then Schedule(s, Own(i)) else s
  }

  // agent::timeslice, for an agent with something to do
  ghost function Work(c: Config, s: State, i: nat, io: bool, early: bool): (r: State)
    requires |s.st| == c.n && i < c.n && c.n >= 2 && s.st[0].pend == [] && s.st[i].Busy()
    requires Works(c)
    ensures |r.st| == |s.st|
  {
    After(Run(c, if s.st[i].todo == [] then Fetch(c, s, i) else s, i, io, early), i)
  }

  // agent::timeslice
  ghost function Timeslice(c: Config, s: State, i: nat, io: bool, early: bool): (r: State)
    requires |s.st| == c.n && i < c.n && c.n >= 2 && s.st[0].pend == []
    requires Works(c)
    ensures |r.st| == |s.st|
  {
    if i + 1 < c.n && |s.st[i + 1].pend| > c.pendMax then s
    else if !s.st[i].Busy() then s
    else Work(c, s, i, io, early)
  }

  // ---- events ---------------------------------------------------------------------

  // Serve: the agent at the tail of the queue gets a timeslice; an agent of another stream may
  // schedule others. WakeIn, WakeOut: select() reports the descriptor of an agent that sleeps.
  // Apply: a connection starts an apply; it does so only when none is under way, because it is
  // not scheduled again before its callback.
  datatype Event = Serve(io: bool, early: bool, others: nat) | WakeIn(io: bool) | WakeOut(io: bool) | Apply(x: Item)

  predicate Enabled(s: State, e: Event) {
    match e
    case Serve(_, _, _) => s.queue != []
    case WakeIn(_) => s.inSleep
    case WakeOut(_) => s.outSleep
    case Apply(_) => !s.callbk
  }

  function Popped(s: State): State
    requires s.queue != []
  {
    s.(queue := s.queue[..|s.queue| - 1])
  }

  predicate QueueFits(c: Config, s: State) {
    forall k :: 0 <= k < |s.queue| && s.queue[k].Own? ==> s.queue[k].i < c.n
  }

  ghost function Step(c: Config, s: State, e: Event): State
    requires |s.st| == c.n && c.n >= 2 && s.st[0].pend == [] && Enabled(s, e)
    requires QueueFits(c, s)
    requires Works(c)
  {
    match e
    case Serve(io, early, others) =>
      var w := s.queue[|s.queue| - 1];
      if w.Own? then Timeslice(c, Popped(s), w.i, io, early)
      else s.(queue := seq(others, _ => Other) + Popped(s).queue)
    case WakeIn(io) => Timeslice(c, s.(inSleep := false), 0, io, false)
    case WakeOut(io) => Timeslice(c, s.(outSleep := false), c.n - 1, io, false)
    case Apply(x) =>
      // stream::apply and a_input::mktask
      var t := s.(callbk := true, inputs := s.inputs + [x]);
      if s.st[0].todo != [] then t else Put(t, 0, Stage([x], [])).(inSleep := true)
  }

  // ---- what comes out in the end ----------------------------------------------------

  function Flat(c: Config, j: nat, xs: seq<Item>): seq<Item> {
    if xs == [] then [] else Outputs(c, j, xs[0]) + Flat(c, j, xs[1..])
  }

  // What the agents from j on make of the inputs xs.
  function Through(c: Config, j: nat, xs: seq<Item>): seq<Item>
    decreases if j < c.n then c.n - j else 0
  {
    if j >= c.n then xs else Through(c, j + 1, Flat(c, j, xs))
  }

  lemma {:induction false} FlatSum(c: Config, j: nat, a: seq<Item>, b: seq<Item>)
    ensures Flat(c, j, a + b) == Flat(c, j, a) + Flat(c, j, b)
    decreases |a|
  {
    if a == [] {
      assert a + b == b;
    } else {
      FlatSum(c, j, a[1..], b);
      assert (a + b)[1..] == a[1..] + b;
    }
  }

  lemma {:induction false} ThroughSum(c: Config, j: nat, a: seq<Item>, b: seq<Item>)
    ensures Through(c, j, a + b) == Through(c, j, a) + Through(c, j, b)
    decreases if j < c.n then c.n - j else 0
  {
    if j < c.n {
      FlatSum(c, j, a, b);
      ThroughSum(c, j + 1, Flat(c, j, a), Flat(c, j, b));
    }
  }

  lemma {:induction false} ThroughNone(c: Config, j: nat)
    ensures Through(c, j, []) == []
    decreases if j < c.n then c.n - j else 0
  {
    if j < c.n { ThroughNone(c, j + 1); }
  }

  lemma ThroughOne(c: Config, j: nat, x: Item)
    requires j < c.n
    ensures Through(c, j, [x]) == Through(c, j + 1, Outputs(c, j, x))
  {
    assert [x][1..] == [];
    assert Flat(c, j, [x]) == Outputs(c, j, x);
  }

  // What agents that make of each piece just that piece make of the inputs.
  lemma {:induction false} PassedOn(c: Config, j: nat, xs: seq<Item>)
    requires forall i, x :: j <= i && 0 < i && i + 1 < c.n ==> c.work(i, x) == [x]
    ensures Through(c, j, xs) == xs
    decreases if j < c.n then c.n - j else 0, |xs|
  {
    if xs == [] {
      ThroughNone(c, j);
    } else if j < c.n {
      ThroughOne(c, j, xs[0]);
      PassedOn(c, j + 1, [xs[0]]);
      PassedOn(c, j, xs[1..]);
      ThroughSum(c, j, [xs[0]], xs[1..]);
      assert [xs[0]] + xs[1..] == xs;
    }
  }

  // If all agents but the k-th are like that, what comes out is what it makes of each input, one after another.
  lemma {:induction false} WorkedOn(c: Config, j: nat, k: nat, x: Item, xs: seq<Item>)
    requires j <= k && 0 < k && k + 1 < c.n && forall i, y :: 0 < i && i + 1 < c.n && i != k ==> c.work(i, y) == [y]
    ensures Through(c, j, [x] + xs) == c.work(k, x) + Through(c, j, xs) && Through(c, j, []) == []
    decreases k - j
  {
    ThroughNone(c, j);
    ThroughSum(c, j, [x], xs);
    ThroughOne(c, j, x);
    if j < k {
      WorkedOn(c, j + 1, k, x, []);
      assert [x] + [] == [x];
    } else {
      PassedOn(c, k + 1, c.work(k, x));
    }
  }

  // What a stage's current and pending inputs will come to.
  function Share(c: Config, j: nat, g: Stage): seq<Item> {
    Through(c, j + 1, g.todo) + Through(c, j, g.pend)
  }

  // The same for the stages from j on, in the order it will be written.
  function InFlight(c: Config, st: seq<Stage>, j: nat): seq<Item>
    decreases |st| - j
  {
    if j >= |st| then [] else InFlight(c, st, j + 1) + Share(c, j, st[j])
  }

  // Nothing lost, nothing doubled, nothing out of order.
  ghost predicate Conserved(c: Config, s: State) {
    s.written + InFlight(c, s.st, 0) == Through(c, 0, s.inputs)
  }

  lemma {:induction false} InFlightFrom(c: Config, a: seq<Stage>, b: seq<Stage>, j: nat, k: nat)
    requires j <= k <= |a| == |b| && InFlight(c, a, k) == InFlight(c, b, k)
    requires forall i :: j <= i < k ==> a[i] == b[i]
    ensures InFlight(c, a, j) == InFlight(c, b, j)
    decreases k - j
  {
    if j < k { InFlightFrom(c, a, b, j + 1, k); }
  }

  lemma {:induction false} InFlightTail(c: Config, a: seq<Stage>, b: seq<Stage>, j: nat)
    requires j <= |a| == |b| && forall i :: j <= i < |a| ==> a[i] == b[i]
    ensures InFlight(c, a, j) == InFlight(c, b, j)
    decreases |a| - j
  {
    if j < |a| { InFlightTail(c, a, b, j + 1); }
  }

  // One stage changed, its share did not.
  lemma SameShare(c: Config, st: seq<Stage>, j: nat, g: Stage)
    requires j < |st| && Share(c, j, g) == Share(c, j, st[j])
    ensures InFlight(c, st[j := g], 0) == InFlight(c, st, 0)
  {
    InFlightTail(c, st[j := g], st, j + 1);
    InFlightFrom(c, st[j := g], st, 0, j);
  }

  lemma FetchShare(c: Config, j: nat, g: Stage)
    requires j < c.n && g.todo == [] && g.pend != []
    ensures Share(c, j, Stage(Outputs(c, j, g.pend[0]), g.pend[1..])) == Share(c, j, g)
  {
    var x := g.pend[0];
    assert g.pend == [x] + g.pend[1..];
    ThroughSum(c, j, [x], g.pend[1..]);
    ThroughOne(c, j, x);
    ThroughNone(c, j + 1);
  }

  // What pass() does to the share of the stage it passes x to.
  lemma PassShare(c: Config, s: State, j: nat, x: Item)
    requires j < |s.st| && |s.st| == c.n
    ensures Share(c, j, Pass(c, s, j, x).st[j]) == Share(c, j, s.st[j]) + Through(c, j, [x])
  {
    var g := s.st[j];
    if g.pend != [] || g.todo != [] {
      ThroughSum(c, j, g.pend, [x]);
      assert Through(c, j + 1, g.todo) + (Through(c, j, g.pend) + Through(c, j, [x])) == Share(c, j, g)
             + Through(c, j, [x]);
    } else {
      ThroughOne(c, j, x);
      ThroughNone(c, j);
      ThroughNone(c, j + 1);
    }
  }

  lemma EmitStages(c: Config, s: State, i: nat, early: bool)
    requires |s.st| == c.n && i + 1 < c.n && s.st[i].todo != []
    ensures var g := s.st[i];
            Emit(c, s, i, early).st
            == s.st[i := g.(todo := g.todo[1..])][i + 1 := Pass(c, s, i + 1, g.todo[0]).st[i + 1]]
  {
  }

  // One piece moves from the front of a stage to the back of the next.
  lemma TwoShares(c: Config, st: seq<Stage>, i: nat, g: Stage, h: Stage)
    requires i + 1 < |st| && |st| == c.n && st[i].todo != [] && g == st[i].(todo := st[i].todo[1..])
    requires Share(c, i + 1, h) == Share(c, i + 1, st[i + 1]) + Through(c, i + 1, [st[i].todo[0]])
    ensures InFlight(c, st[i := g][i + 1 := h], i) == InFlight(c, st, i)
  {
    var x, rest := st[i].todo[0], st[i].todo[1..];
    var st' := st[i := g][i + 1 := h];
    assert st[i].todo == [x] + rest;
    ThroughSum(c, i + 1, [x], rest);
    InFlightTail(c, st', st, i + 2);
    var a := InFlight(c, st, i + 2);
    Regroup(a, Share(c, i + 1, st[i + 1]), Through(c, i + 1, [x]), Through(c, i + 1, rest), Through(c, i, g.pend));
    assert InFlight(c, st', i + 1) == a + Share(c, i + 1, h);
  }

  lemma EmitFlight(c: Config, s: State, i: nat, early: bool)
    requires |s.st| == c.n && i + 1 < c.n && s.st[i].todo != []
    ensures InFlight(c, Emit(c, s, i, early).st, 0) == InFlight(c, s.st, 0)
  {
    var g := s.st[i];
    EmitStages(c, s, i, early);
    PassShare(c, s, i + 1, g.todo[0]);
    TwoShares(c, s.st, i, g.(todo := g.todo[1..]), Pass(c, s, i + 1, g.todo[0]).st[i + 1]);
    InFlightFrom(c, Emit(c, s, i, early).st, s.st, 0, i);
  }

  lemma Regroup(a: seq<Item>, b: seq<Item>, x: seq<Item>, d: seq<Item>, e: seq<Item>)
    ensures (a + (b + x)) + (d + e) == (a + b) + ((x + d) + e)
  {
  }
}
