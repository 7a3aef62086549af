// The agents of a stream as linked objects (src/agent.cc): the pending lists are linked cells
// with a pointer to the first in the consumer and a pointer to the last in the producer. Every
// operation does to them what its counterpart in Pipeline does to their contents.
module AgentStream {
  import opened Pipeline

  // pend_ll
  class Cell {
    const d: Item
    ghost const owner: object
    var next: Cell?

    constructor (d: Item, ghost owner: object)
      ensures this.d == d && this.owner == owner && next == null
    {
      this.d, this.owner, next := d, owner, null;
    }
  }

  function Data(cells: seq<Cell>): (r: seq<Item>)
    ensures |r| == |cells| && forall k :: 0 <= k < |r| ==> r[k] == cells[k].d
  {
    seq(|cells|, k requires 0 <= k < |cells| => cells[k].d)
  }

  class Agent {
    const index: nat          // its place in the stream
    var inb: seq<Item>        // the current input, by what is left to pass on of it
    var pendin: Cell?         // first of the inputs pending for this agent
    var pendout: Cell?        // last of those this agent left pending for the next one
    var pendcount: int
    var next: Agent?
    var prev: Agent?
    ghost var cells: seq<Cell>

    constructor (index: nat)
      ensures this.index == index && inb == [] && pendin == null && pendout == null && pendcount == 0
      ensures next == null && prev == null && cells == []
    {
      this.index, inb, pendin, pendout, pendcount, next, prev, cells := index, [], null, null, 0, null, null, [];
    }

    ghost predicate Owned()
      reads this
    {
      forall k :: 0 <= k < |cells| ==> cells[k].owner == this
    }

    ghost function View(): Stage
      reads this
    {
      Stage(inb, Data(cells))
    }
  }

  // The list between two agents: pendcount is its length, pendin its first cell, pendout its
  // last, and both are null exactly when it is empty.
  ghost predicate List(pendin: Cell?, pendout: Cell?, pendcount: int, cells: seq<Cell>)
    reads cells
  {
    && pendcount == |cells|
    && (forall j, k :: 0 <= j < k < |cells| ==> cells[j] != cells[k])
    && (forall k :: 0 <= k < |cells| - 1 ==> cells[k].next == cells[k + 1])
    && (if cells == [] then pendin == null && pendout == null
        else pendin == cells[0] && pendout == cells[|cells| - 1] && cells[|cells| - 1].next == null)
  }

  // The queued branch of agent::pass.
  method Append(a: Agent, b: Agent, x: Item)
    requires a != b && b.Owned() && List(b.pendin, a.pendout, b.pendcount, b.cells)
    modifies a`pendout, b`pendin, b`pendcount, b`cells, b.cells
    ensures b.Owned() && List(b.pendin, a.pendout, b.pendcount, b.cells)
    ensures |b.cells| == |old(b.cells)| + 1 && b.cells[..|old(b.cells)|] == old(b.cells)
            && fresh(b.cells[|old(b.cells)|])
    ensures Data(b.cells) == old(Data(b.cells)) + [x]
  {
    var cell := new Cell(x, b);
    if a.pendout != null { a.pendout.next := cell; } else { b.pendin := cell; }
    a.pendout := cell;
    b.pendcount := b.pendcount + 1;
    b.cells := b.cells + [cell];
  }

  // The middle of agent::timeslice: the first pending input is taken off the list.
  method TakeFirst(a: Agent, b: Agent) returns (x: Item)
    requires a != b && b.Owned() && List(b.pendin, a.pendout, b.pendcount, b.cells) && b.cells != []
    modifies a`pendout, b`pendin, b`pendcount, b`cells
    ensures b.Owned() && List(b.pendin, a.pendout, b.pendcount, b.cells)
    ensures b.cells == old(b.cells[1..]) && [x] + Data(b.cells) == old(Data(b.cells))
  {
    var tmp := b.pendin;
    assert |b.cells| > 1 ==> b.cells[0].next == b.cells[1];
    x := tmp.d;
    b.pendin := tmp.next;
    b.cells := b.cells[1..];
    b.pendcount := b.pendcount - 1;
    if b.pendin == null {
      a.pendout := null;
      assert b.pendcount == 0;
    }
  }

  method LinkedAgents(n: nat) returns (s: seq<Agent>)
    requires n >= 2
    ensures |s| == n && fresh(s) && s[0].prev == null && s[n - 1].next == null
    ensures forall i :: 0 <= i < n ==> s[i].index == i && s[i].inb == [] && s[i].cells == [] && s[i].pendcount == 0
    ensures forall i :: 0 <= i < n ==> s[i].pendin == null && s[i].pendout == null
    ensures forall i :: 0 <= i < n - 1 ==> s[i].next == s[i + 1] && s[i + 1].prev == s[i]
  {
    s := [];
    while |s| < n
      invariant |s| <= n && fresh(s) && (s != [] ==> s[0].prev == null && s[|s| - 1].next == null)
      invariant forall i :: 0 <= i < |s| ==>
                  s[i].index == i && s[i].inb == [] && s[i].cells == [] && s[i].pendcount == 0
      invariant forall i :: 0 <= i < |s| ==> s[i].pendin == null && s[i].pendout == null
      invariant forall i :: 0 <= i < |s| - 1 ==> s[i].next == s[i + 1] && s[i + 1].prev == s[i]
    {
      var a := new Agent(|s|);
      if s != [] {
        s[|s| - 1].next := a;
        a.prev := s[|s| - 1];
      }
      s := s + [a];
    }
  }

  lemma EmitForms(c: Config, s: State, i: nat, early: bool, t: State, u: State, v: State)
    requires i + 1 < |s.st| && s.st[i].todo != []
    requires var more := |s.st[i].todo| > 1;
             && t == (if early && more then Schedule(s, Own(i)) else s)
             && u == Pass(c, Put(t, i, t.st[i].(todo := t.st[i].todo[1..])), i + 1, t.st[i].todo[0])
             && v == if !early && more then Schedule(u, Own(i)) else u
    ensures v == Emit(c, s, i, early)
  {
  }

  // Asked of 0 to unfold how the agents of a stream are linked.
  predicate Peek(n: nat) { true }

  class Stream {
    const c: Config
    const agents: seq<Agent>
    var queue: seq<Who>
    var inSleep: bool
    var outSleep: bool
    var callbk: bool
    var failed: bool
    ghost var inputs: seq<Item>
    var written: seq<Item>
    var done: nat

    ghost function Cells(): set<Cell>
      reads agents
    {
      set i, k | 0 <= i < |agents| && 0 <= k < |agents[i].cells| :: agents[i].cells[k]
    }

    // The two agents i and i + 1 and the list between them.
    ghost predicate Link(i: nat)
      requires i + 1 < |agents|
      reads agents, agents[i + 1].cells
    {
      && agents[i].next == agents[i + 1] && agents[i + 1].prev == agents[i] && agents[i + 1].Owned()
      && List(agents[i + 1].pendin, agents[i].pendout, agents[i + 1].pendcount, agents[i + 1].cells)
    }

    ghost predicate Linked()
      requires |agents| >= 2
      reads agents, Cells()
    {
      && agents[0].prev == null && agents[0].pendcount == 0
      && agents[|agents| - 1].next == null
      && forall i :: 0 <= i < |agents| - 1 ==> Link(i)
    }

    // Mentioning Peek(0) unfolds how the agents are linked; elsewhere the verifier carries it as it is.
    ghost predicate Valid()
      reads agents, Cells()
    {
      && c.n == |agents| >= 2 && agents[0].cells == [] && agents[0].pendin == null
      && (forall i :: 0 <= i < |agents| ==> agents[i].index == i)
      && forall n: nat {:trigger Peek(n)} :: Peek(n) && n == 0 ==> Linked()
    }

    ghost function Views(): (st: seq<Stage>)
      reads agents
      ensures |st| == |agents| && forall i :: 0 <= i < |st| ==> st[i] == agents[i].View()
    {
      seq(|agents|, i requires 0 <= i < |agents| reads agents => agents[i].View())
    }

    ghost function View(): State
      reads this, agents
    {
      State(Views(), queue, inSleep, outSleep, callbk, inputs, written, done, failed)
    }

    // stream::stream: the agents linked both ways, with nothing pending.
    constructor (c: Config)
      requires c.n >= 2
      ensures Valid() && this.c == c && View() == Init(c) && fresh(agents)
    {
      var made := LinkedAgents(c.n);
      this.c, agents := c, made;
      queue, inSleep, outSleep, callbk, failed, inputs, written, done := [], false, false, false, false, [], [], 0;
      new;
      assert Views() == Init(c).st;
    }

    // agent::schedule: a new entry at the head of the run queue.
    method Enter(w: Who)
      modifies `queue
      ensures queue == [w] + old(queue)
    {
      queue := [w] + queue;
    }

    method EnterIf(b: bool, w: Who)
      requires Valid()
      modifies `queue
      ensures Valid() && View() == (if b then Schedule(old(View()), w) else old(View())) && Cells() == old(Cells())
    {
      if b { Enter(w); }
    }

    // Agent i + 1 gets one more pending input.
    method Queue(ghost i: nat, a: Agent, b: Agent, x: Item)
      requires Valid() && i + 1 < c.n && a == agents[i] && b == agents[i + 1]
      modifies a`pendout, b`pendin, b`pendcount, b`cells, b.cells
      ensures Valid() && Views() == old(Views())[i + 1 := old(Views()[i + 1]).(pend := old(Views()[i + 1].pend) + [x])]
      ensures fresh(Cells() - old(Cells()))
    {
      assert Peek(0);
      assert Link(i);
      Append(a, b, x);
      forall k | 0 <= k < |agents| - 1 ensures Link(k) { assert old(Link(k)); }
    }

    // Agent i + 1 has its first pending input taken off.
    method Dequeue(ghost i: nat, a: Agent, b: Agent) returns (x: Item)
      requires Valid() && i + 1 < c.n && a == agents[i] && b == agents[i + 1] && b.cells != []
      modifies a`pendout, b`pendin, b`pendcount, b`cells
      ensures Valid() && x == old(Views()[i + 1].pend[0]) && Cells() <= old(Cells())
      ensures Views() == old(Views())[i + 1 := old(Views()[i + 1]).(pend := old(Views()[i + 1].pend[1..]))]
    {
      assert Peek(0);
      assert Link(i);
      x := TakeFirst(a, b);
      forall k | 0 <= k < |agents| - 1 ensures Link(k) { assert old(Link(k)); }
    }

    // Agent i has something else left to do of its current input.
    method SetInb(ghost i: nat, a: Agent, todo: seq<Item>)
      requires Valid() && i < c.n && a == agents[i]
      modifies a`inb
      ensures Valid() && Cells() == old(Cells()) && Views() == old(Views())[i := old(Views()[i]).(todo := todo)]
    {
      assert Peek(0);
      a.inb := todo;
      assert forall k :: 0 <= k < |agents| ==> agents[k].cells == old(agents[k].cells);
      forall k | 0 <= k < |agents| - 1 ensures Link(k) { assert old(Link(k)); }
    }

    // agent::pass of agent i
    method PassOn(ghost i: nat, a: Agent, x: Item)
      requires Valid() && i + 1 < c.n && a == agents[i]
      modifies `queue, agents, Cells()
      ensures Valid() && View() == Pass(c, old(View()), i + 1, x) && fresh(Cells() - old(Cells()))
    {
      assert Peek(0);
      assert Link(i);
      var b := a.next;
      if a.pendout != null || b.inb != [] {
        Queue(i, a, b, x);
      } else {
        SetInb(i + 1, b, Outputs(c, b.index, x));
        Enter(Own(b.index));
      }
    }

    // agent::unquench
    method Unquenched(ghost i: nat, a: Agent)
      requires Valid() && i < c.n && a == agents[i]
      modifies `queue
      ensures Valid() && View() == Unquench(old(View()), i)
    {
      HasPending(i, a);
      if a.inb != [] || a.pendin != null { Enter(Own(a.index)); }
    }

    lemma HasPending(i: nat, a: Agent)
      requires Valid() && i < c.n && a == agents[i]
      ensures a.pendin != null <==> View().st[i].pend != []
      ensures a.pendcount == |View().st[i].pend|
    {
      assert Peek(0);
      if i > 0 { assert Link(i - 1); }
    }

    // The part of agent::timeslice that takes the next pending input.
    method FetchNext(ghost i: nat, b: Agent)
      requires Valid() && 0 < i < c.n && b == agents[i] && b.inb == [] && b.pendin != null
      modifies `queue, agents, Cells()
      ensures View().st != [] && old(View().st[i].pend) != []
      ensures Valid() && View() == Fetch(c, old(View()), i) && Cells() <= old(Cells())
    {
      assert Peek(0);
      HasPending(i, b);
      assert Link(i - 1);
      var a := b.prev;
      var count := b.pendcount;
      var x := Dequeue(i - 1, a, b);
      SetInb(i, b, Outputs(c, b.index, x));
      if count == c.pendMin { Unquenched(i - 1, a); }
    }

    // The next piece of what agent i works on is passed on.
    method PassPiece(ghost i: nat, a: Agent)
      requires Valid() && i + 1 < c.n && a == agents[i] && a.inb != []
      modifies `queue, agents, Cells()
      ensures View().st != [] && old(View().st[i].todo) != []
      ensures Valid() && fresh(Cells() - old(Cells()))
      ensures var s := old(View());
              View() == Pass(c, Put(s, i, s.st[i].(todo := s.st[i].todo[1..])), i + 1, s.st[i].todo[0])
    {
      var x := a.inb[0];
      ghost var cells := Cells();
      SetInb(i, a, a.inb[1..]);
      PassOn(i, a, x);
      assert fresh(Cells() - cells);
    }

    // run() of an agent that passes data on.
    method EmitOne(ghost i: nat, a: Agent, early: bool)
      requires Valid() && i + 1 < c.n && a == agents[i] && a.inb != []
      modifies `queue, agents, Cells()
      ensures Valid() && View() == Emit(c, old(View()), i, early) && fresh(Cells() - old(Cells()))
    {
      var more := |a.inb| > 1;
      ghost var s, cells := View(), Cells();
      EnterIf(early && more, Own(a.index));
      assert Cells() == cells;
      ghost var t := View();
      PassPiece(i, a);
      assert fresh(Cells() - cells);
      ghost var u := View();
      EnterIf(!early && more, Own(a.index));
      EmitForms(c, s, i, early, t, u, View());
    }

    // From the first agent on, is there none with work left?
    method Rests() returns (idle: bool)
      requires Valid()
      ensures idle == Idle(View().st)
    {
      assert Peek(0);
      var a: Agent? := agents[0];
      ghost var i := 0;
      while a != null
        invariant 0 <= i <= c.n && (if i < c.n then a == agents[i] else a == null)
        invariant forall k :: 0 <= k < i ==> !View().st[k].Busy()
        decreases c.n - i
      {
        HasPending(i, a);
        if a.inb != [] || a.pendin != null {
          assert View().st[i].Busy();
          return false;
        }
        if i + 1 < c.n { assert Link(i); }
        a := a.next;
        i := i + 1;
      }
      idle := true;
    }

    // stream::finis
    method Finish()
      requires Valid()
      modifies `queue, `callbk, `done, `failed
      ensures Valid() && View() == Finis(old(View()))
    {
      var idle := Rests();
      if !idle { return; }
      if callbk {
        Enter(Other);
        callbk, done := false, done + 1;
      } else {
        failed := true;
      }
    }

    // run() of the output agent when all of its input could be written.
    method WriteAll(ghost i: nat, a: Agent)
      requires Valid() && i == c.n - 1 && a == agents[i] && a.inb != []
      modifies `queue, `callbk, `done, `failed, `written, agents, Cells()
      ensures View().st != [] && old(View().st[i].todo) != []
      ensures Valid() && Cells() == old(Cells())
      ensures var s := old(View());
              View() == Finis(Put(s, i, s.st[i].(todo := [])).(written := s.written + [s.st[i].todo[0]]))
    {
      written := written + [a.inb[0]];
      SetInb(i, a, []);
      Finish();
    }

    // a_input::run, a_output::run: io says whether all that was asked for could be read or
    // written.
    method RunInput(a: Agent, io: bool, early: bool)
      requires Valid() && a == agents[0] && a.inb != []
      modifies `queue, `inSleep, `failed, agents, Cells()
      ensures old(View().st[0].todo) != []
      ensures Valid() && View() == Run(c, old(View()), 0, io, early) && fresh(Cells() - old(Cells()))
    {
      if inSleep { failed := true; }
      else if io { EmitOne(0, a, early); }
      else { inSleep := true; }
    }

    method RunOutput(ghost i: nat, a: Agent, io: bool, early: bool)
      requires Valid() && i == c.n - 1 && a == agents[i] && a.inb != []
      modifies `queue, `outSleep, `callbk, `done, `failed, `written, agents, Cells()
      ensures old(View().st[i].todo) != []
      ensures Valid() && View() == Run(c, old(View()), i, io, early) && Cells() == old(Cells())
    {
      if outSleep { failed := true; }
      else if io { WriteAll(i, a); }
      else { outSleep := true; }
    }

    // run()
    method RunAgent(ghost i: nat, a: Agent, io: bool, early: bool)
      requires Valid() && i < c.n && a == agents[i] && a.inb != []
      modifies `queue, `inSleep, `outSleep, `callbk, `done, `failed, `written, agents, Cells()
      ensures old(View().st[i].todo) != []
      ensures Valid() && View() == Run(c, old(View()), i, io, early) && fresh(Cells() - old(Cells()))
    {
      assert Peek(0);
      assert a.index == i && (i > 0 ==> Link(i - 1)) && (i + 1 < c.n ==> Link(i));
      if a.prev == null {
        RunInput(a, io, early);
      } else if a.next != null {
        EmitOne(i, a, early);
      } else {
        RunOutput(i, a, io, early);
      }
    }

    // agent::timeslice from the call of run() on.
    method RunOn(ghost i: nat, a: Agent, io: bool, early: bool)
      requires Valid() && i < c.n && a == agents[i] && a.inb != []
      modifies `queue, `inSleep, `outSleep, `callbk, `done, `failed, `written, agents, Cells()
      ensures old(View().st[i].todo) != []
      ensures Valid() && View() == After(Run(c, old(View()), i, io, early), i) && fresh(Cells() - old(Cells()))
    {
      RunAgent(i, a, io, early);
      HasPending(i, a);
      EnterIf(a.pendcount != 0 && a.inb == [], Own(a.index));
    }

    // The agent holds back while the next one's list is too long.
    method Satiated(ghost i: nat, a: Agent) returns (r: bool)
      requires Valid() && i < c.n && a == agents[i]
      ensures r == (i + 1 < c.n && |View().st[i + 1].pend| > c.pendMax)
    {
      assert Peek(0);
      if i + 1 < c.n { assert Link(i); HasPending(i + 1, a.next); }
      r := a.next != null && a.next.pendcount > c.pendMax;
    }

    // An agent that works on nothing takes its next input.
    method Ready(ghost i: nat, a: Agent)
      requires Valid() && i < c.n && a == agents[i] && (a.inb != [] || a.pendin != null) && Works(c)
      modifies `queue, agents, Cells()
      ensures old(View().st[i]).todo == [] ==> i > 0 && old(View().st[i].pend) != []
      ensures Valid() && View() == (if old(View().st[i]).todo == [] then Fetch(c, old(View()), i) else old(View()))
      ensures Cells() <= old(Cells()) && a.inb != []
    {
      if a.inb == [] { FetchNext(i, a); }
      assert View().st[i].todo != [];
    }

    // agent::timeslice once it is known that there is something to do.
    method DoWork(ghost i: nat, a: Agent, io: bool, early: bool)
      requires Valid() && i < c.n && a == agents[i] && (a.inb != [] || a.pendin != null) && Works(c)
      modifies `queue, `inSleep, `outSleep, `callbk, `done, `failed, `written, agents, Cells()
      ensures old(View()).st[0].pend == [] && old(View()).st[i].Busy()
      ensures Valid() && View() == Work(c, old(View()), i, io, early) && fresh(Cells() - old(Cells()))
    {
      Ready(i, a);
      RunOn(i, a, io, early);
    }

    // agent::timeslice
    method Slice(ghost i: nat, a: Agent, io: bool, early: bool)
      requires Valid() && i < c.n && a == agents[i] && Works(c)
      modifies `queue, `inSleep, `outSleep, `callbk, `done, `failed, `written, agents, Cells()
      ensures old(View()).st[0].pend == []
      ensures Valid() && View() == Timeslice(c, old(View()), i, io, early) && fresh(Cells() - old(Cells()))
    {
      HasPending(i, a);
      var full := Satiated(i, a);
      if full || (a.inb == [] && a.pendin == null) { return; }
      DoWork(i, a, io, early);
    }

    // stream::apply and a_input::mktask
    method StartApply(x: Item)
      requires Valid() && !callbk && Works(c) && QueueFits(c, View())
      modifies `callbk, `inputs, `inSleep, agents, Cells()
      ensures old(View()).st[0].pend == []
      ensures Valid() && View() == Step(c, old(View()), Event.Apply(x)) && Cells() == old(Cells())
    {
      HasPending(0, agents[0]);
      ghost var s := View();
      callbk, inputs := true, inputs + [x];
      assert View() == s.(callbk := true, inputs := s.inputs + [x]);
      if agents[0].inb == [] {
        SetInb(0, agents[0], [x]);
        inSleep := true;
      }
    }

    // wakeup() in daemon.cc, for the two agents that sleep.
    method WakeInput(io: bool)
      requires Valid() && inSleep && Works(c) && QueueFits(c, View())
      modifies `queue, `inSleep, `outSleep, `callbk, `done, `failed, `written, agents, Cells()
      ensures old(View()).st[0].pend == []
      ensures Valid() && View() == Step(c, old(View()), WakeIn(io)) && fresh(Cells() - old(Cells()))
    {
      ghost var s := View();
      inSleep := false;
      assert View() == s.(inSleep := false);
      Slice(0, agents[0], io, false);
    }

    method WakeOutput(io: bool)
      requires Valid() && outSleep && Works(c) && QueueFits(c, View())
      modifies `queue, `inSleep, `outSleep, `callbk, `done, `failed, `written, agents, Cells()
      ensures old(View()).st[0].pend == []
      ensures Valid() && View() == Step(c, old(View()), WakeOut(io)) && fresh(Cells() - old(Cells()))
    {
      ghost var s := View();
      outSleep := false;
      assert View() == s.(outSleep := false);
      Slice(c.n - 1, agents[c.n - 1], io, false);
    }

    // An agent of another stream schedules others.
    method ServeOther(others: nat)
      requires Valid()
      modifies `queue
      ensures Valid() && Cells() == old(Cells())
      ensures View() == old(View()).(queue := seq(others, _ => Other) + old(View()).queue)
    {
      queue := seq(others, _ => Other) + queue;
    }

    // The body of the loop in server(): sched_sel(), then a timeslice for the agent it selects.
    // An agent of another stream may schedule others.
    method ServeNext(io: bool, early: bool, others: nat)
      requires Valid() && queue != [] && QueueFits(c, View()) && Works(c)
      modifies `queue, `inSleep, `outSleep, `callbk, `done, `failed, `written, agents, Cells()
      ensures old(View()).st[0].pend == []
      ensures Valid() && View() == Step(c, old(View()), Serve(io, early, others)) && fresh(Cells() - old(Cells()))
    {
      ghost var s := View();
      var w := queue[|queue| - 1];
      queue := queue[..|queue| - 1];
      assert View() == Popped(s);
      if w.Own? {
        Slice(w.i, agents[w.i], io, early);
      } else {
        ServeOther(others);
      }
    }
  }
}
