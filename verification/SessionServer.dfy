// The commands that tie sessions together and take them apart (src/ttscp.cc, src/agent.cc,
// src/daemon.cc). A session is named by its handle.
module SessionServer {
  import opened SessionForest

  // What a command answers.
  datatype Reply = Ok | InvalidHandle | CannotControlMyself | BadDataHandle

  function Elements(q: seq<Handle>): set<Handle> { set x | x in q }

  class Server {
    var ctrlConns: set<Handle>            // the two connection tables
    var dataConns: set<Handle>
    var ctrl: map<Handle, Handle>         // a data connection's controller
    var deps: map<Handle, set<Handle>>    // the data connections of each session there is
    var queue: seq<Handle>                // to be disconnected, the last one first
    ghost var dying: set<Handle>          // sessions whose destructor is at work

    // A server without connections.
    constructor ()
      ensures Valid() && View() == Net({}, {}, {}, map[], map[]) && queue == [] && dying == {}
    {
      ctrlConns, dataConns, ctrl, deps, queue, dying := {}, {}, map[], map[], [], {};
      new;
      assert View().doomed == {};
      NobodyForest();
    }

    ghost function View(): Net
      reads this
    {
      Net(ctrlConns, dataConns, Elements(queue) + dying, ctrl, deps)
    }

    // The sessions form a forest, and the queue has no session twice.
    ghost predicate Valid()
      reads this
    {
      && Forest(View()) && Elements(queue) !! dying
      && forall i, j :: 0 <= i < j < |queue| ==> queue[i] != queue[j]
    }

    // ~a_ttscp: the sessions it controls are taken off its list and out of data_conns one by
    // one and destroyed, and so on down.
    method Destroy(h: Handle)
      requires Valid() && h in dying && h in deps
      modifies `dataConns, `ctrl, `deps, `dying
      ensures Valid() && View() == Cut(old(View()), Sub(old(View()), h)) && dying == old(dying) - {h}
      decreases |Sub(View(), h)|
    {
      ghost var t := View();
      while deps[h] != {}
        invariant Valid() && h in dying && h in deps && dying == old(dying)
        invariant Cut(View(), Sub(View(), h)) == Cut(t, Sub(t, h)) && |Sub(View(), h)| <= |Sub(t, h)|
        decreases |Sub(View(), h)|
      {
        var d :| d in deps[h];
        ChildIs(View(), h, d);
        DestroyTurn(View(), h, d);
        TakeOff(h, d);
        Destroy(d);
      }
      Free(h);
    }

    method TakeOff(h: Handle, d: Handle)
      requires Valid() && h in deps && d in deps[h]
      modifies `dataConns, `ctrl, `deps, `dying
      ensures Valid() && View() == Detach(old(View()), h, d) && dying == old(dying) + {d} && d in deps
    {
      ghost var t := View();
      ChildIs(t, h, d);
      DetachKeeps(t, h, d);
      deps := deps[h := deps[h] - {d}];
      dataConns := dataConns - {d};
      ctrl := ctrl - {d};
      dying := dying + {d};
      assert View() == Detach(t, h, d);
    }

    // The end of a destructor: the session controls nobody any more and is in no table.
    method Free(h: Handle)
      requires Valid() && h in dying && h in deps && deps[h] == {}
      modifies `deps, `dying
      ensures Valid() && View() == Cut(old(View()), Sub(old(View()), h)) && dying == old(dying) - {h}
    {
      ForestIs(View());
      OnlySelf(View(), h);
      CutKeeps(View(), h);
      ghost var t := View();
      deps := deps - {h};
      dying := dying - {h};
      FreedIs(t, View(), h);
    }

    // a_ttscp's constructor, with a handle that no session has.
    method Accept(h: Handle)
      requires Valid() && h !in deps
      modifies `ctrlConns, `deps
      ensures Valid() && View() == Added(old(View()), h)
      ensures ctrlConns == old(ctrlConns) + {h} && deps == old(deps)[h := {}]
    {
      AddedKeeps(View(), h);
      ctrlConns := ctrlConns + {h};
      deps := deps[h := {}];
    }

    // cmd_data: the connection a becomes a data connection of the one with the given handle.
    method CmdData(param: Handle, a: Handle) returns (r: Reply)
      requires Valid() && a in ctrlConns
      modifies `ctrlConns, `dataConns, `ctrl, `deps
      ensures Valid()
      ensures r == if param !in old(ctrlConns) then InvalidHandle else if param == a then CannotControlMyself else Ok
      ensures param in old(ctrlConns) ==> param in old(deps)
      ensures View() == if r == Ok then Tied(old(View()), a, param) else old(View())
      ensures r == Ok ==>
                && a !in ctrlConns && a in dataConns && param in ctrlConns && a in ctrl && ctrl[a] == param
                && Sub(View(), param) == Sub(old(View()), param) + Sub(old(View()), a)
                && forall x :: x != param ==> Sub(View(), x) == Sub(old(View()), x)
    {
      ForestIs(View());
      if param !in ctrlConns { return InvalidHandle; }
      if param == a { return CannotControlMyself; }
      TiedKeeps(View(), a, param);
      TiedSubs(View(), a, param);
      ctrlConns := ctrlConns - {a};
      ctrl := ctrl[a := param];
      deps := deps[param := deps[param] + {a}];
      dataConns := dataConns + {a};
      return Ok;
    }

    // cmd_delhandle, and what a_input::run does when a data connection is lost: it goes, with
    // all it controls; nothing else does.
    method CmdDelhandle(param: Handle) returns (r: Reply)
      requires Valid() && param !in dying
      modifies `dataConns, `ctrl, `deps, `dying
      ensures Valid() && r == (if param in old(dataConns) then Ok else BadDataHandle) && dying == old(dying)
      ensures r == BadDataHandle ==> View() == old(View())
      ensures r == Ok ==>
                var t := old(View());
                param in t.parent && t.parent[param] in t.deps &&
                View() == Cut(Detach(t, t.parent[param], param), Sub(t, param))
      ensures r == Ok ==>
                var gone := Sub(old(View()), param);
                && param in gone && dataConns == old(dataConns) - gone && ctrl == old(ctrl) - gone
                && deps.Keys == old(deps).Keys - gone && forall k :: k in deps ==> deps[k] == old(deps)[k] - {param}
    {
      if param !in dataConns { return BadDataHandle; }
      ghost var t := View();
      ForestIs(t);
      var h := ctrl[param];
      ChildIs(t, h, param);
      DetachSubs(t, h, param);
      TakeOff(h, param);
      ghost var u := View();
      DetachKeeps(t, h, param);
      CutKeeps(u, param);
      Destroy(param);
      return Ok;
    }

    // a_ttscp::disconnect and a_disconnector::disconnect
    method Disconnect(a: Handle)
      requires Valid() && a in ctrlConns
      modifies `ctrlConns, `queue
      ensures Valid() && View() == Dropped(old(View()), a) && queue == old(queue) + [a]
      ensures ctrlConns == old(ctrlConns) - {a}
    {
      ghost var t := View();
      DroppedKeeps(t, a);
      ctrlConns := ctrlConns - {a};
      queue := queue + [a];
      assert View().doomed == Dropped(t, a).doomed;
    }

    // a_disconnector::run
    method RunDisconnector()
      requires Valid() && queue != []
      modifies `queue, `dataConns, `ctrl, `deps, `dying
      ensures Valid() && queue == old(queue)[..|old(queue)| - 1] && dying == old(dying)
      ensures View() == Cut(old(View()), Sub(old(View()), old(queue)[|old(queue)| - 1]))
      ensures var gone := Sub(old(View()), old(queue)[|old(queue)| - 1]);
              && dataConns == old(dataConns) - gone && ctrl == old(ctrl) - gone
              && deps.Keys == old(deps).Keys - gone && forall k :: k in deps ==> deps[k] == old(deps)[k]
    {
      ghost var t := View();
      var h := queue[|queue| - 1];
      ForestIs(t);
      assert h in Elements(queue);
      ghost var was := queue;
      queue := queue[..|queue| - 1];
      dying := dying + {h};
      assert was == queue + [h];
      assert Elements(was) == Elements(queue) + {h};
      assert View() == t;
      CutKeeps(t, h);
      Destroy(h);
    }

    // The destruction of a control connection taken from its table.
    method Remove(h: Handle)
      requires Valid() && h in ctrlConns
      modifies `ctrlConns, `dataConns, `ctrl, `deps, `dying
      ensures Valid() && dying == old(dying) && ctrlConns == old(ctrlConns) - {h}
      ensures View() == Cut(Dropped(old(View()), h), Sub(old(View()), h))
    {
      ghost var t := View();
      DroppedKeeps(t, h);
      DroppedSub(t, h, h);
      ctrlConns := ctrlConns - {h};
      dying := dying + {h};
      assert View().doomed == Dropped(t, h).doomed;
      ghost var u := View();
      Destroy(h);
      ForestIs(u);
      forall x | x in u.ctrl ensures x !in Sub(u, h) { RootsApart(u, x, h); }
      assert ctrlConns == u.ctrl - Sub(u, h);
    }

    // server_shutdown: what is below a connection queued for disconnection stays, and nothing
    // else does.
    method Shutdown()
      requires Valid() && dying == {}
      modifies `ctrlConns, `dataConns, `ctrl, `deps, `dying
      ensures Valid() && ctrlConns == {}
      ensures forall k :: k in deps <==> exists q :: q in queue && k in Sub(old(View()), q)
      ensures queue == [] ==> dataConns == {} && deps == map[]
    {
      ghost var t := View();
      while ctrlConns != {}
        invariant Valid() && dying == {}
        invariant forall q :: q in queue ==> Sub(View(), q) == Sub(t, q)
        decreases |ctrlConns|
      {
        var h :| h in ctrlConns;
        ghost var u := View();
        DroppedKeeps(u, h);
        forall q | q in queue ensures Sub(Cut(Dropped(u, h), Sub(u, h)), q) == Sub(t, q) {
          ForestIs(u);
          assert q in u.doomed;
          DroppedSub(u, h, q);
          DroppedSub(u, h, h);
          CutOther(Dropped(u, h), h, q);
        }
        Remove(h);
      }
      forall k ensures k in deps <==> exists q :: q in queue && k in Sub(t, q) {
        if k in deps {
          var r := HasRoot(View(), k);
          assert r in queue && k in Sub(t, r);
        }
      }
      if queue == [] { NoRoots(View()); }
    }

    // cmd_shutdown
    method CmdShutdown(a: Handle)
      requires Valid() && dying == {} && a in ctrlConns
      modifies `ctrlConns, `dataConns, `ctrl, `deps, `dying
      ensures Valid() && ctrlConns == {}
      ensures queue == [] ==> dataConns == {} && deps == map[]
    {
      Remove(a);
      Shutdown();
    }
  }

  lemma NobodyForest()
    ensures Forest(Net({}, {}, {}, map[], map[]))
  {
    assert Ranked(map[], map[]);
    ForestMade(Net({}, {}, {}, map[], map[]));
  }

  lemma FreedIs(t: Net, u: Net, h: Handle)
    requires Placed(t) && h in t.doomed && h in t.deps && t.deps[h] == {}
    requires u == t.(doomed := t.doomed - {h}, deps := t.deps - {h})
    ensures u == Cut(t, {h})
  {
    var v := Cut(t, {h});
    assert u.ctrl == v.ctrl && u.data == v.data && u.parent == v.parent;
    forall k | k in u.deps ensures k in v.deps && u.deps[k] == v.deps[k] { assert h !in t.deps[k]; }
    assert u.deps == v.deps;
  }
}
