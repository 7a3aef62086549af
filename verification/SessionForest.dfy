// Control and data connections as a forest (src/ttscp.cc, src/agent.cc): who controls whom,
// and what goes when a session goes.
module SessionForest {

  // Handles are unique among all the sessions there are.
  type Handle = nat

  // ctrl and data are the two connection tables; doomed are the sessions that are in neither
  // any more: those queued for disconnection, and the one being destroyed. parent is a data
  // connection's controller, deps a session's own list of the data connections it controls.
  datatype Net = Net(ctrl: set<Handle>, data: set<Handle>, doomed: set<Handle>,
                     parent: map<Handle, Handle>, deps: map<Handle, set<Handle>>)

  // ---- going up -----------------------------------------------------------------------

  datatype Option<T> = None | Some(value: T)

  function Chain(parent: map<Handle, Handle>, k: Handle, n: nat): Option<Handle>
    decreases n
  {
    if n == 0 then Some(k) else if k in parent then Chain(parent, parent[k], n - 1) else None
  }

  // k is h or is controlled by it, directly or not.
  ghost predicate Below(parent: map<Handle, Handle>, k: Handle, h: Handle) {
    exists n: nat :: Chain(parent, k, n) == Some(h)
  }

  lemma BelowStep(parent: map<Handle, Handle>, k: Handle, h: Handle)
    ensures Below(parent, k, h) <==> k == h || (k in parent && Below(parent, parent[k], h))
  {
    if Below(parent, k, h) {
      var n: nat :| Chain(parent, k, n) == Some(h);
      if n > 0 { assert Chain(parent, parent[k], n - 1) == Some(h); }
    }
    if k == h { assert Chain(parent, k, 0) == Some(h); }
    if k in parent && Below(parent, parent[k], h) {
      var n: nat :| Chain(parent, parent[k], n) == Some(h);
      assert Chain(parent, k, n + 1) == Some(h);
    }
  }

  // Ranks grow on the way up, so no session controls itself.
  predicate Ranked(parent: map<Handle, Handle>, rank: map<Handle, nat>) {
    forall d :: d in parent ==> d in rank && parent[d] in rank && rank[d] < rank[parent[d]]
  }

  lemma {:induction false} ChainRises(parent: map<Handle, Handle>, rank: map<Handle, nat>, k: Handle, n: nat, h: Handle)
    requires Ranked(parent, rank) && Chain(parent, k, n) == Some(h) && k in rank
    ensures h in rank && rank[h] >= rank[k] + n
    decreases n
  {
    if n > 0 { ChainRises(parent, rank, parent[k], n - 1, h); }
  }

  lemma {:induction false} BelowTrans(parent: map<Handle, Handle>, k: Handle, m: Handle, h: Handle)
    requires Below(parent, k, m) && Below(parent, m, h)
    ensures Below(parent, k, h)
  {
    var n: nat :| Chain(parent, k, n) == Some(m);
    ChainThen(parent, k, n, m, h);
  }

  lemma {:induction false} ChainThen(parent: map<Handle, Handle>, k: Handle, n: nat, m: Handle, h: Handle)
    requires Chain(parent, k, n) == Some(m) && Below(parent, m, h)
    ensures Below(parent, k, h)
    decreases n
  {
    if n > 0 {
      ChainThen(parent, parent[k], n - 1, m, h);
      BelowStep(parent, k, h);
    }
  }

  // ---- the forest ----------------------------------------------------------------------

  // Each session is in one place; each data connection is in its controller's list and in no
  // other.
  predicate Sorted(t: Net) {
    && t.ctrl !! t.data && t.ctrl !! t.doomed && t.data !! t.doomed
    && t.deps.Keys == t.ctrl + t.data + t.doomed && t.parent.Keys == t.data
  }

  predicate Matched(t: Net)
    requires t.parent.Keys == t.data
  {
    && (forall d :: d in t.data ==> t.parent[d] in t.deps && d in t.deps[t.parent[d]])
    && (forall h, d :: h in t.deps && d in t.deps[h] ==> d in t.data && t.parent[d] == h)
  }

  predicate Placed(t: Net) { Sorted(t) && Matched(t) }

  ghost predicate Acyclic(t: Net) {
    exists rank :: Ranked(t.parent, rank) && rank.Keys == t.deps.Keys
  }

  // Mentioning Peek(0) unfolds Forest; elsewhere the verifier carries it as it is.
  ghost predicate Forest(t: Net) {
    forall n: nat {:trigger Peek(n)} :: n == 0 ==> Placed(t) && Acyclic(t)
  }

  predicate Peek(n: nat) { true }

  lemma ForestIs(t: Net)
    requires Forest(t)
    ensures Placed(t) && Acyclic(t)
  {
    assert Peek(0);
  }

  lemma RankOf(t: Net) returns (rank: map<Handle, nat>)
    requires Forest(t)
    ensures Ranked(t.parent, rank) && rank.Keys == t.deps.Keys && t.parent.Keys == t.data
  {
    ForestIs(t);
    rank :| Ranked(t.parent, rank) && rank.Keys == t.deps.Keys;
  }

  lemma ForestMade(t: Net)
    requires Placed(t) && Acyclic(t)
    ensures Forest(t)
  {
  }

  // The session and everything it controls.
  ghost function Sub(t: Net, h: Handle): set<Handle> { set k | k in t.deps && Below(t.parent, k, h) }

  // Those are gone and nothing else has changed.
  ghost function Cut(t: Net, gone: set<Handle>): Net {
    Net(t.ctrl - gone, t.data - gone, t.doomed - gone, t.parent - gone, map k | k in t.deps
        && k !in gone :: t.deps[k] - gone)
  }

  // ---- the steps of a destructor -----------------------------------------------------------

  // A data connection is taken off its controller's list and out of data_conns.
  function Detach(t: Net, h: Handle, d: Handle): Net
    requires h in t.deps
  {
    t.(data := t.data - {d}, doomed := t.doomed + {d}, parent := t.parent - {d}, deps := t.deps[h := t.deps[h] - {d}])
  }

  // What is below h is what is below its child d, and what is below h without it.
  lemma {:induction false} BelowDetached(p: map<Handle, Handle>, h: Handle, d: Handle, k: Handle)
    requires d in p && p[d] == h
    ensures Below(p, k, h) <==> Below(p - {d}, k, h) || Below(p, k, d)
  {
    if Below(p, k, h) {
      var n: nat :| Chain(p, k, n) == Some(h);
      DetachedFrom(p, h, d, k, n);
    }
    if Below(p - {d}, k, h) { BelowLess(p, d, k, h); }
    if Below(p, k, d) {
      BelowStep(p, d, h);
      BelowStep(p, h, h);
      BelowTrans(p, k, d, h);
    }
  }

  lemma {:induction false} DetachedFrom(p: map<Handle, Handle>, h: Handle, d: Handle, k: Handle, n: nat)
    requires d in p && p[d] == h && Chain(p, k, n) == Some(h)
    ensures Below(p - {d}, k, h) || Below(p, k, d)
    decreases n
  {
    BelowStep(p, k, d);
    BelowStep(p - {d}, k, h);
    if k != d && n > 0 { DetachedFrom(p, h, d, p[k], n - 1); }
  }

  lemma BelowLess(p: map<Handle, Handle>, d: Handle, k: Handle, x: Handle)
    requires Below(p - {d}, k, x)
    ensures Below(p, k, x)
  {
    var n: nat :| Chain(p - {d}, k, n) == Some(x);
    ChainLess(p, d, k, n);
  }

  lemma {:induction false} ChainLess(p: map<Handle, Handle>, d: Handle, k: Handle, n: nat)
    requires Chain(p - {d}, k, n).Some?
    ensures Chain(p, k, n) == Chain(p - {d}, k, n)
    decreases n
  {
    if n > 0 { ChainLess(p, d, p[k], n - 1); }
  }

  // Being below d does not depend on where d hangs.
  lemma {:induction false} BelowSame(p: map<Handle, Handle>, d: Handle, k: Handle)
    ensures Below(p - {d}, k, d) <==> Below(p, k, d)
  {
    if Below(p - {d}, k, d) { BelowLess(p, d, k, d); }
    if Below(p, k, d) {
      var n: nat :| Chain(p, k, n) == Some(d);
      SameFrom(p, d, k, n);
    }
  }

  lemma {:induction false} SameFrom(p: map<Handle, Handle>, d: Handle, k: Handle, n: nat)
    requires Chain(p, k, n) == Some(d)
    ensures Below(p - {d}, k, d)
    decreases n
  {
    BelowStep(p - {d}, k, d);
    if k != d && n > 0 { SameFrom(p, d, p[k], n - 1); }
  }

  // Nothing is both below d and below h without it.
  lemma {:induction false} BelowApart(p: map<Handle, Handle>, rank: map<Handle, nat>, h: Handle, d: Handle, k: Handle)
    requires Ranked(p, rank) && d in p && p[d] == h && Below(p, k, d)
    ensures !Below(p - {d}, k, h)
  {
    var n: nat :| Chain(p, k, n) == Some(d);
    ApartFrom(p, rank, h, d, k, n);
  }

  lemma {:induction false} ApartFrom(p: map<Handle, Handle>, rank: map<Handle, nat>, h: Handle, d: Handle, k: Handle,
                                     n: nat)
    requires Ranked(p, rank) && d in p && p[d] == h && Chain(p, k, n) == Some(d)
    ensures !Below(p - {d}, k, h)
    decreases n
  {
    BelowStep(p - {d}, k, h);
    if k == h {
      ChainRises(p, rank, k, n, d);
      assert false;
    } else if k != d && n > 0 {
      ApartFrom(p, rank, h, d, p[k], n - 1);
    }
  }

  lemma ChildIs(t: Net, h: Handle, d: Handle)
    requires Forest(t) && h in t.deps && d in t.deps[h]
    ensures d in t.data && d in t.parent && t.parent[d] == h && d !in t.doomed && d !in t.ctrl && d in t.deps
  {
    ForestIs(t);
  }

  lemma DetachPlaced(t: Net, h: Handle, d: Handle)
    requires Forest(t) && h in t.deps && d in t.deps[h]
    ensures Placed(Detach(t, h, d))
  {
    ForestIs(t);
    DetachSorted(t, h, d);
    DetachMatched(t, h, d);
  }

  lemma DetachSorted(t: Net, h: Handle, d: Handle)
    requires Sorted(t) && h in t.deps && d in t.data
    ensures Sorted(Detach(t, h, d))
  {
    assert Detach(t, h, d).deps.Keys == t.deps.Keys;
  }

  lemma DetachMatched(t: Net, h: Handle, d: Handle)
    requires Placed(t) && h in t.deps && d in t.deps[h] && Sorted(Detach(t, h, d))
    ensures Matched(Detach(t, h, d))
  {
  }

  lemma DetachKeeps(t: Net, h: Handle, d: Handle)
    requires Forest(t) && h in t.deps && d in t.deps[h]
    ensures Forest(Detach(t, h, d))
  {
    DetachPlaced(t, h, d);
    var u := Detach(t, h, d);
    var rank := RankOf(t);
    LessRanked(t.parent, {d}, rank);
    assert u.deps.Keys == t.deps.Keys;
    ForestMade(u);
  }

  lemma LessRanked(parent: map<Handle, Handle>, gone: set<Handle>, rank: map<Handle, nat>)
    requires Ranked(parent, rank)
    ensures Ranked(parent - gone, rank)
  {
  }

  lemma DetachAt(t: Net, h: Handle, d: Handle, rank: map<Handle, nat>, k: Handle)
    requires t.parent.Keys == t.data && Ranked(t.parent, rank) && h in t.deps && d in t.parent && t.parent[d] == h
             && k in t.deps
    ensures var u := Detach(t, h, d);
            && k in u.deps && (Below(u.parent, k, d) <==> Below(t.parent, k, d))
            && (Below(t.parent, k, h) <==> Below(u.parent, k, h) || Below(t.parent, k, d))
            && !(Below(u.parent, k, h) && Below(t.parent, k, d))
  {
    BelowSame(t.parent, d, k);
    BelowDetached(t.parent, h, d, k);
    if Below(t.parent, k, d) { BelowApart(t.parent, rank, h, d, k); }
  }

  lemma DetachSubs(t: Net, h: Handle, d: Handle)
    requires Forest(t) && h in t.deps && d in t.deps[h]
    ensures var u := Detach(t, h, d);
            && Sub(u, d) == Sub(t, d) && Sub(t, h) == Sub(u, h) + Sub(t, d) && Sub(u, h) !! Sub(t, d)
            && d in Sub(t, d) && h in Sub(u, h)
  {
    var u := Detach(t, h, d);
    ChildIs(t, h, d);
    assert u.deps.Keys == t.deps.Keys;
    var rank := RankOf(t);
    forall k | k in t.deps
      ensures (k in Sub(u, d) <==> k in Sub(t, d)) && (k in Sub(t, h) <==> k in Sub(u, h) || k in Sub(t, d))
              && !(k in Sub(u, h) && k in Sub(t, d))
    {
      DetachAt(t, h, d, rank, k);
    }
    BelowStep(t.parent, d, d);
    BelowStep(u.parent, h, h);
  }

  // ---- a whole subtree gone ---------------------------------------------------------------

  // A set that contains whatever is controlled from within it.
  predicate Downward(t: Net, gone: set<Handle>) {
    forall d :: d in t.parent && t.parent[d] in gone ==> d in gone
  }

  lemma SubDownward(t: Net, x: Handle)
    requires Placed(t)
    ensures Downward(t, Sub(t, x))
  {
    forall d | d in t.parent && t.parent[d] in Sub(t, x) ensures d in Sub(t, x) { BelowStep(t.parent, d, x); }
  }

  // The session being destroyed controls the rest of its subtree, and nobody controls it.
  predicate Separate(t: Net, gone: set<Handle>) {
    forall d :: d in t.parent && d in gone ==> t.parent[d] in gone
  }

  lemma SubSeparate(t: Net, x: Handle)
    requires Placed(t) && x in t.doomed
    ensures Separate(t, Sub(t, x))
  {
    forall d | d in t.parent && d in Sub(t, x) ensures t.parent[d] in Sub(t, x) { BelowStep(t.parent, d, x); }
  }

  lemma CutPlaced(t: Net, gone: set<Handle>)
    requires Placed(t) && Downward(t, gone) && Separate(t, gone)
    ensures Placed(Cut(t, gone))
    ensures forall h :: h in t.deps && h !in gone ==> Cut(t, gone).deps[h] == t.deps[h]
  {
    var u := Cut(t, gone);
    assert u.deps.Keys == t.deps.Keys - gone;
    forall h | h in t.deps && h !in gone ensures u.deps[h] == t.deps[h] {
      forall d | d in t.deps[h] ensures d !in gone { assert t.parent[d] == h; }
    }
  }

  lemma CutKeeps(t: Net, x: Handle)
    requires Forest(t) && x in t.doomed
    ensures Forest(Cut(t, Sub(t, x)))
    ensures forall h :: h in t.deps && h !in Sub(t, x) ==> Cut(t, Sub(t, x)).deps[h] == t.deps[h]
  {
    var gone := Sub(t, x);
    ForestIs(t);
    SubDownward(t, x);
    SubSeparate(t, x);
    CutPlaced(t, gone);
    var rank := RankOf(t);
    CutRanked(t, gone, rank);
    ForestMade(Cut(t, gone));
  }

  lemma CutRanked(t: Net, gone: set<Handle>, rank: map<Handle, nat>)
    requires Placed(t) && Ranked(t.parent, rank) && rank.Keys == t.deps.Keys && Downward(t, gone)
    ensures Acyclic(Cut(t, gone))
  {
    var u := Cut(t, gone);
    var less := rank - gone;
    assert Ranked(u.parent, less);
    assert u.deps.Keys == t.deps.Keys - gone;
    assert less.Keys == u.deps.Keys;
  }

  // What is left is below what it was below.
  lemma {:induction false} CutBelow(t: Net, gone: set<Handle>, k: Handle, h: Handle)
    requires Downward(t, gone) && k !in gone
    ensures Below(t.parent - gone, k, h) <==> Below(t.parent, k, h)
  {
    if Below(t.parent - gone, k, h) {
      var n: nat :| Chain(t.parent - gone, k, n) == Some(h);
      CutChain(t.parent, gone, k, n);
    }
    if Below(t.parent, k, h) {
      var n: nat :| Chain(t.parent, k, n) == Some(h);
      CutFrom(t, gone, k, n, h);
    }
  }

  lemma {:induction false} CutChain(p: map<Handle, Handle>, gone: set<Handle>, k: Handle, n: nat)
    requires Chain(p - gone, k, n).Some?
    ensures Chain(p, k, n) == Chain(p - gone, k, n)
    decreases n
  {
    if n > 0 { CutChain(p, gone, p[k], n - 1); }
  }

  lemma {:induction false} CutFrom(t: Net, gone: set<Handle>, k: Handle, n: nat, h: Handle)
    requires Downward(t, gone) && k !in gone && Chain(t.parent, k, n) == Some(h)
    ensures Below(t.parent - gone, k, h)
    decreases n
  {
    BelowStep(t.parent - gone, k, h);
    if n > 0 { CutFrom(t, gone, t.parent[k], n - 1, h); }
  }

  lemma CutSub(t: Net, gone: set<Handle>, h: Handle)
    requires Downward(t, gone)
    ensures Sub(Cut(t, gone), h) == Sub(t, h) - gone
  {
    var u := Cut(t, gone);
    forall k | k in t.deps && k !in gone ensures k in u.deps && (Below(u.parent, k, h) <==> Below(t.parent, k, h)) {
      CutBelow(t, gone, k, h);
    }
  }

  lemma CutTwice(t: Net, a: set<Handle>, b: set<Handle>)
    ensures Cut(Cut(t, a), b) == Cut(t, a + b)
  {
    var u, v := Cut(Cut(t, a), b), Cut(t, a + b);
    assert u.ctrl == v.ctrl && u.data == v.data && u.doomed == v.doomed && u.parent == v.parent;
    forall k | k in u.deps ensures k in v.deps && u.deps[k] == v.deps[k] {
      assert (t.deps[k] - a) - b == t.deps[k] - (a + b);
    }
    assert u.deps == v.deps;
  }

  // A session that controls nobody is its own subtree.
  lemma OnlySelf(t: Net, h: Handle)
    requires Placed(t) && h in t.deps && t.deps[h] == {}
    ensures Sub(t, h) == {h}
  {
    BelowStep(t.parent, h, h);
    forall k | k in Sub(t, h) ensures k == h {
      var n: nat :| Chain(t.parent, k, n) == Some(h);
      NoneBelow(t, h, k, n);
    }
  }

  lemma {:induction false} NoneBelow(t: Net, h: Handle, k: Handle, n: nat)
    requires Placed(t) && h in t.deps && t.deps[h] == {} && Chain(t.parent, k, n) == Some(h)
    ensures k == h
    decreases n
  {
    if n > 0 { NoneBelow(t, h, t.parent[k], n - 1); }
  }

  // One turn of the destructor's loop: the child d detached and destroyed, then the rest.
  lemma DestroyTurn(t: Net, h: Handle, d: Handle)
    requires Forest(t) && h in t.deps && d in t.deps[h] && h in t.doomed
    ensures var u := Detach(t, h, d);
            var v := Cut(u, Sub(u, d));
            && Forest(u) && Forest(v) && h in v.doomed && h in v.deps
            && Cut(v, Sub(v, h)) == Cut(t, Sub(t, h)) && |Sub(u, d)| < |Sub(t, h)| && |Sub(v, h)| < |Sub(t, h)|
  {
    var u := Detach(t, h, d);
    ChildIs(t, h, d);
    DetachKeeps(t, h, d);
    DetachSubs(t, h, d);
    CutKeeps(u, d);
    TurnCut(t, h, d, Sub(t, d), Sub(u, h));
    Sizes(Sub(u, h), Sub(t, d), Sub(t, h));
  }

  lemma TurnCut(t: Net, h: Handle, d: Handle, a: set<Handle>, b: set<Handle>)
    requires Forest(t) && h in t.deps && d in t.deps[h]
    requires var u := Detach(t, h, d);
             a == Sub(u, d) && b == Sub(u, h) && a !! b && a + b == Sub(t, h) && h in b && d in a
    ensures var v := Cut(Detach(t, h, d), a);
            Sub(v, h) == b && Cut(v, b) == Cut(t, a + b)
  {
    var u := Detach(t, h, d);
    DetachKeeps(t, h, d);
    ForestIs(u);
    SubDownward(u, d);
    CutSub(u, a, h);
    assert b - a == b;
    CutTwice(u, a, b);
    CutDetached(t, h, d, a + b);
  }

  lemma CutDetached(t: Net, h: Handle, d: Handle, gone: set<Handle>)
    requires h in t.deps && h in gone && d in gone
    ensures Cut(Detach(t, h, d), gone) == Cut(t, gone)
  {
  }

  lemma Sizes(a: set<Handle>, b: set<Handle>, c: set<Handle>)
    requires a !! b && c == a + b && a != {} && b != {}
    ensures |a| < |c| && |b| < |c|
  {
    assert |c| == |a| + |b|;
  }

  // ---- the other changes ---------------------------------------------------------------------

  // A new control connection.
  function Added(t: Net, h: Handle): Net { t.(ctrl := t.ctrl + {h}, deps := t.deps[h := {}]) }

  // The control connection a becomes a data connection of c.
  function Tied(t: Net, a: Handle, c: Handle): Net
    requires c in t.deps
  {
    t.(ctrl := t.ctrl - {a}, data := t.data + {a}, parent := t.parent[a := c], deps := t.deps[c := t.deps[c] + {a}])
  }

  // A control connection leaves its table.
  function Dropped(t: Net, a: Handle): Net { t.(ctrl := t.ctrl - {a}, doomed := t.doomed + {a}) }

  lemma AddedPlaced(t: Net, h: Handle)
    requires Forest(t) && h !in t.deps
    ensures Placed(Added(t, h))
  {
    ForestIs(t);
  }

  lemma AddedKeeps(t: Net, h: Handle)
    requires Forest(t) && h !in t.deps
    ensures Forest(Added(t, h))
  {
    var u := Added(t, h);
    AddedPlaced(t, h);
    var rank := RankOf(t);
    var more := rank[h := 0];
    assert Ranked(u.parent, more) && more.Keys == u.deps.Keys;
    ForestMade(u);
  }

  lemma TiedPlaced(t: Net, a: Handle, c: Handle)
    requires Forest(t) && a in t.ctrl && c in t.ctrl && a != c
    ensures c in t.deps && Placed(Tied(t, a, c))
  {
    ForestIs(t);
    assert Tied(t, a, c).deps.Keys == t.deps.Keys;
  }

  lemma TiedKeeps(t: Net, a: Handle, c: Handle)
    requires Forest(t) && a in t.ctrl && c in t.ctrl && a != c
    ensures c in t.deps && Forest(Tied(t, a, c))
  {
    ForestIs(t);
    TiedPlaced(t, a, c);
    var rank :| Ranked(t.parent, rank) && rank.Keys == t.deps.Keys;
    TiedRanked(t, a, c, rank);
    ForestMade(Tied(t, a, c));
  }

  // A root can be ranked as high as need be.
  lemma TiedRanked(t: Net, a: Handle, c: Handle, rank: map<Handle, nat>)
    requires Placed(t) && Ranked(t.parent, rank) && rank.Keys == t.deps.Keys && a in t.ctrl && c in t.ctrl && a != c
    ensures Acyclic(Tied(t, a, c))
  {
    var more := rank[c := rank[a] + rank[c] + 1];
    var u := Tied(t, a, c);
    forall d | d in u.parent ensures d in more && u.parent[d] in more && more[d] < more[u.parent[d]] {
      if d != a { assert d in t.data && d != c; }
    }
    assert u.deps.Keys == t.deps.Keys;
    assert Ranked(u.parent, more) && more.Keys == u.deps.Keys;
  }

  // Nothing changes for any session but the new controller.
  lemma TiedBelow(p: map<Handle, Handle>, a: Handle, c: Handle, k: Handle, x: Handle)
    requires a !in p && c !in p && a != c && x != c
    ensures Below(p[a := c], k, x) <==> Below(p, k, x)
  {
    if Below(p, k, x) {
      var n: nat :| Chain(p, k, n) == Some(x);
      TiedUp(p, p[a := c], c, k, x, n);
    }
    if Below(p[a := c], k, x) {
      var n: nat :| Chain(p[a := c], k, n) == Some(x);
      TiedUp(p[a := c], p, c, k, x, n);
    }
  }

  // A way up that does not end at c is the same whether or not one more session hangs on c.
  lemma {:induction false} TiedUp(p: map<Handle, Handle>, q: map<Handle, Handle>, c: Handle, k: Handle, x: Handle,
                                  n: nat)
    requires Chain(p, k, n) == Some(x) && x != c && c !in p
    requires forall d :: d in p && p[d] != c ==> d in q && q[d] == p[d]
    ensures Below(q, k, x)
    decreases n
  {
    BelowStep(q, k, x);
    if n > 0 { TiedUp(p, q, c, p[k], x, n - 1); }
  }

  lemma TiedOthers(t: Net, a: Handle, c: Handle, x: Handle)
    requires Placed(t) && a in t.ctrl && c in t.ctrl && a != c && x != c && c in t.deps
    ensures Sub(Tied(t, a, c), x) == Sub(t, x)
  {
    var u := Tied(t, a, c);
    assert u.deps.Keys == t.deps.Keys;
    forall k | k in t.deps ensures k in Sub(u, x) <==> k in Sub(t, x) { TiedBelow(t.parent, a, c, k, x); }
  }

  // Taken off again, the session leaves everything below whom it was.
  lemma TiedBack(t: Net, a: Handle, c: Handle, x: Handle)
    requires Placed(t) && a in t.ctrl && c in t.ctrl && c in t.deps
    ensures Sub(Detach(Tied(t, a, c), c, a), x) == Sub(t, x)
  {
    var u := Tied(t, a, c);
    var v := Detach(u, c, a);
    assert v.deps.Keys == t.deps.Keys;
    assert v.parent == t.parent;
  }

  // What the new controller controls then is what both controlled before; they had nothing in common.
  lemma TiedSubs(t: Net, a: Handle, c: Handle)
    requires Forest(t) && a in t.ctrl && c in t.ctrl && a != c
    ensures c in t.deps
    ensures Sub(Tied(t, a, c), c) == Sub(t, c) + Sub(t, a) && Sub(t, c) !! Sub(t, a)
    ensures forall x :: x != c ==> Sub(Tied(t, a, c), x) == Sub(t, x)
  {
    TiedKeeps(t, a, c);
    ForestIs(t);
    DetachSubs(Tied(t, a, c), c, a);
    TiedBack(t, a, c, c);
    forall x | x != c ensures Sub(Tied(t, a, c), x) == Sub(t, x) { TiedOthers(t, a, c, x); }
  }

  // A session is below h exactly when it is h or its controller is.
  lemma SubIs(t: Net, h: Handle, k: Handle)
    requires Forest(t) && k in t.deps
    ensures k in Sub(t, h) <==> k == h || (k in t.parent && t.parent[k] in Sub(t, h))
  {
    ForestIs(t);
    BelowStep(t.parent, k, h);
  }

  lemma DroppedKeeps(t: Net, a: Handle)
    requires Forest(t) && a in t.ctrl
    ensures Forest(Dropped(t, a)) && a !in t.doomed && a !in t.data && a in t.deps
  {
    DroppedPlaced(t, a);
    var rank := RankOf(t);
    assert Dropped(t, a).parent == t.parent && Dropped(t, a).deps == t.deps;
    ForestMade(Dropped(t, a));
  }

  lemma DroppedPlaced(t: Net, a: Handle)
    requires Forest(t) && a in t.ctrl
    ensures Placed(Dropped(t, a)) && a !in t.doomed && a !in t.data && a in t.deps
  {
    ForestIs(t);
  }

  // A session that is not controlled by h directly or indirectly stays.
  lemma RootsApart(t: Net, x: Handle, h: Handle)
    requires Forest(t) && x in t.deps && x !in t.data && x != h
    ensures x !in Sub(t, h)
  {
    ForestIs(t);
    BelowStep(t.parent, x, h);
  }

  // With no control connection and no doomed session there is no session at all.
  lemma NoRoots(t: Net)
    requires Forest(t) && t.ctrl == {} && t.doomed == {}
    ensures t.deps == map[] && t.data == {}
  {
    ForestIs(t);
    var rank :| Ranked(t.parent, rank) && rank.Keys == t.deps.Keys;
    if t.data != {} {
      var d := Highest(t.data, rank);
      Higher(t, rank, d);
    }
  }

  lemma Higher(t: Net, rank: map<Handle, nat>, d: Handle)
    requires Placed(t) && Ranked(t.parent, rank) && t.ctrl == {} && t.doomed == {} && d in t.data
    ensures d in rank && exists e :: e in t.data && e in rank && rank[e] > rank[d]
  {
    assert t.parent[d] in t.deps;
  }

  lemma {:induction false} Highest(s: set<Handle>, rank: map<Handle, nat>) returns (m: Handle)
    requires s != {} && s <= rank.Keys
    ensures m in s && forall x :: x in s ==> rank[x] <= rank[m]
    decreases |s|
  {
    m :| m in s;
    if s != {m} {
      var n := Highest(s - {m}, rank);
      if rank[n] > rank[m] { m := n; }
    }
  }

  // Every session is below exactly one that is no data connection.
  lemma {:induction false} RootOf(t: Net, rank: map<Handle, nat>, bound: nat, k: Handle) returns (r: Handle)
    requires Placed(t) && Ranked(t.parent, rank) && rank.Keys == t.deps.Keys && k in t.deps
    requires (forall h :: h in rank ==> rank[h] <= bound) && rank[k] <= bound
    ensures r in t.ctrl + t.doomed && Below(t.parent, k, r)
    decreases bound - rank[k]
  {
    if k in t.data {
      r := RootOf(t, rank, bound, t.parent[k]);
      BelowStep(t.parent, k, r);
    } else {
      r := k;
      BelowStep(t.parent, k, k);
    }
  }

  lemma HasRoot(t: Net, k: Handle) returns (r: Handle)
    requires Forest(t) && k in t.deps
    ensures r in t.ctrl + t.doomed && k in Sub(t, r)
  {
    ForestIs(t);
    var rank := RankOf(t);
    var top := Highest(rank.Keys, rank);
    r := RootOf(t, rank, rank[top], k);
  }

  lemma {:induction false} OneRoot(t: Net, k: Handle, n: nat, a: Handle, b: Handle)
    requires Chain(t.parent, k, n) == Some(a) && Below(t.parent, k, b) && a !in t.parent && b !in t.parent
    ensures a == b
    decreases n
  {
    BelowStep(t.parent, k, b);
    if n > 0 && k != b { OneRoot(t, t.parent[k], n - 1, a, b); }
  }

  // Destroying one root leaves what is below another alone.
  lemma CutOther(t: Net, h: Handle, q: Handle)
    requires Forest(t) && h in t.doomed && q in t.ctrl + t.doomed && q != h
    ensures Sub(Cut(t, Sub(t, h)), q) == Sub(t, q)
  {
    ForestIs(t);
    SubDownward(t, h);
    CutSub(t, Sub(t, h), q);
    forall k | k in Sub(t, q) ensures k !in Sub(t, h) {
      if k in Sub(t, h) {
        var n: nat :| Chain(t.parent, k, n) == Some(h);
        OneRoot(t, k, n, h, q);
      }
    }
  }

  // Leaving the table of control connections does not change what is below whom.
  lemma DroppedSub(t: Net, a: Handle, q: Handle)
    ensures Sub(Dropped(t, a), q) == Sub(t, q)
  {
  }
}
