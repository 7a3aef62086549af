// Which patterns have tame code: what a piece of a loop's body leaves on the failure stack.
module RxNeat {
  import opened RxBytes
  import opened RxSyntax
  import opened RxCode
  import opened RxVm
  import opened RxMeaning
  import opened RxFlow
  import opened RxPops
  import opened RxTame

  // ---- stretches of code -----------------------------------------------------------------------------------

  predicate EdgesIn(code: seq<Byte>, u: int, lo: int, hi: int)
    requires 0 <= u < |code|
  {
    && u + Len(code, u) <= hi <= |code|
    && (Jumps(code, u) ==> u + 3 <= |code| && lo <= Target(code, u) <= hi)
    && (code[u] == DUMMY_FAILURE_JUMP ==> Target(code, u) == u + 6)
  }

  // Control stays between lo and hi. Mentioning Peek(lo) unfolds it.
  ghost predicate Region(code: seq<Byte>, lo: int, hi: int) {
    && 0 <= lo <= hi <= |code| && (hi == |code| || hi == lo || hi in Starts(code, lo))
    && forall x: int {:trigger Peek(x)} :: Peek(x) && x == lo ==>
         forall u :: u in Starts(code, lo) && u < hi ==> lo <= u && EdgesIn(code, u, lo, hi)
  }

  lemma {:induction false} StartsFrom(code: seq<Byte>, lo: int)
    requires 0 <= lo
    ensures forall u :: u in Starts(code, lo) ==> lo <= u < |code|
    decreases |code| - lo
  {
    if lo < |code| {
      StartsFrom(code, lo + Len(code, lo));
    }
  }

  lemma {:induction false} StartsOn(code: seq<Byte>, lo: int, mid: int, u: int)
    requires 0 <= lo && 0 <= mid && mid in Starts(code, lo) && u in Starts(code, lo) && mid <= u
    ensures u in Starts(code, mid)
    decreases |code| - lo
  {
    StartsFrom(code, lo);
    if lo != mid {
      StartsFrom(code, lo + Len(code, lo));
      StartsOn(code, lo + Len(code, lo), mid, u);
    }
  }

  lemma {:induction false} StartsThrough(code: seq<Byte>, lo: int, mid: int, u: int)
    requires 0 <= lo && mid in Starts(code, lo) && 0 <= mid && u in Starts(code, mid)
    ensures u in Starts(code, lo)
    decreases |code| - lo
  {
    StartsFrom(code, lo);
    if lo != mid {
      StartsThrough(code, lo + Len(code, lo), mid, u);
    }
  }

  lemma {:induction false} FlowStarts(code: seq<Byte>, S: set<int>, E: set<int>, P: set<int>, lo: int, hi: int, c: int)
    requires Flow(code, S, E, P, lo, hi) && 0 <= c && c in S + {hi}
    ensures hi == |code| || hi in Starts(code, c)
    ensures forall u :: u in Starts(code, c) && u < hi ==> u in S
    decreases |code| - c
  {
    FlowFacts(code, S, E, P, lo, hi);
    if c == hi {
      StartsFrom(code, c);
    } else {
      FlowIn(code, S, E, P, lo, hi, c);
      FlowStarts(code, S, E, P, lo, hi, c + Len(code, c));
    }
  }

  lemma FlowRegion(code: seq<Byte>, S: set<int>, E: set<int>, P: set<int>, lo: int, hi: int)
    requires Flow(code, S, E, P, lo, hi)
    ensures Region(code, lo, hi)
  {
    FlowFacts(code, S, E, P, lo, hi);
    if lo < hi {
      FlowStarts(code, S, E, P, lo, hi, lo);
    }
    StartsFrom(code, lo);
    forall u | u in Starts(code, lo) && u < hi ensures lo <= u && EdgesIn(code, u, lo, hi) {
      FlowIn(code, S, E, P, lo, hi, u);
    }
  }

  lemma RegionSplit(code: seq<Byte>, lo: int, mid: int, u: int)
    requires Region(code, lo, mid) && u in Starts(code, lo)
    ensures u < mid || u in Starts(code, mid)
  {
    StartsFrom(code, lo);
    if u >= mid && mid != lo {
      StartsOn(code, lo, mid, u);
    }
  }

  // ---- closed sets -----------------------------------------------------------------------------------------

  // No instruction between lo and hi breaks the rule for G. Mentioning Peek(lo) unfolds it.
  ghost predicate Closed(code: seq<Byte>, G: set<int>, x: int, lo: int, hi: int) {
    0 <= lo && forall z: int {:trigger Peek(z)} :: Peek(z) && z == lo ==>
      forall u :: u in Starts(code, lo) && u < hi ==> 0 <= u < |code| && ClearAt(code, G, x, u)
  }

  ghost predicate Within(G: set<int>, lo: int, hi: int) { forall v :: v in G ==> lo <= v <= hi }

  // Only the places between lo and hi count.
  lemma ClosedSame(code: seq<Byte>, G: set<int>, H: set<int>, x: int, lo: int, hi: int)
    requires Region(code, lo, hi) && Closed(code, G, x, lo, hi)
    requires forall v :: lo <= v <= hi ==> (v in G <==> v in H)
    ensures Closed(code, H, x, lo, hi)
  {
    assert Peek(lo);
    forall u | u in Starts(code, lo) && u < hi ensures 0 <= u < |code| && ClearAt(code, H, x, u) {
      assert ClearAt(code, G, x, u) && EdgesIn(code, u, lo, hi);
    }
  }

  lemma ClosedNone(code: seq<Byte>, x: int, lo: int, hi: int)
    requires Region(code, lo, hi)
    ensures Closed(code, {}, x, lo, hi)
  {
    assert Peek(lo);
  }

  lemma ClosedJoin(code: seq<Byte>, G: set<int>, x: int, lo: int, mid: int, hi: int)
    requires Region(code, lo, mid) && Closed(code, G, x, lo, mid) && Closed(code, G, x, mid, hi)
    ensures Closed(code, G, x, lo, hi)
  {
    assert Peek(lo) && Peek(mid);
    forall u | u in Starts(code, lo) && u < hi ensures 0 <= u < |code| && ClearAt(code, G, x, u) {
      RegionSplit(code, lo, mid, u);
    }
  }

  // One instruction.
  lemma ClosedOne(code: seq<Byte>, G: set<int>, x: int, p: int)
    requires 0 <= p < |code| && ClearAt(code, G, x, p)
    ensures Closed(code, G, x, p, p + Len(code, p))
  {
    StartsFrom(code, p + Len(code, p));
    assert forall u :: u in Starts(code, p) && u < p + Len(code, p) ==> u == p;
  }

  lemma ClosedThen(code: seq<Byte>, G: set<int>, x: int, p: int, hi: int)
    requires 0 <= p < |code| && ClearAt(code, G, x, p) && Closed(code, G, x, p + Len(code, p), hi)
    ensures Closed(code, G, x, p, hi)
  {
    assert Peek(p + Len(code, p));
    StartsFrom(code, p + Len(code, p));
  }

  lemma ClosedAfter(code: seq<Byte>, G: set<int>, x: int, lo: int, p: int)
    requires Region(code, lo, p) && Closed(code, G, x, lo, p) && 0 <= p < |code| && ClearAt(code, G, x, p)
    ensures Closed(code, G, x, lo, p + Len(code, p))
  {
    ClosedOne(code, G, x, p);
    ClosedJoin(code, G, x, lo, p, p + Len(code, p));
  }

  lemma ClosedUnion(code: seq<Byte>, G: set<int>, H: set<int>, x: int, lo: int, mid: int, hi: int)
    requires Region(code, lo, mid) && Region(code, mid, hi)
    requires Within(G, lo, mid) && Within(H, mid, hi) && (mid in G <==> mid in H)
    requires Closed(code, G, x, lo, mid) && Closed(code, H, x, mid, hi)
    ensures Closed(code, G + H, x, lo, hi) && Within(G + H, lo, hi)
  {
    ClosedSame(code, G, G + H, x, lo, mid);
    ClosedSame(code, H, G + H, x, mid, hi);
    ClosedJoin(code, G + H, x, lo, mid, hi);
  }

  // ---- what a piece of a body leaves ---------------------------------------------------------------------

  // A piece that keeps leaves nothing on the stack, or a dummy on top; one that makes leaves a dummy on top
  // whatever was there; one that spoils may leave a failure point of its own there.
  datatype Effect = Keeps | Makes | Spoils

  ghost predicate PopsHere(code: seq<Byte>, p: int) { 0 <= p && p + 3 <= |code| && Pops(code, p) }

  ghost function EffectAtom(a: Atom, code: seq<Byte>, lo: int): Effect
    decreases a, 2
  {
    if !a.AGroup? || a.alts == [] then Keeps
    else if |a.alts| > 1 then Makes
    else EffectBranch(a.alts[0].chunks, code, lo + 3)
  }

  ghost function EffectBranch(cs: seq<Chunk>, code: seq<Byte>, lo: int): Effect
    decreases cs, 0
  {
    if cs == [] then Keeps
    else
      var rest := EffectBranch(cs[1..], code, lo + |CodeChunk(cs[0])|);
      if rest == Keeps then EffectChunk(cs[0], code, lo) else rest
  }

  ghost function EffectChunk(c: Chunk, code: seq<Byte>, lo: int): Effect
    decreases c, 3
  {
    match c
    case Run(_) => Keeps
    case Rep(a, ops) => EffectRep(a, code, lo, ZeroOk(ops), ManyOk(ops))
  }

  // A loop of one character keeps if its own back jump discards its failure points; a loop over a group, if
  // the group leaves a dummy each time and its back jump does not discard it.
  ghost function EffectRep(a: Atom, code: seq<Byte>, lo: int, zero: bool, many: bool): Effect
    decreases a, 4
  {
    var b := BodyAt(lo, zero, many);
    var e := EffectAtom(a, code, b);
    if !zero && !many then e
    else if many && !a.AGroup? then (if PopsHere(code, b + |CodeAtom(a)|) then Keeps else Spoils)
    else if e != Makes || (many && PopsHere(code, b + |CodeAtom(a)|)) then Spoils
    else if zero then Keeps
    else Makes
  }

  // ---- the places ------------------------------------------------------------------------------------------

  // The places of a piece of code from lo to hi at which a dummy or the loop's own point is on top, when it is
  // to be so at hi.
  ghost predicate Neat(code: seq<Byte>, G: set<int>, x: int, lo: int, hi: int, e: Effect) {
    Region(code, lo, hi) && Within(G, lo, hi) && Closed(code, G, x, lo, hi) && hi in G && (lo in G <==> e == Keeps)
  }

  lemma NeatEmpty(code: seq<Byte>, x: int, lo: int)
    requires 0 <= lo <= |code|
    ensures Neat(code, {lo}, x, lo, lo, Keeps)
  {
    StartsFrom(code, lo);
  }

  lemma NeatOne(code: seq<Byte>, x: int, p: int)
    requires 0 <= p < |code| && !Jumps(code, p) && code[p] != PUSH_DUMMY_FAILURE && p + Len(code, p) <= |code|
    ensures Neat(code, {p, p + Len(code, p)}, x, p, p + Len(code, p), Keeps)
  {
    var hi := p + Len(code, p);
    ClosedOne(code, {p, hi}, x, p);
    StartsFrom(code, hi);
    if hi < |code| {
      assert hi in Starts(code, hi);
    }
    assert Starts(code, p) == {p} + Starts(code, hi);
    assert forall u :: u in Starts(code, p) && u < hi ==> u == p;
    assert Region(code, p, hi);
  }

  lemma NeatJoin(code: seq<Byte>, G: set<int>, H: set<int>, x: int, lo: int, mid: int, hi: int, e: Effect, f: Effect)
    returns (U: set<int>)
    requires Neat(code, H, x, mid, hi, f) && Region(code, lo, mid) && Region(code, lo, hi) && lo < mid
    requires f == Keeps ==> Neat(code, G, x, lo, mid, e)
    requires f != Spoils
    ensures Neat(code, U, x, lo, hi, if f == Keeps then e else f)
  {
    if f == Keeps {
      U := G + H;
      ClosedUnion(code, G, H, x, lo, mid, hi);
    } else {
      U := {} + H;
      ClosedNone(code, x, lo, mid);
      ClosedUnion(code, {}, H, x, lo, mid, hi);
    }
  }

  // A loop over a group that leaves a dummy.
  lemma NeatLoop(code: seq<Byte>, G: set<int>, x: int, lo: int, l: nat, hi: int) returns (U: set<int>)
    requires RepLayout(code, lo, l, true, true, hi) && Neat(code, G, x, lo + 3, lo + 3 + l, Makes)
             && Region(code, lo, hi)
    requires !PopsHere(code, lo + 3 + l)
    ensures Neat(code, U, x, lo, hi, Keeps)
  {
    var b, back := lo + 3, lo + 3 + l;
    U := G + {lo, hi};
    ClosedSame(code, G, U, x, b, back);
    ClosedAfter(code, U, x, b, back);
    ClosedThen(code, U, x, lo, hi);
  }

  // A loop of one character that discards its own points.
  lemma NeatSmallLoop(code: seq<Byte>, x: int, lo: int, l: nat, hi: int)
    requires RepLayout(code, lo, l, true, true, hi) && OneChar(code, lo + 3) && Len(code, lo + 3) == l
             && Region(code, lo, hi)
    requires Pops(code, lo + 3 + l)
    ensures Neat(code, {lo, hi}, x, lo, hi, Keeps)
  {
    var b, back := lo + 3, lo + 3 + l;
    SmallClear(code, {lo, hi}, x, lo, l, hi);
    ClosedOne(code, {lo, hi}, x, back);
    ClosedThen(code, {lo, hi}, x, b, hi);
    ClosedThen(code, {lo, hi}, x, lo, hi);
  }

  lemma SmallClear(code: seq<Byte>, G: set<int>, x: int, lo: int, l: nat, hi: int)
    requires RepLayout(code, lo, l, true, true, hi) && OneChar(code, lo + 3) && Len(code, lo + 3) == l
    requires Pops(code, lo + 3 + l) && lo in G && lo + 3 !in G && lo + 3 + l !in G
    ensures ClearAt(code, G, x, lo) && ClearAt(code, G, x, lo + 3) && ClearAt(code, G, x, lo + 3 + l)
    ensures Len(code, lo) == 3 && Len(code, lo + 3 + l) == 3
  {
  }

  // A loop that is gone round once at least.
  lemma NeatPlus(code: seq<Byte>, G: set<int>, x: int, lo: int, hi: int) returns (U: set<int>)
    requires 0 <= lo && lo + 6 <= hi && Region(code, lo, hi) && code[lo] == DUMMY_FAILURE_JUMP
    requires Neat(code, G, x, lo + 3, hi, Keeps)
    ensures Neat(code, U, x, lo, hi, if OneChar(code, lo + 6) then Keeps else Makes)
  {
    U := if OneChar(code, lo + 6) then G + {lo} else G;
    ClosedSame(code, G, U, x, lo + 3, hi);
    ClosedThen(code, U, x, lo, hi);
  }

  // A piece that may be passed over.
  lemma NeatOpt(code: seq<Byte>, G: set<int>, x: int, lo: int, hi: int) returns (U: set<int>)
    requires 0 <= lo && lo + 3 <= hi <= |code| && Region(code, lo, hi) && code[lo] == ON_FAILURE_JUMP
             && Target(code, lo) == hi
    requires Neat(code, G, x, lo + 3, hi, Makes)
    ensures Neat(code, U, x, lo, hi, Keeps)
  {
    U := G + {lo};
    ClosedSame(code, G, U, x, lo + 3, hi);
    ClosedThen(code, U, x, lo, hi);
  }

  // A group with one alternative.
  lemma NeatGroup(code: seq<Byte>, G: set<int>, x: int, lo: int, f: int, e: Effect) returns (U: set<int>)
    requires 0 <= lo && lo + 3 <= f && f + 3 <= |code| && code[lo] == START_MEMORY && code[f] == STOP_MEMORY
    requires Region(code, lo, f + 3) && Neat(code, G, x, lo + 3, f, e)
    ensures Neat(code, U, x, lo, f + 3, e)
  {
    U := G + {f + 3} + if e == Keeps then {lo} else {};
    ClosedSame(code, G, U, x, lo + 3, f);
    ClosedAfter(code, U, x, lo + 3, f);
    ClosedThen(code, U, x, lo, f + 3);
  }

  // A group with several.
  lemma NeatMore(code: seq<Byte>, x: int, lo: int, e: int) returns (U: set<int>)
    requires 0 <= lo && lo + 3 <= e && e + 4 <= |code| && code[lo] == START_MEMORY && code[e] == PUSH_DUMMY_FAILURE
    requires code[e + 1] == STOP_MEMORY && Region(code, lo, e + 4) && Region(code, lo + 3, e)
    ensures Neat(code, U, x, lo, e + 4, Makes)
  {
    U := {e + 1, e + 4};
    ClosedNone(code, x, lo + 3, e);
    ClosedSame(code, {}, U, x, lo + 3, e);
    ClosedOne(code, U, x, e + 1);
    ClosedThen(code, U, x, e, e + 4);
    ClosedJoin(code, U, x, lo + 3, e, e + 4);
    ClosedThen(code, U, x, lo, e + 4);
  }

  // ---- whole pieces ------------------------------------------------------------------------------------------

  lemma ChunkRegion(c: Chunk, code: seq<Byte>, lo: int)
    requires SoundChunk(c) && |code| <= LIMIT && At(code, lo, CodeChunk(c))
    ensures Region(code, lo, lo + |CodeChunk(c)|)
  {
    var S, E, P := ChunkFlow(c, code, lo);
    FlowRegion(code, S, E, P, lo, lo + |CodeChunk(c)|);
  }

  lemma BranchRegion(cs: seq<Chunk>, code: seq<Byte>, lo: int)
    requires SoundBranch(cs) && |code| <= LIMIT && At(code, lo, CodeBranch(cs))
    ensures Region(code, lo, lo + |CodeBranch(cs)|)
  {
    var S, E, P := BranchFlow(cs, code, lo);
    FlowRegion(code, S, E, P, lo, lo + |CodeBranch(cs)|);
  }

  lemma AltsRegion(alts: seq<Branch>, code: seq<Byte>, lo: int)
    requires SoundAlts(alts) && alts != [] && |code| <= LIMIT && At(code, lo, CodeAlts(alts))
    ensures Region(code, lo, lo + |CodeAlts(alts)|)
  {
    var S, E, P := AltsFlow(alts, code, lo);
    FlowRegion(code, S, E, P, lo, lo + |CodeAlts(alts)|);
  }

  lemma AtomRegion(a: Atom, code: seq<Byte>, lo: int)
    requires SoundAtom(a) && |code| <= LIMIT && At(code, lo, CodeAtom(a))
    ensures Region(code, lo, lo + |CodeAtom(a)|)
  {
    var S, E, P := AtomFlow(a, code, lo);
    FlowRegion(code, S, E, P, lo, lo + |CodeAtom(a)|);
  }

  // Where the first chunk and the others lie.
  lemma BranchPlaces(cs: seq<Chunk>, code: seq<Byte>, lo: int) returns (mid: int)
    requires cs != [] && SoundBranch(cs) && |code| <= LIMIT && At(code, lo, CodeBranch(cs))
    ensures mid == lo + |CodeChunk(cs[0])| && mid + |CodeBranch(cs[1..])| == lo + |CodeBranch(cs)| && lo < mid
    ensures At(code, lo, CodeChunk(cs[0])) && At(code, mid, CodeBranch(cs[1..])) && SoundBranch(cs[1..])
    ensures Region(code, lo, mid) && Region(code, mid, lo + |CodeBranch(cs)|) && Region(code, lo, lo + |CodeBranch(cs)|)
  {
    mid := BranchMid(cs, code, lo);
    ChunkRegion(cs[0], code, lo);
    BranchRegion(cs[1..], code, mid);
    BranchRegion(cs, code, lo);
  }

  lemma BranchMid(cs: seq<Chunk>, code: seq<Byte>, lo: int) returns (mid: int)
    requires cs != [] && SoundBranch(cs) && At(code, lo, CodeBranch(cs))
    ensures mid == lo + |CodeChunk(cs[0])| && mid + |CodeBranch(cs[1..])| == lo + |CodeBranch(cs)| && lo < mid
    ensures At(code, lo, CodeChunk(cs[0])) && At(code, mid, CodeBranch(cs[1..])) && SoundBranch(cs[1..])
  {
    var rest := cs[1..];
    mid := lo + |CodeChunk(cs[0])|;
    assert forall k :: 0 <= k < |rest| ==> rest[k] == cs[k + 1];
    AtSplit(code, lo, CodeChunk(cs[0]), CodeBranch(rest));
    ChunkStarts(cs[0]);
  }

  lemma {:induction false} NeatBranch(cs: seq<Chunk>, code: seq<Byte>, lo: int, x: int) returns (G: set<int>)
    requires SoundBranch(cs) && |code| <= LIMIT && At(code, lo, CodeBranch(cs)) && EffectBranch(cs, code, lo) != Spoils
    ensures Neat(code, G, x, lo, lo + |CodeBranch(cs)|, EffectBranch(cs, code, lo))
    decreases cs, 0
  {
    if cs == [] {
      NeatEmpty(code, x, lo);
      G := {lo};
    } else {
      var mid := BranchPlaces(cs, code, lo);
      var H := NeatBranch(cs[1..], code, mid, x);
      var e, f := EffectChunk(cs[0], code, lo), EffectBranch(cs[1..], code, mid);
      G := {};
      if f == Keeps {
        G := NeatChunk(cs[0], code, lo, x);
      }
      G := NeatJoin(code, G, H, x, lo, mid, lo + |CodeBranch(cs)|, e, f);
    }
  }

  lemma {:induction false} NeatAtom(a: Atom, code: seq<Byte>, lo: int, x: int) returns (G: set<int>)
    requires SoundAtom(a) && |code| <= LIMIT && At(code, lo, CodeAtom(a)) && EffectAtom(a, code, lo) != Spoils
    ensures Neat(code, G, x, lo, lo + |CodeAtom(a)|, EffectAtom(a, code, lo))
    decreases a, 2
  {
    if !a.AGroup? {
      G := NeatChar(a, code, lo, x);
    } else if |a.alts| > 1 {
      G := NeatSeveral(a, code, lo, x);
    } else {
      var f := SinglePlaces(a, code, lo);
      G := NeatBranch(a.alts[0].chunks, code, lo + 3, x);
      G := NeatGroup(code, G, x, lo, f, EffectAtom(a, code, lo));
    }
  }

  lemma NeatChar(a: Atom, code: seq<Byte>, lo: int, x: int) returns (G: set<int>)
    requires !a.AGroup? && At(code, lo, CodeAtom(a))
    ensures Neat(code, G, x, lo, lo + |CodeAtom(a)|, Keeps)
  {
    CharFlow(a, code, lo);
    NeatOne(code, x, lo);
    G := {lo, lo + Len(code, lo)};
  }

  lemma NeatSeveral(a: Atom, code: seq<Byte>, lo: int, x: int) returns (G: set<int>)
    requires a.AGroup? && |a.alts| > 1 && SoundAtom(a) && |code| <= LIMIT && At(code, lo, CodeAtom(a))
    ensures Neat(code, G, x, lo, lo + |CodeAtom(a)|, Makes)
  {
    var e := MorePlaces(a, code, lo);
    AtomRegion(a, code, lo);
    AltsRegion(a.alts, code, lo + 3);
    G := NeatMore(code, x, lo, e);
  }

  lemma MorePlaces(a: Atom, code: seq<Byte>, lo: int) returns (e: int)
    requires a.AGroup? && SoundAtom(a) && |a.alts| > 1 && At(code, lo, CodeAtom(a))
    ensures e == lo + 3 + |CodeAlts(a.alts)| && e + 4 == lo + |CodeAtom(a)| <= |code| && 0 <= lo
    ensures At(code, lo + 3, CodeAlts(a.alts))
    ensures code[lo] == START_MEMORY && code[e] == PUSH_DUMMY_FAILURE && code[e + 1] == STOP_MEMORY
  {
    var f;
    e, f := GroupLayout(a, code, lo);
  }

  lemma SinglePlaces(a: Atom, code: seq<Byte>, lo: int) returns (f: int)
    requires a.AGroup? && SoundAtom(a) && |a.alts| == 1 && |code| <= LIMIT && At(code, lo, CodeAtom(a))
    ensures f == lo + 3 + |CodeBranch(a.alts[0].chunks)| && f + 3 == lo + |CodeAtom(a)| <= |code| && 0 <= lo
    ensures At(code, lo + 3, CodeBranch(a.alts[0].chunks)) && SoundBranch(a.alts[0].chunks)
    ensures code[lo] == START_MEMORY && code[f] == STOP_MEMORY && Region(code, lo, f + 3)
  {
    var e;
    e, f := GroupLayout(a, code, lo);
    AtomRegion(a, code, lo);
  }

  lemma {:induction false} NeatChunk(c: Chunk, code: seq<Byte>, lo: int, x: int) returns (G: set<int>)
    requires SoundChunk(c) && |code| <= LIMIT && At(code, lo, CodeChunk(c)) && EffectChunk(c, code, lo) != Spoils
    ensures Neat(code, G, x, lo, lo + |CodeChunk(c)|, EffectChunk(c, code, lo))
    decreases c, 3
  {
    match c
    case Run(lits) =>
      G := NeatRun(lits, code, lo, x);
    case Rep(a, ops) =>
      ChunkRegion(c, code, lo);
      RepPlaces(a, ops, code, lo);
      G := NeatRep(a, code, lo, ZeroOk(ops), ManyOk(ops), lo + |CodeChunk(c)|, x);
  }

  lemma NeatRun(lits: seq<Lit>, code: seq<Byte>, lo: int, x: int) returns (G: set<int>)
    requires 0 < |lits| <= 255 && At(code, lo, CodeChunk(Run(lits)))
    ensures Neat(code, G, x, lo, lo + |CodeChunk(Run(lits))|, Keeps)
  {
    AtByte(code, lo, CodeChunk(Run(lits)), 0);
    AtByte(code, lo, CodeChunk(Run(lits)), 1);
    NeatOne(code, x, lo);
    G := {lo, lo + Len(code, lo)};
  }

  lemma {:induction false} NeatRep(a: Atom, code: seq<Byte>, lo: int, zero: bool, many: bool, hi: int, x: int)
    returns (G: set<int>)
    requires SoundAtom(a) && |code| <= LIMIT && At(code, BodyAt(lo, zero, many), CodeAtom(a)) && Region(code, lo, hi)
    requires RepLayout(code, lo, |CodeAtom(a)|, zero, many, hi) && EffectRep(a, code, lo, zero, many) != Spoils
    ensures Neat(code, G, x, lo, hi, EffectRep(a, code, lo, zero, many))
    decreases a, 5
  {
    if many {
      G := NeatMany(a, code, lo, zero, hi, x);
    } else {
      G := NeatAtom(a, code, BodyAt(lo, zero, false), x);
      if zero {
        G := NeatOpt(code, G, x, lo, hi);
      }
    }
  }

  lemma {:induction false} NeatMany(a: Atom, code: seq<Byte>, lo: int, zero: bool, hi: int, x: int)
    returns (G: set<int>)
    requires SoundAtom(a) && |code| <= LIMIT && At(code, BodyAt(lo, zero, true), CodeAtom(a)) && Region(code, lo, hi)
    requires RepLayout(code, lo, |CodeAtom(a)|, zero, true, hi)
    requires var b := BodyAt(lo, zero, true);
             if a.AGroup? then EffectAtom(a, code, b) == Makes && !PopsHere(code, b + |CodeAtom(a)|)
             else PopsHere(code, b + |CodeAtom(a)|)
    ensures Neat(code, G, x, lo, hi, if zero || !a.AGroup? then Keeps else Makes)
    decreases a, 4
  {
    var b, l := BodyAt(lo, zero, true), |CodeAtom(a)|;
    if !a.AGroup? {
      CharFlow(a, code, b);
      G := CharRep(code, x, lo, l, zero, hi);
    } else {
      AtomStarts(a);
      G := NeatAtom(a, code, b, x);
      AtByte(code, b, CodeAtom(a), 0);
      G := GroupRep(code, G, x, lo, l, zero, hi);
    }
  }

  lemma CharRep(code: seq<Byte>, x: int, lo: int, l: nat, zero: bool, hi: int) returns (G: set<int>)
    requires RepLayout(code, lo, l, zero, true, hi) && Region(code, lo, hi)
    requires var b := BodyAt(lo, zero, true); OneChar(code, b) && Len(code, b) == l <= 34 && Pops(code, b + l)
    ensures Neat(code, G, x, lo, hi, Keeps)
  {
    var l0 := BodyAt(lo, zero, true) - 3;
    FlowSmallLoop(code, l0, l, hi);
    FlowRegion(code, {l0, l0 + 3, l0 + 3 + l}, {l0 + 3}, {l0 + 3, l0 + 3 + l}, l0, hi);
    NeatSmallLoop(code, x, l0, l, hi);
    G := {l0, hi};
    if !zero {
      G := NeatPlus(code, G, x, lo, hi);
    }
  }

  lemma GroupRep(code: seq<Byte>, G: set<int>, x: int, lo: int, l: nat, zero: bool, hi: int) returns (U: set<int>)
    requires RepLayout(code, lo, l, zero, true, hi) && Region(code, lo, hi)
    requires var b := BodyAt(lo, zero, true);
             Neat(code, G, x, b, b + l, Makes) && !PopsHere(code, b + l) && l > 0 && code[b] == START_MEMORY
    ensures Neat(code, U, x, lo, hi, if zero then Keeps else Makes)
  {
    var l0 := BodyAt(lo, zero, true) - 3;
    LoopInside(code, lo, l, zero, hi);
    U := NeatLoop(code, G, x, l0, l, hi);
    if !zero {
      U := NeatPlus(code, U, x, lo, hi);
    }
  }

  lemma LoopInside(code: seq<Byte>, lo: int, l: nat, zero: bool, hi: int)
    requires RepLayout(code, lo, l, zero, true, hi) && Region(code, lo, hi) && l > 0
    requires var b := BodyAt(lo, zero, true); Region(code, b, b + l)
    ensures Region(code, BodyAt(lo, zero, true) - 3, hi)
  {
    var b := BodyAt(lo, zero, true);
    var l0 := b - 3;
    assert Peek(b) && Peek(lo);
    StartsFrom(code, l0);
    StartsFrom(code, hi);
    forall u | u in Starts(code, l0) && u < hi ensures l0 <= u && EdgesIn(code, u, l0, hi) {
      if u != l0 {
        RegionSplit(code, b, b + l, u);
      }
    }
  }

  // ---- the loops of a pattern ----------------------------------------------------------------------------

  // Every loop over a group whose back jump discards has a body that keeps or makes.
  ghost predicate NeatAtoms(a: Atom, code: seq<Byte>, lo: int)
    decreases a, 2
  {
    a.AGroup? && a.alts != [] ==> NeatAlts(a.alts, code, lo + 3)
  }

  ghost predicate NeatAlts(alts: seq<Branch>, code: seq<Byte>, lo: int)
    requires alts != []
    decreases alts, 1
  {
    if |alts| == 1 then NeatChunks(alts[0].chunks, code, lo)
    else
      && NeatChunks(alts[0].chunks, code, lo + 3)
      && NeatAlts(alts[1..], code, lo + 6 + |CodeBranch(alts[0].chunks)|)
  }

  ghost predicate NeatChunks(cs: seq<Chunk>, code: seq<Byte>, lo: int)
    decreases cs, 0
  {
    cs != [] ==> NeatLoops(cs[0], code, lo) && NeatChunks(cs[1..], code, lo + |CodeChunk(cs[0])|)
  }

  ghost predicate NeatLoops(c: Chunk, code: seq<Byte>, lo: int)
    decreases c, 3
  {
    c.Rep? ==>
      var b := BodyAt(lo, ZeroOk(c.ops), ManyOk(c.ops));
      && NeatAtoms(c.atom, code, b)
      && (ManyOk(c.ops) && c.atom.AGroup? && PopsHere(code, b + |CodeAtom(c.atom)|) ==>
            EffectAtom(c.atom, code, b) != Spoils)
  }

  // p is the back jump of a loop over a group.
  ghost predicate GroupJump(code: seq<Byte>, p: int) {
    && 0 <= p && p + 3 <= |code| && code[p] == MAYBE_POP_JUMP && Pops(code, p) && !OneCharLoop(code, p)
  }

  // The loop that the jump at p closes, between lo and hi, is over a group, and is clear.
  ghost predicate Settles(code: seq<Byte>, G: set<int>, lo: int, hi: int, p: int) {
    && Within(G, lo + 1, hi - 1) && p in G && Closed(code, G, p + 3, lo, hi)
    && 0 <= p && p + 3 <= |code| && 0 <= Target(code, p) && Target(code, p) + 3 < |code|
    && code[Target(code, p) + 3] == START_MEMORY
  }

  // Around a stretch of code on either side of which nothing comes to G.
  lemma SettleWiden(code: seq<Byte>, G: set<int>, lo: int, l: int, h: int, hi: int, p: int)
    requires Region(code, lo, l) && Region(code, l, h) && Region(code, h, hi) && Settles(code, G, l, h, p)
    ensures Settles(code, G, lo, hi, p)
  {
    ClosedNone(code, p + 3, lo, l);
    ClosedSame(code, {}, G, p + 3, lo, l);
    ClosedNone(code, p + 3, h, hi);
    ClosedSame(code, {}, G, p + 3, h, hi);
    ClosedJoin(code, G, p + 3, l, h, hi);
    ClosedJoin(code, G, p + 3, lo, l, hi);
  }

  lemma RegionNone(code: seq<Byte>, lo: int)
    requires 0 <= lo <= |code|
    ensures Region(code, lo, lo)
  {
    StartsFrom(code, lo);
  }

  lemma {:induction false} SettleBranch(cs: seq<Chunk>, code: seq<Byte>, lo: int, p: int) returns (G: set<int>)
    requires SoundBranch(cs) && |code| <= LIMIT && At(code, lo, CodeBranch(cs)) && NeatChunks(cs, code, lo)
    requires p in Starts(code, lo) && p < lo + |CodeBranch(cs)| && GroupJump(code, p)
    ensures Settles(code, G, lo, lo + |CodeBranch(cs)|, p)
    decreases cs, 0
  {
    StartsFrom(code, lo);
    var hi := lo + |CodeBranch(cs)|;
    var mid := BranchPlaces(cs, code, lo);
    RegionSplit(code, lo, mid, p);
    if p < mid {
      G := SettleChunk(cs[0], code, lo, p);
      RegionNone(code, lo);
      SettleWiden(code, G, lo, lo, mid, hi, p);
    } else {
      G := SettleBranch(cs[1..], code, mid, p);
      RegionNone(code, hi);
      SettleWiden(code, G, lo, mid, hi, hi, p);
    }
  }

  lemma {:induction false} SettleChunk(c: Chunk, code: seq<Byte>, lo: int, p: int) returns (G: set<int>)
    requires SoundChunk(c) && |code| <= LIMIT && At(code, lo, CodeChunk(c)) && NeatLoops(c, code, lo)
    requires p in Starts(code, lo) && p < lo + |CodeChunk(c)| && GroupJump(code, p)
    ensures Settles(code, G, lo, lo + |CodeChunk(c)|, p)
    decreases c, 3
  {
    match c
    case Run(lits) =>
      NoJump(lits, code, lo);
      G := {};
    case Rep(a, ops) =>
      RepPlaces(a, ops, code, lo);
      G := SettleRep(a, code, lo, ZeroOk(ops), ManyOk(ops), lo + |CodeChunk(c)|, p);
  }

  lemma NoJump(lits: seq<Lit>, code: seq<Byte>, lo: int)
    requires 0 < |lits| <= 255 && At(code, lo, CodeChunk(Run(lits)))
    ensures lo < |code| && code[lo] == EXACTN
    ensures forall u :: u in Starts(code, lo) && u < lo + |CodeChunk(Run(lits))| ==> u == lo
  {
    AtByte(code, lo, CodeChunk(Run(lits)), 0);
    AtByte(code, lo, CodeChunk(Run(lits)), 1);
    StartsFrom(code, lo + Len(code, lo));
  }

  lemma {:induction false} SettleRep(a: Atom, code: seq<Byte>, lo: int, zero: bool, many: bool, hi: int, p: int)
    returns (G: set<int>)
    requires SoundAtom(a) && |code| <= LIMIT && At(code, BodyAt(lo, zero, many), CodeAtom(a))
    requires RepLayout(code, lo, |CodeAtom(a)|, zero, many, hi) && NeatAtoms(a, code, BodyAt(lo, zero, many))
    requires var b := BodyAt(lo, zero, many);
             many && a.AGroup? && PopsHere(code, b + |CodeAtom(a)|) ==> EffectAtom(a, code, b) != Spoils
    requires p in Starts(code, lo) && p < hi && GroupJump(code, p)
    ensures Settles(code, G, lo, hi, p)
    decreases a, 4
  {
    var b, l := BodyAt(lo, zero, many), |CodeAtom(a)|;
    AtomRegion(a, code, b);
    InBody(code, lo, l, zero, many, hi, p);
    if many && p == b + l {
      G := SettleLoop(a, code, lo, zero, hi);
    } else {
      G := SettleAtom(a, code, b, p);
      LoopWrap(code, G, lo, l, zero, many, hi, p);
    }
  }

  // Where a back jump can be in a repetition.
  lemma InBody(code: seq<Byte>, lo: int, l: nat, zero: bool, many: bool, hi: int, p: int)
    requires RepLayout(code, lo, l, zero, many, hi) && Region(code, BodyAt(lo, zero, many), BodyAt(lo, zero, many) + l)
    requires p in Starts(code, lo) && p < hi && GroupJump(code, p)
    ensures var b := BodyAt(lo, zero, many); p in Starts(code, b) && (p < b + l || (many && p == b + l))
  {
    var b := BodyAt(lo, zero, many);
    StartsFrom(code, b);
    RegionSplit(code, b, b + l, p);
    StartsFrom(code, hi);
  }

  lemma SettleLoop(a: Atom, code: seq<Byte>, lo: int, zero: bool, hi: int) returns (G: set<int>)
    requires SoundAtom(a) && |code| <= LIMIT && At(code, BodyAt(lo, zero, true), CodeAtom(a))
    requires RepLayout(code, lo, |CodeAtom(a)|, zero, true, hi)
    requires var b := BodyAt(lo, zero, true); a.AGroup? ==> EffectAtom(a, code, b) != Spoils
    requires GroupJump(code, BodyAt(lo, zero, true) + |CodeAtom(a)|)
    ensures Settles(code, G, lo, hi, BodyAt(lo, zero, true) + |CodeAtom(a)|)
  {
    var b, l := BodyAt(lo, zero, true), |CodeAtom(a)|;
    NotSmall(a, code, b);
    AtomStarts(a);
    AtByte(code, b, CodeAtom(a), 0);
    G := NeatAtom(a, code, b, hi);
    LoopAround(code, G, lo, l, zero, hi);
  }

  // The body of a loop that is not over one character is a group.
  lemma NotSmall(a: Atom, code: seq<Byte>, b: int)
    requires At(code, b, CodeAtom(a)) && GroupJump(code, b + |CodeAtom(a)|) && Target(code, b + |CodeAtom(a)|) + 3 == b
    ensures a.AGroup?
  {
    if !a.AGroup? {
      CharFlow(a, code, b);
    }
  }

  // The loop around a body in which G lies.
  lemma LoopAround(code: seq<Byte>, G: set<int>, lo: int, l: nat, zero: bool, hi: int)
    requires RepLayout(code, lo, l, zero, true, hi)
    requires var b := BodyAt(lo, zero, true);
             Region(code, b, b + l) && Within(G, b, b + l) && Closed(code, G, hi, b, b + l)
    ensures Closed(code, G, hi, lo, hi)
  {
    var b := BodyAt(lo, zero, true);
    ClosedAfter(code, G, hi, b, b + l);
    ClosedThen(code, G, hi, b - 3, hi);
    if !zero {
      ClosedThen(code, G, hi, lo, hi);
    }
  }

  lemma LoopWrap(code: seq<Byte>, G: set<int>, lo: int, l: nat, zero: bool, many: bool, hi: int, p: int)
    requires RepLayout(code, lo, l, zero, many, hi)
    requires var b := BodyAt(lo, zero, many); Region(code, b, b + l) && Settles(code, G, b, b + l, p)
    ensures Settles(code, G, lo, hi, p)
  {
    var b, x := BodyAt(lo, zero, many), p + 3;
    if many {
      ClosedAfter(code, G, x, b, b + l);
      ClosedThen(code, G, x, b - 3, hi);
      if !zero {
        ClosedThen(code, G, x, lo, hi);
      }
    } else if zero {
      ClosedThen(code, G, x, lo, hi);
    }
  }

  lemma {:induction false} SettleAtom(a: Atom, code: seq<Byte>, lo: int, p: int) returns (G: set<int>)
    requires SoundAtom(a) && |code| <= LIMIT && At(code, lo, CodeAtom(a)) && NeatAtoms(a, code, lo)
    requires p in Starts(code, lo) && p < lo + |CodeAtom(a)| && GroupJump(code, p)
    ensures Settles(code, G, lo, lo + |CodeAtom(a)|, p)
    decreases a, 2
  {
    if !a.AGroup? {
      CharFlow(a, code, lo);
      StartsFrom(code, lo + Len(code, lo));
    } else {
      var e, f := GroupLayout(a, code, lo);
      AltsRegion(a.alts, code, lo + 3);
      InGroup(code, lo, e, f, p);
      G := SettleAlts(a.alts, code, lo + 3, p);
      GroupWrap(code, G, lo, e, f, p);
    }
  }

  lemma InGroup(code: seq<Byte>, lo: int, e: int, f: int, p: int)
    requires 0 <= lo && lo + 3 <= e <= f && f + 3 <= |code| && code[lo] == START_MEMORY && code[f] == STOP_MEMORY
    requires f == e || (f == e + 1 && code[e] == PUSH_DUMMY_FAILURE)
    requires Region(code, lo + 3, e) && p in Starts(code, lo) && p < f + 3 && GroupJump(code, p)
    ensures p in Starts(code, lo + 3) && p < e
  {
    RegionSplit(code, lo + 3, e, p);
    StartsFrom(code, f + 3);
    assert Starts(code, f) == {f} + Starts(code, f + 3);
    if f != e {
      assert Starts(code, e) == {e} + Starts(code, f);
    }
  }

  lemma GroupWrap(code: seq<Byte>, G: set<int>, lo: int, e: int, f: int, p: int)
    requires 0 <= lo && lo + 3 <= e <= f && f + 3 <= |code| && code[lo] == START_MEMORY && code[f] == STOP_MEMORY
    requires f == e || (f == e + 1 && code[e] == PUSH_DUMMY_FAILURE)
    requires Region(code, lo + 3, e) && Settles(code, G, lo + 3, e, p)
    ensures Settles(code, G, lo, f + 3, p)
  {
    var x := p + 3;
    ClosedOne(code, G, x, f);
    if f != e {
      ClosedThen(code, G, x, e, f + 3);
    }
    ClosedJoin(code, G, x, lo + 3, e, f + 3);
    ClosedThen(code, G, x, lo, f + 3);
  }

  lemma {:induction false} SettleAlts(alts: seq<Branch>, code: seq<Byte>, lo: int, p: int) returns (G: set<int>)
    requires SoundAlts(alts) && alts != [] && |code| <= LIMIT && At(code, lo, CodeAlts(alts))
    requires NeatAlts(alts, code, lo)
    requires p in Starts(code, lo) && p < lo + |CodeAlts(alts)| && GroupJump(code, p)
    ensures Settles(code, G, lo, lo + |CodeAlts(alts)|, p) && lo + Past(alts) !in G
    decreases alts, 1
  {
    if |alts| == 1 {
      G := SettleBranch(alts[0].chunks, code, lo, p);
    } else {
      var jpa, next, hi := MoreRegions(alts, code, lo);
      InAlts(code, lo, jpa, next, p);
      G := SettleMore(alts, alts[0].chunks, alts[1..], code, lo, jpa, next, hi, p);
    }
  }

  // In the first alternative, or in one of the others.
  lemma {:induction false} SettleMore(alts: seq<Branch>, cs: seq<Chunk>, rest: seq<Branch>, code: seq<Byte>,
                                      lo: int, jpa: int, next: int, hi: int, p: int)
    returns (G: set<int>)
    requires alts != [] && cs == alts[0].chunks && rest == alts[1..]
    requires SoundBranch(cs) && SoundAlts(rest) && rest != [] && |code| <= LIMIT && 0 <= lo
    requires jpa == lo + 3 + |CodeBranch(cs)| && next == jpa + 3 && hi == next + |CodeAlts(rest)| <= |code|
    requires code[lo] == ON_FAILURE_JUMP && Target(code, lo) == next && code[jpa] == JUMP_PAST_ALT
    requires Target(code, jpa) == next + Past(rest) <= hi
    requires At(code, lo + 3, CodeBranch(cs)) && At(code, next, CodeAlts(rest))
    requires Region(code, lo + 3, jpa) && Region(code, next, hi)
    requires NeatChunks(cs, code, lo + 3) && NeatAlts(rest, code, next)
    requires p < hi && GroupJump(code, p) && if p < jpa then p in Starts(code, lo + 3) else p in Starts(code, next)
    ensures Settles(code, G, lo, hi, p) && jpa !in G
    decreases alts, 0
  {
    if p < jpa {
      G := SettleBranch(cs, code, lo + 3, p);
      FirstWrap(code, G, lo, jpa, next, hi, p);
    } else {
      G := SettleAlts(rest, code, next, p);
      RestWrap(code, G, lo, jpa, next, hi, p);
    }
  }

  lemma MoreRegions(alts: seq<Branch>, code: seq<Byte>, lo: int) returns (jpa: int, next: int, hi: int)
    requires SoundAlts(alts) && |alts| > 1 && |code| <= LIMIT && At(code, lo, CodeAlts(alts))
    ensures SoundBranch(alts[0].chunks) && SoundAlts(alts[1..]) && 0 <= lo
    ensures hi == lo + |CodeAlts(alts)| == next + |CodeAlts(alts[1..])| && next == jpa + 3 <= hi <= |code|
    ensures lo + 3 + |CodeBranch(alts[0].chunks)| == jpa == lo + Past(alts) && lo + 3 <= jpa
    ensures code[lo] == ON_FAILURE_JUMP && Target(code, lo) == next && code[jpa] == JUMP_PAST_ALT
    ensures Target(code, jpa) == next + Past(alts[1..]) <= hi
    ensures At(code, lo + 3, CodeBranch(alts[0].chunks)) && At(code, next, CodeAlts(alts[1..]))
    ensures Region(code, lo + 3, jpa) && Region(code, next, hi)
  {
    SoundAfter(alts);
    jpa, next, hi := AltsPlaces(alts, code, lo);
    BranchRegion(alts[0].chunks, code, lo + 3);
    AltsRegion(alts[1..], code, next);
    PastIn(alts[1..]);
  }

  lemma PastIn(alts: seq<Branch>)
    requires alts != []
    ensures Past(alts) <= |CodeAlts(alts)|
  {
  }

  lemma InAlts(code: seq<Byte>, lo: int, jpa: int, next: int, p: int)
    requires 0 <= lo && next == jpa + 3 <= |code| && lo + 3 <= jpa
    requires code[lo] == ON_FAILURE_JUMP && code[jpa] == JUMP_PAST_ALT
    requires Region(code, lo + 3, jpa) && p in Starts(code, lo) && GroupJump(code, p)
    ensures if p < jpa then p in Starts(code, lo + 3) else p in Starts(code, next)
  {
    RegionSplit(code, lo + 3, jpa, p);
  }

  lemma FirstWrap(code: seq<Byte>, G: set<int>, lo: int, jpa: int, next: int, hi: int, p: int)
    requires 0 <= lo && next == jpa + 3 <= hi <= |code| && lo + 3 <= jpa
    requires code[lo] == ON_FAILURE_JUMP && Target(code, lo) == next
    requires code[jpa] == JUMP_PAST_ALT && next <= Target(code, jpa) <= hi
    requires Region(code, lo + 3, jpa) && Region(code, next, hi) && Settles(code, G, lo + 3, jpa, p)
    ensures Settles(code, G, lo, hi, p)
  {
    var x := p + 3;
    ClosedNone(code, x, next, hi);
    ClosedSame(code, {}, G, x, next, hi);
    ClosedThen(code, G, x, jpa, hi);
    ClosedJoin(code, G, x, lo + 3, jpa, hi);
    ClosedThen(code, G, x, lo, hi);
  }

  lemma RestWrap(code: seq<Byte>, G: set<int>, lo: int, jpa: int, next: int, hi: int, p: int)
    requires 0 <= lo && next == jpa + 3 <= hi <= |code| && lo + 3 <= jpa
    requires code[lo] == ON_FAILURE_JUMP && Target(code, lo) == next
    requires code[jpa] == JUMP_PAST_ALT && Target(code, jpa) !in G
    requires Region(code, lo + 3, jpa) && Region(code, next, hi) && Settles(code, G, next, hi, p)
    ensures Settles(code, G, lo, hi, p) && jpa !in G
  {
    var x := p + 3;
    ClosedThen(code, G, x, jpa, hi);
    ClosedNone(code, x, lo + 3, jpa);
    ClosedSame(code, {}, G, x, lo + 3, jpa);
    ClosedJoin(code, G, x, lo + 3, jpa, hi);
    ClosedThen(code, G, x, lo, hi);
  }

  // ---- patterns that are neat wherever they are ------------------------------------------------------------

  // Nothing in the branch is repeated, but inside a group of several alternatives.
  predicate Straight(cs: seq<Chunk>)
    decreases cs, 0
  {
    cs != [] ==> StraightChunk(cs[0]) && Straight(cs[1..])
  }

  predicate StraightChunk(c: Chunk)
    decreases c, 1
  {
    c.Rep? ==> c.ops == [] && (c.atom.AGroup? && |c.atom.alts| == 1 ==> Straight(c.atom.alts[0].chunks))
  }

  lemma {:induction false} StraightKeeps(cs: seq<Chunk>, code: seq<Byte>, lo: int)
    requires Straight(cs)
    ensures EffectBranch(cs, code, lo) != Spoils
    decreases cs
  {
    if cs != [] {
      var c := cs[0];
      StraightKeeps(cs[1..], code, lo + |CodeChunk(c)|);
      if c.Rep? {
        assert !ZeroOk(c.ops) && !ManyOk(c.ops);
        if c.atom.AGroup? && |c.atom.alts| == 1 {
          StraightKeeps(c.atom.alts[0].chunks, code, lo + 3);
        }
        assert EffectChunk(c, code, lo) == EffectAtom(c.atom, code, lo);
      }
    }
  }

  // Every loop over a group is over one with several alternatives, or with nothing in it repeated.
  predicate PlainLoops(alts: seq<Branch>)
    decreases alts, 1
  {
    alts != [] ==> PlainChunks(alts[0].chunks) && PlainLoops(alts[1..])
  }

  predicate PlainChunks(cs: seq<Chunk>)
    decreases cs, 0
  {
    cs != [] ==> PlainChunks(cs[1..]) && PlainLoop(cs[0])
  }

  predicate PlainLoop(c: Chunk)
    decreases c, 3
  {
    c.Rep? && c.atom.AGroup? ==>
      PlainLoops(c.atom.alts) && (ManyOk(c.ops) && |c.atom.alts| == 1 ==> Straight(c.atom.alts[0].chunks))
  }

  lemma {:induction false} PlainNeat(alts: seq<Branch>, code: seq<Byte>, lo: int)
    requires PlainLoops(alts) && alts != []
    ensures NeatAlts(alts, code, lo)
    decreases alts, 1
  {
    if |alts| == 1 {
      PlainNeatChunks(alts[0].chunks, code, lo);
    } else {
      PlainNeatChunks(alts[0].chunks, code, lo + 3);
      PlainNeat(alts[1..], code, lo + 6 + |CodeBranch(alts[0].chunks)|);
    }
  }

  lemma {:induction false} PlainNeatChunks(cs: seq<Chunk>, code: seq<Byte>, lo: int)
    requires PlainChunks(cs)
    ensures NeatChunks(cs, code, lo)
    decreases cs, 0
  {
    if cs != [] {
      PlainNeatLoop(cs[0], code, lo);
      PlainNeatChunks(cs[1..], code, lo + |CodeChunk(cs[0])|);
    }
  }

  lemma {:induction false} PlainNeatLoop(c: Chunk, code: seq<Byte>, lo: int)
    requires PlainLoop(c)
    ensures NeatLoops(c, code, lo)
    decreases c, 3
  {
    if c.Rep? && c.atom.AGroup? && c.atom.alts != [] {
      var b := BodyAt(lo, ZeroOk(c.ops), ManyOk(c.ops));
      PlainNeat(c.atom.alts, code, b + 3);
      if ManyOk(c.ops) && |c.atom.alts| == 1 {
        StraightKeeps(c.atom.alts[0].chunks, code, b + 3);
      }
    }
  }

  // ---- the whole code --------------------------------------------------------------------------------------

  // In the odd cases of the test a loop that discards has nothing in common with what follows it.
  ghost predicate OddFine(code: seq<Byte>) {
    forall p {:trigger Peek(p)} ::
      (Peek(p) && p in Starts(code, 0) && OneCharLoop(code, p) && Pops(code, p) && Odd(code, p)) ==> Disjoint(code, p)
  }

  // A pattern whose loops are neat has tame code.
  lemma NeatTame(alts: seq<Branch>)
    requires SoundAlts(alts) && alts != [] && |CodeAlts(alts)| <= LIMIT
    requires NeatAlts(alts, CodeAlts(alts), 0) && OddFine(CodeAlts(alts))
    ensures Tame(CodeAlts(alts))
  {
    var code := CodeAlts(alts);
    assert code[0..0 + |code|] == code;
    forall p {:trigger Peek(p)} | Peek(p) && p in Starts(code, 0) && 0 <= p && p + 3 <= |code|
      && code[p] == MAYBE_POP_JUMP && Pops(code, p) ensures TameAt(code, p)
    {
      if !OneCharLoop(code, p) {
        var G := SettleAlts(alts, code, 0, p);
        SettledTame(code, G, p);
      }
    }
  }

  lemma SettledTame(code: seq<Byte>, G: set<int>, p: int)
    requires Settles(code, G, 0, |code|, p) && GroupJump(code, p)
    ensures TameAt(code, p)
  {
    assert Peek(0) && Peek(Target(code, p) + 3);
    assert Clear(code, G, p + 3);
  }

  // Such as patterns whose loops are over one character, over groups of several alternatives, as in
  // \(a\|ab\)*, and over groups with nothing in them repeated, as in \(ab\)*.
  lemma PlainTame(alts: seq<Branch>)
    requires SoundAlts(alts) && alts != [] && |CodeAlts(alts)| <= LIMIT
    requires PlainLoops(alts) && OddFine(CodeAlts(alts))
    ensures Tame(CodeAlts(alts))
  {
    PlainNeat(alts, CodeAlts(alts), 0);
    NeatTame(alts);
  }
}
