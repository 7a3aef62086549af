// The beginning and the end of a session: what it shares is claimed, and given up again.
module CowLife {
  import opened CowStore
  import opened CowSessions
  import opened CowOptions

  // ---- a new session ------------------------------------------------------------------

  // Claiming changes nothing but counts.
  lemma ClaimIs(s: Store, p: Ref)
    requires p in s.cfgs
    ensures var t := Claim(s, p);
            && t.next == s.next && t.cfgs.Keys == s.cfgs.Keys && t.langs.Keys == s.langs.Keys
            && t.voices.Keys == s.voices.Keys
            && (forall q :: q in s.cfgs ==> t.cfgs[q] == s.cfgs[q].(cow := s.cfgs[q].cow + (if q == p then 1 else 0)))
            && (forall r :: r in s.langs ==>
                t.langs[r] == s.langs[r].(cow := s.langs[r].cow + (if HasLang(s, p, r) then 1 else 0)))
            && (forall v :: v in s.voices ==>
                t.voices[v] == s.voices[v].(cow := s.voices[v].cow + (if HasVoice(s, p, v) then 1 else 0)))
  {
  }

  lemma ClaimSame(s: Store, p: Ref, q: Ref)
    requires p in s.cfgs && Whole(s, q)
    ensures SameCfg(s, q, Claim(s, p), q)
  {
    ClaimIs(s, p);
    forall i | 0 <= i < |s.cfgs[q].langs| ensures SameLang(s, s.cfgs[q].langs[i], Claim(s, p), s.cfgs[q].langs[i]) {
      assert WholeLang(s, s.cfgs[q].langs[i], i);
    }
  }

  lemma ClaimHas(s: Store, p: Ref, q: Ref)
    requires p in s.cfgs
    ensures forall r :: HasLang(Claim(s, p), q, r) <==> HasLang(s, q, r)
    ensures forall v :: HasVoice(Claim(s, p), q, v) <==> HasVoice(s, q, v)
  {
    ClaimIs(s, p);
  }

  // One session alone, on a configuration that has been read in, with the claims made.
  lemma FirstSession(s: Store, p: Ref, m: Sid)
    requires Fresh(s) && Whole(s, p)
    ensures Whole(Claim(s, p), p) && Deep(Claim(s, p), p) == Deep(s, p)
  {
    ClaimIs(s, p);
    ClaimSame(s, p, p);
    SameDeep(s, p, Claim(s, p), p);
  }

  lemma FirstHolds(s: Store, p: Ref, m: Sid)
    requires Fresh(s) && Whole(s, p)
    ensures Inv(Claim(s, p), map[m := p])
  {
    ClaimIs(s, p);
    FirstSession(s, p, m);
    OneUser(Claim(s, p), map[m := p], m);
  }

  lemma OneUser(s: Store, roots: Roots, m: Sid)
    requires Fresh(s) && roots.Keys == {m}
    ensures LangCounts(s, roots) && VoiceCounts(s, roots)
  {
    forall r | r in s.langs ensures |LangUsers(s, roots, r)| <= s.langs[r].cow + 1 {
      Fewer(LangUsers(s, roots, r), {m});
    }
    forall v | v in s.voices ensures |VoiceUsers(s, roots, v)| <= s.voices[v].cow + 1 {
      Fewer(VoiceUsers(s, roots, v), {m});
    }
  }

  // The new session's configuration object is a copy.
  lemma CopyIs(s: Store, p: Ref)
    requires p in s.cfgs && s.cfgs[p].cow > 0 && Fresh(s)
    ensures var (t, q) := CowCfg(s, p);
            && q == s.next && t.langs == s.langs && t.voices == s.voices && Fresh(t) && q in t.cfgs
            && t.cfgs[q] == s.cfgs[p].(cow := 0) && t.cfgs[p] == s.cfgs[p].(cow := s.cfgs[p].cow - 1)
            && forall o :: o in s.cfgs && o != p ==> o in t.cfgs && t.cfgs[o] == s.cfgs[o]
  {
  }

  // A context's constructor, with p the configuration in use: everything is claimed, and the
  // configuration object copied.
  function Begin(s: Store, p: Ref): (Store, Ref)
    requires p in s.cfgs
  {
    CowCfg(Claim(s, p), p)
  }

  lemma BeginIs(s: Store, p: Ref)
    requires p in s.cfgs && Fresh(s)
    ensures var (t, q) := Begin(s, p);
            && q == s.next && q in t.cfgs && Fresh(t)
            && t.cfgs[q] == s.cfgs[p].(cow := 0) && (forall o :: o in s.cfgs ==> o in t.cfgs && t.cfgs[o] == s.cfgs[o])
            && t.langs == Claim(s, p).langs && t.voices == Claim(s, p).voices
  {
    ClaimIs(s, p);
    CopyIs(Claim(s, p), p);
  }

  lemma BeginSame(s: Store, p: Ref, o: Ref, o': Ref)
    requires Whole(s, o) && Fresh(s) && p in s.cfgs && (o' == o || (o == p && o' == s.next))
    ensures SameCfg(s, o, Begin(s, p).0, o')
  {
    BeginIs(s, p);
    ClaimSame(s, p, o);
    var t := Begin(s, p).0;
    forall i | 0 <= i < |s.cfgs[o].langs| ensures SameLang(s, s.cfgs[o].langs[i], t, t.cfgs[o'].langs[i]) {
      assert SameLang(s, s.cfgs[o].langs[i], Claim(s, p), s.cfgs[o].langs[i]);
    }
  }

  lemma BeginHas(s: Store, p: Ref, o: Ref, o': Ref)
    requires Fresh(s) && p in s.cfgs && o in s.cfgs && (o' == o || (o == p && o' == s.next))
    ensures forall r :: HasLang(Begin(s, p).0, o', r) <==> HasLang(s, o, r)
    ensures forall v :: HasVoice(Begin(s, p).0, o', v) <==> HasVoice(s, o, v)
  {
    BeginIs(s, p);
    ClaimHas(s, p, o);
    ClaimIs(s, p);
  }

  lemma BeginCounts(s: Store, roots: Roots, x: Sid, y: Sid)
    requires Inv(s, roots) && x in roots && y !in roots
    ensures var (t, q) := Begin(s, roots[x]);
            LangCounts(t, roots[y := q]) && VoiceCounts(t, roots[y := q])
  {
    var p := roots[x];
    var (t, q) := Begin(s, p);
    var now := roots[y := q];
    assert Whole(s, p);
    BeginIs(s, p);
    ClaimIs(s, p);
    forall z | z in roots ensures Whole(s, roots[z]) {}
    forall r | r in t.langs ensures |LangUsers(t, now, r)| <= t.langs[r].cow + 1 {
      var a, b := LangUsers(t, now, r), LangUsers(s, roots, r);
      forall z | z in a && z != y ensures z in b { BeginHas(s, p, roots[z], roots[z]); }
      if HasLang(s, p, r) { OneMore(a, b, y); } else { BeginHas(s, p, p, q); Fewer(a, b); }
    }
    forall v | v in t.voices ensures |VoiceUsers(t, now, v)| <= t.voices[v].cow + 1 {
      var a, b := VoiceUsers(t, now, v), VoiceUsers(s, roots, v);
      forall z | z in a && z != y ensures z in b { BeginHas(s, p, roots[z], roots[z]); }
      if HasVoice(s, p, v) { OneMore(a, b, y); } else { BeginHas(s, p, p, q); Fewer(a, b); }
    }
  }

  // The new session y reads what session x reads; nobody else notices.
  ghost predicate Born(s: Store, roots: Roots, t: Store, now: Roots, x: Sid, y: Sid) {
    && Inv(t, now) && now.Keys == roots.Keys + {y} && x in roots && y !in roots
    && Whole(s, roots[x]) && Deep(t, now[y]) == Deep(s, roots[x])
    && forall z :: z in roots ==> Whole(s, roots[z]) && Deep(t, now[z]) == Deep(s, roots[z])
  }

  lemma BeginKeeps(s: Store, roots: Roots, x: Sid, y: Sid)
    requires Inv(s, roots) && x in roots && y !in roots
    ensures roots[x] in s.cfgs
    ensures var (t, q) := Begin(s, roots[x]);
            Born(s, roots, t, roots[y := q], x, y)
  {
    var p := roots[x];
    var (t, q) := Begin(s, p);
    var now := roots[y := q];
    BeginIs(s, p);
    BeginSame(s, p, p, q);
    SameDeep(s, p, t, q);
    forall z | z in roots ensures Whole(t, roots[z]) && Deep(t, roots[z]) == Deep(s, roots[z]) && roots[z] != q {
      assert Whole(s, roots[z]);
      BeginSame(s, p, roots[z], roots[z]);
      SameDeep(s, roots[z], t, roots[z]);
    }
    BeginCounts(s, roots, x, y);
  }

  // ---- the end of a session --------------------------------------------------------------

  lemma UnclaimIs(s: Store, p: Ref)
    requires p in s.cfgs
    ensures var t := Unclaim(s, p);
            && t.next == s.next
            && (forall q :: q in s.cfgs && q != p ==> q in t.cfgs && t.cfgs[q] == s.cfgs[q])
            && (forall r :: r in t.langs ==>
                  r in s.langs
                  && t.langs[r] == s.langs[r].(cow := s.langs[r].cow - (if HasLang(s, p, r) then 1 else 0)))
            && (forall r :: r in s.langs && (!HasLang(s, p, r) || s.langs[r].cow != 0) ==> r in t.langs)
            && (forall v :: v in t.voices ==>
                  v in s.voices
                  && t.voices[v] == s.voices[v].(cow := s.voices[v].cow - (if HasVoice(s, p, v) then 1 else 0)))
            && (forall v :: v in s.voices && (!HasVoice(s, p, v) || s.voices[v].cow != 0) ==> v in t.voices)
  {
  }

  // Nothing that another session reaches is freed.
  lemma NotFreed(s: Store, roots: Roots, x: Sid, y: Sid)
    requires Inv(s, roots) && x in roots && y in roots && x != y
    ensures var t := Unclaim(s, roots[x]);
            && roots[y] in t.cfgs && (forall r :: HasLang(s, roots[y], r) ==> r in t.langs)
            && (forall v :: HasVoice(s, roots[y], v) ==> v in t.voices)
  {
    var t := Unclaim(s, roots[x]);
    assert Whole(s, roots[y]) && Whole(s, roots[x]);
    UnclaimIs(s, roots[x]);
    forall r | HasLang(s, roots[y], r) ensures r in t.langs {
      if HasLang(s, roots[x], r) && s.langs[r].cow == 0 { OwnLang(s, roots, x, y, r); }
    }
    forall v | HasVoice(s, roots[y], v) ensures v in t.voices {
      if HasVoice(s, roots[x], v) && s.voices[v].cow == 0 { OwnVoice(s, roots, x, y, v); }
    }
  }

  lemma UnclaimSame(s: Store, roots: Roots, x: Sid, y: Sid)
    requires Inv(s, roots) && x in roots && y in roots && x != y
    ensures SameCfg(s, roots[y], Unclaim(s, roots[x]), roots[y])
  {
    assert Whole(s, roots[x]) && Whole(s, roots[y]);
    var t := Unclaim(s, roots[x]);
    UnclaimIs(s, roots[x]);
    NotFreed(s, roots, x, y);
    forall i | 0 <= i < |s.cfgs[roots[y]].langs|
      ensures SameLang(s, s.cfgs[roots[y]].langs[i], t, s.cfgs[roots[y]].langs[i])
    {
      Reached(s, roots[y], i);
    }
  }

  lemma UnclaimHas(s: Store, roots: Roots, x: Sid, y: Sid)
    requires Inv(s, roots) && x in roots && y in roots && x != y
    ensures forall r :: HasLang(Unclaim(s, roots[x]), roots[y], r) ==> HasLang(s, roots[y], r)
    ensures forall v :: HasVoice(Unclaim(s, roots[x]), roots[y], v) ==> HasVoice(s, roots[y], v)
  {
    assert Whole(s, roots[x]) && Whole(s, roots[y]);
    UnclaimIs(s, roots[x]);
  }

  lemma UnclaimCounts(s: Store, roots: Roots, x: Sid)
    requires Inv(s, roots) && x in roots
    ensures LangCounts(Unclaim(s, roots[x]), roots - {x}) && VoiceCounts(Unclaim(s, roots[x]), roots - {x})
  {
    assert Whole(s, roots[x]);
    var t, now := Unclaim(s, roots[x]), roots - {x};
    UnclaimIs(s, roots[x]);
    forall r | r in t.langs ensures |LangUsers(t, now, r)| <= t.langs[r].cow + 1 {
      var a, b := LangUsers(t, now, r), LangUsers(s, roots, r);
      forall z | z in a ensures z in b && z != x { UnclaimHas(s, roots, x, z); }
      if HasLang(s, roots[x], r) { OneFewer(a, b, x); } else { Fewer(a, b); }
    }
    forall v | v in t.voices ensures |VoiceUsers(t, now, v)| <= t.voices[v].cow + 1 {
      var a, b := VoiceUsers(t, now, v), VoiceUsers(s, roots, v);
      forall z | z in a ensures z in b && z != x { UnclaimHas(s, roots, x, z); }
      if HasVoice(s, roots[x], v) { OneFewer(a, b, x); } else { Fewer(a, b); }
    }
  }

  // The other sessions read what they read before: nothing they reach was freed.
  ghost predicate Gone(s: Store, roots: Roots, t: Store, now: Roots, x: Sid) {
    && Inv(t, now) && now == roots - {x}
    && forall y :: y in now ==> Whole(s, roots[y]) && Deep(t, now[y]) == Deep(s, roots[y])
  }

  lemma EndKeeps(s: Store, roots: Roots, x: Sid)
    requires Inv(s, roots) && x in roots
    ensures roots[x] in s.cfgs && Gone(s, roots, Unclaim(s, roots[x]), roots - {x}, x)
  {
    assert Whole(s, roots[x]);
    var t, now := Unclaim(s, roots[x]), roots - {x};
    forall y | y in now ensures Whole(s, roots[y]) && Whole(t, now[y]) && Deep(t, now[y]) == Deep(s, roots[y]) {
      EndReads(s, roots, x, y);
    }
    EndFresh(s, roots[x]);
    UnclaimCounts(s, roots, x);
  }

  lemma EndReads(s: Store, roots: Roots, x: Sid, y: Sid)
    requires Inv(s, roots) && x in roots && y in roots && y != x
    ensures roots[x] in s.cfgs && Whole(s, roots[y])
    ensures Whole(Unclaim(s, roots[x]), roots[y]) && Deep(Unclaim(s, roots[x]), roots[y]) == Deep(s, roots[y])
  {
    assert Whole(s, roots[x]) && Whole(s, roots[y]);
    UnclaimSame(s, roots, x, y);
    SameDeep(s, roots[y], Unclaim(s, roots[x]), roots[y]);
  }

  lemma EndFresh(s: Store, p: Ref)
    requires Fresh(s) && p in s.cfgs
    ensures Fresh(Unclaim(s, p))
  {
    UnclaimIs(s, p);
  }
}
