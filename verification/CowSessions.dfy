// Sessions that share configuration objects until they change them behave as if each had a
// configuration of its own.
module CowSessions {
  import opened CowStore

  // ---- counting ---------------------------------------------------------------------

  lemma Fewer(a: set<Sid>, b: set<Sid>)
    requires a <= b
    ensures |a| <= |b|
  {
    assert b == a + (b - a);
  }

  lemma OneFewer(a: set<Sid>, b: set<Sid>, x: Sid)
    requires a <= b - {x} && x in b
    ensures |a| < |b|
  {
    Fewer(a, b - {x});
  }

  lemma OneMore(a: set<Sid>, b: set<Sid>, x: Sid)
    requires a <= b + {x}
    ensures |a| <= |b| + 1
  {
    Fewer(a, b + {x});
  }

  lemma Alone(a: set<Sid>, x: Sid, y: Sid)
    requires x in a && y in a && |a| <= 1
    ensures x == y
  {
    assert x != y ==> |{x, y}| == 2;
    Fewer({x, y}, a);
  }

  // An object that is not shared by count is not shared.
  lemma OwnLang(s: Store, roots: Roots, x: Sid, y: Sid, r: Ref)
    requires Inv(s, roots) && x in roots && y in roots && HasLang(s, roots[x], r) && HasLang(s, roots[y], r)
             && s.langs[r].cow == 0
    ensures x == y
  {
    Alone(LangUsers(s, roots, r), x, y);
  }

  lemma OwnVoice(s: Store, roots: Roots, x: Sid, y: Sid, v: Ref)
    requires Inv(s, roots) && x in roots && y in roots && HasVoice(s, roots[x], v) && HasVoice(s, roots[y], v)
             && s.voices[v].cow == 0
    ensures x == y
  {
    Alone(VoiceUsers(s, roots, v), x, y);
  }

  // What a session reaches is there.
  lemma Reached(s: Store, p: Ref, i: nat)
    requires Whole(s, p) && i < |s.cfgs[p].langs|
    ensures WholeLang(s, s.cfgs[p].langs[i], i) && HasLang(s, p, s.cfgs[p].langs[i])
    ensures forall j :: 0 <= j < |s.langs[s.cfgs[p].langs[i]].voices| ==>
            HasVoice(s, p, s.langs[s.cfgs[p].langs[i]].voices[j])
  {
    assert WholeLang(s, s.cfgs[p].langs[i], i);
  }

  // ---- reading the same ---------------------------------------------------------------

  // The voices of one language read as those of another.
  ghost predicate SameVoices(s: Store, a: Ref, t: Store, b: Ref) {
    && a in s.langs && b in t.langs && |s.langs[a].voices| == |t.langs[b].voices|
    && forall j :: 0 <= j < |s.langs[a].voices| ==>
         && s.langs[a].voices[j] in s.voices && t.langs[b].voices[j] in t.voices
         && t.voices[t.langs[b].voices[j]].home == s.voices[s.langs[a].voices[j]].home
         && t.voices[t.langs[b].voices[j]].opts == s.voices[s.langs[a].voices[j]].opts
  }

  ghost predicate SameLang(s: Store, a: Ref, t: Store, b: Ref) {
    && SameVoices(s, a, t, b) && s.langs[a].home == t.langs[b].home
    && s.langs[a].default == t.langs[b].default && s.langs[a].opts == t.langs[b].opts
  }

  ghost predicate SameCfg(s: Store, p: Ref, t: Store, q: Ref) {
    && p in s.cfgs && q in t.cfgs && |s.cfgs[p].langs| == |t.cfgs[q].langs|
    && s.cfgs[p].default == t.cfgs[q].default && s.cfgs[p].opts == t.cfgs[q].opts
    && forall i :: 0 <= i < |s.cfgs[p].langs| ==> SameLang(s, s.cfgs[p].langs[i], t, t.cfgs[q].langs[i])
  }

  lemma SameLangDeep(s: Store, a: Ref, t: Store, b: Ref, i: nat)
    requires WholeLang(s, a, i) && SameLang(s, a, t, b)
    ensures WholeLang(t, b, i) && DeepLang(t, b) == DeepLang(s, a)
  {
  }

  lemma SameDeep(s: Store, p: Ref, t: Store, q: Ref)
    requires Whole(s, p) && SameCfg(s, p, t, q)
    ensures Whole(t, q) && Deep(t, q) == Deep(s, p)
  {
    forall i | 0 <= i < |s.cfgs[p].langs|
      ensures WholeLang(t, t.cfgs[q].langs[i], i) && DeepLang(t, t.cfgs[q].langs[i]) == DeepLang(s, s.cfgs[p].langs[i])
    {
      assert WholeLang(s, s.cfgs[p].langs[i], i);
      assert SameLang(s, s.cfgs[p].langs[i], t, t.cfgs[q].langs[i]);
      SameLangDeep(s, s.cfgs[p].langs[i], t, t.cfgs[q].langs[i], i);
    }
  }

  // Every session reads what it read before.
  ghost predicate AllSame(s: Store, roots: Roots, t: Store, now: Roots) {
    now.Keys == roots.Keys && forall x :: x in roots ==> SameCfg(s, roots[x], t, now[x])
  }

  lemma AllSameWhole(s: Store, roots: Roots, t: Store, now: Roots)
    requires AllWhole(s, roots) && AllSame(s, roots, t, now)
    ensures AllWhole(t, now)
  {
    forall x | x in now ensures Whole(t, now[x]) {
      assert SameCfg(s, roots[x], t, now[x]); SameDeep(s, roots[x], t, now[x]);
    }
  }

  lemma AllSameDeep(s: Store, roots: Roots, t: Store, now: Roots)
    requires AllWhole(s, roots) && AllSame(s, roots, t, now)
    ensures forall x :: x in roots ==> Whole(s, roots[x]) && Whole(t, now[x]) && Deep(t, now[x]) == Deep(s, roots[x])
  {
    forall x | x in roots ensures Whole(s, roots[x]) && Whole(t, now[x]) && Deep(t, now[x]) == Deep(s, roots[x]) {
      assert SameCfg(s, roots[x], t, now[x]);
      SameDeep(s, roots[x], t, now[x]);
    }
  }

  // ---- the configuration object ------------------------------------------------------

  lemma CowCfgSame(s: Store, roots: Roots, x: Sid)
    requires Inv(s, roots) && x in roots
    ensures var (t, q) := CowCfg(s, roots[x]);
            AllSame(s, roots, t, roots[x := q])
  {
    var (t, q) := CowCfg(s, roots[x]);
    var now := roots[x := q];
    forall y | y in roots ensures SameCfg(s, roots[y], t, now[y]) {
      assert Whole(s, roots[y]);
      forall i | 0 <= i < |s.cfgs[roots[y]].langs|
        ensures SameLang(s, s.cfgs[roots[y]].langs[i], t, t.cfgs[now[y]].langs[i])
      {
        Reached(s, roots[y], i);
      }
    }
  }

  lemma CowCfgKeeps(s: Store, roots: Roots, x: Sid)
    requires Inv(s, roots) && x in roots
    ensures var (t, q) := CowCfg(s, roots[x]);
            && Inv(t, roots[x := q]) && q in t.cfgs && t.cfgs[q].cow == 0 && t.cfgs[q].langs == s.cfgs[roots[x]].langs
            && t.langs == s.langs && t.voices == s.voices && t.cfgs[q].default == s.cfgs[roots[x]].default
  {
    var p := roots[x];
    var (t, q) := CowCfg(s, p);
    var now := roots[x := q];
    CowCfgSame(s, roots, x);
    AllSameWhole(s, roots, t, now);
    CowCfgCounts(s, roots, x);
  }

  lemma CowCfgLangs(s: Store, roots: Roots, x: Sid)
    requires AllWhole(s, roots) && Distinct(roots) && Fresh(s) && LangCounts(s, roots) && x in roots
    ensures roots[x] in s.cfgs
    ensures var (t, q) := CowCfg(s, roots[x]); LangCounts(t, roots[x := q])
  {
    assert Whole(s, roots[x]);
    var (t, q) := CowCfg(s, roots[x]);
    var now := roots[x := q];
    forall y, r | y in roots ensures HasLang(t, now[y], r) <==> HasLang(s, roots[y], r) { assert Whole(s, roots[y]); }
    forall r | r in t.langs ensures |LangUsers(t, now, r)| <= t.langs[r].cow + 1 {
      assert LangUsers(t, now, r) == LangUsers(s, roots, r);
    }
  }

  lemma CowCfgVoices(s: Store, roots: Roots, x: Sid)
    requires AllWhole(s, roots) && Distinct(roots) && Fresh(s) && VoiceCounts(s, roots) && x in roots
    ensures roots[x] in s.cfgs
    ensures var (t, q) := CowCfg(s, roots[x]); VoiceCounts(t, roots[x := q])
  {
    assert Whole(s, roots[x]);
    var (t, q) := CowCfg(s, roots[x]);
    var now := roots[x := q];
    forall y, v | y in roots ensures HasVoice(t, now[y], v) <==> HasVoice(s, roots[y], v) { assert Whole(s, roots[y]); }
    forall v | v in t.voices ensures |VoiceUsers(t, now, v)| <= t.voices[v].cow + 1 {
      assert VoiceUsers(t, now, v) == VoiceUsers(s, roots, v);
    }
  }

  lemma CowCfgCounts(s: Store, roots: Roots, x: Sid)
    requires Inv(s, roots) && x in roots
    ensures roots[x] in s.cfgs
    ensures var (t, q) := CowCfg(s, roots[x]);
            LangCounts(t, roots[x := q]) && VoiceCounts(t, roots[x := q])
  {
    CowCfgLangs(s, roots, x);
    CowCfgVoices(s, roots, x);
  }

  // ---- a language ---------------------------------------------------------------------

  lemma CowLangSame(s: Store, roots: Roots, x: Sid, i: nat)
    requires Inv(s, roots) && x in roots && i < |s.cfgs[roots[x]].langs| && s.cfgs[roots[x]].langs[i] in s.langs
    ensures AllSame(s, roots, CowLang(s, roots[x], i), roots)
  {
    var t := CowLang(s, roots[x], i);
    forall y | y in roots ensures SameCfg(s, roots[y], t, roots[y]) {
      assert Whole(s, roots[y]);
      forall k | 0 <= k < |s.cfgs[roots[y]].langs|
        ensures SameLang(s, s.cfgs[roots[y]].langs[k], t, t.cfgs[roots[y]].langs[k])
      {
        Reached(s, roots[y], k);
      }
    }
  }

  // The users of a language after its copying for session x.
  lemma CowLangUsers(s: Store, roots: Roots, x: Sid, i: nat, r: Ref)
    requires Inv(s, roots) && x in roots && i < |s.cfgs[roots[x]].langs| && s.cfgs[roots[x]].langs[i] in s.langs
    requires r in CowLang(s, roots[x], i).langs
    ensures var t := CowLang(s, roots[x], i);
            |LangUsers(t, roots, r)| <= t.langs[r].cow + 1
  {
    var p := roots[x];
    var t := CowLang(s, p, i);
    var l := s.cfgs[p].langs[i];
    Reached(s, p, i);
    if s.langs[l].cow == 0 {
    } else if r == s.next {
      assert LangUsers(t, roots, r) <= {x};
      Fewer(LangUsers(t, roots, r), {x});
    } else if r == l {
      assert x in LangUsers(s, roots, r);
      assert LangUsers(t, roots, r) <= LangUsers(s, roots, r) - {x};
      OneFewer(LangUsers(t, roots, r), LangUsers(s, roots, r), x);
    } else {
      assert LangUsers(t, roots, r) <= LangUsers(s, roots, r);
      Fewer(LangUsers(t, roots, r), LangUsers(s, roots, r));
    }
  }

  lemma CowLangVoices(s: Store, roots: Roots, x: Sid, i: nat, v: Ref)
    requires Inv(s, roots) && x in roots && i < |s.cfgs[roots[x]].langs| && s.cfgs[roots[x]].langs[i] in s.langs
    requires v in s.voices
    ensures VoiceUsers(CowLang(s, roots[x], i), roots, v) <= VoiceUsers(s, roots, v)
  {
    var t := CowLang(s, roots[x], i);
    forall y | y in VoiceUsers(t, roots, v) ensures y in VoiceUsers(s, roots, v) {
      assert Whole(s, roots[y]);
      Reached(s, roots[y], s.voices[v].home.0);
    }
  }

  lemma CowLangFresh(s: Store, p: Ref, i: nat)
    requires Fresh(s) && p in s.cfgs && i < |s.cfgs[p].langs| && s.cfgs[p].langs[i] in s.langs
    ensures var t := CowLang(s, p, i);
            && Fresh(t) && p in t.cfgs && t.cfgs[p].cow == s.cfgs[p].cow && |t.cfgs[p].langs| == |s.cfgs[p].langs|
            && t.cfgs[p].langs[i] in t.langs && t.langs[t.cfgs[p].langs[i]].cow == 0 && t.voices == s.voices
  {
  }

  lemma CowLangKeeps(s: Store, roots: Roots, x: Sid, i: nat)
    requires Inv(s, roots) && x in roots && i < |s.cfgs[roots[x]].langs|
    ensures s.cfgs[roots[x]].langs[i] in s.langs && s.langs[s.cfgs[roots[x]].langs[i]].home == i
    ensures var t := CowLang(s, roots[x], i);
            && Inv(t, roots) && AllSame(s, roots, t, roots)
            && t.cfgs[roots[x]].langs[i] in t.langs && t.langs[t.cfgs[roots[x]].langs[i]].cow == 0
            && t.cfgs[roots[x]].cow == s.cfgs[roots[x]].cow
  {
    Reached(s, roots[x], i);
    var t := CowLang(s, roots[x], i);
    CowLangSame(s, roots, x, i);
    AllSameWhole(s, roots, t, roots);
    CowLangFresh(s, roots[x], i);
    forall r | r in t.langs ensures |LangUsers(t, roots, r)| <= t.langs[r].cow + 1 { CowLangUsers(s, roots, x, i, r); }
    forall v | v in t.voices ensures |VoiceUsers(t, roots, v)| <= t.voices[v].cow + 1 {
      CowLangVoices(s, roots, x, i, v);
      Fewer(VoiceUsers(t, roots, v), VoiceUsers(s, roots, v));
    }
  }

  // ---- a voice of a language that is one's own -------------------------------------------

  lemma CowVoiceLangSame(s: Store, r: Ref, j: nat, a: Ref, k: nat)
    requires Fresh(s) && WholeLang(s, a, k) && r in s.langs && j < |s.langs[r].voices|
             && s.langs[r].voices[j] in s.voices
    ensures SameLang(s, a, CowVoice(s, r, j), a)
  {
  }

  lemma CowVoiceSame(s: Store, roots: Roots, r: Ref, j: nat)
    requires AllWhole(s, roots) && Fresh(s) && r in s.langs && j < |s.langs[r].voices|
             && s.langs[r].voices[j] in s.voices
    ensures AllSame(s, roots, CowVoice(s, r, j), roots)
  {
    var t := CowVoice(s, r, j);
    assert t.cfgs == s.cfgs;
    forall y | y in roots ensures SameCfg(s, roots[y], t, roots[y]) {
      assert Whole(s, roots[y]);
      forall k | 0 <= k < |s.cfgs[roots[y]].langs|
        ensures SameLang(s, s.cfgs[roots[y]].langs[k], t, s.cfgs[roots[y]].langs[k])
      {
        assert WholeLang(s, s.cfgs[roots[y]].langs[k], k);
        CowVoiceLangSame(s, r, j, s.cfgs[roots[y]].langs[k], k);
      }
    }
  }

  // Its users: session x has a copy now, so it is no longer one of them.
  lemma CowVoiceUsers(s: Store, roots: Roots, x: Sid, i: nat, j: nat, v: Ref)
    requires Inv(s, roots) && x in roots && i < |s.cfgs[roots[x]].langs|
             && HasLang(s, roots[x], s.cfgs[roots[x]].langs[i])
    requires var r := s.cfgs[roots[x]].langs[i];
             s.langs[r].cow == 0 && j < |s.langs[r].voices| && s.langs[r].voices[j] in s.voices
    requires v in CowVoice(s, s.cfgs[roots[x]].langs[i], j).voices
    ensures var t := CowVoice(s, s.cfgs[roots[x]].langs[i], j);
            |VoiceUsers(t, roots, v)| <= t.voices[v].cow + 1
  {
    var r := s.cfgs[roots[x]].langs[i];
    var w := s.langs[r].voices[j];
    if s.voices[w].cow == 0 {
    } else if v == s.next {
      CopyUsers(s, roots, x, i, j);
    } else {
      RestUsers(s, roots, x, i, j, v);
    }
  }

  // The copy is session x's alone: so is the language that holds it.
  lemma CopyUsers(s: Store, roots: Roots, x: Sid, i: nat, j: nat)
    requires Inv(s, roots) && x in roots && i < |s.cfgs[roots[x]].langs|
             && HasLang(s, roots[x], s.cfgs[roots[x]].langs[i])
    requires var r := s.cfgs[roots[x]].langs[i];
             && s.langs[r].cow == 0 && j < |s.langs[r].voices| && s.langs[r].voices[j] in s.voices
             && s.voices[s.langs[r].voices[j]].cow > 0
    ensures |VoiceUsers(CowVoice(s, s.cfgs[roots[x]].langs[i], j), roots, s.next)| <= 1
  {
    var r := s.cfgs[roots[x]].langs[i];
    var t := CowVoice(s, r, j);
    Reached(s, roots[x], i);
    forall y | y in VoiceUsers(t, roots, s.next) ensures y == x {
      assert Whole(s, roots[y]);
      Reached(s, roots[y], i);
      OwnLang(s, roots, x, y, r);
    }
    assert VoiceUsers(t, roots, s.next) <= {x};
    Fewer(VoiceUsers(t, roots, s.next), {x});
  }

  // The voice copied loses session x; no other one gains a session.
  lemma RestUsers(s: Store, roots: Roots, x: Sid, i: nat, j: nat, v: Ref)
    requires Inv(s, roots) && x in roots && i < |s.cfgs[roots[x]].langs|
             && HasLang(s, roots[x], s.cfgs[roots[x]].langs[i])
    requires var r := s.cfgs[roots[x]].langs[i];
             && s.langs[r].cow == 0 && j < |s.langs[r].voices| && s.langs[r].voices[j] in s.voices
             && s.voices[s.langs[r].voices[j]].cow > 0
    requires v in s.voices
    ensures var t := CowVoice(s, s.cfgs[roots[x]].langs[i], j);
            v in t.voices && |VoiceUsers(t, roots, v)| <= t.voices[v].cow + 1
  {
    var r := s.cfgs[roots[x]].langs[i];
    var t := CowVoice(s, r, j);
    var w := s.langs[r].voices[j];
    Reached(s, roots[x], i);
    forall y | y in VoiceUsers(t, roots, v) ensures y in VoiceUsers(s, roots, v) && (v == w ==> y != x) {
      assert Whole(s, roots[y]);
      Reached(s, roots[y], s.voices[v].home.0);
    }
    if v == w {
      assert x in VoiceUsers(s, roots, v);
      OneFewer(VoiceUsers(t, roots, v), VoiceUsers(s, roots, v), x);
    } else {
      Fewer(VoiceUsers(t, roots, v), VoiceUsers(s, roots, v));
    }
  }

  lemma CowVoiceLangs(s: Store, roots: Roots, r: Ref, j: nat)
    requires AllWhole(s, roots) && LangCounts(s, roots) && r in s.langs && j < |s.langs[r].voices|
             && s.langs[r].voices[j] in s.voices
    ensures LangCounts(CowVoice(s, r, j), roots)
  {
    var t := CowVoice(s, r, j);
    forall l | l in t.langs ensures |LangUsers(t, roots, l)| <= t.langs[l].cow + 1 {
      assert LangUsers(t, roots, l) == LangUsers(s, roots, l);
    }
  }

  lemma CowVoiceKeeps(s: Store, roots: Roots, x: Sid, i: nat, j: nat)
    requires Inv(s, roots) && x in roots && i < |s.cfgs[roots[x]].langs|
             && HasLang(s, roots[x], s.cfgs[roots[x]].langs[i])
    requires s.langs[s.cfgs[roots[x]].langs[i]].cow == 0 && j < |s.langs[s.cfgs[roots[x]].langs[i]].voices|
    ensures s.langs[s.cfgs[roots[x]].langs[i]].voices[j] in s.voices
    ensures var r := s.cfgs[roots[x]].langs[i];
            var t := CowVoice(s, r, j);
            && Inv(t, roots) && AllSame(s, roots, t, roots) && t.cfgs == s.cfgs && r in t.langs && t.langs[r].cow == 0
            && j < |t.langs[r].voices| && t.langs[r].voices[j] in t.voices && t.voices[t.langs[r].voices[j]].cow == 0
  {
    var r := s.cfgs[roots[x]].langs[i];
    Reached(s, roots[x], i);
    var t := CowVoice(s, r, j);
    CowVoiceSame(s, roots, r, j);
    AllSameWhole(s, roots, t, roots);
    CowVoiceLangs(s, roots, r, j);
    CowVoiceFresh(s, r, j);
    forall v | v in t.voices ensures |VoiceUsers(t, roots, v)| <= t.voices[v].cow + 1 {
      CowVoiceUsers(s, roots, x, i, j, v);
    }
  }

  lemma CowVoiceFresh(s: Store, r: Ref, j: nat)
    requires Fresh(s) && r in s.langs && j < |s.langs[r].voices| && s.langs[r].voices[j] in s.voices
    ensures var t := CowVoice(s, r, j);
            && Fresh(t) && t.cfgs == s.cfgs && r in t.langs && t.langs[r].cow == s.langs[r].cow
            && |t.langs[r].voices| == |s.langs[r].voices|
            && t.langs[r].voices[j] in t.voices && t.voices[t.langs[r].voices[j]].cow == 0
  {
  }
}
