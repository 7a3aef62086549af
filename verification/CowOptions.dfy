// Setting an option in one session: it reads the new value, and no other session reads
// anything else than before.
module CowOptions {
  import opened CowStore
  import opened CowSessions

  // All sessions but x read what they read before.
  ghost predicate OthersSame(s: Store, roots: Roots, t: Store, now: Roots, x: Sid) {
    now.Keys == roots.Keys && forall y :: y in roots && y != x ==> SameCfg(s, roots[y], t, now[y])
  }

  // The lists of objects and the counts stay.
  ghost predicate SameShape(s: Store, t: Store) {
    && s.next == t.next && s.cfgs.Keys == t.cfgs.Keys && s.langs.Keys == t.langs.Keys && s.voices.Keys == t.voices.Keys
    && (forall p :: p in s.cfgs ==> t.cfgs[p].langs == s.cfgs[p].langs && t.cfgs[p].cow == s.cfgs[p].cow)
    && (forall r :: r in s.langs ==>
          t.langs[r].voices == s.langs[r].voices && t.langs[r].cow == s.langs[r].cow
          && t.langs[r].home == s.langs[r].home)
    && (forall v :: v in s.voices ==> t.voices[v].cow == s.voices[v].cow && t.voices[v].home == s.voices[v].home)
  }

  lemma ShapeWhole(s: Store, t: Store, p: Ref)
    requires SameShape(s, t) && Whole(s, p)
    ensures Whole(t, p)
  {
    forall i | 0 <= i < |t.cfgs[p].langs| ensures WholeLang(t, t.cfgs[p].langs[i], i) {
      assert WholeLang(s, s.cfgs[p].langs[i], i);
    }
  }

  lemma ShapeKeeps(s: Store, t: Store, roots: Roots)
    requires SameShape(s, t) && Inv(s, roots)
    ensures Inv(t, roots)
  {
    forall x | x in roots ensures Whole(t, roots[x]) { ShapeWhole(s, t, roots[x]); }
    ShapeCounts(s, t, roots);
  }

  lemma ShapeCounts(s: Store, t: Store, roots: Roots)
    requires SameShape(s, t) && LangCounts(s, roots) && VoiceCounts(s, roots)
    ensures LangCounts(t, roots) && VoiceCounts(t, roots)
  {
    forall r | r in t.langs ensures |LangUsers(t, roots, r)| <= t.langs[r].cow + 1 { ShapeLang(s, t, roots, r); }
    forall v | v in t.voices ensures |VoiceUsers(t, roots, v)| <= t.voices[v].cow + 1 { ShapeVoice(s, t, roots, v); }
  }

  lemma ShapeLang(s: Store, t: Store, roots: Roots, r: Ref)
    requires SameShape(s, t) && r in s.langs
    ensures LangUsers(t, roots, r) == LangUsers(s, roots, r) && t.langs[r].cow == s.langs[r].cow
  {
    forall x | x in roots ensures HasLang(t, roots[x], r) <==> HasLang(s, roots[x], r) {}
  }

  lemma ShapeVoice(s: Store, t: Store, roots: Roots, v: Ref)
    requires SameShape(s, t) && v in s.voices
    ensures VoiceUsers(t, roots, v) == VoiceUsers(s, roots, v) && t.voices[v].cow == s.voices[v].cow
  {
    forall x | x in roots ensures HasVoice(t, roots[x], v) <==> HasVoice(s, roots[x], v) {}
  }

  lemma NoneSame(s: Store, p: Ref)
    requires Whole(s, p)
    ensures SameCfg(s, p, s, p)
  {
    forall i | 0 <= i < |s.cfgs[p].langs| ensures SameLang(s, s.cfgs[p].langs[i], s, s.cfgs[p].langs[i]) {
      assert WholeLang(s, s.cfgs[p].langs[i], i);
    }
  }

  // ---- the three kinds ------------------------------------------------------------------

  lemma PutCfgOthers(s: Store, roots: Roots, x: Sid, ch: Change)
    requires Inv(s, roots) && x in roots && forall i :: 0 <= i < |s.cfgs[roots[x]].langs| ==>
             s.cfgs[roots[x]].langs[i] in s.langs
    ensures OthersSame(s, roots, PutCfg(s, roots[x], ch), roots, x) && SameShape(s, PutCfg(s, roots[x], ch))
  {
    var t := PutCfg(s, roots[x], ch);
    forall y | y in roots && y != x ensures SameCfg(s, roots[y], t, roots[y]) { NoneSame(s, roots[y]); }
  }

  lemma PutLangShape(s: Store, r: Ref, ch: Change)
    requires r in s.langs
    ensures SameShape(s, PutLang(s, r, ch))
    ensures forall a :: a in s.langs && a != r ==> PutLang(s, r, ch).langs[a] == s.langs[a]
  {
  }

  lemma PutLangOthers(s: Store, roots: Roots, x: Sid, r: Ref, ch: Change)
    requires Inv(s, roots) && x in roots && HasLang(s, roots[x], r) && s.langs[r].cow == 0
    ensures OthersSame(s, roots, PutLang(s, r, ch), roots, x)
  {
    var t := PutLang(s, r, ch);
    PutLangShape(s, r, ch);
    forall y | y in roots && y != x ensures SameCfg(s, roots[y], t, roots[y]) {
      assert Whole(s, roots[y]);
      forall i | 0 <= i < |s.cfgs[roots[y]].langs|
        ensures SameLang(s, s.cfgs[roots[y]].langs[i], t, s.cfgs[roots[y]].langs[i])
      {
        Reached(s, roots[y], i);
        if s.cfgs[roots[y]].langs[i] == r { OwnLang(s, roots, x, y, r); }
      }
    }
  }

  lemma PutVoiceOthers(s: Store, roots: Roots, x: Sid, v: Ref, ch: Change)
    requires Inv(s, roots) && x in roots && HasVoice(s, roots[x], v) && s.voices[v].cow == 0
    ensures OthersSame(s, roots, PutVoice(s, v, ch), roots, x) && SameShape(s, PutVoice(s, v, ch))
  {
    var t := PutVoice(s, v, ch);
    forall y | y in roots && y != x ensures SameCfg(s, roots[y], t, roots[y]) {
      NoneSame(s, roots[y]);
      forall i | 0 <= i < |s.cfgs[roots[y]].langs| ensures v !in s.langs[s.cfgs[roots[y]].langs[i]].voices {
        Reached(s, roots[y], i);
        if v in s.langs[s.cfgs[roots[y]].langs[i]].voices { OwnVoice(s, roots, x, y, v); }
      }
    }
  }

  // ---- what the session itself reads ---------------------------------------------------------

  lemma PutCfgTree(s: Store, p: Ref, ch: Change)
    requires Whole(s, p) && forall i :: 0 <= i < |s.cfgs[p].langs| ==> s.cfgs[p].langs[i] in s.langs
    ensures Whole(PutCfg(s, p, ch), p) && Deep(PutCfg(s, p, ch), p) == SetTree(Deep(s, p), OfConfig, ch)
  {
    var t := PutCfg(s, p, ch);
    forall i | 0 <= i < |s.cfgs[p].langs|
      ensures WholeLang(t, t.cfgs[p].langs[i], i) && DeepLang(t, t.cfgs[p].langs[i]) == DeepLang(s, s.cfgs[p].langs[i])
    {
      assert WholeLang(s, s.cfgs[p].langs[i], i);
    }
    assert Deep(t, p).langs == Deep(s, p).langs;
    if ch.Pick? && ch.k < |s.cfgs[p].langs| {
      assert WholeLang(s, s.cfgs[p].langs[ch.k], ch.k);
      assert |Deep(s, p).langs[ch.k].voices| == |s.langs[s.cfgs[p].langs[ch.k]].voices|;
    }
  }

  // The other languages of the session are other objects.
  lemma OtherPlace(s: Store, p: Ref, i: nat, k: nat)
    requires Whole(s, p) && i < |s.cfgs[p].langs| && k < |s.cfgs[p].langs| && i != k
    ensures s.cfgs[p].langs[i] != s.cfgs[p].langs[k]
    ensures forall a, b ::
              0 <= a < |s.langs[s.cfgs[p].langs[i]].voices| && 0 <= b < |s.langs[s.cfgs[p].langs[k]].voices| ==>
              s.langs[s.cfgs[p].langs[i]].voices[a] != s.langs[s.cfgs[p].langs[k]].voices[b]
  {
    assert WholeLang(s, s.cfgs[p].langs[i], i) && WholeLang(s, s.cfgs[p].langs[k], k);
  }

  // One language of a configuration reads otherwise, the rest as before.
  lemma TreeAt(s: Store, t: Store, p: Ref, i: nat, l: LangTree)
    requires Whole(s, p) && Whole(t, p) && t.cfgs[p] == s.cfgs[p] && i < |s.cfgs[p].langs|
    requires forall k :: 0 <= k < |s.cfgs[p].langs| && k != i ==> SameLang(s, s.cfgs[p].langs[k], t, t.cfgs[p].langs[k])
    requires WholeLang(t, t.cfgs[p].langs[i], i) && DeepLang(t, t.cfgs[p].langs[i]) == l
    ensures Deep(t, p) == Deep(s, p).(langs := Deep(s, p).langs[i := l])
  {
    var a, b := Deep(t, p).langs, Deep(s, p).langs[i := l];
    assert |a| == |b|;
    forall k | 0 <= k < |a| ensures a[k] == b[k] {
      if k != i {
        assert WholeLang(s, s.cfgs[p].langs[k], k);
        SameLangDeep(s, s.cfgs[p].langs[k], t, t.cfgs[p].langs[k], k);
      }
    }
    assert a == b;
  }

  lemma PutLangTree(s: Store, p: Ref, i: nat, ch: Change)
    requires Whole(s, p) && i < |s.cfgs[p].langs| && s.cfgs[p].langs[i] in s.langs && s.cfgs[p].default == i
    ensures var t := PutLang(s, s.cfgs[p].langs[i], ch);
            Whole(t, p) && Deep(t, p) == SetTree(Deep(s, p), OfLang, ch)
  {
    var r := s.cfgs[p].langs[i];
    var t := PutLang(s, r, ch);
    assert SameShape(s, t);
    ShapeWhole(s, t, p);
    forall k | 0 <= k < |s.cfgs[p].langs| && k != i ensures SameLang(s, s.cfgs[p].langs[k], t, t.cfgs[p].langs[k]) {
      assert WholeLang(s, s.cfgs[p].langs[k], k);
      OtherPlace(s, p, i, k);
    }
    assert WholeLang(s, r, i) && WholeLang(t, r, i);
    TreeAt(s, t, p, i, DeepLang(t, r));
    assert DeepLang(t, r).voices == DeepLang(s, r).voices;
  }

  lemma PutVoiceTree(s: Store, p: Ref, i: nat, j: nat, ch: Change)
    requires Whole(s, p) && i < |s.cfgs[p].langs| && s.cfgs[p].langs[i] in s.langs && s.cfgs[p].default == i
    requires var l := s.langs[s.cfgs[p].langs[i]]; j < |l.voices| && l.voices[j] in s.voices && l.default == j
    ensures var t := PutVoice(s, s.langs[s.cfgs[p].langs[i]].voices[j], ch);
            Whole(t, p) && Deep(t, p) == SetTree(Deep(s, p), OfVoice, ch)
  {
    var r := s.cfgs[p].langs[i];
    var v := s.langs[r].voices[j];
    var t := PutVoice(s, v, ch);
    assert SameShape(s, t);
    ShapeWhole(s, t, p);
    assert WholeLang(s, r, i) && WholeLang(t, r, i);
    forall k | 0 <= k < |s.cfgs[p].langs| && k != i ensures SameLang(s, s.cfgs[p].langs[k], t, t.cfgs[p].langs[k]) {
      assert WholeLang(s, s.cfgs[p].langs[k], k);
      OtherPlace(s, p, i, k);
    }
    TreeAt(s, t, p, i, DeepLang(t, r));
    var a, b := DeepLang(t, r).voices, DeepLang(s, r).voices;
    forall k | 0 <= k < |a| ensures a[k] == if k == j then t.voices[v].opts else b[k] {}
    assert a == b[j := t.voices[v].opts];
    if ch.Pick? { assert Deep(s, p).langs[i := Deep(s, p).langs[i]] == Deep(s, p).langs; }
  }

  // ---- all of it ------------------------------------------------------------------------------

  // The option n has the value v in the configuration, in its current language, or in that language's current
  // voice; nothing else is different.
  ghost predicate OptionSet(was: Tree, t: Tree, kind: Kind, n: int, v: int) {
    match kind
    case OfConfig => t == was.(opts := was.opts[n := v])
    case OfLang =>
      && t == was.(langs := t.langs) && |t.langs| == |was.langs|
      && forall i :: 0 <= i < |was.langs| ==>
           t.langs[i] == if i == was.default then was.langs[i].(opts := was.langs[i].opts[n := v]) else was.langs[i]
    case OfVoice =>
      && t == was.(langs := t.langs) && |t.langs| == |was.langs|
      && forall i :: 0 <= i < |was.langs| ==> VoiceSet(was.langs[i], t.langs[i], i == was.default, n, v)
  }

  ghost predicate VoiceSet(was: LangTree, l: LangTree, here: bool, n: int, v: int) {
    && l == was.(voices := l.voices) && |l.voices| == |was.voices|
    && forall j :: 0 <= j < |was.voices| ==>
         l.voices[j] == if here && j == was.default then was.voices[j][n := v] else was.voices[j]
  }

  lemma SetTreeIs(was: Tree, kind: Kind, n: int, v: int)
    requires HasThis(was, kind)
    ensures OptionSet(was, SetTree(was, kind, Option(n, v)), kind, n, v)
  {
  }

  // What one session reads changes from one tree to another; nothing else is read differently.
  ghost predicate Sets(s: Store, roots: Roots, t: Store, now: Roots, x: Sid, was: Tree, tree: Tree) {
    && Inv(t, now) && now.Keys == roots.Keys && x in roots && Whole(s, roots[x]) && Deep(s, roots[x]) == was
    && Deep(t, now[x]) == tree
    && forall y :: y in roots && y != x ==> Whole(s, roots[y]) && Deep(t, now[y]) == Deep(s, roots[y])
  }

  lemma SameSets(s: Store, roots: Roots, t: Store, now: Roots, x: Sid)
    requires Inv(s, roots) && Inv(t, now) && x in roots && AllSame(s, roots, t, now)
    ensures Whole(s, roots[x]) && Sets(s, roots, t, now, x, Deep(s, roots[x]), Deep(s, roots[x]))
  {
    AllSameDeep(s, roots, t, now);
  }

  lemma OthersSets(s: Store, roots: Roots, t: Store, x: Sid, tree: Tree)
    requires Inv(s, roots) && Inv(t, roots) && x in roots && OthersSame(s, roots, t, roots, x) && Whole(t, roots[x])
             && Deep(t, roots[x]) == tree
    ensures Whole(s, roots[x]) && Sets(s, roots, t, roots, x, Deep(s, roots[x]), tree)
  {
    forall y | y in roots && y != x ensures Deep(t, roots[y]) == Deep(s, roots[y]) {
      assert SameCfg(s, roots[y], t, roots[y]);
      SameDeep(s, roots[y], t, roots[y]);
    }
  }

  // The change itself, on objects that are the session's own.
  lemma PutCfgSets(s: Store, roots: Roots, x: Sid, ch: Change)
    requires Inv(s, roots) && x in roots && Whole(s, roots[x])
    ensures forall i :: 0 <= i < |s.cfgs[roots[x]].langs| ==> s.cfgs[roots[x]].langs[i] in s.langs
    ensures Sets(s, roots, PutCfg(s, roots[x], ch), roots, x, Deep(s, roots[x]),
                 SetTree(Deep(s, roots[x]), OfConfig, ch))
  {
    var p := roots[x];
    forall i | 0 <= i < |s.cfgs[p].langs| ensures s.cfgs[p].langs[i] in s.langs { Reached(s, p, i); }
    var t := PutCfg(s, p, ch);
    PutCfgOthers(s, roots, x, ch);
    ShapeKeeps(s, t, roots);
    PutCfgTree(s, p, ch);
    OthersSets(s, roots, t, x, SetTree(Deep(s, p), OfConfig, ch));
  }

  lemma PutLangSets(s: Store, roots: Roots, x: Sid, i: nat, ch: Change)
    requires Inv(s, roots) && x in roots && Whole(s, roots[x]) && i < |s.cfgs[roots[x]].langs|
             && s.cfgs[roots[x]].default == i
    requires s.cfgs[roots[x]].langs[i] in s.langs && s.langs[s.cfgs[roots[x]].langs[i]].cow == 0
    ensures Sets(s, roots, PutLang(s, s.cfgs[roots[x]].langs[i], ch), roots, x, Deep(s, roots[x]),
                 SetTree(Deep(s, roots[x]), OfLang, ch))
  {
    var p := roots[x];
    var r := s.cfgs[p].langs[i];
    var t := PutLang(s, r, ch);
    Reached(s, p, i);
    PutLangShape(s, r, ch);
    PutLangOthers(s, roots, x, r, ch);
    ShapeKeeps(s, t, roots);
    PutLangTree(s, p, i, ch);
    OthersSets(s, roots, t, x, SetTree(Deep(s, p), OfLang, ch));
  }

  lemma PutVoiceSets(s: Store, roots: Roots, x: Sid, i: nat, j: nat, ch: Change)
    requires Inv(s, roots) && x in roots && Whole(s, roots[x]) && i < |s.cfgs[roots[x]].langs|
             && s.cfgs[roots[x]].default == i
    requires s.cfgs[roots[x]].langs[i] in s.langs
    requires var l := s.langs[s.cfgs[roots[x]].langs[i]];
             j < |l.voices| && l.voices[j] in s.voices && l.default == j && s.voices[l.voices[j]].cow == 0
    ensures HasThis(Deep(s, roots[x]), OfVoice)
    ensures var v := s.langs[s.cfgs[roots[x]].langs[i]].voices[j];
            Sets(s, roots, PutVoice(s, v, ch), roots, x, Deep(s, roots[x]), SetTree(Deep(s, roots[x]), OfVoice, ch))
  {
    var p := roots[x];
    var v := s.langs[s.cfgs[p].langs[i]].voices[j];
    var t := PutVoice(s, v, ch);
    Reached(s, p, i);
    PutVoiceOthers(s, roots, x, v, ch);
    ShapeKeeps(s, t, roots);
    PutVoiceTree(s, p, i, j, ch);
    OthersSets(s, roots, t, x, SetTree(Deep(s, p), OfVoice, ch));
  }
}
