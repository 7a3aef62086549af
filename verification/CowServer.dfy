// The server's contexts (src/daemon.cc) over the shared configuration objects (src/options.cc).
module CowServer {
  import opened CowStore
  import opened CowSessions
  import opened CowOptions
  import opened CowLife

  // ---- the loops of cow_claim and cow_unclaim, part of the way ---------------------------

  predicate Before(home: (nat, nat), i: nat, j: nat) { home.0 < i || (home.0 == i && home.1 < j) }

  ghost function LangsUpTo(s: Store, p: Ref, i: nat): map<Ref, Lang> {
    map r | r in s.langs ::
      if HasLang(s, p, r) && s.langs[r].home < i then s.langs[r].(cow := s.langs[r].cow + 1) else s.langs[r]
  }

  ghost function VoicesUpTo(s: Store, p: Ref, i: nat, j: nat): map<Ref, Voice> {
    map v | v in s.voices ::
      if HasVoice(s, p, v) && Before(s.voices[v].home, i, j) then s.voices[v].(cow := s.voices[v].cow + 1)
      else s.voices[v]
  }

  ghost function LangsLeft(s: Store, p: Ref, i: nat): map<Ref, Lang> {
    map r | r in s.langs && !(HasLang(s, p, r) && s.langs[r].home < i && s.langs[r].cow == 0) ::
      if HasLang(s, p, r) && s.langs[r].home < i then s.langs[r].(cow := s.langs[r].cow - 1) else s.langs[r]
  }

  ghost function VoicesLeft(s: Store, p: Ref, i: nat, j: nat): map<Ref, Voice> {
    map v | v in s.voices && !(HasVoice(s, p, v) && Before(s.voices[v].home, i, j) && s.voices[v].cow == 0) ::
      if HasVoice(s, p, v) && Before(s.voices[v].home, i, j) then s.voices[v].(cow := s.voices[v].cow - 1)
      else s.voices[v]
  }

  lemma LangStep(s: Store, p: Ref, i: nat)
    requires Whole(s, p) && i < |s.cfgs[p].langs|
    ensures var r := s.cfgs[p].langs[i];
            && r in s.langs && r in LangsUpTo(s, p, i) && LangsUpTo(s, p, i)[r] == s.langs[r]
            && LangsUpTo(s, p, i)[r := s.langs[r].(cow := s.langs[r].cow + 1)] == LangsUpTo(s, p, i + 1)
  {
    Reached(s, p, i);
  }

  lemma LangLess(s: Store, p: Ref, i: nat)
    requires Whole(s, p) && i < |s.cfgs[p].langs|
    ensures var r := s.cfgs[p].langs[i];
            && r in s.langs && r in LangsLeft(s, p, i) && LangsLeft(s, p, i)[r] == s.langs[r]
            && LangsLeft(s, p, i + 1) == (if s.langs[r].cow == 0 then LangsLeft(s, p, i) - {r}
                                          else LangsLeft(s, p, i)[r := s.langs[r].(cow := s.langs[r].cow - 1)])
  {
    Reached(s, p, i);
  }

  lemma VoiceStep(s: Store, p: Ref, i: nat, j: nat)
    requires Whole(s, p) && i < |s.cfgs[p].langs| && s.cfgs[p].langs[i] in s.langs
             && j < |s.langs[s.cfgs[p].langs[i]].voices|
    ensures var v := s.langs[s.cfgs[p].langs[i]].voices[j];
            && v in s.voices && v in VoicesUpTo(s, p, i, j) && VoicesUpTo(s, p, i, j)[v] == s.voices[v]
            && VoicesUpTo(s, p, i, j)[v := s.voices[v].(cow := s.voices[v].cow + 1)] == VoicesUpTo(s, p, i, j + 1)
  {
    Reached(s, p, i);
  }

  lemma VoiceLess(s: Store, p: Ref, i: nat, j: nat)
    requires Whole(s, p) && i < |s.cfgs[p].langs| && s.cfgs[p].langs[i] in s.langs
             && j < |s.langs[s.cfgs[p].langs[i]].voices|
    ensures var v := s.langs[s.cfgs[p].langs[i]].voices[j];
            && v in s.voices && v in VoicesLeft(s, p, i, j) && VoicesLeft(s, p, i, j)[v] == s.voices[v]
            && VoicesLeft(s, p, i, j + 1) == (
                 if s.voices[v].cow == 0 then VoicesLeft(s, p, i, j) - {v}
                 else VoicesLeft(s, p, i, j)[v := s.voices[v].(cow := s.voices[v].cow - 1)])
  {
    Reached(s, p, i);
  }

  lemma NextLang(s: Store, p: Ref, i: nat)
    requires Whole(s, p) && i < |s.cfgs[p].langs| && s.cfgs[p].langs[i] in s.langs
    ensures VoicesUpTo(s, p, i, |s.langs[s.cfgs[p].langs[i]].voices|) == VoicesUpTo(s, p, i + 1, 0)
    ensures VoicesLeft(s, p, i, |s.langs[s.cfgs[p].langs[i]].voices|) == VoicesLeft(s, p, i + 1, 0)
  {
  }

  lemma NoLangs(s: Store, p: Ref)
    ensures LangsUpTo(s, p, 0) == s.langs && LangsLeft(s, p, 0) == s.langs
  {
  }

  lemma NoVoices(s: Store, p: Ref)
    ensures VoicesUpTo(s, p, 0, 0) == s.voices && VoicesLeft(s, p, 0, 0) == s.voices
  {
  }

  lemma AllClaimed(s: Store, p: Ref)
    requires p in s.cfgs
    ensures LangsUpTo(s, p, |s.cfgs[p].langs|) == Claim(s, p).langs
    ensures VoicesUpTo(s, p, |s.cfgs[p].langs|, 0) == Claim(s, p).voices
  {
  }

  lemma AllUnclaimed(s: Store, p: Ref)
    requires p in s.cfgs
    ensures LangsLeft(s, p, |s.cfgs[p].langs|) == Unclaim(s, p).langs
    ensures VoicesLeft(s, p, |s.cfgs[p].langs|, 0) == Unclaim(s, p).voices
  {
  }

  // Asked of a number to unfold how far a loop has come.
  predicate Peek(i: nat) { true }

  // The first i languages of p, and their voices, are claimed.
  ghost predicate Claiming(s: Store, p: Ref, i: nat, langs: map<Ref, Lang>, voices: map<Ref, Voice>) {
    forall n: nat {:trigger Peek(n)} :: Peek(n) && n == i ==>
      langs == LangsUpTo(s, p, n) && voices == VoicesUpTo(s, p, n, 0)
  }

  ghost predicate Unclaiming(s: Store, p: Ref, i: nat, langs: map<Ref, Lang>, voices: map<Ref, Voice>) {
    forall n: nat {:trigger Peek(n)} :: Peek(n) && n == i ==>
      langs == LangsLeft(s, p, n) && voices == VoicesLeft(s, p, n, 0)
  }

  lemma ClaimBegins(s: Store, p: Ref)
    ensures Claiming(s, p, 0, s.langs, s.voices) && Unclaiming(s, p, 0, s.langs, s.voices)
  {
    NoLangs(s, p);
    NoVoices(s, p);
  }

  lemma ClaimEnds(s: Store, p: Ref, langs: map<Ref, Lang>, voices: map<Ref, Voice>)
    requires p in s.cfgs
    ensures Claiming(s, p, |s.cfgs[p].langs|, langs, voices) ==>
              langs == Claim(s, p).langs && voices == Claim(s, p).voices
    ensures Unclaiming(s, p, |s.cfgs[p].langs|, langs, voices) ==>
              langs == Unclaim(s, p).langs && voices == Unclaim(s, p).voices
  {
    assert Peek(|s.cfgs[p].langs|);
    AllClaimed(s, p);
    AllUnclaimed(s, p);
  }

  class Server {
    var cfgs: map<Ref, Config>
    var langs: map<Ref, Lang>
    var voices: map<Ref, Voice>
    var next: Ref
    var config: map<Sid, Ref>   // what each context saved when it was left
    var cfg: Ref                // what the context in use reads and writes
    var current: Sid
    const master: Sid

    ghost function Heap(): Store
      reads this
    {
      Store(cfgs, langs, voices, next)
    }

    // The configuration object of every session.
    ghost function Used(): Roots
      reads this
    {
      config[current := cfg]
    }

    ghost predicate Valid()
      reads this
    {
      current in config && master in config && Inv(Heap(), Used())
    }

    // What a session reads.
    ghost function Reads(x: Sid): Tree
      reads this
      requires Valid() && x in config
    {
      assert Whole(Heap(), Used()[x]);
      Deep(Heap(), Used()[x])
    }

    // The master context, on the configuration p read in at the start.
    constructor (s: Store, p: Ref, m: Sid)
      requires Fresh(s) && Whole(s, p)
      ensures master == m && current == m && config == map[m := p] && cfg == p && Heap() == Claim(s, p)
    {
      cfgs, langs, voices, next := s.cfgs, s.langs, s.voices, s.next;
      config, cfg, current, master := map[m := p], p, m, m;
      new;
      assert Heap() == s;
      CowClaim();
    }

    // That is a valid state, in which the master context reads what was read in.
    lemma Started(s: Store, p: Ref, m: Sid)
      requires Fresh(s) && Whole(s, p) && master == m && current == m && config == map[m := p] && cfg == p
               && Heap() == Claim(s, p)
      ensures Valid()
    {
      FirstHolds(s, p, m);
      assert Used() == map[m := p];
    }

    lemma StartedReads(s: Store, p: Ref, m: Sid)
      requires Fresh(s) && Whole(s, p) && master == m && current == m && config == map[m := p] && cfg == p
               && Heap() == Claim(s, p)
      requires Valid()
      ensures Reads(m) == Deep(s, p)
    {
      FirstSession(s, p, m);
    }

    // ---- context switches -----------------------------------------------------------------

    method Enter(x: Sid)
      requires Valid() && current == master && x in config
      modifies `config, `cfg, `current
      ensures Valid() && Used() == old(Used()) && current == x
    {
      config := config[master := cfg];
      cfg := config[x];
      current := x;
      assert Used() == old(Used());
    }

    method Leave()
      requires Valid()
      modifies `config, `cfg, `current
      ensures Valid() && Used() == old(Used()) && current == master
    {
      config := config[current := cfg];
      cfg := config[master];
      current := master;
      assert Used() == old(Used());
    }

    // ---- setting an option ------------------------------------------------------------------

    // cow_configuration, for a variable that holds p
    method CowConfiguration(p: Ref) returns (q: Ref)
      requires p in cfgs
      modifies `cfgs, `next
      ensures (Heap(), q) == CowCfg(old(Heap()), p)
      ensures old(cfgs)[p].cow == 0 ==> q == p && cfgs == old(cfgs)
      ensures old(cfgs)[p].cow != 0 && old(next) !in old(cfgs) ==>
                && q == old(next) && cfgs.Keys == old(cfgs).Keys + {q}
                && cfgs[p].cow == old(cfgs)[p].cow - 1 && cfgs[q] == old(cfgs)[p].(cow := 0)
    {
      var c := cfgs[p];
      q := p;
      if c.cow != 0 {
        cfgs := cfgs[p := c.(cow := c.cow - 1)];
        cfgs := cfgs[next := c.(cow := 0)];
        q, next := next, next + 1;
      }
    }

    // cow(&this_lang, ...)
    method CowThisLang(i: nat)
      requires cfg in cfgs && i < |cfgs[cfg].langs| && cfgs[cfg].langs[i] in langs
      modifies `cfgs, `langs, `next
      ensures Heap() == CowLang(old(Heap()), cfg, i)
      ensures var r := old(cfgs)[cfg].langs[i];
              && (old(langs)[r].cow == 0 ==> langs == old(langs) && cfgs == old(cfgs))
              && (old(langs)[r].cow != 0 && old(next) !in old(langs) ==>
                    && cfgs == old(cfgs)[cfg := old(cfgs)[cfg].(langs := old(cfgs)[cfg].langs[i := old(next)])]
                    && langs.Keys == old(langs).Keys + {old(next)} && langs[old(next)] == old(langs)[r].(cow := 0)
                    && langs[r].cow == old(langs)[r].cow - 1)
    {
      var c := cfgs[cfg];
      var r := c.langs[i];
      var l := langs[r];
      if l.cow != 0 {
        langs := langs[r := l.(cow := l.cow - 1)];
        langs := langs[next := l.(cow := 0)];
        cfgs := cfgs[cfg := c.(langs := c.langs[i := next])];
        next := next + 1;
      }
    }

    // cow(&this_voice, ...)
    method CowThisVoice(r: Ref, j: nat)
      requires r in langs && j < |langs[r].voices| && langs[r].voices[j] in voices
      modifies `langs, `voices, `next
      ensures Heap() == CowVoice(old(Heap()), r, j)
      ensures var v := old(langs)[r].voices[j];
              && (old(voices)[v].cow == 0 ==> voices == old(voices) && langs == old(langs))
              && (old(voices)[v].cow != 0 && old(next) !in old(voices) ==>
                    && langs == old(langs)[r := old(langs)[r].(voices := old(langs)[r].voices[j := old(next)])]
                    && voices.Keys == old(voices).Keys + {old(next)} && voices[old(next)] == old(voices)[v].(cow := 0)
                    && voices[v].cow == old(voices)[v].cow - 1)
    {
      var l := langs[r];
      var v := l.voices[j];
      var w := voices[v];
      if w.cow != 0 {
        voices := voices[v := w.(cow := w.cow - 1)];
        voices := voices[next := w.(cow := 0)];
        langs := langs[r := l.(voices := l.voices[j := next])];
        next := next + 1;
      }
    }

    // The three kinds of object in turn made the session's own, as far as is needed.
    method OwnConfiguration()
      requires Valid()
      modifies `cfgs, `next, `cfg
      ensures Valid() && Used().Keys == old(Used()).Keys && langs == old(langs) && voices == old(voices)
      ensures Sets(old(Heap()), old(Used()), Heap(), Used(), current, old(Reads(current)), old(Reads(current)))
      ensures cfg in cfgs && cfgs[cfg].cow == 0
    {
      ghost var s, roots := Heap(), Used();
      assert Whole(s, roots[current]);
      CowCfgKeeps(s, roots, current);
      CowCfgSame(s, roots, current);
      cfg := CowConfiguration(cfg);
      assert Used() == roots[current := cfg];
      SameSets(s, roots, Heap(), Used(), current);
    }

    method OwnLanguage(i: nat)
      requires Valid() && cfg in cfgs && cfgs[cfg].default == i < |cfgs[cfg].langs|
      modifies `cfgs, `langs, `next
      ensures Valid() && Used() == old(Used())
      ensures Sets(old(Heap()), old(Used()), Heap(), Used(), current, old(Reads(current)), old(Reads(current)))
      ensures cfg in cfgs && cfgs[cfg].default == i < |cfgs[cfg].langs|
      ensures cfgs[cfg].langs[i] in langs && langs[cfgs[cfg].langs[i]].cow == 0
    {
      ghost var s, roots := Heap(), Used();
      CowLangKeeps(s, roots, current, i);
      CowThisLang(i);
      SameSets(s, roots, Heap(), Used(), current);
    }

    method OwnVoiceAt(i: nat, j: nat)
      requires Valid() && cfg in cfgs && cfgs[cfg].default == i < |cfgs[cfg].langs|
      requires cfgs[cfg].langs[i] in langs && langs[cfgs[cfg].langs[i]].cow == 0
               && langs[cfgs[cfg].langs[i]].default == j
      requires j < |langs[cfgs[cfg].langs[i]].voices|
      modifies `langs, `voices, `next
      ensures Valid() && cfgs == old(cfgs)
      ensures Sets(old(Heap()), old(Used()), Heap(), Used(), current, old(Reads(current)), old(Reads(current)))
      ensures var r := cfgs[cfg].langs[i];
              && r in langs && j < |langs[r].voices| && langs[r].voices[j] in voices
              && voices[langs[r].voices[j]].cow == 0
              && langs[r].default == j
    {
      ghost var s, roots := Heap(), Used();
      assert Whole(s, roots[current]);
      Reached(s, cfg, i);
      CowVoiceKeeps(s, roots, current, i, j);
      CowThisVoice(cfgs[cfg].langs[i], j);
      SameSets(s, roots, Heap(), Used(), current);
    }

    // The value itself is written.
    method WriteConfig(ch: Change)
      requires Valid()
      modifies `cfgs
      ensures Valid()
      ensures Sets(old(Heap()), Used(), Heap(), Used(), current, old(Reads(current)),
                   SetTree(old(Reads(current)), OfConfig, ch))
    {
      assert Whole(Heap(), Used()[current]);
      PutCfgSets(Heap(), Used(), current, ch);
      var c := cfgs[cfg];
      match ch
      case Option(n, v) => cfgs := cfgs[cfg := c.(opts := c.opts[n := v])];
      case Pick(k) =>
        // lang_switch
        if k < |c.langs| && langs[c.langs[k]].voices != [] { cfgs := cfgs[cfg := c.(default := k)]; }
    }

    method WriteLang(i: nat, ch: Change)
      requires Valid() && cfg in cfgs && cfgs[cfg].default == i < |cfgs[cfg].langs|
      requires cfgs[cfg].langs[i] in langs && langs[cfgs[cfg].langs[i]].cow == 0
      modifies `langs
      ensures Valid() && HasThis(old(Reads(current)), OfLang)
      ensures Sets(old(Heap()), Used(), Heap(), Used(), current, old(Reads(current)),
                   SetTree(old(Reads(current)), OfLang, ch))
    {
      assert Whole(Heap(), Used()[current]);
      PutLangSets(Heap(), Used(), current, i, ch);
      var r := cfgs[cfg].langs[i];
      var l := langs[r];
      match ch
      case Option(n, v) => langs := langs[r := l.(opts := l.opts[n := v])];
      case Pick(k) => if k < |l.voices| { langs := langs[r := l.(default := k)]; }
    }

    method WriteVoice(i: nat, j: nat, ch: Change)
      requires Valid() && cfg in cfgs && cfgs[cfg].default == i < |cfgs[cfg].langs| && cfgs[cfg].langs[i] in langs
      requires var l := langs[cfgs[cfg].langs[i]];
               j < |l.voices| && l.voices[j] in voices && l.default == j && voices[l.voices[j]].cow == 0
      modifies `voices
      ensures Valid() && HasThis(old(Reads(current)), OfVoice)
      ensures Sets(old(Heap()), Used(), Heap(), Used(), current, old(Reads(current)),
                   SetTree(old(Reads(current)), OfVoice, ch))
    {
      ghost var s := Heap();
      assert Whole(s, Used()[current]);
      PutVoiceSets(s, Used(), current, i, j, ch);
      var v := langs[cfgs[cfg].langs[i]].voices[j];
      if ch.Option? { voices := voices[v := voices[v].(opts := voices[v].opts[ch.name := ch.value])]; }
      assert Heap() == PutVoice(s, v, ch);
    }

    // this_lang is there, and this_voice when it is asked for.
    lemma ThisIs(kind: Kind)
      requires Valid() && HasThis(Reads(current), kind)
      ensures cfg in cfgs && (!kind.OfConfig? ==> cfgs[cfg].default < |cfgs[cfg].langs|)
      ensures kind.OfVoice? ==>
                var r := cfgs[cfg].langs[cfgs[cfg].default];
                r in langs && langs[r].default < |langs[r].voices|
    {
      var p := Used()[current];
      assert Whole(Heap(), p);
      if !kind.OfConfig? { Reached(Heap(), p, cfgs[p].default); }
    }

    // set_option, by the structure the option is in: the session in use reads the new value,
    // and every other session reads what it read before.
    method SetOption(kind: Kind, ch: Change)
      requires Valid() && HasThis(Reads(current), kind)
      modifies `cfgs, `langs, `voices, `next, `cfg
      ensures Valid() && current == old(current) && config.Keys == old(config).Keys
      ensures Sets(old(Heap()), old(Used()), Heap(), Used(), current, old(Reads(current)),
                   SetTree(old(Reads(current)), kind, ch))
      ensures forall y :: y in config && y != current ==> Reads(y) == old(Reads(y))
      ensures ch.Option? ==> OptionSet(old(Reads(current)), Reads(current), kind, ch.name, ch.value)
    {
      ghost var tree := Reads(current);
      SetInConfig(kind, ch);
      if ch.Option? { SetTreeIs(tree, kind, ch.name, ch.value); }
    }

    // The configuration is made the session's own, and then what is set in it.
    method SetInConfig(kind: Kind, ch: Change)
      requires Valid() && HasThis(Reads(current), kind)
      modifies `cfgs, `langs, `voices, `next, `cfg
      ensures Valid()
      ensures Sets(old(Heap()), old(Used()), Heap(), Used(), current, old(Reads(current)),
                   SetTree(old(Reads(current)), kind, ch))
    {
      OwnConfiguration();
      ThisIs(kind);
      if kind.OfConfig? {
        WriteConfig(ch);
      } else {
        SetInLang(kind, cfgs[cfg].default, ch);
      }
    }

    // The part of set_option for the current language and its current voice.
    method SetInLang(kind: Kind, i: nat, ch: Change)
      requires Valid() && !kind.OfConfig? && HasThis(Reads(current), kind) && cfg in cfgs
               && cfgs[cfg].default == i < |cfgs[cfg].langs|
      modifies `cfgs, `langs, `voices, `next
      ensures Valid()
      ensures Sets(old(Heap()), old(Used()), Heap(), Used(), current, old(Reads(current)),
                   SetTree(old(Reads(current)), kind, ch))
    {
      OwnLanguage(i);
      ThisIs(kind);
      if kind.OfLang? {
        WriteLang(i, ch);
      } else {
        SetInVoice(i, ch);
      }
    }

    // The part of set_option for the current voice of a language of one's own.
    method SetInVoice(i: nat, ch: Change)
      requires Valid() && cfg in cfgs && cfgs[cfg].default == i < |cfgs[cfg].langs|
      requires var r := cfgs[cfg].langs[i]; r in langs && langs[r].cow == 0 && langs[r].default < |langs[r].voices|
      modifies `langs, `voices, `next
      ensures Valid() && HasThis(old(Reads(current)), OfVoice)
      ensures Sets(old(Heap()), old(Used()), Heap(), Used(), current, old(Reads(current)),
                   SetTree(old(Reads(current)), OfVoice, ch))
    {
      var j := langs[cfgs[cfg].langs[i]].default;
      OwnVoiceAt(i, j);
      WriteVoice(i, j, ch);
    }

    // voice_switch, called directly: only the language is made the session's own.
    method VoiceSwitch(k: nat)
      requires Valid() && HasThis(Reads(current), OfLang)
      modifies `cfgs, `langs, `next
      ensures Valid() && current == old(current)
      ensures Sets(old(Heap()), old(Used()), Heap(), Used(), current, old(Reads(current)),
                   SetTree(old(Reads(current)), OfLang, Pick(k)))
      ensures config.Keys == old(config).Keys
      ensures forall y :: y in config && y != current ==> Reads(y) == old(Reads(y))
      ensures var t, was := Reads(current), old(Reads(current));
              && t == was.(langs := t.langs) && |t.langs| == |was.langs|
              && forall i :: 0 <= i < |was.langs| ==>
                   t.langs[i] == if i == was.default && k < |was.langs[i].voices| then was.langs[i].(default := k)
                                 else was.langs[i]
    {
      ThisIs(OfLang);
      var i := cfgs[cfg].default;
      OwnLanguage(i);
      WriteLang(i, Pick(k));
    }

    // ---- the beginning and the end of a session --------------------------------------------------

    method CowClaim()
      requires Whole(Heap(), cfg)
      modifies `cfgs, `langs, `voices
      ensures Heap() == Claim(old(Heap()), cfg)
    {
      ghost var s := Heap();
      ClaimBegins(s, cfg);
      var i := 0;
      while i < |cfgs[cfg].langs|
        invariant cfgs == s.cfgs && i <= |cfgs[cfg].langs| && Claiming(s, cfg, i, langs, voices)
        decreases |s.cfgs[cfg].langs| - i
      {
        ClaimLang(s, i);
        i := i + 1;
      }
      ClaimEnds(s, cfg, langs, voices);
      cfgs := cfgs[cfg := cfgs[cfg].(cow := cfgs[cfg].cow + 1)];
    }

    // One language, and its voices.
    method ClaimLang(ghost s: Store, i: nat)
      requires Whole(s, cfg) && cfgs == s.cfgs && i < |cfgs[cfg].langs| && Claiming(s, cfg, i, langs, voices)
      modifies `langs, `voices
      ensures Claiming(s, cfg, i + 1, langs, voices)
    {
      assert Peek(i);
      var r := cfgs[cfg].langs[i];
      LangStep(s, cfg, i);
      langs := langs[r := langs[r].(cow := langs[r].cow + 1)];
      ClaimVoices(s, cfg, i, r);
    }

    // The inner loop of cow_claim.
    method ClaimVoices(ghost s: Store, ghost p: Ref, ghost i: nat, r: Ref)
      requires Whole(s, p) && i < |s.cfgs[p].langs| && r == s.cfgs[p].langs[i] && r in s.langs
      requires r in langs && langs[r].voices == s.langs[r].voices && voices == VoicesUpTo(s, p, i, 0)
      modifies `voices
      ensures voices == VoicesUpTo(s, p, i + 1, 0)
    {
      var j := 0;
      while j < |langs[r].voices|
        invariant j <= |langs[r].voices| && voices == VoicesUpTo(s, p, i, j)
      {
        var v := langs[r].voices[j];
        VoiceStep(s, p, i, j);
        voices := voices[v := voices[v].(cow := voices[v].cow + 1)];
        j := j + 1;
      }
      NextLang(s, p, i);
    }

    // cow_unclaim: an object whose count was 0 is freed.
    method CowUnclaim(p: Ref)
      requires Whole(Heap(), p)
      modifies `cfgs, `langs, `voices
      ensures Heap() == Unclaim(old(Heap()), p)
    {
      ghost var s := Heap();
      ClaimBegins(s, p);
      var i := 0;
      while i < |cfgs[p].langs|
        invariant cfgs == s.cfgs && i <= |cfgs[p].langs| && Unclaiming(s, p, i, langs, voices)
        decreases |s.cfgs[p].langs| - i
      {
        UnclaimLang(s, p, i);
        i := i + 1;
      }
      ClaimEnds(s, p, langs, voices);
      if cfgs[p].cow == 0 { cfgs := cfgs - {p}; }
      else { cfgs := cfgs[p := cfgs[p].(cow := cfgs[p].cow - 1)]; }
    }

    // One language, its voices first.
    method UnclaimLang(ghost s: Store, p: Ref, i: nat)
      requires Whole(s, p) && cfgs == s.cfgs && i < |cfgs[p].langs| && Unclaiming(s, p, i, langs, voices)
      modifies `langs, `voices
      ensures Unclaiming(s, p, i + 1, langs, voices)
    {
      assert Peek(i);
      var r := cfgs[p].langs[i];
      LangLess(s, p, i);
      UnclaimVoices(s, p, i, r);
      if langs[r].cow == 0 { langs := langs - {r}; }
      else { langs := langs[r := langs[r].(cow := langs[r].cow - 1)]; }
    }

    // The inner loop of cow_unclaim.
    method UnclaimVoices(ghost s: Store, ghost p: Ref, ghost i: nat, r: Ref)
      requires Whole(s, p) && i < |s.cfgs[p].langs| && r == s.cfgs[p].langs[i] && r in s.langs
      requires r in langs && langs[r].voices == s.langs[r].voices && voices == VoicesLeft(s, p, i, 0)
      modifies `voices
      ensures voices == VoicesLeft(s, p, i + 1, 0)
    {
      var j := 0;
      while j < |langs[r].voices|
        invariant j <= |langs[r].voices| && voices == VoicesLeft(s, p, i, j)
      {
        var v := langs[r].voices[j];
        VoiceLess(s, p, i, j);
        if voices[v].cow == 0 { voices := voices - {v}; }
        else { voices := voices[v := voices[v].(cow := voices[v].cow - 1)]; }
        j := j + 1;
      }
      NextLang(s, p, i);
    }

    // A context's constructor: the new session reads what the session in use reads.
    method NewContext(y: Sid)
      requires Valid() && y !in config
      modifies `cfgs, `langs, `voices, `next, `config
      ensures Valid() && current == old(current) && config.Keys == old(config).Keys + {y}
      ensures Born(old(Heap()), old(Used()), Heap(), Used(), current, y)
      ensures Reads(y) == old(Reads(current)) && forall z :: z in old(config) ==> Reads(z) == old(Reads(z))
    {
      ghost var s, roots := Heap(), Used();
      BeginKeeps(s, roots, current, y);
      var q := Branch();
      config := config[y := q];
      assert Used() == roots[y := q];
    }

    // Everything in use is claimed, and the configuration object copied.
    method Branch() returns (q: Ref)
      requires Whole(Heap(), cfg)
      modifies `cfgs, `langs, `voices, `next
      ensures (Heap(), q) == Begin(old(Heap()), cfg)
    {
      CowClaim();
      q := CowConfiguration(cfg);
    }

    // A context's destructor: what only this session used is freed.
    method DeleteContext(x: Sid)
      requires Valid() && x in config && x != master
      modifies `cfgs, `langs, `voices, `config, `cfg, `current
      ensures Valid() && current != x && config.Keys == old(config).Keys - {x}
      ensures Gone(old(Heap()), old(Used()), Heap(), Used(), x)
      ensures forall y :: y in config ==> Reads(y) == old(Reads(y))
    {
      LeaveFor(x);
      Forget(x);
    }

    method Forget(x: Sid)
      requires Valid() && x in config && x != master && x != current
      modifies `cfgs, `langs, `voices, `config
      ensures config == old(config) - {x} && Gone(old(Heap()), old(Used()), Heap(), Used(), x)
    {
      ghost var s, roots := Heap(), Used();
      EndKeeps(s, roots, x);
      assert Whole(s, roots[x]);
      CowUnclaim(config[x]);
      config := config - {x};
      assert Used() == roots - {x};
    }

    // A context that is in use is left first.
    method LeaveFor(x: Sid)
      requires Valid() && x in config && x != master
      modifies `config, `cfg, `current
      ensures Valid() && current != x && Used() == old(Used()) && config.Keys == old(config).Keys
      ensures config[x] == Used()[x] && Whole(Heap(), config[x])
    {
      assert Used().Keys == config.Keys;
      if x == current { Leave(); }
      assert Used().Keys == config.Keys;
      assert Whole(Heap(), Used()[x]);
    }
  }
}
