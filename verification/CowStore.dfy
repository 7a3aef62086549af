// Copy-on-write configurations (src/options.cc): the objects, what a session reads through
// them, and the counts that decide when an object is copied before it is changed.
module CowStore {

  // Objects are named by references; an object that has been freed is not in its map.
  type Ref = nat
  type Opts = map<int, int>

  // cow is the number of claims on the object less one.
  datatype Config = Config(cow: int, default: nat, langs: seq<Ref>, opts: Opts)
  datatype Lang = Lang(cow: int, home: nat, default: nat, voices: seq<Ref>, opts: Opts)
  datatype Voice = Voice(cow: int, home: (nat, nat), opts: Opts)

  // home is the place of a language, or of a voice, in every configuration that holds it.
  datatype Store = Store(cfgs: map<Ref, Config>, langs: map<Ref, Lang>, voices: map<Ref, Voice>, next: Ref)

  // A session and the configuration it uses.
  type Sid = nat
  type Roots = map<Sid, Ref>

  // ---- what a session reads -----------------------------------------------------

  datatype LangTree = LangTree(default: nat, opts: Opts, voices: seq<Opts>)
  datatype Tree = Tree(default: nat, opts: Opts, langs: seq<LangTree>)

  ghost predicate WholeLang(s: Store, r: Ref, i: nat) {
    && r in s.langs && s.langs[r].home == i
    && forall j :: 0 <= j < |s.langs[r].voices| ==>
         s.langs[r].voices[j] in s.voices && s.voices[s.langs[r].voices[j]].home == (i, j)
  }

  // Everything reached from a configuration is there, and in its place.
  ghost predicate Whole(s: Store, p: Ref) {
    p in s.cfgs && forall i :: 0 <= i < |s.cfgs[p].langs| ==> WholeLang(s, s.cfgs[p].langs[i], i)
  }

  ghost function DeepLang(s: Store, r: Ref): (t: LangTree)
    requires r in s.langs && forall j :: 0 <= j < |s.langs[r].voices| ==> s.langs[r].voices[j] in s.voices
  {
    var l := s.langs[r];
    LangTree(l.default, l.opts, seq(|l.voices|, j requires 0 <= j < |l.voices| => s.voices[l.voices[j]].opts))
  }

  ghost function Deep(s: Store, p: Ref): (t: Tree)
    requires Whole(s, p)
  {
    var c := s.cfgs[p];
    Tree(c.default, c.opts,
         seq(|c.langs|, i requires 0 <= i < |c.langs| => assert WholeLang(s, c.langs[i], i); DeepLang(s, c.langs[i])))
  }

  // ---- who uses what ----------------------------------------------------------------

  predicate HasLang(s: Store, p: Ref, r: Ref) {
    && p in s.cfgs && r in s.langs
    && var i := s.langs[r].home; i < |s.cfgs[p].langs| && s.cfgs[p].langs[i] == r
  }

  predicate HasVoice(s: Store, p: Ref, v: Ref) {
    && p in s.cfgs && v in s.voices
    && var (i, j) := s.voices[v].home;
       && i < |s.cfgs[p].langs| && s.cfgs[p].langs[i] in s.langs
       && j < |s.langs[s.cfgs[p].langs[i]].voices| && s.langs[s.cfgs[p].langs[i]].voices[j] == v
  }

  function LangUsers(s: Store, roots: Roots, r: Ref): set<Sid> { set x | x in roots && HasLang(s, roots[x], r) }

  function VoiceUsers(s: Store, roots: Roots, v: Ref): set<Sid> { set x | x in roots && HasVoice(s, roots[x], v) }

  // Every session's configuration is complete.
  ghost predicate AllWhole(s: Store, roots: Roots) { forall x :: x in roots ==> Whole(s, roots[x]) }

  // No two sessions share a configuration object.
  predicate Distinct(roots: Roots) { forall x, y :: x in roots && y in roots && x != y ==> roots[x] != roots[y] }

  predicate Fresh(s: Store) {
    && (forall p :: p in s.cfgs ==> p < s.next && s.cfgs[p].cow >= 0)
    && (forall r :: r in s.langs ==> r < s.next && s.langs[r].cow >= 0)
    && (forall v :: v in s.voices ==> v < s.next && s.voices[v].cow >= 0)
  }

  // An object that is used by R sessions has a count of R - 1 at least.
  ghost predicate LangCounts(s: Store, roots: Roots) {
    forall r :: r in s.langs ==> |LangUsers(s, roots, r)| <= s.langs[r].cow + 1
  }

  ghost predicate VoiceCounts(s: Store, roots: Roots) {
    forall v :: v in s.voices ==> |VoiceUsers(s, roots, v)| <= s.voices[v].cow + 1
  }

  ghost predicate Inv(s: Store, roots: Roots) {
    AllWhole(s, roots) && Distinct(roots) && Fresh(s) && LangCounts(s, roots) && VoiceCounts(s, roots)
  }

  // ---- cow() for the three kinds of object ------------------------------------------

  // cow_configuration: the reference itself is replaced.
  function CowCfg(s: Store, p: Ref): (Store, Ref)
    requires p in s.cfgs
  {
    var c := s.cfgs[p];
    if c.cow == 0 then (s, p)
    else (s.(cfgs := s.cfgs[p := c.(cow := c.cow - 1)][s.next := c.(cow := 0)], next := s.next + 1), s.next)
  }

  // The language in place i of a configuration.
  function CowLang(s: Store, p: Ref, i: nat): Store
    requires p in s.cfgs && i < |s.cfgs[p].langs| && s.cfgs[p].langs[i] in s.langs
  {
    var c := s.cfgs[p];
    var r := c.langs[i];
    var l := s.langs[r];
    if l.cow == 0 then s
    else s.(cfgs := s.cfgs[p := c.(langs := c.langs[i := s.next])],
            langs := s.langs[r := l.(cow := l.cow - 1)][s.next := l.(cow := 0)], next := s.next + 1)
  }

  // The voice in place j of a language.
  function CowVoice(s: Store, r: Ref, j: nat): Store
    requires r in s.langs && j < |s.langs[r].voices| && s.langs[r].voices[j] in s.voices
  {
    var l := s.langs[r];
    var v := l.voices[j];
    var w := s.voices[v];
    if w.cow == 0 then s
    else s.(langs := s.langs[r := l.(voices := l.voices[j := s.next])],
            voices := s.voices[v := w.(cow := w.cow - 1)][s.next := w.(cow := 0)], next := s.next + 1)
  }

  // ---- set_option by kind of structure ---------------------------------------------------

  // What is set: an option, or which of several languages or voices is the current one.
  datatype Change = Option(name: int, value: int) | Pick(k: nat)
  datatype Kind = OfConfig | OfLang | OfVoice

  // this_lang, this_voice
  predicate HasThis(t: Tree, kind: Kind) {
    || kind.OfConfig?
    || (t.default < |t.langs| && (kind.OfLang? || t.langs[t.default].default < |t.langs[t.default].voices|))
  }

  // lang_switch refuses a language without voices.
  function PutCfg(s: Store, p: Ref, ch: Change): Store
    requires p in s.cfgs && forall i :: 0 <= i < |s.cfgs[p].langs| ==> s.cfgs[p].langs[i] in s.langs
  {
    var c := s.cfgs[p];
    match ch
    case Option(n, v) => s.(cfgs := s.cfgs[p := c.(opts := c.opts[n := v])])
    case Pick(k) =>
      if k < |c.langs| && s.langs[c.langs[k]].voices != [] then s.(cfgs := s.cfgs[p := c.(default := k)]) else s
  }

  function PutLang(s: Store, r: Ref, ch: Change): Store
    requires r in s.langs
  {
    var l := s.langs[r];
    match ch
    case Option(n, v) => s.(langs := s.langs[r := l.(opts := l.opts[n := v])])
    case Pick(k) => if k < |l.voices| then s.(langs := s.langs[r := l.(default := k)]) else s
  }

  function PutVoice(s: Store, v: Ref, ch: Change): Store
    requires v in s.voices
  {
    match ch
    case Option(n, val) => s.(voices := s.voices[v := s.voices[v].(opts := s.voices[v].opts[n := val])])
    case Pick(_) => s
  }

  // The same change on a configuration of one's own.
  function SetTree(t: Tree, kind: Kind, ch: Change): Tree
    requires HasThis(t, kind)
  {
    match kind
    case OfConfig =>
      (match ch
       case Option(n, v) => t.(opts := t.opts[n := v])
       case Pick(k) => if k < |t.langs| && t.langs[k].voices != [] then t.(default := k) else t)
    case OfLang =>
      var l := t.langs[t.default];
      (match ch
       case Option(n, v) => t.(langs := t.langs[t.default := l.(opts := l.opts[n := v])])
       case Pick(k) => if k < |l.voices| then t.(langs := t.langs[t.default := l.(default := k)]) else t)
    case OfVoice =>
      var l := t.langs[t.default];
      (match ch
       case Option(n, v) =>
         t.(langs := t.langs[t.default := l.(voices := l.voices[l.default := l.voices[l.default][n := v]])])
       case Pick(_) => t)
  }

  // ---- claiming and unclaiming everything -----------------------------------------------

  // cow_claim
  function Claim(s: Store, p: Ref): Store
    requires p in s.cfgs
  {
    s.(cfgs := s.cfgs[p := s.cfgs[p].(cow := s.cfgs[p].cow + 1)],
       langs := map r | r in s.langs :: if HasLang(s, p, r) then s.langs[r].(cow := s.langs[r].cow + 1) else s.langs[r],
       voices := map v | v in s.voices ::
                  if HasVoice(s, p, v) then s.voices[v].(cow := s.voices[v].cow + 1) else s.voices[v])
  }

  // cow_unclaim: what nobody else has claimed is freed.
  function Unclaim(s: Store, p: Ref): Store
    requires p in s.cfgs
  {
    s.(cfgs := if s.cfgs[p].cow == 0 then s.cfgs - {p} else s.cfgs[p := s.cfgs[p].(cow := s.cfgs[p].cow - 1)],
       langs := map r | r in s.langs && !(HasLang(s, p, r) && s.langs[r].cow == 0) ::
                  if HasLang(s, p, r) then s.langs[r].(cow := s.langs[r].cow - 1) else s.langs[r],
       voices := map v | v in s.voices && !(HasVoice(s, p, v) && s.voices[v].cow == 0) ::
                  if HasVoice(s, p, v) then s.voices[v].(cow := s.voices[v].cow - 1) else s.voices[v])
  }
}
