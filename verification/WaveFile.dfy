// Labels collected while a waveform is made, and the file it becomes (src/waveform.cc).
module WaveFile {
  import opened WaveOutput
  import opened WaveLabels

  const FMT: seq<Byte> := [102, 109, 116, 32]
  const DATA: seq<Byte> := [100, 97, 116, 97]
  const RIFF: seq<Byte> := [82, 73, 70, 70]
  const WAVE: seq<Byte> := [87, 65, 86, 69]
  const CUE: seq<Byte> := [99, 117, 101, 32]
  const LIST: seq<Byte> := [76, 73, 83, 84]
  const ADTL: seq<Byte> := [97, 100, 116, 108]
  const LABL: seq<Byte> := [108, 97, 98, 108]
  const NOTE: seq<Byte> := [110, 111, 116, 101]

  // ---- cue points ------------------------------------------------------------------------

  datatype Cue = Cue(name: nat, pos: nat)

  function CueBytes(c: Cue): (b: seq<Byte>)
    requires c.name < TWO31 && c.pos < TWO31
    ensures |b| == 24
  {
    Le32(c.name) + Le32(c.pos) + DATA + Zeros(4) + Zeros(4) + Le32(c.pos)
  }

  function Cues(cues: seq<Cue>): (b: seq<Byte>)
    requires forall i :: 0 <= i < |cues| ==> cues[i].name < TWO31 && cues[i].pos < TWO31
    ensures |b| == 24 * |cues|
  {
    if cues == [] then [] else CueBytes(cues[0]) + Cues(cues[1..])
  }

  // n & (n - 1) == 0
  predicate OneBit(n: nat) { n == 1 || (n > 1 && n % 2 == 0 && OneBit(n / 2)) }

  lemma {:induction false} SamePower(a: nat, b: nat)
    requires OneBit(a) && OneBit(b) && a <= b < 2 * a
    ensures a == b
  {
    if a > 1 { SamePower(a / 2, b / 2); }
  }

  method CopyInto(a: array<Byte>, at: nat, b: seq<Byte>)
    requires at + |b| <= a.Length
    modifies a
    ensures a[..at + |b|] == old(a[..at]) + b
  {
    ghost var was := a[..at];
    var i := 0;
    while i < |b|
      invariant i <= |b| && a[..at + i] == was + b[..i]
    {
      a[at + i] := b[i];
      i := i + 1;
    }
    assert b[..|b|] == b;
  }

  class Labels {
    var cpBuff: array<Cue>
    var currentCp: nat
    var adtlBuff: array<Byte>
    var adtlLen: nat
    ghost var cues: seq<Cue>
    ghost var notes: seq<Note>

    ghost predicate Valid()
      reads this, cpBuff, adtlBuff
    {
      && currentCp == |cues| && currentCp <= cpBuff.Length && cpBuff[..currentCp] == cues
      && (currentCp > 0 ==> OneBit(cpBuff.Length) && cpBuff.Length < 2 * currentCp)
      && (forall i :: 0 <= i < |notes| ==> Proper(notes[i]))
      && adtlLen <= adtlBuff.Length && adtlBuff[..adtlLen] == Chunks(notes)
    }

    constructor ()
      ensures Valid() && cues == [] && notes == [] && fresh(cpBuff) && fresh(adtlBuff)
    {
      var c := new Cue[0];
      var b := new Byte[0];
      cpBuff, adtlBuff, currentCp, adtlLen, cues, notes := c, b, 0, 0, [], [];
    }

    // The buffer of cue points is doubled whenever the number of cue points is a power of two.
    method AddCue(pos: nat)
      requires Valid()
      modifies this, cpBuff
      ensures Valid() && cues == old(cues) + [Cue(|old(cues)| + 1, pos)] && notes == old(notes)
      ensures adtlBuff == old(adtlBuff) && (cpBuff == old(cpBuff) || fresh(cpBuff))
    {
      if currentCp > 0 {
        if OneBit(currentCp) {
          SamePower(currentCp, cpBuff.Length);
          Grow(currentCp * 2);
        }
      } else {
        cpBuff := new Cue[1];
      }
      assert currentCp < cpBuff.Length && cpBuff[..currentCp] == cues;
      assert adtlBuff[..adtlLen] == Chunks(notes);
      cpBuff[currentCp] := Cue(currentCp + 1, pos);
      cues := cues + [Cue(currentCp + 1, pos)];
      currentCp := currentCp + 1;
    }

    method Grow(size: nat)
      requires currentCp <= cpBuff.Length <= size
      modifies `cpBuff
      ensures fresh(cpBuff) && cpBuff.Length == size && cpBuff[..currentCp] == old(cpBuff[..currentCp])
    {
      var bigger := new Cue[size];
      var i := 0;
      while i < currentCp
        invariant i <= currentCp && bigger[..i] == cpBuff[..i]
        modifies bigger
      {
        bigger[i] := cpBuff[i];
        i := i + 1;
      }
      cpBuff := bigger;
    }

    // put_chunk: the buffer is doubled until the chunk fits.
    method PutChunk(n: Note)
      requires Valid() && Proper(n)
      modifies this, adtlBuff
      ensures Valid() && notes == old(notes) + [n] && cues == old(cues)
      ensures cpBuff == old(cpBuff) && (adtlBuff == old(adtlBuff) || fresh(adtlBuff))
    {
      var b := Chunk(n);
      var max := if adtlBuff.Length == 0 then 256 else adtlBuff.Length;
      while adtlLen + |b| >= max
        invariant max >= 1 && max >= adtlBuff.Length
        decreases adtlLen + |b| - max
      {
        max := 2 * max;
      }
      if max != adtlBuff.Length { GrowAdtl(max); }
      ChunksMore(notes, n);
      CopyInto(adtlBuff, adtlLen, b);
      notes := notes + [n];
      adtlLen := adtlLen + |b|;
    }

    method GrowAdtl(size: nat)
      requires adtlLen <= adtlBuff.Length <= size
      modifies `adtlBuff
      ensures fresh(adtlBuff) && adtlBuff.Length == size && adtlBuff[..adtlLen] == old(adtlBuff[..adtlLen])
    {
      var bigger := new Byte[size];
      var i := 0;
      while i < adtlLen
        invariant i <= adtlLen && bigger[..i] == adtlBuff[..i]
        modifies bigger
      {
        bigger[i] := adtlBuff[i];
        i := i + 1;
      }
      adtlBuff := bigger;
    }

    // label: a cue point, and if it has a name, a label and a note that refer to it.
    method Label(pos: nat, named: bool, title: seq<Byte>, note: seq<Byte>)
      requires Valid() && |cues| + 1 < TWO31 && (named ==> Proper(Note(LABL, 0, title)) && Proper(Note(NOTE, 0, note)))
      modifies this, cpBuff, adtlBuff
      ensures Valid() && cues == old(cues) + [Cue(|old(cues)| + 1, pos)]
      ensures notes == old(notes) + (if named then [Note([108, 97, 98, 108], |cues|, title),
                                                    Note([110, 111, 116, 101], |cues|, note)] else [])
    {
      AddCue(pos);
      if named {
        PutChunk(Note(LABL, currentCp, title));
        PutChunk(Note(NOTE, currentCp, note));
      }
    }
  }

  // ---- the file ----------------------------------------------------------------------------

  // The fields of the header that describe the samples: 16 bytes.
  predicate Small(data: seq<Byte>, cues: seq<Cue>, notes: seq<Note>) {
    && (forall i :: 0 <= i < |cues| ==> cues[i].name < TWO31 && cues[i].pos < TWO31)
    && (forall i :: 0 <= i < |notes| ==> Proper(notes[i]))
    && |data| < TWO31 && 4 + 24 * |cues| < TWO31 && |Chunks(notes)| < TWO31
  }

  function Head(total: nat, fmt: seq<Byte>, len: nat): (b: seq<Byte>)
    requires total < TWO31 && |fmt| == 16 && len < TWO31
    ensures |b| == 44
  {
    RIFF + Le32(total) + WAVE + (FMT + Le32(16) + fmt) + (DATA + Le32(len))
  }

  // The buffers of the output phases, once the RIFF size field is total.
  function Parts(total: nat, fmt: seq<Byte>, data: seq<Byte>, cues: seq<Cue>, notes: seq<Note>): (p: seq<seq<Byte>>)
    requires total < TWO31 && |fmt| == 16 && Small(data, cues, notes)
    ensures SixParts(p)
  {
    [Head(total, fmt, |data|), data, CUE + Le32(4 + 24 * |cues|) + Le32(|cues|), Cues(cues),
     LIST + Le32(|Chunks(notes)|) + ADTL, Chunks(notes)]
  }

  lemma FileIs(p: seq<seq<Byte>>)
    requires SixParts(p) && p[1] != []
    ensures File(p) == p[0] + Body(p)
  {
    assert Later(p, 5) == p[5] + Later(p, 6) && Later(p, 6) == [];
    assert Later(p, 5) == p[5];
    assert Later(p, 4) == if p[5] == [] then [] else p[4] + p[5];
    assert Later(p, 3) == p[3] + Later(p, 4);
    if p[3] == [] { assert Later(p, 2) == [] + Later(p, 4); } else {
      assert Later(p, 2) == (p[2] + p[3]) + Later(p, 4);
    }
  }

  // What follows the first header.
  function Body(p: seq<seq<Byte>>): seq<Byte>
    requires SixParts(p)
  {
    p[1] + ((if p[3] == [] then [] else p[2] + p[3]) + (if p[5] == [] then [] else p[4] + p[5]))
  }

  lemma HeadSize(total: nat, fmt: seq<Byte>, len: nat, body: seq<Byte>)
    requires total < TWO31 && |fmt| == 16 && len < TWO31
    ensures var file := Head(total, fmt, len) + body;
            |file| == 44 + |body| && file[..4] == RIFF && Read32(file[4..]) == total
  {
    var rest := WAVE + (FMT + Le32(16) + fmt) + (DATA + Le32(len));
    assert (Head(total, fmt, len) + body)[4..] == Le32(total) + (rest + body);
    Read32Le32(total, rest + body);
  }

  // attach: the size field is the length of the file less eight, whatever it was while the
  // length was computed.
  lemma RiffSize(total: nat, size: nat, fmt: seq<Byte>, data: seq<Byte>, cues: seq<Cue>, notes: seq<Note>)
    requires total < TWO31 && |fmt| == 16 && Small(data, cues, notes) && data != []
    requires size == |File(Parts(total, fmt, data, cues, notes))| - RIFF_HEADER_SIZE && size < TWO31
    ensures var file := File(Parts(size, fmt, data, cues, notes));
            |file| >= 8 && file[..4] == RIFF && Read32(file[4..]) == |file| - 8
  {
    FileOf(total, fmt, data, cues, notes);
    FileOf(size, fmt, data, cues, notes);
    HeadSize(size, fmt, |data|, Body(Parts(0, fmt, data, cues, notes)));
  }

  lemma FileOf(total: nat, fmt: seq<Byte>, data: seq<Byte>, cues: seq<Cue>, notes: seq<Note>)
    requires total < TWO31 && |fmt| == 16 && Small(data, cues, notes) && data != []
    ensures var body := Body(Parts(0, fmt, data, cues, notes)); var file := File(Parts(total, fmt, data, cues, notes));
            file == Head(total, fmt, |data|) + body && |file| == 44 + |body|
  {
    FileIs(Parts(total, fmt, data, cues, notes));
  }

  // ---- the chunks a reader finds ------------------------------------------------------------------

  // The bytes are chunks one after another, each as long as it says, padded to an even length.
  predicate Tiles(b: seq<Byte>)
    decreases |b|
  {
    b == [] || (|b| >= 8 && var n := 8 + Read32(b[4..]) + Read32(b[4..]) % 2; n <= |b| && Tiles(b[n..]))
  }

  lemma TilesOne(tag: seq<Byte>, body: seq<Byte>, rest: seq<Byte>)
    requires |tag| == 4 && |body| < TWO31 && |body| % 2 == 0
    ensures Tiles(tag + Le32(|body|) + body + rest) <==> Tiles(rest)
  {
    var b := tag + Le32(|body|) + body + rest;
    assert b[4..] == Le32(|body|) + (body + rest);
    Read32Le32(|body|, body + rest);
    assert b[8 + |body|..] == rest;
  }

  // The list of labels says it is four bytes shorter than it is.
  lemma ListShort(adtl: seq<Byte>)
    requires 0 < |adtl| < TWO31 && |adtl| % 2 == 0
    ensures !Tiles(LIST + Le32(|adtl|) + ADTL + adtl)
  {
    var b, rest := LIST + Le32(|adtl|) + ADTL + adtl, ADTL + adtl;
    assert b == LIST + Le32(|adtl|) + rest;
    Opening(LIST, |adtl|, rest);
    assert b[8 + |adtl|..] == rest[|adtl|..] && |rest[|adtl|..]| == 4;
  }

  lemma Opening(tag: seq<Byte>, size: nat, rest: seq<Byte>)
    requires |tag| == 4 && size < TWO31
    ensures var b := tag + Le32(size) + rest;
            |b| >= 8 && Read32(b[4..]) == size && b[8..] == rest
  {
    var b := tag + Le32(size) + rest;
    assert b[4..] == Le32(size) + rest;
    Read32Le32(size, rest);
  }

  lemma {:induction false} ChunksEven(notes: seq<Note>)
    requires forall i :: 0 <= i < |notes| ==> Proper(notes[i])
    ensures |Chunks(notes)| % 2 == 0 && (notes != [] ==> |Chunks(notes)| > 0)
  {
    if notes != [] { ChunksEven(notes[1..]); }
  }

  // What comes after the samples: the chunk of cue points, and the list of labels.
  function Middle(cues: seq<Cue>): (b: seq<Byte>)
    requires (forall i :: 0 <= i < |cues| ==> cues[i].name < TWO31 && cues[i].pos < TWO31) && 4 + 24 * |cues| < TWO31
  {
    if Cues(cues) == [] then [] else CUE + Le32(4 + 24 * |cues|) + Le32(|cues|) + Cues(cues)
  }

  function Tail(notes: seq<Note>): (b: seq<Byte>)
    requires (forall i :: 0 <= i < |notes| ==> Proper(notes[i])) && |Chunks(notes)| < TWO31
  {
    if Chunks(notes) == [] then [] else LIST + Le32(|Chunks(notes)|) + ADTL + Chunks(notes)
  }

  // An odd number of sample bytes is not padded: a reader goes on one byte too late.
  lemma FileTiles(total: nat, fmt: seq<Byte>, data: seq<Byte>, cues: seq<Cue>, notes: seq<Note>)
    requires total < TWO31 && |fmt| == 16 && Small(data, cues, notes) && data != []
    ensures var file := File(Parts(total, fmt, data, cues, notes)); var rest := Middle(cues) + Tail(notes);
            |file| >= 12
            && (Tiles(file[12..]) <==> if |data| % 2 == 0 then Tiles(rest) else rest != [] && Tiles(rest[1..]))
  {
    var p := Parts(total, fmt, data, cues, notes);
    FileIs(p);
    assert Body(p) == data + (Middle(cues) + Tail(notes));
    FrontTiles(total, fmt, data, Middle(cues) + Tail(notes));
  }

  // What follows the form type is a sequence of chunks exactly when the samples take an even number of bytes
  // and there is no label: an odd number is not padded, and the size of the list of labels does not count the
  // four bytes of its type. (With an odd number of bytes, 256 cue points or 16 megabytes of labels could by
  // chance look like chunks to a reader that is one byte late.)
  lemma ChunksTile(total: nat, fmt: seq<Byte>, data: seq<Byte>, cues: seq<Cue>, notes: seq<Note>)
    requires total < TWO31 && |fmt| == 16 && Small(data, cues, notes) && data != []
    requires |data| % 2 == 1 ==> |cues| < 256 && |Middle(cues) + Tail(notes)| < 0x100_0000
    ensures var file := File(Parts(total, fmt, data, cues, notes));
            |file| >= 12 && (Tiles(file[12..]) <==> |data| % 2 == 0 && notes == [])
  {
    FileTiles(total, fmt, data, cues, notes);
    ChunksEven(notes);
    MiddleTiles(cues, Middle(cues), Tail(notes));
    if |data| % 2 == 1 {
      OddRest(cues, notes);
    } else if notes != [] {
      ListShort(Chunks(notes));
    }
  }

  // One byte of samples alone.
  lemma OneByteFails(total: nat, fmt: seq<Byte>, x: Byte)
    requires total < TWO31 && |fmt| == 16
    ensures var file := File(Parts(total, fmt, [x], [], []));
            |file| >= 12 && !Tiles(file[12..])
  {
    FileTiles(total, fmt, [x], [], []);
  }

  // One byte late, the ninth byte is taken for the high byte of a size.
  lemma LateSize(rest: seq<Byte>)
    requires 9 <= |rest| < 0x100_0000 && rest[8] > 0
    ensures !Tiles(rest[1..])
  {
    var t := rest[1..];
    assert t[4..][3] == rest[8];
    assert Read32(t[4..]) >= 16777216;
  }

  lemma OddRest(cues: seq<Cue>, notes: seq<Note>)
    requires (forall i :: 0 <= i < |cues| ==> cues[i].name < TWO31 && cues[i].pos < TWO31) && |cues| < 256
    requires (forall i :: 0 <= i < |notes| ==> Proper(notes[i])) && |Chunks(notes)| < TWO31
    requires |Middle(cues) + Tail(notes)| < 0x100_0000
    ensures var rest := Middle(cues) + Tail(notes); rest == [] || !Tiles(rest[1..])
  {
    var rest := Middle(cues) + Tail(notes);
    if Cues(cues) != [] {
      assert rest[8] == Le32(|cues|)[0];
      LateSize(rest);
    } else if Chunks(notes) != [] {
      assert rest[8] == ADTL[0];
      LateSize(rest);
    }
  }

  lemma FrontTiles(total: nat, fmt: seq<Byte>, data: seq<Byte>, rest: seq<Byte>)
    requires total < TWO31 && |fmt| == 16 && |data| < TWO31
    ensures var file := Head(total, fmt, |data|) + (data + rest);
            |file| >= 12
            && (Tiles(file[12..]) <==> if |data| % 2 == 0 then Tiles(rest) else rest != [] && Tiles(rest[1..]))
  {
    var file := Head(total, fmt, |data|) + (data + rest);
    var more := DATA + Le32(|data|) + data + rest;
    assert file[12..] == FMT + Le32(16) + fmt + more;
    TilesOne(FMT, fmt, more);
    if |data| % 2 == 0 {
      TilesOne(DATA, data, rest);
    } else {
      TilesOdd(DATA, data, rest);
    }
  }

  lemma TilesOdd(tag: seq<Byte>, body: seq<Byte>, rest: seq<Byte>)
    requires |tag| == 4 && |body| < TWO31 && |body| % 2 == 1
    ensures Tiles(tag + Le32(|body|) + body + rest) <==> rest != [] && Tiles(rest[1..])
  {
    var b := tag + Le32(|body|) + body + rest;
    assert b == tag + Le32(|body|) + (body + rest);
    Opening(tag, |body|, body + rest);
    if rest == [] {
      TilesAt(b, |body| + 1, []);
    } else {
      DropPast(tag, Le32(|body|), body, rest);
      TilesAt(b, |body| + 1, rest[1..]);
    }
  }

  lemma TilesAt(b: seq<Byte>, n: nat, tail: seq<Byte>)
    requires |b| >= 8 && Read32(b[4..]) + Read32(b[4..]) % 2 == n && (8 + n <= |b| ==> b[8 + n..] == tail)
    ensures Tiles(b) <==> 8 + n <= |b| && Tiles(tail)
  {
  }

  lemma DropPast(a: seq<Byte>, b: seq<Byte>, c: seq<Byte>, rest: seq<Byte>)
    requires rest != []
    ensures (a + b + c + rest)[|a| + |b| + |c| + 1..] == rest[1..]
  {
  }

  lemma Regroup(a: seq<Byte>, b: seq<Byte>, c: seq<Byte>, d: seq<Byte>, e: seq<Byte>)
    ensures (a + b + c + d) + e == a + b + (c + d) + e
  {
  }

  lemma MiddleTiles(cues: seq<Cue>, middle: seq<Byte>, tail: seq<Byte>)
    requires (forall i :: 0 <= i < |cues| ==> cues[i].name < TWO31 && cues[i].pos < TWO31) && 4 + 24 * |cues| < TWO31
    requires middle == if Cues(cues) == [] then [] else CUE + Le32(4 + 24 * |cues|) + Le32(|cues|) + Cues(cues)
    ensures Tiles(middle + tail) <==> Tiles(tail)
  {
    if Cues(cues) == [] {
      assert middle + tail == tail;
    } else {
      var body := Le32(|cues|) + Cues(cues);
      Regroup(CUE, Le32(|body|), Le32(|cues|), Cues(cues), tail);
      TilesOne(CUE, body, tail);
    }
  }
}
