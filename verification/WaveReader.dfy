// What a reader finds in a finished wave file, byte by byte (src/waveform.cc; Multimedia Programming Interface and
// Data Specifications 1.0, chapter 3).
module WaveReader {
  import opened WaveOutput
  import opened WaveLabels
  import opened WaveFile

  // RIFF, WAVE and "fmt ", and then data and its length.
  ghost predicate Heads(b: seq<Byte>, total: nat, fmt: seq<Byte>, len: nat) {
    && |b| >= 44 && b[..4] == [82, 73, 70, 70] && Read32(b[4..]) == total && b[8..12] == [87, 65, 86, 69]
    && b[12..16] == [102, 109, 116, 32] && Read32(b[16..]) == 16 && b[20..36] == fmt
    && b[36..40] == [100, 97, 116, 97] && Read32(b[40..]) == len
  }

  // A cue point: its number, its place, the chunk it is in, and its place again.
  ghost predicate PointsTo(b: seq<Byte>, c: Cue) {
    && |b| == 24 && Read32(b) == c.name && Read32(b[4..]) == c.pos && b[8..12] == [100, 97, 116, 97]
    && b[12..20] == [0, 0, 0, 0, 0, 0, 0, 0] && Read32(b[20..]) == c.pos
  }

  // The cue points one after another, from place k on.
  ghost predicate Listed(b: seq<Byte>, k: nat, cues: seq<Cue>) {
    |b| == k + 24 * |cues| && forall i :: 0 <= i < |cues| ==> PointsTo(b[k + 24 * i..k + 24 * i + 24], cues[i])
  }

  // "cue ", the length of what follows, and the cue points.
  ghost predicate Points(b: seq<Byte>, cues: seq<Cue>) {
    && |b| >= 12 && b[..4] == [99, 117, 101, 32] && Read32(b[4..]) == |b| - 8 && Read32(b[8..]) == |cues|
    && Listed(b, 12, cues)
  }

  // LIST and adtl; the length is short by the four bytes of adtl.
  ghost predicate Named(b: seq<Byte>, notes: seq<Note>) {
    && |b| >= 12 && b[..4] == [76, 73, 83, 84] && Read32(b[4..]) == |b| - 12 && b[8..12] == [97, 100, 116, 108]
    && ReadNotes(b[12..]) == Good(notes)
  }

  lemma HeadReads(total: nat, fmt: seq<Byte>, len: nat)
    requires total < TWO31 && |fmt| == 16 && len < TWO31
    ensures Heads(Head(total, fmt, len), total, fmt, len)
  {
    var b := Head(total, fmt, len);
    assert b[4..] == Le32(total) + (WAVE + (FMT + Le32(16) + fmt) + (DATA + Le32(len)));
    assert b[16..] == Le32(16) + (fmt + (DATA + Le32(len)));
    assert b[40..] == Le32(len) + [];
    Read32Le32(total, WAVE + (FMT + Le32(16) + fmt) + (DATA + Le32(len)));
    Read32Le32(16, fmt + (DATA + Le32(len)));
    Read32Le32(len, []);
  }

  lemma CueReads(c: Cue)
    requires c.name < TWO31 && c.pos < TWO31
    ensures PointsTo(CueBytes(c), c)
  {
    var b := CueBytes(c);
    var z := Zeros(4) + Zeros(4);
    assert b == Le32(c.name) + (Le32(c.pos) + DATA + z + Le32(c.pos));
    assert b[4..] == Le32(c.pos) + (DATA + z + Le32(c.pos));
    assert b[20..] == Le32(c.pos) + [];
    assert b[12..20] == z;
    Read32Le32(c.name, Le32(c.pos) + DATA + z + Le32(c.pos));
    Read32Le32(c.pos, DATA + z + Le32(c.pos));
    Read32Le32(c.pos, []);
  }

  lemma {:induction false} CueAt(cues: seq<Cue>, i: nat)
    requires forall i :: 0 <= i < |cues| ==> cues[i].name < TWO31 && cues[i].pos < TWO31
    requires i < |cues|
    ensures Cues(cues)[24 * i..24 * i + 24] == CueBytes(cues[i])
  {
    if i > 0 {
      CueAt(cues[1..], i - 1);
      var k, c, d := 24 * (i - 1), CueBytes(cues[0]), Cues(cues[1..]);
      assert (c + d)[24 + k..24 + k + 24] == d[k..k + 24];
    }
  }

  lemma Inner(a: seq<Byte>, c: seq<Byte>, k: nat)
    requires |a| == 12 && k + 24 <= |c|
    ensures (a + c)[12 + k..12 + k + 24] == c[k..k + 24]
  {
  }

  lemma PointAt(a: seq<Byte>, c: seq<Byte>, k: nat, x: seq<Byte>, cue: Cue)
    requires |a| == 12 && k + 24 <= |c| && c[k..k + 24] == x && PointsTo(x, cue)
    ensures PointsTo((a + c)[12 + k..12 + k + 24], cue)
  {
    Inner(a, c, k);
  }

  lemma CuesRead(cues: seq<Cue>)
    requires forall i :: 0 <= i < |cues| ==> cues[i].name < TWO31 && cues[i].pos < TWO31
    ensures Listed(Cues(cues), 0, cues)
  {
    forall i | 0 <= i < |cues| ensures PointsTo(Cues(cues)[0 + 24 * i..0 + 24 * i + 24], cues[i]) {
      CueAt(cues, i);
      CueReads(cues[i]);
    }
  }

  lemma AfterHead(a: seq<Byte>, c: seq<Byte>, cues: seq<Cue>)
    requires |a| == 12 && Listed(c, 0, cues)
    ensures Listed(a + c, 12, cues)
  {
    forall i | 0 <= i < |cues| ensures PointsTo((a + c)[12 + 24 * i..12 + 24 * i + 24], cues[i]) {
      PointAt(a, c, 24 * i, c[0 + 24 * i..0 + 24 * i + 24], cues[i]);
    }
  }

  lemma MiddleReads(cues: seq<Cue>)
    requires (forall i :: 0 <= i < |cues| ==> cues[i].name < TWO31 && cues[i].pos < TWO31) && 4 + 24 * |cues| < TWO31
    ensures if cues == [] then Middle(cues) == [] else Points(Middle(cues), cues)
  {
    if cues != [] {
      var a, c := CUE + Le32(4 + 24 * |cues|) + Le32(|cues|), Cues(cues);
      PointsHead(|cues|, c);
      CuesRead(cues);
      AfterHead(a, c, cues);
    }
  }

  lemma PointsHead(n: nat, c: seq<Byte>)
    requires |c| == 24 * n && 4 + 24 * n < TWO31
    ensures var b := CUE + Le32(4 + 24 * n) + Le32(n) + c;
            b[..4] == [99, 117, 101, 32] && Read32(b[4..]) == |b| - 8 && Read32(b[8..]) == n
  {
    var b := CUE + Le32(4 + 24 * n) + Le32(n) + c;
    assert b[4..] == Le32(4 + 24 * n) + (Le32(n) + c);
    assert b[8..] == Le32(n) + c;
    Read32Le32(4 + 24 * n, Le32(n) + c);
    Read32Le32(n, c);
  }

  lemma TailReads(notes: seq<Note>)
    requires (forall i :: 0 <= i < |notes| ==> Proper(notes[i])) && |Chunks(notes)| < TWO31
    ensures if notes == [] then Tail(notes) == [] else Named(Tail(notes), notes)
  {
    if notes != [] {
      ChunksEven(notes);
      NamedHead(Chunks(notes));
      LabelsBack(notes);
    }
  }

  lemma NamedHead(c: seq<Byte>)
    requires |c| < TWO31
    ensures var b := LIST + Le32(|c|) + ADTL + c;
            b[..4] == [76, 73, 83, 84] && Read32(b[4..]) == |b| - 12 && b[8..12] == [97, 100, 116, 108] && b[12..] == c
  {
    var b := LIST + Le32(|c|) + ADTL + c;
    assert b[4..] == Le32(|c|) + (ADTL + c);
    Read32Le32(|c|, ADTL + c);
  }

  lemma Pieces(total: nat, fmt: seq<Byte>, data: seq<Byte>, cues: seq<Cue>, notes: seq<Note>)
    requires total < TWO31 && |fmt| == 16 && Small(data, cues, notes) && data != []
    ensures File(Parts(total, fmt, data, cues, notes)) == Head(total, fmt, |data|) + data + Middle(cues) + Tail(notes)
  {
    var p := Parts(total, fmt, data, cues, notes);
    FileIs(p);
    assert Body(p) == data + (Middle(cues) + Tail(notes));
    InOrder(Head(total, fmt, |data|), data, Middle(cues), Tail(notes));
  }

  lemma InOrder(a: seq<Byte>, b: seq<Byte>, c: seq<Byte>, d: seq<Byte>)
    ensures a + (b + (c + d)) == a + b + c + d
  {
  }

  // The header, the samples, the cue points and the labels, whichever there are, and nothing else.
  lemma FileReads(total: nat, fmt: seq<Byte>, data: seq<Byte>, cues: seq<Cue>, notes: seq<Note>)
    returns (head: seq<Byte>, points: seq<Byte>, names: seq<Byte>)
    requires total < TWO31 && |fmt| == 16 && Small(data, cues, notes) && data != []
    ensures File(Parts(total, fmt, data, cues, notes)) == head + data + points + names
    ensures |head| == 44 && Heads(head, total, fmt, |data|)
    ensures if cues == [] then points == [] else Points(points, cues)
    ensures if notes == [] then names == [] else Named(names, notes)
  {
    head, points, names := Head(total, fmt, |data|), Middle(cues), Tail(notes);
    Pieces(total, fmt, data, cues, notes);
    HeadReads(total, fmt, |data|);
    MiddleReads(cues);
    TailReads(notes);
  }
}
