// The labels of a waveform, the headers of its file, and what a reader finds in it
// (src/waveform.cc; Multimedia Programming Interface and Data Specifications 1.0, chapter 2).
module WaveLabels {
  import opened WaveOutput

  // ---- numbers -----------------------------------------------------------------------

  const TWO31 := 0x8000_0000

  function Le32(x: nat): (b: seq<Byte>)
    requires x < TWO31
    ensures |b| == 4
  {
    [x % 256, x / 256 % 256, x / 65536 % 256, x / 16777216]
  }

  function Read32(b: seq<Byte>): nat
    requires |b| >= 4
  {
    (b[0] as int) + 256 * (b[1] as int) + 65536 * (b[2] as int) + 16777216 * (b[3] as int)
  }

  lemma Read32Le32(x: nat, rest: seq<Byte>)
    requires x < TWO31
    ensures Read32(Le32(x) + rest) == x
  {
    var a, b, c := x / 256, x / 65536, x / 16777216;
    assert a / 256 == b && b / 256 == c;
    assert x == 256 * a + x % 256 && a == 256 * b + a % 256 && b == 256 * c + b % 256;
  }

  // ---- one label or note -----------------------------------------------------------------

  // tag is four letters; cp names the cue point it belongs to; the text has no zero byte.
  datatype Note = Note(tag: seq<Byte>, cp: nat, text: seq<Byte>)

  predicate Proper(n: Note) {
    |n.tag| == 4 && n.cp < TWO31 && |n.text| < 0x1000_0000 && forall i :: 0 <= i < |n.text| ==> n.text[i] != 0
  }

  // strlen(string) + 2 & ~1
  function Varlen(len: nat): (v: nat)
    ensures v % 2 == 0 && len < v <= len + 2
  {
    (len + 2) / 2 * 2
  }

  function Zeros(n: nat): (z: seq<Byte>)
    ensures |z| == n && forall i :: 0 <= i < n ==> z[i] == 0
  {
    seq(n, _ => 0)
  }

  // The bytes put_chunk writes.
  function Chunk(n: Note): (b: seq<Byte>)
    requires Proper(n)
    ensures |b| == 12 + Varlen(|n.text|)
  {
    n.tag + Le32(4 + Varlen(|n.text|)) + Le32(n.cp) + (n.text + Zeros(Varlen(|n.text|) - |n.text|))
  }

  function Chunks(notes: seq<Note>): seq<Byte>
    requires forall i :: 0 <= i < |notes| ==> Proper(notes[i])
  {
    if notes == [] then [] else Chunk(notes[0]) + Chunks(notes[1..])
  }

  // ---- reading them back --------------------------------------------------------------------

  function UpToZero(b: seq<Byte>): seq<Byte> {
    if b == [] || b[0] == 0 then [] else [b[0]] + UpToZero(b[1..])
  }

  datatype Result<T> = Good(value: T) | Bad

  // A reader goes from chunk to chunk by the sizes it finds.
  function ReadNotes(b: seq<Byte>): Result<seq<Note>>
    decreases |b|
  {
    if b == [] then Good([])
    else if |b| < 12 then Bad
    else
      var size := Read32(b[4..]);
      if size < 4 || 8 + size > |b| then Bad
      else
        var rest := ReadNotes(b[8 + size..]);
        if rest.Bad? then Bad
        else Good([Note(b[..4], Read32(b[8..]), UpToZero(b[12..8 + size]))] + rest.value)
  }

  lemma {:induction false} TextBack(text: seq<Byte>, z: seq<Byte>)
    requires (forall i :: 0 <= i < |text| ==> text[i] != 0) && z != [] && z[0] == 0
    ensures UpToZero(text + z) == text
    decreases |text|
  {
    if text == [] {
      assert text + z == z;
    } else {
      assert (text + z)[1..] == text[1..] + z;
      TextBack(text[1..], z);
    }
  }

  lemma ChunkParts(n: Note, rest: seq<Byte>)
    requires Proper(n)
    ensures var b := Chunk(n) + rest; var size := 4 + Varlen(|n.text|);
            && |b| >= 12 && b[..4] == n.tag && Read32(b[4..]) == size && Read32(b[8..]) == n.cp
            && 8 + size <= |b| && b[8 + size..] == rest
            && b[12..8 + size] == n.text + Zeros(Varlen(|n.text|) - |n.text|)
  {
    var v := Varlen(|n.text|);
    var text := n.text + Zeros(v - |n.text|);
    var b := Chunk(n) + rest;
    assert b[..4] == n.tag;
    assert b[4..] == Le32(4 + v) + (Le32(n.cp) + text + rest);
    assert b[8..] == Le32(n.cp) + (text + rest);
    Read32Le32(4 + v, Le32(n.cp) + text + rest);
    Read32Le32(n.cp, text + rest);
    assert b[12..12 + v] == text;
  }

  lemma ReadChunk(n: Note, rest: seq<Byte>)
    requires Proper(n) && ReadNotes(rest).Good?
    ensures ReadNotes(Chunk(n) + rest) == Good([n] + ReadNotes(rest).value)
  {
    ChunkParts(n, rest);
    TextBack(n.text, Zeros(Varlen(|n.text|) - |n.text|));
  }

  // Whatever labels were given, a reader finds just those, in their order.
  lemma {:induction false} LabelsBack(notes: seq<Note>)
    requires forall i :: 0 <= i < |notes| ==> Proper(notes[i])
    ensures ReadNotes(Chunks(notes)) == Good(notes)
  {
    if notes != [] {
      LabelsBack(notes[1..]);
      ReadChunk(notes[0], Chunks(notes[1..]));
      assert [notes[0]] + notes[1..] == notes;
    }
  }

  lemma {:induction false} ChunksMore(notes: seq<Note>, n: Note)
    requires (forall i :: 0 <= i < |notes| ==> Proper(notes[i])) && Proper(n)
    ensures Chunks(notes + [n]) == Chunks(notes) + Chunk(n)
    decreases |notes|
  {
    if notes == [] {
      assert [n][1..] == [];
      assert notes + [n] == [n];
    } else {
      ChunksMore(notes[1..], n);
      assert (notes + [n])[1..] == notes[1..] + [n];
    }
  }
}
