/** The waveform ring buffer of the synthesiser (src/vowelSynth.ts).

    The audio worklet posts blocks of at most 1024 samples; `VowelSynth`
    writes each block into an 80000-slot circular buffer and advances a
    write index, and readers copy out the samples between a start position
    and the write index.  The Web Audio graph around it is not modelled. */
module VowelSynth {

  /** The slot count of waveformBuffer (vowelSynth.ts:52). */
  const WaveformLength: nat := 80000

  /** The length of the recording buffer (vowelSynth.ts:1, 94). */
  const RecordingBufferLength: nat := 80000

  /** The size of the block the audio worklet posts (audioWorklet.ts:37). */
  const MaxBlockLength: nat := 1024

  /** The slot that sample i of a block written from `start` lands in. */
  function Slot(start: int, i: int): (s: nat)
    ensures s < WaveformLength
  {
    (start + i) % WaveformLength
  }

  /** How far past `start` slot s lies, going round the ring. */
  function Offset(start: int, s: int): (d: nat)
    ensures d < WaveformLength
  {
    (s - start) % WaveformLength
  }

  /** Slot and Offset undo each other. */
  lemma SlotOffset(start: nat, i: nat, s: nat)
    requires start < WaveformLength && i < WaveformLength && s < WaveformLength
    ensures Offset(start, Slot(start, i)) == i
    ensures Slot(start, Offset(start, s)) == s
  {
  }

  /** Moving k slots on from slot Slot(start, d) is moving d + k slots on
      from start. */
  lemma SlotShift(start: int, d: int, k: int)
    ensures Slot(Slot(start, d), k) == Slot(start, d + k)
  {
    var a := start + d;
    var q := a / WaveformLength;
    assert a == WaveformLength * q + a % WaveformLength;
    assert (a % WaveformLength + k) + WaveformLength * q == a + k;
  }

  /** The ring after captureWaveform wrote `data` from slot `start`: slot s
      holds data[Offset(start, s)] when that offset is inside the block and
      is unchanged otherwise. */
  function Captured(ring: seq<real>, start: nat, data: seq<real>): (next: seq<real>)
    requires |ring| == WaveformLength && |data| <= WaveformLength
    ensures |next| == WaveformLength
  {
    seq(WaveformLength, s requires 0 <= s < WaveformLength =>
      if Offset(start, s) < |data| then data[Offset(start, s)] else ring[s])
  }

  /** Sample i of the block goes to slot (start + i) mod L, and a slot no
      sample is written to keeps its value. */
  lemma CapturedSlots(ring: seq<real>, start: nat, data: seq<real>)
    requires |ring| == WaveformLength && |data| <= WaveformLength && start < WaveformLength
    ensures forall i :: 0 <= i < |data| ==> Captured(ring, start, data)[Slot(start, i)] == data[i]
    ensures forall s :: 0 <= s < WaveformLength && (forall i :: 0 <= i < |data| ==> Slot(start, i) != s) ==>
      Captured(ring, start, data)[s] == ring[s]
  {
    forall i | 0 <= i < |data|
      ensures Captured(ring, start, data)[Slot(start, i)] == data[i]
    {
      SlotOffset(start, i, 0);
    }
    forall s | 0 <= s < WaveformLength && (forall i :: 0 <= i < |data| ==> Slot(start, i) != s)
      ensures Captured(ring, start, data)[s] == ring[s]
    {
      SlotOffset(start, 0, s);
    }
  }

  /** The number of samples getWaveform(from) returns (vowelSynth.ts:138-141). */
  function WaveformCount(index: nat, from: nat): nat {
    var length := if from > index then WaveformLength - from + index else index - from;
    if length < 0 then 0 else length
  }

  /** The samples getWaveform(from) copies out: slots from, from + 1, …
      round the ring, up to the write index. */
  function Waveform(ring: seq<real>, index: nat, from: nat): (w: seq<real>)
    requires |ring| == WaveformLength
    ensures |w| == WaveformCount(index, from)
  {
    seq(WaveformCount(index, from), i requires 0 <= i < WaveformCount(index, from) => ring[Slot(from, i)])
  }

  /** For a start inside the ring, getWaveform returns (index − from) mod L
      samples: fewer than L, and none exactly when from is the write index. */
  lemma WaveformCountIsDistance(index: nat, from: nat)
    requires index < WaveformLength && from < WaveformLength
    ensures WaveformCount(index, from) == (index - from) % WaveformLength
    ensures WaveformCount(index, from) < WaveformLength
    ensures WaveformCount(index, from) == 0 <==> from == index
  {
  }

  /** Round trip: what captureWaveform writes from the old index is exactly
      what getWaveform(old index) reads back afterwards. */
  lemma CaptureThenRead(ring: seq<real>, start: nat, data: seq<real>)
    requires |ring| == WaveformLength && start < WaveformLength && |data| < WaveformLength
    ensures Waveform(Captured(ring, start, data), Slot(start, |data|), start) == data
  {
    var next := Captured(ring, start, data);
    var w := Waveform(next, Slot(start, |data|), start);
    WaveformCountIsDistance(Slot(start, |data|), start);
    assert |w| == |data|;
    forall i | 0 <= i < |data|
      ensures w[i] == data[i]
    {
      CapturedSlots(ring, start, data);
    }
  }

  /** Moving d slots on from start shortens every offset from start by d,
      round the ring. */
  lemma OffsetShift(start: int, d: int, s: int)
    ensures Offset(Slot(start, d), s) == (Offset(start, s) - d) % WaveformLength
  {
    var a := start + d;
    var q := a / WaveformLength;
    assert a == WaveformLength * q + Slot(start, d);
    var b := s - start;
    var q2 := b / WaveformLength;
    assert b == WaveformLength * q2 + Offset(start, s);
    assert s - Slot(start, d) == (Offset(start, s) - d) + WaveformLength * (q + q2);
    ShiftedMod(Offset(start, s) - d, q + q2);
  }

  /** Adding whole turns of the ring leaves a residue unchanged. */
  lemma ShiftedMod(x: int, q: int)
    ensures (x + WaveformLength * q) % WaveformLength == x % WaveformLength
  {
    var n: int := WaveformLength;
    var y := x + n * q;
    var k := y / n - x / n - q;
    assert x == n * (x / n) + x % n;
    assert y == n * (y / n) + y % n;
    assert n * k == x % n - y % n;
  }

  /** Two blocks captured one after the other are one capture of the two
      blocks together, as long as they do not wrap past their own start. */
  lemma CaptureTwice(ring: seq<real>, start: nat, d1: seq<real>, d2: seq<real>)
    requires |ring| == WaveformLength && start < WaveformLength && |d1| + |d2| <= WaveformLength
    ensures Captured(Captured(ring, start, d1), Slot(start, |d1|), d2) == Captured(ring, start, d1 + d2)
  {
    var mid := Captured(ring, start, d1);
    var left := Captured(mid, Slot(start, |d1|), d2);
    var right := Captured(ring, start, d1 + d2);
    forall s | 0 <= s < WaveformLength
      ensures left[s] == right[s]
    {
      var o := Offset(start, s);
      OffsetShift(start, |d1|, s);
      if o >= |d1| {
        assert Offset(Slot(start, |d1|), s) == o - |d1|;
      } else {
        ShiftedMod(o - |d1|, 1);
        assert Offset(Slot(start, |d1|), s) == o - |d1| + WaveformLength;
      }
    }
  }

  /** The samples of a run of blocks, one after the other. */
  function Joined(blocks: seq<seq<real>>): seq<real> {
    if blocks == [] then [] else blocks[0] + Joined(blocks[1..])
  }

  /** The ring after captureWaveform ran once per block, from slot start. */
  function CapturedAll(ring: seq<real>, start: nat, blocks: seq<seq<real>>): (next: seq<real>)
    requires |ring| == WaveformLength && |Joined(blocks)| <= WaveformLength
    ensures |next| == WaveformLength
    decreases |blocks|
  {
    if blocks == [] then ring
    else CapturedAll(Captured(ring, start, blocks[0]), Slot(start, |blocks[0]|), blocks[1..])
  }

  /** The write index after captureWaveform ran once per block, from start. */
  function IndexAfter(start: nat, blocks: seq<seq<real>>): nat
    decreases |blocks|
  {
    if blocks == [] then start else IndexAfter(Slot(start, |blocks[0]|), blocks[1..])
  }

  /** A run of captures is one capture of the joined blocks, and the write
      index moves on by their total length. */
  lemma {:induction false} CapturedAllJoined(ring: seq<real>, start: nat, blocks: seq<seq<real>>)
    requires |ring| == WaveformLength && start < WaveformLength && |Joined(blocks)| <= WaveformLength
    ensures CapturedAll(ring, start, blocks) == Captured(ring, start, Joined(blocks))
    ensures IndexAfter(start, blocks) == Slot(start, |Joined(blocks)|)
    decreases |blocks|
  {
    if blocks == [] {
      assert Captured(ring, start, []) == ring;
    } else {
      var b, rest := blocks[0], blocks[1..];
      var mid := Captured(ring, start, b);
      CapturedAllJoined(mid, Slot(start, |b|), rest);
      CaptureTwice(ring, start, b, Joined(rest));
      SlotShift(start, |b|, |Joined(rest)|);
    }
  }

  /** Round trip over several blocks: the samples of all the blocks the
      worklet posted since index i, in order, are exactly what getWaveform(i)
      returns, as long as together they are fewer than L. */
  lemma CaptureBlocksThenRead(ring: seq<real>, start: nat, blocks: seq<seq<real>>)
    requires |ring| == WaveformLength && start < WaveformLength && |Joined(blocks)| < WaveformLength
    ensures Waveform(CapturedAll(ring, start, blocks), IndexAfter(start, blocks), start) == Joined(blocks)
  {
    CapturedAllJoined(ring, start, blocks);
    CaptureThenRead(ring, start, Joined(blocks));
  }

  /** The start position getWaveformLatest(n) passes on
      (vowelSynth.ts:155-156); JavaScript's % agrees with the Euclidean one
      here because the left operand is not negative. */
  function LatestStart(index: nat, latestNumSamples: nat): nat
    requires latestNumSamples <= index + WaveformLength
  {
    (index + WaveformLength - latestNumSamples) % WaveformLength
  }

  /** The samples getWaveformLatest(n) returns. */
  function Latest(ring: seq<real>, index: nat, latestNumSamples: nat): seq<real>
    requires |ring| == WaveformLength && latestNumSamples <= index + WaveformLength
  {
    Waveform(ring, index, LatestStart(index, latestNumSamples))
  }

  /** getWaveformLatest(n) for 0 < n < L returns the n slots before the write
      index, oldest first; n = 0 and n = L both give nothing. */
  lemma LatestWindow(ring: seq<real>, index: nat, n: nat)
    requires |ring| == WaveformLength && index < WaveformLength && n <= WaveformLength
    ensures 0 < n < WaveformLength ==> |Latest(ring, index, n)| == n
    ensures 0 < n < WaveformLength ==> forall i :: 0 <= i < n ==>
      Latest(ring, index, n)[i] == ring[Slot(index, i - n)]
    ensures n == 0 || n == WaveformLength ==> Latest(ring, index, n) == []
  {
    var from := LatestStart(index, n);
    if 0 < n < WaveformLength {
      assert from == Slot(index, 0 - n as int);
      forall i | 0 <= i < n
        ensures Slot(from, i) == Slot(index, i - n)
      {
      }
    } else {
      assert from == index;
    }
  }

  /** After a block of at least n samples, getWaveformLatest(n) is the last n
      samples of that block. */
  lemma LatestAfterCapture(ring: seq<real>, start: nat, data: seq<real>, n: nat)
    requires |ring| == WaveformLength && start < WaveformLength && |data| <= WaveformLength
    requires 0 < n <= |data| && n < WaveformLength
    ensures Latest(Captured(ring, start, data), Slot(start, |data|), n) == data[|data| - n..]
  {
    var next := Captured(ring, start, data);
    var index := Slot(start, |data|);
    LatestWindow(next, index, n);
    CapturedSlots(ring, start, data);
    forall i | 0 <= i < n
      ensures Latest(next, index, n)[i] == data[|data| - n + i]
    {
      var j := |data| - n + i;
      SlotShift(start, |data|, i - n);
      assert next[Slot(start, j)] == data[j];
    }
  }

  /** The synthesiser's capture state. */
  class Synth {
    var waveformBuffer: array<real>
    var waveformBufferIndex: nat
    /** Channel 0 of recordingBuffer, the AudioBuffer played back. */
    var recordingBuffer: array<real>

    ghost predicate Valid()
      reads this
    {
      && waveformBuffer.Length == WaveformLength
      && waveformBufferIndex < WaveformLength
      && recordingBuffer.Length == RecordingBufferLength
      && waveformBuffer != recordingBuffer
    }

    /** The buffers as the constructor and create() leave them: zero-filled,
        write index 0 (vowelSynth.ts:52-53, 94). */
    constructor ()
      ensures Valid() && fresh(waveformBuffer) && fresh(recordingBuffer)
      ensures waveformBufferIndex == 0
      ensures forall s :: 0 <= s < WaveformLength ==> waveformBuffer[s] == 0.0
      ensures forall s :: 0 <= s < RecordingBufferLength ==> recordingBuffer[s] == 0.0
    {
      waveformBuffer := new real[WaveformLength](_ => 0.0);
      waveformBufferIndex := 0;
      recordingBuffer := new real[RecordingBufferLength](_ => 0.0);
    }

    /** captureWaveform: writes the first `length` samples of the posted
        block round the ring and advances the write index. */
    method CaptureWaveform(buffer: seq<real>, length: nat)
      requires Valid() && length <= |buffer| && length <= MaxBlockLength
      modifies this, waveformBuffer
      ensures Valid()
      ensures waveformBuffer == old(waveformBuffer) && recordingBuffer == old(recordingBuffer)
      ensures waveformBuffer[..] == Captured(old(waveformBuffer[..]), old(waveformBufferIndex), buffer[..length])
      ensures waveformBufferIndex == Slot(old(waveformBufferIndex), length)
    {
      ghost var ring := waveformBuffer[..];
      ghost var data := buffer[..length];
      var start := waveformBufferIndex;
      for i := 0 to length
        invariant Valid() && waveformBufferIndex == start
        invariant waveformBuffer == old(waveformBuffer) && recordingBuffer == old(recordingBuffer)
        invariant forall s :: 0 <= s < WaveformLength ==>
          waveformBuffer[s] == if Offset(start, s) < i then data[Offset(start, s)] else ring[s]
      {
        var outputIndex := (waveformBufferIndex + i) % WaveformLength;
        SlotOffset(start, i, 0);
        waveformBuffer[outputIndex] := buffer[i];
      }
      waveformBufferIndex := (waveformBufferIndex + length) % WaveformLength;
      assert waveformBuffer[..] == Captured(ring, start, data);
    }

    /** getWaveform: a fresh copy of the samples from `fromSampleIndex` up to
        the write index.  A negative start is outside the model: the source
        would index the ring at a negative position. */
    method GetWaveform(fromSampleIndex: nat) returns (result: array<real>)
      requires Valid()
      ensures fresh(result)
      ensures result[..] == Waveform(waveformBuffer[..], waveformBufferIndex, fromSampleIndex)
    {
      var length := if fromSampleIndex > waveformBufferIndex
        then WaveformLength - fromSampleIndex + waveformBufferIndex
        else waveformBufferIndex - fromSampleIndex;
      if length < 0 {
        length := 0;
      }
      result := new real[length];
      for i := 0 to length
        invariant forall t :: 0 <= t < i ==> result[t] == waveformBuffer[Slot(fromSampleIndex, t)]
      {
        result[i] := waveformBuffer[(fromSampleIndex + i) % WaveformLength];
      }
    }

    /** getWaveformLatest: the latest `latestNumSamples` samples.  Beyond
        index + L the source's % would go negative. */
    method GetWaveformLatest(latestNumSamples: nat) returns (result: array<real>)
      requires Valid() && latestNumSamples <= waveformBufferIndex + WaveformLength
      ensures fresh(result)
      ensures result[..] == Latest(waveformBuffer[..], waveformBufferIndex, latestNumSamples)
    {
      result := GetWaveform((waveformBufferIndex + WaveformLength - latestNumSamples) % WaveformLength);
    }
  }
}
