/** The recording state machine of the recording panel
    (src/RecordingPanel.tsx).

    Pressing Record starts a recording: the panel's sample buffer, as long as
    the synthesiser's recording buffer, is zero-filled and the synthesiser's
    ring index is noted.  Every animation frame while recording copies the
    ring samples that arrived since the noted index into the sample buffer,
    stopping once the buffer is full; finishing copies the sample buffer into
    the synthesiser's recording buffer.  Importing a file replaces the sample
    buffer by its first channel; exporting encodes the recorded prefix.

    The canvas, playback, the animation-frame scheduling and the browser's
    file dialogs and audio decoding are not modelled: the decoded channel
    and the sample rate are parameters. */
module RecordingPanel {
  import VowelSynth
  import WavEncode

  /** The length of sampleBuffer: that of the synthesiser's recording buffer
      (RecordingPanel.tsx:18). */
  const Capacity: nat := VowelSynth.RecordingBufferLength

  function Min(a: nat, b: nat): nat {
    if a <= b then a else b
  }

  function Zeros(n: nat): (z: seq<real>)
    ensures |z| == n && forall i :: 0 <= i < n ==> z[i] == 0.0
  {
    seq(n, _ => 0.0)
  }

  /** What the state machine acts on: the panel's fields and the contents
      of the synthesiser's recording buffer, which finishing overwrites. */
  datatype Panel = Panel(
    samples: seq<real>,
    recording: bool,
    recordingIndex: nat,
    waveformBufferIndex: nat,
    committed: seq<real>)

  /** Buffers of full length, the recording index within the buffer and
      the noted ring index a slot of the ring. */
  predicate Sized(p: Panel) {
    && |p.samples| == Capacity
    && |p.committed| == Capacity
    && p.recordingIndex <= Capacity
    && p.waveformBufferIndex < VowelSynth.WaveformLength
  }

  /** The invariant every operation keeps: the panel is sized and, while
      recording, the recording index is short of the buffer's end. */
  predicate Good(p: Panel) {
    Sized(p) && (p.recording ==> p.recordingIndex < Capacity)
  }

  /** recordingFinish (RecordingPanel.tsx:100-104). */
  function Finish(p: Panel): Panel {
    p.(recording := false, committed := p.samples)
  }

  /** recordingToggle (RecordingPanel.tsx:83-97), given the synthesiser's
      ring index at the time of the press. */
  function Toggle(p: Panel, synthIndex: nat): Panel {
    if p.recording then Finish(p)
    else p.(samples := Zeros(Capacity), recording := true, recordingIndex := 0,
            waveformBufferIndex := synthIndex)
  }

  /** How many of the new ring samples a frame copies: the slice to the
      room left in the buffer (RecordingPanel.tsx:112-114). */
  function FrameCount(p: Panel, ring: seq<real>, synthIndex: nat): nat
    requires |ring| == VowelSynth.WaveformLength && p.recordingIndex <= Capacity
  {
    Min(|VowelSynth.Waveform(ring, synthIndex, p.waveformBufferIndex)|, Capacity - p.recordingIndex)
  }

  /** recordingFrame (RecordingPanel.tsx:107-127), given the synthesiser's
      ring and write index at the time of the frame. */
  function Frame(p: Panel, ring: seq<real>, synthIndex: nat): Panel
    requires Good(p) && |ring| == VowelSynth.WaveformLength
  {
    if !p.recording then p
    else
      var count := FrameCount(p, ring, synthIndex);
      var chunk := VowelSynth.Waveform(ring, synthIndex, p.waveformBufferIndex)[..count];
      var i := p.recordingIndex;
      var q := p.(samples := p.samples[..i] + chunk + p.samples[i + count..],
                  recordingIndex := i + count, waveformBufferIndex := synthIndex);
      if q.recordingIndex >= Capacity then Finish(q) else q
  }

  /** The buffer part of importWav (RecordingPanel.tsx:194-201), given the
      decoded first channel. */
  function Import(p: Panel, channel: seq<real>): Panel {
    var waveform := channel[..Min(|channel|, Capacity)];
    Finish(p.(samples := waveform + Zeros(Capacity - |waveform|), recordingIndex := |waveform|))
  }

  /** The file exportWav hands to the download (RecordingPanel.tsx:158-162). */
  function Export(p: Panel, sampleRate: int): seq<WavEncode.uint8>
    requires p.recordingIndex <= |p.samples|
  {
    WavEncode.Wav(p.samples[..p.recordingIndex], sampleRate)
  }

  /** Every operation keeps the invariant. */
  lemma GoodPreserved(p: Panel, ring: seq<real>, synthIndex: nat, channel: seq<real>)
    requires Good(p) && |ring| == VowelSynth.WaveformLength && synthIndex < VowelSynth.WaveformLength
    ensures Good(Finish(p)) && Good(Toggle(p, synthIndex)) && Good(Frame(p, ring, synthIndex))
    ensures Good(Import(p, channel))
  {
  }

  /** Pressing Record while idle starts afresh; pressing it while recording
      finishes and commits the buffer. */
  lemma ToggleStartsOrStops(p: Panel, synthIndex: nat)
    ensures !p.recording ==> var q := Toggle(p, synthIndex);
      && q.recording && q.recordingIndex == 0 && q.waveformBufferIndex == synthIndex
      && |q.samples| == Capacity && (forall i :: 0 <= i < Capacity ==> q.samples[i] == 0.0)
      && q.committed == p.committed
    ensures p.recording ==> var q := Toggle(p, synthIndex);
      && !q.recording && q.committed == p.samples && q.samples == p.samples
      && q.recordingIndex == p.recordingIndex
  {
  }

  /** A frame while idle changes nothing. */
  lemma IdleFrame(p: Panel, ring: seq<real>, synthIndex: nat)
    requires Good(p) && |ring| == VowelSynth.WaveformLength && !p.recording
    ensures Frame(p, ring, synthIndex) == p
  {
  }

  /** A frame while recording writes the first `count` new ring samples at
      the recording index, where `count` is what fits, and keeps every other
      sample; the index advances by `count` and the ring index is noted. */
  lemma FrameAppends(p: Panel, ring: seq<real>, synthIndex: nat)
    requires Good(p) && |ring| == VowelSynth.WaveformLength && p.recording
    ensures var q := Frame(p, ring, synthIndex);
      var w := VowelSynth.Waveform(ring, synthIndex, p.waveformBufferIndex);
      var i := p.recordingIndex;
      var count := FrameCount(p, ring, synthIndex);
      && count == (if |w| <= Capacity - i then |w| else Capacity - i)
      && q.recordingIndex == i + count
      && |q.samples| == Capacity
      && q.samples[..i] == p.samples[..i]
      && q.samples[i..i + count] == w[..count]
      && q.samples[i + count..] == p.samples[i + count..]
      && q.waveformBufferIndex == synthIndex
  {
    var q := Frame(p, ring, synthIndex);
    var w := VowelSynth.Waveform(ring, synthIndex, p.waveformBufferIndex);
    var i := p.recordingIndex;
    var count := FrameCount(p, ring, synthIndex);
    var s := p.samples[..i] + w[..count] + p.samples[i + count..];
    assert q.samples == s;
    assert s[..i] == p.samples[..i];
    assert s[i..i + count] == w[..count];
    assert s[i + count..] == p.samples[i + count..];
  }

  /** A frame ends the recording exactly when the buffer is full, and then
      commits it; otherwise the committed buffer is untouched. */
  lemma FrameStops(p: Panel, ring: seq<real>, synthIndex: nat)
    requires Good(p) && |ring| == VowelSynth.WaveformLength && p.recording
    ensures var q := Frame(p, ring, synthIndex);
      && (!q.recording <==> q.recordingIndex == Capacity)
      && (!q.recording ==> q.committed == q.samples)
      && (q.recording ==> q.committed == p.committed)
  {
  }

  /** End to end: the blocks the synthesiser captured since the noted ring
      index (one per message of the audio worklet) land in the sample buffer
      at the recording index on the next frame, in order and as many as fit;
      the recording goes on exactly when they all fit with room to spare. */
  lemma CaptureThenFrame(p: Panel, ring: seq<real>, blocks: seq<seq<real>>)
    requires Good(p) && |ring| == VowelSynth.WaveformLength && p.recording
    requires |VowelSynth.Joined(blocks)| < VowelSynth.WaveformLength
    ensures var start := p.waveformBufferIndex;
      var q := Frame(p, VowelSynth.CapturedAll(ring, start, blocks), VowelSynth.IndexAfter(start, blocks));
      var data := VowelSynth.Joined(blocks);
      var count := Min(|data|, Capacity - p.recordingIndex);
      && q.recordingIndex == p.recordingIndex + count
      && q.samples[p.recordingIndex..q.recordingIndex] == data[..count]
      && (q.recording <==> |data| < Capacity - p.recordingIndex)
  {
    var start := p.waveformBufferIndex;
    var next := VowelSynth.CapturedAll(ring, start, blocks);
    var index := VowelSynth.IndexAfter(start, blocks);
    VowelSynth.CaptureBlocksThenRead(ring, start, blocks);
    assert VowelSynth.Waveform(next, index, start) == VowelSynth.Joined(blocks);
    FrameAppends(p, next, index);
    FrameStops(p, next, index);
  }

  /** Import keeps at most a buffer's worth of the channel, zeroes the rest,
      sets the recording index to the count kept and commits the buffer. */
  lemma ImportKeeps(p: Panel, channel: seq<real>)
    ensures var q := Import(p, channel);
      var kept := if |channel| <= Capacity then |channel| else Capacity;
      && q.recordingIndex == kept
      && |q.samples| == Capacity
      && q.samples[..kept] == channel[..kept]
      && (forall i :: kept <= i < Capacity ==> q.samples[i] == 0.0)
      && !q.recording && q.committed == q.samples
  {
    var q := Import(p, channel);
    var kept := Min(|channel|, Capacity);
    assert q.samples[..kept] == channel[..kept];
  }

  /** The exported file holds exactly the recorded prefix: 44 + 2·index
      bytes, sample k reading back as the stored form of samples[k]. */
  lemma ExportPrefix(p: Panel, sampleRate: int, k: nat)
    requires Good(p) && k < p.recordingIndex
    ensures var w := Export(p, sampleRate);
      && |w| == WavEncode.HeaderSize + 2 * p.recordingIndex
      && Int16At(w, WavEncode.HeaderSize + 2 * k) == WavEncode.Pcm(p.samples[k])
  {
    var recorded := p.samples[..p.recordingIndex];
    WavEncode.WavLayout(recorded, sampleRate);
    WavEncode.WavSample(recorded, sampleRate, k);
  }

  /** The two's-complement 16-bit integer at byte `offset` of w. */
  function Int16At(w: seq<WavEncode.uint8>, offset: nat): int
    requires offset + 2 <= |w|
  {
    WavEncode.Int16Value(w[offset..offset + 2])
  }

  /** The panel's state object (RecordingPanel.tsx:65-80), without the
      canvas and the playback fields. */
  class State {
    const synth: VowelSynth.Synth
    /** Each sample is in [−1, 1] when it comes from the synthesiser. */
    const sampleBuffer: array<real>
    var recording: bool
    var recordingIndex: nat
    var waveformBufferIndex: nat

    ghost function View(): Panel
      reads this, sampleBuffer, synth, synth.recordingBuffer
    {
      Panel(sampleBuffer[..], recording, recordingIndex, waveformBufferIndex, synth.recordingBuffer[..])
    }

    /** The buffers are the right, distinct arrays and the view is sized. */
    ghost predicate Wired()
      reads this, sampleBuffer, synth, synth.recordingBuffer
    {
      && synth.Valid()
      && sampleBuffer.Length == Capacity
      && sampleBuffer != synth.recordingBuffer
      && sampleBuffer != synth.waveformBuffer
      && Sized(View())
    }

    ghost predicate Valid()
      reads this, sampleBuffer, synth, synth.recordingBuffer
    {
      Wired() && Good(View())
    }

    /** The initial state (RecordingPanel.tsx:13-26). */
    constructor (s: VowelSynth.Synth)
      requires s.Valid()
      ensures Valid() && synth == s && fresh(sampleBuffer)
      ensures View() == Panel(Zeros(Capacity), false, 0, 0, s.recordingBuffer[..])
    {
      synth := s;
      sampleBuffer := new real[s.recordingBuffer.Length](_ => 0.0);
      recording := false;
      recordingIndex := 0;
      waveformBufferIndex := 0;
      new;
      assert sampleBuffer[..] == Zeros(Capacity);
    }

    /** recordingFinish: copyToChannel of the whole sample buffer into
        channel 0 of the recording buffer. */
    method RecordingFinish()
      requires Wired()
      modifies this, synth.recordingBuffer
      ensures Valid()
      ensures View() == Finish(old(View()))
    {
      recording := false;
      forall i | 0 <= i < sampleBuffer.Length {
        synth.recordingBuffer[i] := sampleBuffer[i];
      }
      assert synth.recordingBuffer[..] == sampleBuffer[..];
    }

    /** Float32Array.set: `chunk` copied into the sample buffer from
        `offset` on. */
    method SetSamples(chunk: seq<real>, offset: nat)
      requires Wired() && offset + |chunk| <= sampleBuffer.Length
      modifies sampleBuffer
      ensures Wired()
      ensures sampleBuffer[..] == old(sampleBuffer[..])[..offset] + chunk + old(sampleBuffer[..])[offset + |chunk|..]
    {
      ghost var before := sampleBuffer[..];
      forall i | 0 <= i < |chunk| {
        sampleBuffer[offset + i] := chunk[i];
      }
      assert sampleBuffer[..] == before[..offset] + chunk + before[offset + |chunk|..];
    }

    /** recordingToggle. */
    method RecordingToggle()
      requires Valid()
      modifies this, sampleBuffer, synth.recordingBuffer
      ensures Valid()
      ensures View() == Toggle(old(View()), synth.waveformBufferIndex)
    {
      if recording {
        RecordingFinish();
        return;
      }
      forall i | 0 <= i < sampleBuffer.Length {
        sampleBuffer[i] := 0.0;
      }
      recording := true;
      recordingIndex := 0;
      waveformBufferIndex := synth.waveformBufferIndex;
      assert sampleBuffer[..] == Zeros(Capacity);
    }

    /** recordingFrame: copies the ring samples since the noted index, as
        many as fit, to the recording index, and finishes once the buffer
        is full. */
    method RecordingFrame()
      requires Valid()
      modifies this, sampleBuffer, synth.recordingBuffer
      ensures Valid()
      ensures View() == Frame(old(View()), synth.waveformBuffer[..], synth.waveformBufferIndex)
    {
      if !recording {
        return;
      }
      ghost var p := View();
      ghost var ring := synth.waveformBuffer[..];
      var waveform := synth.GetWaveform(waveformBufferIndex);
      var count := Min(waveform.Length, sampleBuffer.Length - recordingIndex);
      assert count == FrameCount(p, ring, synth.waveformBufferIndex);
      SetSamples(waveform[..count], recordingIndex);
      recordingIndex := recordingIndex + count;
      waveformBufferIndex := synth.waveformBufferIndex;
      if recordingIndex >= sampleBuffer.Length {
        RecordingFinish();
      }
    }

    /** The buffer part of importWav, given the decoded first channel. */
    method ImportWav(channel: seq<real>)
      requires Valid()
      modifies this, sampleBuffer, synth.recordingBuffer
      ensures Valid()
      ensures View() == Import(old(View()), channel)
    {
      var waveform := channel[..Min(|channel|, sampleBuffer.Length)];
      forall i | 0 <= i < sampleBuffer.Length {
        sampleBuffer[i] := 0.0;
      }
      ghost var zeros := sampleBuffer[..];
      assert zeros == Zeros(Capacity);
      SetSamples(waveform, 0);
      assert sampleBuffer[..] == waveform + Zeros(Capacity - |waveform|);
      recordingIndex := |waveform|;
      RecordingFinish();
    }

    /** exportWav: the encoded prefix of the sample buffer, before it is
        handed to the download. */
    method ExportWav(sampleRate: int) returns (data: array<WavEncode.uint8>)
      requires Valid()
      ensures fresh(data)
      ensures data[..] == Export(View(), sampleRate)
    {
      data := WavEncode.Encode(sampleBuffer[..recordingIndex], sampleRate);
    }
  }
}
