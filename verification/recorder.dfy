/** `Recorder`: the manual mixing kernel of `MixStreams` with its buffer
    sizing, time-based throttle and counters, the mono-to-stereo decision for
    the microphone, and the byte accounting of system-only recording.
    Samples are `real`s; capture devices, buffers and the wave writer are
    replaced by the sample counts they deliver. */
module Recorder {
  import opened TimeFormat

  function Max(a: int, b: int): int { if a >= b then a else b }

  /** The counters `StartRecording` resets. */
  datatype RecorderStats = RecorderStats(totalBytesWritten: int, dataAvailableCallCount: int,
                                         totalSamplesProcessed: int)

  /** `StartRecording` zeroes the three counters, whatever they held. */
  function StartRecording(prev: RecorderStats): (r: RecorderStats)
    ensures r.totalBytesWritten == 0 && r.dataAvailableCallCount == 0 && r.totalSamplesProcessed == 0
  {
    RecorderStats(0, 0, 0)
  }

  /** The samples of 100 ms of output: `rate * channels / 10`. */
  function BufferSamples(sampleRate: nat, channels: nat): (n: nat)
    ensures n * 10 <= sampleRate * channels < (n + 1) * 10
  {
    sampleRate * channels / 10
  }

  /** Whether the microphone stream is widened to stereo: only when the
      channel counts differ and the microphone is mono. */
  predicate ConvertMicToStereo(micChannels: int, systemChannels: int)
  {
    micChannels != systemChannels && micChannels == 1
  }

  /** `MonoToStereoSampleProvider`: each sample is sent to both channels. */
  function MonoToStereo(mono: seq<real>): (r: seq<real>)
    ensures |r| == 2 * |mono|
    ensures forall i :: 0 <= i < |mono| ==> r[2 * i] == mono[i] && r[2 * i + 1] == mono[i]
    decreases |mono|
  {
    if |mono| == 0 then []
    else
      var rest := MonoToStereo(mono[1..]);
      assert forall i :: 1 <= i < |mono| ==> mono[1..][i - 1] == mono[i];
      [mono[0], mono[0]] + rest
  }

  /** One channel of an interleaved stereo stream. */
  function LeftChannel(stereo: seq<real>): (r: seq<real>)
    ensures |r| == |stereo| / 2
  {
    seq(|stereo| / 2, i requires 0 <= i < |stereo| / 2 => stereo[2 * i])
  }

  /** Widening loses nothing: either channel gives the microphone signal back. */
  lemma MonoToStereoRoundTrip(mono: seq<real>)
    ensures LeftChannel(MonoToStereo(mono)) == mono
  {
  }

  /** The microphone stream `MixStreams` mixes: widened when the rule above
      says so, passed on as it is otherwise (also when the channel counts
      differ but the microphone is not mono). */
  function MicStream(mic: seq<real>, micChannels: int, systemChannels: int): (r: seq<real>)
    ensures ConvertMicToStereo(micChannels, systemChannels) ==>
      |r| == 2 * |mic| && LeftChannel(r) == mic
    ensures !ConvertMicToStereo(micChannels, systemChannels) ==> r == mic
  {
    if ConvertMicToStereo(micChannels, systemChannels) then
      MonoToStereoRoundTrip(mic);
      MonoToStereo(mic)
    else mic
  }

  /** The value a buffer contributes at position `i` after a read of `n`
      samples: the sample when one was read there, silence otherwise. */
  function SampleAt(buffer: seq<real>, n: int, i: int): real
    requires n <= |buffer|
  {
    if 0 <= i < n then buffer[i] else 0.0
  }

  /** The mixing loop of `MixStreams`: as many output samples as the longer
      of the two reads, each the average of the two sides with a missing
      sample taken as silence. */
  method MixBuffers(systemBuffer: seq<real>, systemSamplesRead: nat,
                    micBuffer: seq<real>, micSamplesRead: nat) returns (mixed: seq<real>)
    requires systemSamplesRead <= |systemBuffer| && micSamplesRead <= |micBuffer|
    ensures |mixed| == Max(systemSamplesRead, micSamplesRead)
    ensures forall i :: 0 <= i < |mixed| ==>
      mixed[i] == (SampleAt(systemBuffer, systemSamplesRead, i) + SampleAt(micBuffer, micSamplesRead, i)) * 0.5
  {
    var samplesToWrite := Max(systemSamplesRead, micSamplesRead);
    mixed := [];
    var i := 0;
    while i < samplesToWrite
      invariant 0 <= i <= samplesToWrite && |mixed| == i
      invariant forall j :: 0 <= j < i ==>
        mixed[j] == (SampleAt(systemBuffer, systemSamplesRead, j) + SampleAt(micBuffer, micSamplesRead, j)) * 0.5
    {
      var systemValue := if i < systemSamplesRead then systemBuffer[i] else 0.0;
      var micValue := if i < micSamplesRead then micBuffer[i] else 0.0;
      mixed := mixed + [(systemValue + micValue) * 0.5];
      i := i + 1;
    }
  }

  /** The mix a call of `MixBuffers` produces, as a value. */
  function Mix(systemBuffer: seq<real>, systemSamplesRead: nat, micBuffer: seq<real>, micSamplesRead: nat): (r: seq<real>)
    requires systemSamplesRead <= |systemBuffer| && micSamplesRead <= |micBuffer|
  {
    seq(Max(systemSamplesRead, micSamplesRead), i =>
      (SampleAt(systemBuffer, systemSamplesRead, i) + SampleAt(micBuffer, micSamplesRead, i)) * 0.5)
  }

  /** The two sides are treated alike: swapping them changes nothing. */
  lemma MixIsSymmetric(s: seq<real>, sn: nat, m: seq<real>, mn: nat)
    requires sn <= |s| && mn <= |m|
    ensures Mix(s, sn, m, mn) == Mix(m, mn, s, sn)
  {
  }

  /** A side that delivered nothing does not pass the other through: the
      other side comes out at half its level. */
  lemma LoneSourceIsHalved(s: seq<real>, sn: nat, m: seq<real>)
    requires sn <= |s|
    ensures var r := Mix(s, sn, m, 0);
      |r| == sn && forall i :: 0 <= i < sn ==> r[i] == s[i] / 2.0
  {
  }

  /** The same signal on both sides comes out unchanged. */
  lemma MixOfEqualSidesIsIdentity(s: seq<real>, n: nat)
    requires n <= |s|
    ensures Mix(s, n, s, n) == s[..n]
  {
  }

  predicate InUnitRange(s: seq<real>)
  {
    forall i :: 0 <= i < |s| ==> -1.0 <= s[i] <= 1.0
  }

  /** Averaging never clips: full-scale inputs give full-scale output. */
  lemma MixStaysInRange(s: seq<real>, sn: nat, m: seq<real>, mn: nat)
    requires sn <= |s| && mn <= |m|
    requires InUnitRange(s) && InUnitRange(m)
    ensures InUnitRange(Mix(s, sn, m, mn))
  {
  }

  /** The mixing loop's state: the counters of the recorder, the samples
      written since the loop started and the number of productive passes. */
  datatype MixState = MixState(stats: RecorderStats, totalSamplesWritten: int, mixLoopCount: int)

  /** What one pass of the loop observes: the elapsed time, how many bytes
      each buffer holds, how many samples each read returned, and whether the
      writer is still open. */
  datatype MixPass = MixPass(elapsedMs: int, systemBufferedBytes: int, micBufferedBytes: int,
                             systemSamplesRead: nat, micSamplesRead: nat, writerOpen: bool)

  /** `(long)(elapsed.TotalSeconds * rate * channels)`, truncated toward zero. */
  function ExpectedSamples(elapsedMs: int, sampleRate: nat, channels: nat): int
  {
    TruncDiv(elapsedMs * sampleRate * channels, 1000)
  }

  /** Whether a pass reads and writes: the loop is behind real time and one
      of the buffers holds at least two bytes per buffer sample. */
  predicate PassWrites(st: MixState, p: MixPass, sampleRate: nat, channels: nat)
  {
    var bufferSamples := BufferSamples(sampleRate, channels);
    && st.totalSamplesWritten < ExpectedSamples(p.elapsedMs, sampleRate, channels)
    && (p.systemBufferedBytes >= bufferSamples * 2 || p.micBufferedBytes >= bufferSamples * 2)
    && Max(p.systemSamplesRead, p.micSamplesRead) > 0
  }

  /** One pass of the `MixStreams` loop. A read never returns more than the
      buffer holds. */
  function MixIteration(st: MixState, p: MixPass, sampleRate: nat, channels: nat): (r: MixState)
    requires p.systemSamplesRead <= BufferSamples(sampleRate, channels)
    requires p.micSamplesRead <= BufferSamples(sampleRate, channels)
    ensures !PassWrites(st, p, sampleRate, channels) ==> r == st
    ensures PassWrites(st, p, sampleRate, channels) ==>
      var n := Max(p.systemSamplesRead, p.micSamplesRead);
      && 0 < n <= BufferSamples(sampleRate, channels)
      && n * 4 <= BufferSamples(sampleRate, channels) * 4
      && r.totalSamplesWritten == st.totalSamplesWritten + n
      && r.mixLoopCount == st.mixLoopCount + 1
      && r.stats.dataAvailableCallCount == st.stats.dataAvailableCallCount
      && (p.writerOpen ==>
            r.stats.totalBytesWritten == st.stats.totalBytesWritten + n * 4
            && r.stats.totalSamplesProcessed == st.stats.totalSamplesProcessed + n)
      && (!p.writerOpen ==> r.stats == st.stats)
  {
    if PassWrites(st, p, sampleRate, channels) then
      var n := Max(p.systemSamplesRead, p.micSamplesRead);
      var stats := if p.writerOpen then
        st.stats.(totalBytesWritten := st.stats.totalBytesWritten + n * 4,
                  totalSamplesProcessed := st.stats.totalSamplesProcessed + n)
      else st.stats;
      MixState(stats, st.totalSamplesWritten + n, st.mixLoopCount + 1)
    else st
  }

  predicate ReadsFit(passes: seq<MixPass>, sampleRate: nat, channels: nat)
  {
    forall i :: 0 <= i < |passes| ==>
      passes[i].systemSamplesRead <= BufferSamples(sampleRate, channels)
      && passes[i].micSamplesRead <= BufferSamples(sampleRate, channels)
  }

  /** The mixing loop over a sequence of passes. */
  function MixLoop(st: MixState, passes: seq<MixPass>, sampleRate: nat, channels: nat): MixState
    requires ReadsFit(passes, sampleRate, channels)
    decreases |passes|
  {
    if |passes| == 0 then st
    else MixLoop(MixIteration(st, passes[0], sampleRate, channels), passes[1..], sampleRate, channels)
  }

  /** A clock that never runs backwards, starting no earlier than `now`. */
  predicate ElapsedFrom(now: int, passes: seq<MixPass>)
    decreases |passes|
  {
    |passes| == 0 || (now <= passes[0].elapsedMs && ElapsedFrom(passes[0].elapsedMs, passes[1..]))
  }

  lemma ExpectedMonotone(a: int, b: int, sampleRate: nat, channels: nat)
    requires a <= b
    ensures ExpectedSamples(a, sampleRate, channels) <= ExpectedSamples(b, sampleRate, channels)
  {
    ProductMonotone(a, b, sampleRate, channels);
    TruncDivMonotone(a * sampleRate * channels, b * sampleRate * channels);
  }

  lemma ProductMonotone(a: int, b: int, sampleRate: nat, channels: nat)
    requires a <= b
    ensures a * sampleRate * channels <= b * sampleRate * channels
  {
    var x := (b - a) * sampleRate;
    assert x >= 0;
    assert x * channels >= 0;
    assert b * sampleRate * channels - a * sampleRate * channels == x * channels;
  }

  /** C#'s truncating division by 1000 never decreases. */
  lemma TruncDivMonotone(x: int, y: int)
    requires x <= y
    ensures TruncDiv(x, 1000) <= TruncDiv(y, 1000)
  {
  }

  /** The loop's accounting over any run with the writer open: samples
      written only grow, by one read at a time; the bytes written are four per
      sample; and the loop never gets more than one buffer ahead of the
      samples real time calls for. */
  lemma {:induction false} MixLoopAccounting(st: MixState, passes: seq<MixPass>, sampleRate: nat,
                                             channels: nat, now: int)
    requires ReadsFit(passes, sampleRate, channels)
    requires ElapsedFrom(now, passes)
    requires forall i :: 0 <= i < |passes| ==> passes[i].writerOpen
    requires st.totalSamplesWritten <= ExpectedSamples(now, sampleRate, channels) + BufferSamples(sampleRate, channels)
    ensures var r := MixLoop(st, passes, sampleRate, channels);
      && r.totalSamplesWritten >= st.totalSamplesWritten
      && r.stats.totalBytesWritten - st.stats.totalBytesWritten == 4 * (r.totalSamplesWritten - st.totalSamplesWritten)
      && r.stats.totalSamplesProcessed - st.stats.totalSamplesProcessed == r.totalSamplesWritten - st.totalSamplesWritten
      && r.stats.dataAvailableCallCount == st.stats.dataAvailableCallCount
      && (|passes| > 0 ==> r.totalSamplesWritten <= ExpectedSamples(passes[|passes| - 1].elapsedMs, sampleRate, channels)
                                                   + BufferSamples(sampleRate, channels))
    decreases |passes|
  {
    if |passes| > 0 {
      var p := passes[0];
      var st1 := MixIteration(st, p, sampleRate, channels);
      ExpectedMonotone(now, p.elapsedMs, sampleRate, channels);
      assert ReadsFit(passes[1..], sampleRate, channels);
      MixLoopAccounting(st1, passes[1..], sampleRate, channels, p.elapsedMs);
      if |passes| > 1 {
        assert passes[1..][|passes[1..]| - 1] == passes[|passes| - 1];
      }
    }
  }

  /** One `DataAvailable` callback in system-only mode. */
  datatype Callback = Callback(bytesRecorded: nat, recording: bool, writerOpen: bool)

  /** The bytes the callbacks delivered while recording with the writer open. */
  function RecordedBytes(cbs: seq<Callback>): nat
    decreases |cbs|
  {
    if |cbs| == 0 then 0
    else (if cbs[0].recording && cbs[0].writerOpen then cbs[0].bytesRecorded else 0) + RecordedBytes(cbs[1..])
  }

  /** The system-only `DataAvailable` handler: every callback is counted;
      its bytes are written and counted only while recording with the writer
      open. */
  function OnDataAvailable(st: RecorderStats, cb: Callback): (r: RecorderStats)
    ensures r.dataAvailableCallCount == st.dataAvailableCallCount + 1
    ensures r.totalSamplesProcessed == st.totalSamplesProcessed
    ensures cb.recording && cb.writerOpen ==> r.totalBytesWritten == st.totalBytesWritten + cb.bytesRecorded
    ensures !(cb.recording && cb.writerOpen) ==> r.totalBytesWritten == st.totalBytesWritten
  {
    var counted := st.(dataAvailableCallCount := st.dataAvailableCallCount + 1);
    if cb.recording && cb.writerOpen then
      counted.(totalBytesWritten := counted.totalBytesWritten + cb.bytesRecorded)
    else counted
  }

  /** Callbacks in arrival order. */
  function SystemOnlyRun(st: RecorderStats, cbs: seq<Callback>): RecorderStats
    decreases |cbs|
  {
    if |cbs| == 0 then st
    else SystemOnlyRun(OnDataAvailable(st, cbs[0]), cbs[1..])
  }

  /** After `StartRecording`, the system-only counters are exactly the number
      of callbacks and the bytes delivered while recording. */
  lemma {:induction false} SystemOnlyAccounting(st: RecorderStats, cbs: seq<Callback>)
    ensures SystemOnlyRun(st, cbs).dataAvailableCallCount == st.dataAvailableCallCount + |cbs|
    ensures SystemOnlyRun(st, cbs).totalBytesWritten == st.totalBytesWritten + RecordedBytes(cbs)
    ensures SystemOnlyRun(st, cbs).totalSamplesProcessed == st.totalSamplesProcessed
    ensures var r := SystemOnlyRun(StartRecording(st), cbs);
      r.dataAvailableCallCount == |cbs| && r.totalBytesWritten == RecordedBytes(cbs)
    decreases |cbs|
  {
    if |cbs| > 0 {
      SystemOnlyAccounting(OnDataAvailable(st, cbs[0]), cbs[1..]);
      SystemOnlyAccounting(OnDataAvailable(StartRecording(st), cbs[0]), cbs[1..]);
    }
  }
}
