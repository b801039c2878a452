/**
 The audio callback of the JACK driver (cae/cae_jack.cpp): every output sample is the sum
 of the inputs and of the playing streams, each at its level.
 */
module JackMix {
  import opened Arithmetic
  import opened JackStream

  const PORTS := 8
  const PLAY_STREAMS := 16

  // ---------------------------------------------------------------- specification

  /** Sample `l` of side `k` in what a callback reads from a stream, silence where it ran dry. */
  function Sample(s: Stream, nframes: nat, k: int, l: int): real
    requires 1 <= s.channels <= 2 && 0 <= k < 2 && 0 <= l
  {
    if !s.playing || l >= FramesRead(s, nframes) then 0.0
    else if s.channels == 1 then s.ring[l]
    else s.ring[2 * l + k]
  }

  /** The first `n` streams at port `j`, at their output levels. */
  function StreamSum(streams: seq<Stream>, level: seq<seq<real>>, nframes: nat, n: nat, j: int, k: int, l: int): real
    requires n <= |streams| && (forall s <- streams :: 1 <= s.channels <= 2)
    requires 0 <= j < |level| && |streams| <= |level[j]| && 0 <= k < 2 && 0 <= l
  {
    if n == 0 then 0.0
    else
      StreamSum(streams, level, nframes, n - 1, j, k, l)
      + Scaled(level[j][n - 1], Sample(streams[n - 1], nframes, k, l))
  }

  /** The first `n` inputs at port `j`, at their passthrough levels. */
  function InputSum(input: array3<real>, level: seq<seq<real>>, n: nat, j: int, k: int, l: int): real
    requires n <= input.Length0 && n <= |level| && 0 <= j && (forall row <- level :: j < |row|)
    requires 0 <= k < input.Length1 && 0 <= l < input.Length2
    reads input
  {
    if n == 0 then 0.0
    else InputSum(input, level, n - 1, j, k, l) + input[n - 1, k, l] * level[n - 1][j]
  }

  /** Is the stream played at any of the first `n` ports? */
  predicate Audible(level: seq<seq<real>>, i: int, n: nat)
    requires n <= |level| && 0 <= i && (forall row <- level :: i < |row|)
  {
    exists j :: 0 <= j < n && level[j][i] > 0.0
  }

  predicate Levels(level: seq<seq<real>>, rows: nat, columns: nat) {
    && |level| == rows
    && forall i :: 0 <= i < rows ==> |level[i]| == columns && forall j :: 0 <= j < columns ==> level[i][j] >= 0.0
  }

  /** A stream whose ring buffer has given up `count` samples. */
  function Taken(s: Stream, count: nat): Stream
    requires count <= |s.ring|
  {
    s.(ring := s.ring[count..], played := s.played + s.ring[..count])
  }

  function Flagged(s: Stream, stop: bool): Stream {
    if stop then s.(playing := false, stopping := true) else s
  }

  /** The first `n` streams after a callback, the others before it. */
  function AllProcessed(streams: seq<Stream>, level: seq<seq<real>>, nframes: nat, n: nat): (r: seq<Stream>)
    requires n <= |streams| && (forall s <- streams :: 1 <= s.channels <= 2)
    requires PORTS <= |level| && (forall row <- level :: |streams| <= |row|)
    ensures |r| == |streams|
    ensures forall i :: 0 <= i < |streams| ==>
              r[i] == if i < n then Callback(streams[i], nframes, Audible(level, i, PORTS)) else streams[i]
  {
    if n == 0 then streams
    else
      var last := Callback(streams[n - 1], nframes, Audible(level, n - 1, PORTS));
      AllProcessed(streams, level, nframes, n - 1)[n - 1 := last]
  }

  class JackDriver {
    var streams: seq<Stream>
    var outputVolume: seq<seq<real>>
    var passthroughVolume: seq<seq<real>>
    const inputBuffer: array3<real>
    const outputBuffer: array3<real>

    ghost predicate Ready()
      reads this
    {
      && |streams| == PLAY_STREAMS && (forall s <- streams :: 1 <= s.channels <= 2)
      && Levels(outputVolume, PORTS, PLAY_STREAMS) && Levels(passthroughVolume, PORTS, PORTS)
      && inputBuffer != outputBuffer
      && inputBuffer.Length0 == outputBuffer.Length0 == PORTS
      && inputBuffer.Length1 == outputBuffer.Length1 == 2
      && inputBuffer.Length2 == outputBuffer.Length2
    }

    constructor (nframes: nat)
      ensures Ready() && outputBuffer.Length2 == nframes && fresh(inputBuffer) && fresh(outputBuffer)
    {
      streams := seq(PLAY_STREAMS, i => Unfilled([], 0, 1, 1));
      outputVolume := seq(PORTS, i => seq(PLAY_STREAMS, j => 1.0));
      passthroughVolume := seq(PORTS, i => seq(PORTS, j => 0.0));
      inputBuffer := new real[PORTS, 2, nframes];
      outputBuffer := new real[PORTS, 2, nframes];
      new;
    }

    /** `gain` is the linear value of `level`, in hundredths of a decibel. */
    method SetOutputVolume(stream: int, port: int, level: int, gain: real) returns (ok: bool)
      requires Ready() && gain > 0.0
      modifies this`outputVolume
      ensures Ready()
      ensures ok <==> 0 <= stream < PLAY_STREAMS && 0 <= port < PORTS
      ensures !ok ==> outputVolume == old(outputVolume)
      ensures ok ==> var row := old(outputVolume)[port][stream := if level > -10000 then gain else 0.0];
                     outputVolume == old(outputVolume)[port := row]
    {
      if stream < 0 || stream >= PLAY_STREAMS || port < 0 || port >= PORTS {
        return false;
      }
      if level > -10000 {
        outputVolume := outputVolume[port := outputVolume[port][stream := gain]];
      } else {
        outputVolume := outputVolume[port := outputVolume[port][stream := 0.0]];
      }
      return true;
    }

    method SetPassthroughLevel(inPort: int, outPort: int, level: int, gain: real) returns (ok: bool)
      requires Ready() && gain > 0.0
      modifies this`passthroughVolume
      ensures Ready()
      ensures ok <==> 0 <= inPort < PORTS && 0 <= outPort < PORTS
      ensures !ok ==> passthroughVolume == old(passthroughVolume)
      ensures ok ==> var row := old(passthroughVolume)[inPort][outPort := if level > -10000 then gain else 0.0];
                     passthroughVolume == old(passthroughVolume)[inPort := row]
    {
      if inPort < 0 || inPort >= PORTS || outPort < 0 || outPort >= PORTS {
        return false;
      }
      if level > -10000 {
        passthroughVolume := passthroughVolume[inPort := passthroughVolume[inPort][outPort := gain]];
      } else {
        passthroughVolume := passthroughVolume[inPort := passthroughVolume[inPort][outPort := 0.0]];
      }
      return true;
    }

    // ------------------------------------------------------------- passthroughs

    method ZeroOutputPorts()
      requires Ready()
      modifies outputBuffer
      ensures forall j, k, l :: 0 <= j < PORTS && 0 <= k < 2 && 0 <= l < outputBuffer.Length2 ==>
              outputBuffer[j, k, l] == 0.0
    {
      var i := 0;
      while i < PORTS
        invariant 0 <= i <= PORTS
        invariant forall j, k, l :: 0 <= j < i && 0 <= k < 2 && 0 <= l < outputBuffer.Length2 ==>
                  outputBuffer[j, k, l] == 0.0
      {
        forall k, l | 0 <= k < 2 && 0 <= l < outputBuffer.Length2 {
          outputBuffer[i, k, l] := 0.0;
        }
        i := i + 1;
      }
    }

    /** Adds input `i`, at a level, to both sides of port `j`. */
    method AddInput(i: int, j: int)
      requires Ready() && 0 <= i < PORTS && 0 <= j < PORTS
      modifies outputBuffer
      ensures forall k, l :: 0 <= k < 2 && 0 <= l < outputBuffer.Length2 ==>
                outputBuffer[j, k, l] == old(outputBuffer[j, k, l]) + inputBuffer[i, k, l] * passthroughVolume[i][j]
      ensures forall p, k, l :: 0 <= p < PORTS && p != j && 0 <= k < 2 && 0 <= l < outputBuffer.Length2 ==>
                outputBuffer[p, k, l] == old(outputBuffer[p, k, l])
    {
      var k := 0;
      while k < 2
        invariant 0 <= k <= 2
        invariant forall k', l :: 0 <= k' < 2 && 0 <= l < outputBuffer.Length2 ==>
                    outputBuffer[j, k', l] ==
                    if k' < k then old(outputBuffer[j, k', l]) + inputBuffer[i, k', l] * passthroughVolume[i][j]
                                               else old(outputBuffer[j, k', l])
        invariant forall p, k', l :: 0 <= p < PORTS && p != j && 0 <= k' < 2 && 0 <= l < outputBuffer.Length2 ==>
                    outputBuffer[p, k', l] == old(outputBuffer[p, k', l])
      {
        forall l | 0 <= l < outputBuffer.Length2 {
          outputBuffer[j, k, l] := outputBuffer[j, k, l] + inputBuffer[i, k, l] * passthroughVolume[i][j];
        }
        k := k + 1;
      }
    }

    /** Adds input `i` to every port that it is passed through to. */
    method PassThrough(i: int)
      requires Ready() && 0 <= i < PORTS
      requires forall j, k, l :: 0 <= j < PORTS && 0 <= k < 2 && 0 <= l < outputBuffer.Length2 ==>
                 outputBuffer[j, k, l] == InputSum(inputBuffer, passthroughVolume, i, j, k, l)
      modifies outputBuffer
      ensures forall j, k, l :: 0 <= j < PORTS && 0 <= k < 2 && 0 <= l < outputBuffer.Length2 ==>
                outputBuffer[j, k, l] == InputSum(inputBuffer, passthroughVolume, i + 1, j, k, l)
    {
      var j := 0;
      while j < PORTS
        invariant 0 <= j <= PORTS
        invariant forall p, k, l :: 0 <= p < PORTS && 0 <= k < 2 && 0 <= l < outputBuffer.Length2 ==>
                    outputBuffer[p, k, l] ==
                    InputSum(inputBuffer, passthroughVolume, if p < j then i + 1 else i, p, k, l)
      {
        if passthroughVolume[i][j] > 0.0 {
          AddInput(i, j);
        }
        j := j + 1;
      }
    }

    method ProcessPassthroughs()
      requires Ready()
      requires forall j, k, l :: 0 <= j < PORTS && 0 <= k < 2 && 0 <= l < outputBuffer.Length2 ==>
               outputBuffer[j, k, l] == 0.0
      modifies outputBuffer
      ensures forall j, k, l :: 0 <= j < PORTS && 0 <= k < 2 && 0 <= l < outputBuffer.Length2 ==>
                outputBuffer[j, k, l] == InputSum(inputBuffer, passthroughVolume, PORTS, j, k, l)
    {
      var i := 0;
      while i < PORTS
        invariant 0 <= i <= PORTS
        invariant forall j, k, l :: 0 <= j < PORTS && 0 <= k < 2 && 0 <= l < outputBuffer.Length2 ==>
                    outputBuffer[j, k, l] == InputSum(inputBuffer, passthroughVolume, i, j, k, l)
      {
        PassThrough(i);
        i := i + 1;
      }
    }

    // ----------------------------------------------------------- output streams

    /** Adds what was read of a stream, at its level, to both sides of port `j`. */
    method AddStream(i: int, j: int, n: int, data: seq<real>, channels: int)
      requires Ready() && 0 <= i < PLAY_STREAMS && 0 <= j < PORTS && 0 <= n <= outputBuffer.Length2
      requires 1 <= channels <= 2 && n * channels <= |data|
      modifies outputBuffer
      ensures forall k, l :: 0 <= k < 2 && 0 <= l < outputBuffer.Length2 ==>
                outputBuffer[j, k, l] == old(outputBuffer[j, k, l])
                  + (if l >= n then 0.0 else outputVolume[j][i] * if channels == 1 then data[l] else data[2 * l + k])
      ensures forall p, k, l :: 0 <= p < PORTS && p != j && 0 <= k < 2 && 0 <= l < outputBuffer.Length2 ==>
                outputBuffer[p, k, l] == old(outputBuffer[p, k, l])
    {
      forall k, l | 0 <= k < 2 && 0 <= l < n {
        outputBuffer[j, k, l] := outputBuffer[j, k, l]
                                  + outputVolume[j][i] * if channels == 1 then data[l] else data[2 * l + k];
      }
    }

    /** Plays what was read of stream `i`, `s` before the callback, at port `j`. */
    method MixAtPort(ghost s: Stream, i: int, j: int, n: int, data: seq<real>)
      requires Ready() && 0 <= i < PLAY_STREAMS && 0 <= j < PORTS
      requires 1 <= s.channels <= 2 && s.playing && n == FramesRead(s, outputBuffer.Length2)
      requires data == s.ring[..Min(outputBuffer.Length2 * s.channels, |s.ring|)]
      requires streams[i].channels == s.channels
      modifies this`streams, outputBuffer
      ensures Ready()
      ensures streams == if outputVolume[j][i] > 0.0 && n != outputBuffer.Length2 && old(streams)[i].eof
                         then old(streams)[i := old(streams)[i].(playing := false, stopping := true)] else old(streams)
      ensures forall k, l :: 0 <= k < 2 && 0 <= l < outputBuffer.Length2 ==>
                outputBuffer[j, k, l] ==
                old(outputBuffer[j, k, l]) + Scaled(outputVolume[j][i], Sample(s, outputBuffer.Length2, k, l))
      ensures forall p, k, l :: 0 <= p < PORTS && p != j && 0 <= k < 2 && 0 <= l < outputBuffer.Length2 ==>
                outputBuffer[p, k, l] == old(outputBuffer[p, k, l])
    {
      FramesFit(s, outputBuffer.Length2);
      if outputVolume[j][i] > 0.0 {
        AddStream(i, j, n, data, streams[i].channels);
        if n != outputBuffer.Length2 && streams[i].eof {
          streams := streams[i := streams[i].(playing := false, stopping := true)];
        }
      }
    }

    /** Plays one stream: what it adds at each port, and what the callback leaves of it. */
    method ProcessStream(i: int)
      requires Ready() && 0 <= i < PLAY_STREAMS && streams[i].playing
      modifies this`streams, outputBuffer
      ensures Ready()
      ensures var after := Callback(old(streams)[i], outputBuffer.Length2, Audible(outputVolume, i, PORTS));
              streams == old(streams)[i := after]
      ensures forall j, k, l :: 0 <= j < PORTS && 0 <= k < 2 && 0 <= l < outputBuffer.Length2 ==>
                outputBuffer[j, k, l] ==
                old(outputBuffer[j, k, l])
                + Scaled(outputVolume[j][i], Sample(old(streams)[i], outputBuffer.Length2, k, l))
    {
      var s := streams[i];
      var count := Min(outputBuffer.Length2 * s.channels, |s.ring|);
      var n := count / s.channels;
      var data := s.ring[..count];
      streams := streams[i := Taken(s, count)];
      var j := 0;
      while j < PORTS
        invariant 0 <= j <= PORTS && Ready()
        invariant var stop := n != outputBuffer.Length2 && s.eof && Audible(outputVolume, i, j);
                  streams == old(streams)[i := Flagged(Taken(s, count), stop)]
        invariant forall p, k, l :: 0 <= p < j && 0 <= k < 2 && 0 <= l < outputBuffer.Length2 ==>
                    outputBuffer[p, k, l] == old(outputBuffer[p, k, l])
                                              + Scaled(outputVolume[p][i], Sample(s, outputBuffer.Length2, k, l))
        invariant forall p, k, l :: j <= p < PORTS && 0 <= k < 2 && 0 <= l < outputBuffer.Length2 ==>
                    outputBuffer[p, k, l] == old(outputBuffer[p, k, l])
      {
        MixAtPort(s, i, j, n, data);
        j := j + 1;
      }
    }

    method ProcessOutputStreams()
      requires Ready()
      modifies this`streams, outputBuffer
      ensures Ready()
      ensures streams == AllProcessed(old(streams), outputVolume, outputBuffer.Length2, PLAY_STREAMS)
      ensures forall j, k, l :: 0 <= j < PORTS && 0 <= k < 2 && 0 <= l < outputBuffer.Length2 ==>
                outputBuffer[j, k, l] == old(outputBuffer[j, k, l])
                  + StreamSum(old(streams), outputVolume, outputBuffer.Length2, PLAY_STREAMS, j, k, l)
    {
      ghost var before := streams;
      var i := 0;
      while i < PLAY_STREAMS
        invariant 0 <= i <= PLAY_STREAMS && Ready() && |before| == PLAY_STREAMS
        invariant streams == AllProcessed(before, outputVolume, outputBuffer.Length2, i)
        invariant forall j, k, l :: 0 <= j < PORTS && 0 <= k < 2 && 0 <= l < outputBuffer.Length2 ==>
                    outputBuffer[j, k, l] == old(outputBuffer[j, k, l])
                                              + StreamSum(before, outputVolume, outputBuffer.Length2, i, j, k, l)
      {
        if streams[i].playing {
          ProcessStream(i);
        }
        i := i + 1;
      }
    }

    // ------------------------------------------------------- clock and commands

    ghost predicate AllValid()
      reads this
    {
      |streams| == PLAY_STREAMS && forall i :: 0 <= i < PLAY_STREAMS ==> Valid(streams[i])
    }

    /** Reads as much of the file as the ring buffer can take. */
    method FillOutputStream(stream: int)
      requires AllValid() && 0 <= stream < PLAY_STREAMS
      modifies this`streams
      ensures AllValid() && streams == old(streams)[stream := Fill(old(streams)[stream])]
    {
      FillValid(streams[stream]);
      var s := ReadAhead(streams[stream]);
      streams := streams[stream := s];
    }

    method ReadAhead(before: Stream) returns (s: Stream)
      requires Valid(before)
      ensures s == Fill(before)
    {
      s := before;
      FillSizeFits(before);
      var free := WriteSpace(s.ring) / SAMPLE_BYTES - 1;
      if free <= 0 || s.eof {
        return;
      }
      free := free / s.channels * s.channels;
      var n := Min(free, |s.file| - s.position);
      var data := s.file[s.position..s.position + n];
      s := s.(position := s.position + n);
      if n != free {
        s := s.(eof := true);
      }
      s := s.(ring := RingWrite(s.ring, Floats(data)));
    }

    method LoadPlayback(stream: int, file: seq<int>, dataStart: Offset, channels: int, rate: int)
      requires AllValid() && 0 <= stream < PLAY_STREAMS
      requires 1 <= channels <= 2 && rate > 0 && |file| % channels == 0
      modifies this`streams
      ensures AllValid() && streams == old(streams)[stream := Load(file, dataStart, channels, rate)]
    {
      UnfilledValid(file, dataStart, channels, rate);
      streams := streams[stream := Unfilled(file, dataStart, channels, rate)];
      FillOutputStream(stream);
    }

    /** Where a file stands after a frame is sought, in samples. */
    method SeekWave(s: Stream, frame: nat) returns (at: nat)
      requires 1 <= s.channels <= 2 && frame * (2 * s.channels) < WORD
      ensures at == Sought(s, frame)
    {
      var bytes := frame * (2 * s.channels);
      assert bytes == 2 * (frame * s.channels);
      var offset: int := if bytes < WORD / 2 then bytes else bytes - WORD;
      if offset < 0 {
        offset := 0;
      }
      at := if offset + s.dataStart < WORD / 2 then offset / 2 else s.position;
    }

    /** A stream positioned, but for the fill that follows. */
    method Positioned(before: Stream, ms: nat) returns (s: Stream, ok: bool)
      requires Valid(before)
      ensures ok <==> SeekFrame(before, ms) <= |before.file| / before.channels
      ensures Valid(s) && Seek(before, ms) == if ok then Fill(s) else s
    {
      var frame := SeekFrame(before, ms);
      KeptFits(before, ms);
      s := before.(eof := false, ring := [], offset := frame);
      ok := frame <= |s.file| / s.channels;
      if !ok {
        s := s.(start := s.position, played := []);
      } else {
        SoughtFits(before, frame);
        var at := SeekWave(s, frame);
        s := s.(position := at, start := at, played := []);
      }
      FreshValid(s, s.position);
    }

    method PlaybackPosition(stream: int, ms: nat) returns (ok: bool)
      requires AllValid() && 0 <= stream < PLAY_STREAMS
      modifies this`streams
      ensures AllValid() && streams == old(streams)[stream := Seek(old(streams)[stream], ms)]
      ensures ok <==> SeekFrame(old(streams)[stream], ms) <= |old(streams)[stream].file| / old(streams)[stream].channels
    {
      var s;
      s, ok := Positioned(streams[stream], ms);
      streams := streams[stream := s];
      if ok {
        FillOutputStream(stream);
      }
    }

    /** Playing begins, unless it has. */
    method JackPlay(stream: int) returns (ok: bool)
      requires AllValid() && 0 <= stream < PLAY_STREAMS
      modifies this`streams
      ensures AllValid() && streams == old(streams)[stream := Step(old(streams)[stream], Play)]
      ensures ok <==> !old(streams)[stream].playing
    {
      if streams[stream].playing {
        return false;
      }
      streams := streams[stream := streams[stream].(playing := true)];
      return true;
    }

    method JackStopPlayback(stream: int) returns (ok: bool)
      requires AllValid() && 0 <= stream < PLAY_STREAMS
      modifies this`streams
      ensures AllValid() && streams == old(streams)[stream := Step(old(streams)[stream], Stop)]
      ensures ok <==> old(streams)[stream].playing
    {
      if !streams[stream].playing {
        return false;
      }
      streams := streams[stream := streams[stream].(playing := false)];
      return true;
    }

    /** One clock tick; `stopped` are the streams whose natural stop is reported. */
    method JackClock(phase: int) returns (stopped: seq<int>)
      requires AllValid()
      modifies this`streams
      ensures AllValid()
      ensures forall i :: 0 <= i < PLAY_STREAMS ==> streams[i] == Clock(old(streams)[i], phase % 4 == 0)
      ensures forall i :: 0 <= i < PLAY_STREAMS ==> (i in stopped <==> old(streams)[i].stopping)
    {
      stopped := [];
      var i := 0;
      while i < PLAY_STREAMS
        invariant 0 <= i <= PLAY_STREAMS && AllValid()
        invariant forall x :: 0 <= x < i ==> streams[x] == Clock(old(streams)[x], phase % 4 == 0)
        invariant forall x :: i <= x < PLAY_STREAMS ==> streams[x] == old(streams)[x]
        invariant forall x :: x in stopped ==> 0 <= x < i
        invariant forall x :: 0 <= x < i ==> (x in stopped <==> old(streams)[x].stopping)
      {
        if streams[i].stopping {
          streams := streams[i := streams[i].(stopping := false)];
          stopped := stopped + [i];
        }
        if streams[i].playing && phase % 4 == 0 {
          FillOutputStream(i);
        }
        i := i + 1;
      }
    }

    /** One run of the audio callback, of as many frames as the port buffers have. */
    method JackProcess()
      requires Ready()
      modifies this`streams, outputBuffer
      ensures Ready()
      ensures streams == AllProcessed(old(streams), outputVolume, outputBuffer.Length2, PLAY_STREAMS)
      ensures forall j, k, l :: 0 <= j < PORTS && 0 <= k < 2 && 0 <= l < outputBuffer.Length2 ==>
                outputBuffer[j, k, l] == InputSum(inputBuffer, passthroughVolume, PORTS, j, k, l)
                  + StreamSum(old(streams), outputVolume, outputBuffer.Length2, PLAY_STREAMS, j, k, l)
    {
      ZeroOutputPorts();
      ProcessPassthroughs();
      ProcessOutputStreams();
    }
  }

  /** What a callback reads is there. */
  lemma FramesFit(s: Stream, nframes: nat)
    requires 1 <= s.channels <= 2
    ensures 0 <= FramesRead(s, nframes) <= nframes
    ensures FramesRead(s, nframes) * s.channels <= Min(nframes * s.channels, |s.ring|)
  {
  }
}
