/**
 What one event does to a stream of the JACK driver (cae/cae_jack.cpp), and a file from its
 loading until it has been played, sample by sample.
 */
module JackLaws {
  import opened Arithmetic
  import opened Sequences
  import opened JackStream
  import opened JackMix
  import opened JackRuns

  // ------------------------------------------------------------------- one stream

  /** Samples of a file, from a place on, as they are played: sixteen bits over 32768. */
  ghost predicate Sounds(played: seq<real>, file: seq<int>, start: nat) {
    start + |played| <= |file| && forall i :: 0 <= i < |played| ==> played[i] == file[start + i] as real / 32768.0
  }

  lemma {:induction false} FloatsSound(played: seq<real>, rest: seq<real>, file: seq<int>, start: nat)
    requires start <= |file| && played + rest == Floats(file[start..])
    ensures Sounds(played, file, start) && |played| + |rest| == |file| - start
  {
    forall i | 0 <= i < |played|
      ensures start + i < |file| && played[i] == file[start + i] as real / 32768.0
    {
      assert played[i] == (played + rest)[i];
      assert (played + rest)[i] == Floats(file[start..])[i] == ToFloat(file[start + i]);
    }
  }

  /** Both what was played and what the ring buffer holds sound like the file. */
  lemma {:induction false} BothSound(played: seq<real>, ring: seq<real>, rest: seq<real>, file: seq<int>, start: nat)
    requires start <= |file| && played + ring + rest == Floats(file[start..])
    ensures Sounds(played, file, start) && Sounds(ring, file, start + |played|)
    ensures |played| + |ring| + |rest| == |file| - start
  {
    Reassociate(played, ring, rest);
    FloatsSound(played, ring + rest, file, start);
    FloatsSound(played + ring, rest, file, start);
    forall i | 0 <= i < |ring|
      ensures ring[i] == (played + ring)[|played| + i]
    {
    }
  }

  lemma {:induction false} ValidSounds(s: Stream)
    requires Valid(s)
    ensures Sounds(s.played, s.file, s.start) && Sounds(s.ring, s.file, s.start + |s.played|)
    ensures s.start + |s.played| + |s.ring| == s.position
  {
    BothSound(s.played, s.ring, Floats(s.file[s.position..]), s.file, s.start);
  }

  /** Whatever happened to a stream, what it played since it was last positioned sounds like its
      file from there on, and the ring buffer holds what comes next. */
  lemma {:induction false} PlaysItsFile(s: Stream, es: seq<Event>)
    requires Valid(s)
    ensures var t := Run(s, es);
            && Sounds(t.played, s.file, t.start) && Sounds(t.ring, s.file, t.start + |t.played|)
            && t.start + |t.played| + |t.ring| == t.position
  {
    RunValid(s, es);
    ValidSounds(Run(s, es));
  }

  /** A stream just loaded is filled from the beginning of its file, and does not play. */
  lemma {:induction false} LoadedTells(file: seq<int>, dataStart: Offset, channels: int, rate: int)
    requires 1 <= channels <= 2 && rate > 0 && |file| % channels == 0
    ensures var s := Load(file, dataStart, channels, rate);
            && !s.playing && !s.stopping && s.played == [] && s.start == 0 && s.offset == 0
            && s.file == file && s.dataStart == dataStart && s.channels == channels && s.rate == rate
            && Sounds(s.ring, file, 0) && |s.ring| == s.position <= 65535 && (s.position == |file| || |s.ring| >= 65533)
  {
    var s := Load(file, dataStart, channels, rate);
    FillFits(Unfilled(file, dataStart, channels, rate));
    ValidSounds(s);
  }

  /** A Play starts a stream where it is, and a Stop stops it there. */
  lemma {:induction false} PlayAndStop(s: Stream)
    requires Valid(s)
    ensures Run(s, [Play]) == s.(playing := true)
    ensures Run(s, [Stop]) == s.(playing := false)
    ensures Run(s, [Play, Stop]) == s.(playing := false)
  {
    RunOne(s, [Play]);
    RunOne(s, [Stop]);
    StepValid(s, Play);
    RunOne(Step(s, Play), [Stop]);
    assert [Play, Stop][1..] == [Stop];
  }

  /** A callback plays from the front of a playing stream's ring buffer as many frames as it asks
      for, or all that there are; a stream that does not play stays as it is. */
  lemma {:induction false} ProcessTells(s: Stream, nframes: nat, audible: bool) returns (n: nat)
    requires Valid(s)
    ensures var t := Step(s, Process(nframes, audible));
            if !s.playing then t == s
            else
              && s.ring == t.played[|s.played|..] + t.ring && |t.played| == |s.played| + n
              && t.played[..|s.played|] == s.played
              && n == (if nframes * s.channels < |s.ring| then nframes * s.channels else |s.ring|)
              && (t.playing <==> n == nframes * s.channels || !s.eof || !audible)
              && (t.stopping <==> s.stopping || !t.playing)
              && t == s.(ring := t.ring, played := t.played, playing := t.playing, stopping := t.stopping)
  {
    n := Min(nframes * s.channels, |s.ring|);
    NaturalStop(s, nframes, audible);
  }

  /** A clock tick has the stop reported, and reads on only while the stream plays. */
  lemma {:induction false} TickTells(s: Stream, refill: bool)
    requires Valid(s)
    ensures var t := Step(s, Tick(refill));
            && !t.stopping && t.playing == s.playing && t.played == s.played && t.start == s.start
            && (!(s.playing && refill) ==> t == s.(stopping := false))
            && (s.playing && refill ==> t.position == |s.file| || |t.ring| >= 65533)
  {
    if s.playing && refill {
      FillFits(s.(stopping := false));
      FillKeeps(s.(stopping := false));
    }
  }

  /** A positioning plays no sample, and leaves the ring buffer empty or filled from where the
      file is read on. */
  lemma {:induction false} PositionTells(s: Stream, ms: nat)
    requires Valid(s)
    ensures var t := Step(s, Position(ms));
            && Valid(t) && t.file == s.file && t.playing == s.playing && t.stopping == s.stopping && t.played == []
            && t.start + |t.ring| == t.position && Sounds(t.ring, t.file, t.start)
            && (t.ring == [] || t.position == |s.file| || |t.ring| >= 65533)
  {
    SeekValid(s, ms);
    var t := Seek(s, ms);
    if SeekFrame(s, ms) <= |s.file| / s.channels {
      var at := Sought(s, SeekFrame(s, ms));
      SoughtFits(s, SeekFrame(s, ms));
      var u := s.(eof := false, ring := [], offset := SeekFrame(s, ms), position := at, start := at, played := []);
      FreshValid(u, at);
      FillFits(u);
      FillKeeps(u);
    }
    ValidSounds(t);
  }

  /** A file that is loaded, started, and filled before every callback is played from its first
      sample: after `k` callbacks exactly the frames that they asked for, or all and no more. */
  lemma {:induction false} PlaysWholeFile(file: seq<int>, dataStart: Offset, channels: int, rate: int, nframes: nat,
                                          k: nat)
    requires 1 <= channels <= 2 && rate > 0 && |file| % channels == 0
    requires 0 < nframes && nframes * channels <= 65533
    ensures var t := Run(Load(file, dataStart, channels, rate), [Play] + Rounds(nframes, k));
            && Sounds(t.played, file, 0)
            && (t.playing <==> k * nframes <= |file| / channels)
            && |t.played| == if t.playing then k * nframes * channels else |file|
  {
    var s := Load(file, dataStart, channels, rate);
    LoadedTells(file, dataStart, channels, rate);
    var es := [Play] + Rounds(nframes, k);
    StepValid(s, Play);
    PlayAndStop(s);
    RunAppend(s, [Play], Rounds(nframes, k));
    var p := s.(playing := true);
    PlaysToTheEnd(p, nframes, k);
    PlaysItsFile(s, es);
    RunValid(s, es);
    var t := Run(s, es);
    assert FramesLeft(p) == |file| / channels;
    if t.playing {
      Played(t, k * nframes);
    }
  }

  /** The frames not left have been played. */
  lemma {:induction false} Played(t: Stream, frames: nat)
    requires Valid(t) && t.start == 0 && FramesLeft(t) == |t.file| / t.channels - frames
    ensures |t.played| == frames * t.channels
  {
    assert |t.played| + |t.ring| + (|t.file| - t.position) == |t.file| by {
      assert |t.played + t.ring + Floats(t.file[t.position..])| == |Floats(t.file[0..])|;
    }
  }

  // ------------------------------------------------------------------- the driver

  /** The commands for one stream change it alone: a stream just loaded does not play, a Play
      starts it, a Stop stops it. */
  lemma {:induction false} DriverTells(d: Driver, e: DriverEvent, i: int)
    requires Ready(d) && Fits(e) && 0 <= i < PLAY_STREAMS
    ensures Ready(DriverStep(d, e))
    ensures var s, t := d.streams[i], DriverStep(d, e).streams[i];
            match e
            case JackPlay(x) => t == if x == i then s.(playing := true) else s
            case JackStopPlayback(x) => t == if x == i then s.(playing := false) else s
            case LoadPlayback(x, file, _, _, _) =>
              if x == i then t.file == file && !t.playing && t.played == [] else t == s
            case PlaybackPosition(x, _) => x != i ==> t == s
            case SetOutputVolume(_, _, _) => t == s
            case JackClock(phase) => !t.stopping && t.playing == s.playing && t.played == s.played
            case JackProcess(_) => !s.playing ==> t == s
  {
    StepReady(d, e);
    if e.LoadPlayback? && e.stream == i {
      LoadedTells(e.file, e.dataStart, e.channels, e.rate);
    }
    if e.JackClock? {
      TickTells(d.streams[i], e.phase % 4 == 0);
    }
  }

  /** The callback stops a playing stream exactly when it has run dry, its file is read, and some
      port plays it at a level above zero. */
  lemma {:induction false} DriverStops(d: Driver, nframes: nat, i: int)
    requires Ready(d) && 0 <= i < PLAY_STREAMS && d.streams[i].playing
    ensures Ready(DriverStep(d, JackProcess(nframes)))
    ensures var s, t := d.streams[i], DriverStep(d, JackProcess(nframes)).streams[i];
            !t.playing <==> s.eof && |s.ring| < nframes * s.channels && exists j :: 0 <= j < 8 && d.level[j][i] > 0.0
  {
    StepReady(d, JackProcess(nframes));
    NaturalStop(d.streams[i], nframes, Audible(d.level, i, PORTS));
  }

  /** A refill and a callback of the driver, `k` times over. */
  function DriverRounds(nframes: nat, k: nat): seq<DriverEvent> {
    if k == 0 then [] else [JackClock(0), JackProcess(nframes)] + DriverRounds(nframes, k - 1)
  }

  lemma {:induction false} RoundsFit(nframes: nat, k: nat)
    ensures forall e <- DriverRounds(nframes, k) :: Fits(e)
  {
    if k > 0 {
      RoundsFit(nframes, k - 1);
    }
  }

  /** The driver after one round. */
  ghost function AfterRound(d: Driver, nframes: nat): (r: Driver)
    requires Ready(d)
    ensures Ready(r) && r.level == d.level
  {
    StepReady(d, JackClock(0));
    StepReady(DriverStep(d, JackClock(0)), JackProcess(nframes));
    DriverStep(DriverStep(d, JackClock(0)), JackProcess(nframes))
  }

  lemma {:induction false} RoundSeen(h: History, d: Driver, i: int, nframes: nat, es: seq<DriverEvent>)
    requires Ready(d) && |es| >= 2 && es[0] == JackClock(0) && es[1] == JackProcess(nframes)
    requires (forall e <- es :: Fits(e)) && 0 <= i < PLAY_STREAMS && Audible(d.level, i, PORTS)
    ensures var seen := h.seen + [Tick(true), Process(nframes, true)];
            HistoryOf(h, d, es, i) == HistoryOf(History(h.first, seen), AfterRound(d, nframes), es[2..], i)
  {
    StepReady(d, es[0]);
    var ticked := DriverStep(d, es[0]);
    assert es[1..][1..] == es[2..];
    assert h.seen + [Tick(true)] + [Process(nframes, true)] == h.seen + [Tick(true), Process(nframes, true)];
    assert HistoryOf(h, d, es, i) == HistoryOf(History(h.first, h.seen + [Tick(true)]), ticked, es[1..], i);
  }

  /** What an audible stream sees of the driver's rounds is rounds of its own. */
  lemma {:induction false} RoundsSeen(h: History, d: Driver, i: int, nframes: nat, k: nat)
    requires Ready(d) && (forall e <- DriverRounds(nframes, k) :: Fits(e))
    requires 0 <= i < PLAY_STREAMS && Audible(d.level, i, PORTS)
    ensures HistoryOf(h, d, DriverRounds(nframes, k), i) == History(h.first, h.seen + Rounds(nframes, k))
    decreases k
  {
    if k == 0 {
      assert h.seen + [] == h.seen;
    } else {
      var es := DriverRounds(nframes, k);
      assert es[2..] == DriverRounds(nframes, k - 1);
      RoundsFit(nframes, k - 1);
      RoundSeen(h, d, i, nframes, es);
      var round := [Tick(true), Process(nframes, true)];
      RoundsSeen(History(h.first, h.seen + round), AfterRound(d, nframes), i, nframes, k - 1);
      Reassociate(h.seen, round, Rounds(nframes, k - 1));
    }
  }

  /** The driver, whatever else it plays, plays a file that is loaded, started and
      heard at some port from its first sample to its last. */
  lemma {:induction false} DriverPlaysWholeFile(d: Driver, load: DriverEvent, nframes: nat, k: nat)
    requires Ready(d) && load.LoadPlayback? && Fits(load)
    requires 0 < nframes && nframes * load.channels <= 65533
    requires exists j :: 0 <= j < 8 && d.level[j][load.stream] > 0.0
    ensures var es := [load, JackPlay(load.stream)] + DriverRounds(nframes, k);
            && (forall e <- es :: Fits(e)) && Ready(DriverRun(d, es))
            && var t := DriverRun(d, es).streams[load.stream];
            && Sounds(t.played, load.file, 0)
            && (t.playing <==> k * nframes <= |load.file| / load.channels)
            && |t.played| == if t.playing then k * nframes * load.channels else |load.file|
  {
    var i := load.stream;
    RoundsFit(nframes, k);
    var es := [load, JackPlay(i)] + DriverRounds(nframes, k);
    StepReady(d, load);
    var d1 := DriverStep(d, load);
    StepReady(d1, JackPlay(i));
    var d2 := DriverStep(d1, JackPlay(i));
    var first := Load(load.file, load.dataStart, load.channels, load.rate);
    var h := History(d.streams[i], []);
    assert es[1..][1..] == DriverRounds(nframes, k);
    RoundsSeen(History(first, [Play]), d2, i, nframes, k);
    assert [] + [Play] == [Play];
    assert HistoryOf(h, d, es, i) == HistoryOf(History(first, []), d1, es[1..], i);
    assert HistoryOf(h, d, es, i) == HistoryOf(History(first, [Play]), d2, es[1..][1..], i);
    StreamsRunAlone(h, d, es, i);
    PlaysWholeFile(load.file, load.dataStart, load.channels, load.rate, nframes, k);
  }

  // ------------------------------------------------------------------- the mix

  /** Where only one stream plays, every port has its samples at its level: a mono stream's on both
      sides, a stereo stream's left and right, and silence once it has run dry. */
  lemma {:induction false} OneStreamHeard(streams: seq<Stream>, level: seq<seq<real>>, nframes: nat, n: nat, i: int,
                                          j: int, k: int, l: int)
    requires |streams| == PLAY_STREAMS && (forall s <- streams :: 1 <= s.channels <= 2)
    requires Levels(level, PORTS, PLAY_STREAMS) && n <= 16 && 0 <= i < 16 && 0 <= j < 8 && 0 <= k < 2
    requires 0 <= l < nframes && forall x :: 0 <= x < n && x != i ==> !streams[x].playing
    ensures StreamSum(streams, level, nframes, n, j, k, l) ==
            if i < n && streams[i].playing then
              if streams[i].channels == 1 then if l < |streams[i].ring| then level[j][i] * streams[i].ring[l] else 0.0
              else if 2 * l + 1 < |streams[i].ring| then level[j][i] * streams[i].ring[2 * l + k] else 0.0
            else 0.0
  {
    if n > 0 {
      OneStreamHeard(streams, level, nframes, n - 1, i, j, k, l);
    }
  }

  /** Where only one input is not silent, every port has it at its passthrough level. */
  lemma {:induction false} OneInputHeard(input: array3<real>, level: seq<seq<real>>, n: nat, i: int, j: int, k: int,
                                         l: int)
    requires n <= 8 && input.Length0 == 8 && Levels(level, 8, 8) && 0 <= i < 8 && 0 <= j < 8
    requires 0 <= k < input.Length1 && 0 <= l < input.Length2
    requires forall x :: 0 <= x < n && x != i ==> input[x, k, l] == 0.0
    ensures InputSum(input, level, n, j, k, l) == if i < n then input[i, k, l] * level[i][j] else 0.0
  {
    if n > 0 {
      OneInputHeard(input, level, n - 1, i, j, k, l);
    }
  }
}
