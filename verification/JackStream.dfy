/**
 One JACK playback stream (cae/cae_jack.cpp) for PCM files without time scaling: the file
 is read into a ring buffer by the clock and played from it by the audio callback.
 */
module JackStream {
  import opened Arithmetic
  import opened Sequences

  const RING_BYTES := 262144
  const SAMPLE_BYTES := 4
  const WORD := 0x1_0000_0000

  /** A place in a file, as an `int` holds it. */
  type Offset = n: nat | n < 0x8000_0000

  /** Sixteen-bit samples as the ring buffer holds them. */
  function ToFloat(x: int): real { x as real / 32768.0 }

  function Floats(s: seq<int>): (r: seq<real>)
    ensures |r| == |s|
    ensures forall i :: 0 <= i < |s| ==> r[i] == ToFloat(s[i])
  {
    seq(|s|, i requires 0 <= i < |s| => ToFloat(s[i]))
  }

  /** A stream, with the samples played since it was loaded or last positioned. The samples of
      its file begin `dataStart` bytes into it. */
  datatype Stream = Stream(
    file: seq<int>,
    dataStart: Offset,
    channels: int,
    rate: int,
    position: nat,
    ring: seq<real>,
    playing: bool,
    eof: bool,
    stopping: bool,
    offset: int,
    start: nat,
    played: seq<real>
  )

  /** Bytes that the ring buffer can still take: one is always left empty. */
  function WriteSpace(ring: seq<real>): int { RING_BYTES - 1 - SAMPLE_BYTES * |ring| }

  /** A ring buffer takes no more than fits. */
  function RingWrite(ring: seq<real>, data: seq<real>): seq<real>
    requires WriteSpace(ring) >= 0
  {
    var fits := WriteSpace(ring) / SAMPLE_BYTES;
    ring + if |data| <= fits then data else data[..fits]
  }

  /** The samples that a fill asks the file for. */
  function FillSize(s: Stream): int
    requires s.channels > 0
  {
    var free := WriteSpace(s.ring) / SAMPLE_BYTES - 1;
    if free <= 0 || s.eof then 0 else free / s.channels * s.channels
  }

  function Fill(s: Stream): Stream
    requires s.channels > 0 && s.position <= |s.file| && WriteSpace(s.ring) >= 0
  {
    var free := WriteSpace(s.ring) / SAMPLE_BYTES - 1;
    if free <= 0 || s.eof then s
    else
      var n := Min(FillSize(s), |s.file| - s.position);
      s.(ring := RingWrite(s.ring, Floats(s.file[s.position..s.position + n])),
         position := s.position + n,
         eof := n != FillSize(s))
  }

  /** The frames that one callback gets from the ring buffer. */
  function FramesRead(s: Stream, nframes: nat): nat
    requires s.channels > 0
  {
    Min(nframes * s.channels, |s.ring|) / s.channels
  }

  /** The audio callback; `audible` is whether some port plays the stream at all. */
  function Callback(s: Stream, nframes: nat, audible: bool): Stream
    requires s.channels > 0
  {
    if !s.playing then s
    else
      var k := Min(nframes * s.channels, |s.ring|);
      var stop := FramesRead(s, nframes) != nframes && s.eof && audible;
      s.(ring := s.ring[k..], played := s.played + s.ring[..k],
         playing := !stop, stopping := s.stopping || stop)
  }

  function Unfilled(file: seq<int>, dataStart: Offset, channels: int, rate: int): Stream {
    Stream(file, dataStart, channels, rate, 0, [], false, false, false, 0, 0, [])
  }

  /** A stream is filled as it is loaded. */
  function Load(file: seq<int>, dataStart: Offset, channels: int, rate: int): (s: Stream)
    requires 1 <= channels <= 2 && rate > 0 && |file| % channels == 0
    ensures Valid(s)
  {
    UnfilledValid(file, dataStart, channels, rate);
    Fill(Unfilled(file, dataStart, channels, rate))
  }

  /** The frame kept for a position in milliseconds: bytes first, in 32 bits, then whole blocks. */
  function KeptFrame(rate: nat, align: nat, ms: nat): nat
    requires align > 0
  {
    Product(Product(rate, align), ms) / 1000 % WORD / align
  }

  function SeekFrame(s: Stream, ms: nat): nat
    requires s.channels > 0 && s.rate > 0
  {
    KeptFrame(s.rate, 2 * s.channels, ms)
  }

  /** Where the file is read on from when `frame` is sought. The byte offset goes through an
      `int`: one of 2^31 or more is negative, and taken for zero; and one that fits by itself but
      not with the start of the data added leaves the file where it was. */
  function Sought(s: Stream, frame: nat): nat
    requires s.channels > 0
  {
    var bytes := frame * (2 * s.channels);
    if bytes >= WORD / 2 then 0
    else if bytes + s.dataStart >= WORD / 2 then s.position
    else frame * s.channels
  }

  lemma WholeFrames(n: nat, channels: int)
    requires 1 <= channels <= 2
    ensures n / channels * channels <= n
    ensures n % channels == 0 ==> n / channels * channels == n
    ensures forall m: nat {:trigger m * channels} :: m <= n / channels ==>
            m * channels <= n && m * channels % channels == 0
  {
    if channels == 2 {
      forall m: nat | m <= n / channels
        ensures m * channels <= n && m * channels % channels == 0
      {
        assert m * channels == m + m;
      }
    }
  }

  /** Positioning drops the ring buffer before it looks whether the position exists. */
  function Seek(s: Stream, ms: nat): Stream
    requires 1 <= s.channels <= 2 && s.rate > 0 && s.position <= |s.file|
  {
    var frame := SeekFrame(s, ms);
    var dropped := s.(eof := false, ring := [], offset := frame);
    if frame > |s.file| / s.channels then dropped.(start := s.position, played := [])
    else
      SoughtFits(s, frame);
      Fill(dropped.(position := Sought(s, frame), start := Sought(s, frame), played := []))
  }

  lemma {:induction false} KeptFits(s: Stream, ms: nat)
    requires 1 <= s.channels <= 2 && s.rate > 0
    ensures SeekFrame(s, ms) * (2 * s.channels) < WORD
  {
    var align := 2 * s.channels;
    QuotientBounds(Product(Product(s.rate, align), ms) / 1000 % WORD, align);
  }

  lemma {:induction false} SoughtFits(s: Stream, frame: nat)
    requires 1 <= s.channels <= 2 && s.position <= |s.file| && frame <= |s.file| / s.channels
    ensures Sought(s, frame) <= |s.file|
    ensures s.position % s.channels == 0 ==> Sought(s, frame) % s.channels == 0
  {
    WholeFrames(|s.file|, s.channels);
  }

  /** The clock acknowledges a natural stop, and on every fourth tick refills. */
  function Clock(s: Stream, refill: bool): Stream
    requires s.channels > 0 && s.position <= |s.file| && WriteSpace(s.ring) >= 0
  {
    var t := s.(stopping := false);
    if t.playing && refill then Fill(t) else t
  }

  datatype Event = Play | Stop | Tick(refill: bool) | Process(nframes: nat, audible: bool) | Position(ms: nat)

  function Step(s: Stream, e: Event): Stream
    requires Valid(s)
  {
    match e
    case Play => s.(playing := true)
    case Stop => s.(playing := false)
    case Tick(refill) => Clock(s, refill)
    case Process(n, audible) => Callback(s, n, audible)
    case Position(ms) => Seek(s, ms)
  }

  function Run(s: Stream, es: seq<Event>): Stream
    requires Valid(s)
    decreases |es|
  {
    if es == [] then s else (StepValid(s, es[0]); Run(Step(s, es[0]), es[1..]))
  }

  // ------------------------------------------------------------------ conservation

  /** Whole frames everywhere, and room in the ring buffer for what it holds. */
  predicate Framed(s: Stream) {
    && 1 <= s.channels <= 2 && s.rate > 0
    && |s.file| % s.channels == 0 && s.position % s.channels == 0 && |s.ring| % s.channels == 0
    && s.start <= s.position <= |s.file|
    && WriteSpace(s.ring) >= 0
    && (s.eof ==> s.position == |s.file|)
  }

  /** Everything from the start point on is either played, in the ring buffer, or still to be
      read. */
  predicate Conserved(s: Stream)
    requires s.start <= s.position <= |s.file|
  {
    s.played + s.ring + Floats(s.file[s.position..]) == Floats(s.file[s.start..])
  }

  predicate Valid(s: Stream) { Framed(s) && Conserved(s) }

  lemma FloatsConcat(a: seq<int>, b: seq<int>)
    ensures Floats(a + b) == Floats(a) + Floats(b)
  {
  }

  lemma {:induction false} FloatsSplit(file: seq<int>, at: nat, n: nat)
    requires at + n <= |file|
    ensures Floats(file[at..]) == Floats(file[at..at + n]) + Floats(file[at + n..])
  {
    assert file[at..] == file[at..at + n] + file[at + n..];
    FloatsConcat(file[at..at + n], file[at + n..]);
  }

  /** A fill asks for whole frames, fewer than fit, and for nothing only when the ring buffer is
      almost full or the file read to its end. */
  lemma FillSizeFits(s: Stream)
    requires 1 <= s.channels <= 2 && WriteSpace(s.ring) >= 0
    ensures 0 <= FillSize(s) <= WriteSpace(s.ring) / SAMPLE_BYTES
    ensures FillSize(s) % s.channels == 0
    ensures s.eof || |s.ring| + FillSize(s) >= RING_BYTES / SAMPLE_BYTES - 3
  {
    var free := WriteSpace(s.ring) / SAMPLE_BYTES - 1;
    if free > 0 {
      WholeFrames(free, s.channels);
    }
  }

  /** A fill appends to the ring buffer what it reads, all of it. */
  lemma {:induction false} FillReads(s: Stream)
    requires Framed(s)
    ensures var n := Min(FillSize(s), |s.file| - s.position);
            && 0 <= n && Fill(s).position == s.position + n
            && Fill(s).ring == s.ring + Floats(s.file[s.position..s.position + n])
  {
    FillSizeFits(s);
    if FillSize(s) == 0 || s.position == |s.file| {
      assert s.file[s.position..s.position] == [];
      assert s.ring + Floats([]) == s.ring;
    }
  }

  /** No fill is cut short by the ring buffer, and each leaves it almost full or the file
      read to its end. */
  lemma {:induction false} FillFits(s: Stream)
    requires Framed(s)
    ensures var n := Min(FillSize(s), |s.file| - s.position);
            && Fill(s).ring == s.ring + Floats(s.file[s.position..s.position + n])
            && Fill(s).position == s.position + n
            && n % s.channels == 0
            && WriteSpace(Fill(s).ring) >= 0
            && (Fill(s).eof ==> Fill(s).position == |s.file|)
            && (Fill(s).eof || |Fill(s).ring| >= RING_BYTES / SAMPLE_BYTES - 3)
  {
    FillReads(s);
    FillSizeFits(s);
    Unread(|s.file|, s.position, s.channels);
  }

  lemma {:induction false} PassedOn(played: seq<real>, ring: seq<real>, read: seq<real>, rest: seq<real>)
    ensures played + (ring + read) + rest == played + ring + (read + rest)
  {
    Reassociate(played, ring, read);
    Reassociate(played + ring, read, rest);
  }

  /** What is read on and put behind the ring buffer's content is conserved. */
  lemma {:induction false} ReadOn(file: seq<int>, at: nat, n: nat, played: seq<real>, ring: seq<real>, all: seq<real>)
    requires at + n <= |file| && played + ring + Floats(file[at..]) == all
    ensures played + (ring + Floats(file[at..at + n])) + Floats(file[at + n..]) == all
  {
    var read, rest := Floats(file[at..at + n]), Floats(file[at + n..]);
    FloatsSplit(file, at, n);
    PassedOn(played, ring, read, rest);
  }

  lemma {:induction false} FillKeeps(s: Stream)
    requires Framed(s)
    ensures var f := Fill(s);
            f.file == s.file && f.played == s.played && f.start == s.start && f.channels == s.channels
              && f.rate == s.rate
  {
  }

  lemma {:induction false} FillConserves(s: Stream)
    requires Valid(s)
    ensures Fill(s).start <= Fill(s).position <= |Fill(s).file| && Conserved(Fill(s))
  {
    FillReads(s);
    FillKeeps(s);
    ReadOn(s.file, s.position, Min(FillSize(s), |s.file| - s.position), s.played, s.ring, Floats(s.file[s.start..]));
  }

  lemma {:induction false} FillFramed(s: Stream)
    requires Framed(s)
    ensures Framed(Fill(s))
  {
    FillFits(s);
    var n := Min(FillSize(s), |s.file| - s.position);
    AddWhole(|s.ring|, n, s.channels);
    AddWhole(s.position, n, s.channels);
  }

  lemma {:induction false} FillValid(s: Stream)
    requires Valid(s)
    ensures Valid(Fill(s))
  {
    FillFramed(s);
    FillConserves(s);
  }

  lemma Unread(size: nat, position: nat, channels: int)
    requires 1 <= channels <= 2 && position <= size && size % channels == 0 && position % channels == 0
    ensures (size - position) % channels == 0
  {
  }

  lemma AddWhole(a: nat, b: nat, channels: int)
    requires 1 <= channels <= 2 && a % channels == 0 && b % channels == 0
    ensures (a + b) % channels == 0
  {
  }

  lemma {:induction false} CallbackFramed(s: Stream, nframes: nat, audible: bool)
    requires Framed(s)
    ensures Framed(Callback(s, nframes, audible))
  {
    if s.playing {
      WholeRead(nframes, |s.ring|, s.channels);
    }
  }

  /** The callback reads whole frames, and leaves whole frames. */
  lemma {:induction false} WholeRead(nframes: nat, size: nat, channels: int)
    requires 1 <= channels <= 2 && size % channels == 0
    ensures 0 <= Min(nframes * channels, size) && Min(nframes * channels, size) % channels == 0
    ensures (size - Min(nframes * channels, size)) % channels == 0
  {
    if channels == 2 {
      assert nframes * channels == nframes + nframes;
    }
  }

  lemma {:induction false} CallbackValid(s: Stream, nframes: nat, audible: bool)
    requires Valid(s)
    ensures Valid(Callback(s, nframes, audible))
  {
    CallbackFramed(s, nframes, audible);
    if s.playing {
      var k := Min(nframes * s.channels, |s.ring|);
      assert s.ring == s.ring[..k] + s.ring[k..];
      Reassociate(s.played, s.ring[..k], s.ring[k..]);
    }
  }

  /** A stream that starts afresh at `at`. */
  lemma FreshValid(s: Stream, at: nat)
    requires 1 <= s.channels <= 2 && s.rate > 0 && |s.file| % s.channels == 0
    requires at <= |s.file| && at % s.channels == 0
    requires s.position == s.start == at && s.ring == [] && s.played == [] && !s.eof
    ensures Valid(s)
  {
    assert [] + [] + Floats(s.file[at..]) == Floats(s.file[at..]);
  }

  lemma SeekValid(s: Stream, ms: nat)
    requires Valid(s)
    ensures Valid(Seek(s, ms))
  {
    var frame := SeekFrame(s, ms);
    var dropped := s.(eof := false, ring := [], offset := frame);
    if frame > |s.file| / s.channels {
      FreshValid(dropped.(start := s.position, played := []), s.position);
    } else {
      SoughtFits(s, frame);
      var at := Sought(s, frame);
      var t := dropped.(position := at, start := at, played := []);
      FreshValid(t, at);
      FillValid(t);
    }
  }

  lemma UnfilledValid(file: seq<int>, dataStart: Offset, channels: int, rate: int)
    requires 1 <= channels <= 2 && rate > 0 && |file| % channels == 0
    ensures Valid(Unfilled(file, dataStart, channels, rate)) && Valid(Fill(Unfilled(file, dataStart, channels, rate)))
  {
    FreshValid(Unfilled(file, dataStart, channels, rate), 0);
    FillValid(Unfilled(file, dataStart, channels, rate));
  }

  lemma StepValid(s: Stream, e: Event)
    requires Valid(s)
    ensures Valid(Step(s, e))
  {
    match e {
      case Tick(refill) =>
        if s.playing && refill {
          FillValid(s.(stopping := false));
        }
      case Process(n, audible) => CallbackValid(s, n, audible);
      case Position(ms) => SeekValid(s, ms);
      case _ =>
    }
  }

  lemma {:induction false} RunValid(s: Stream, es: seq<Event>)
    requires Valid(s)
    ensures Valid(Run(s, es)) && Run(s, es).file == s.file
    decreases |es|
  {
    if es != [] {
      StepValid(s, es[0]);
      RunValid(Step(s, es[0]), es[1..]);
    }
  }

  /** Over any run: what was played since the last positioning, then what the ring buffer
      holds, then what is unread, is the file from there on; nothing is lost or repeated. */
  lemma PlayoutConserved(file: seq<int>, dataStart: Offset, channels: int, rate: int, es: seq<Event>)
    requires 1 <= channels <= 2 && rate > 0 && |file| % channels == 0
    ensures var s := Run(Load(file, dataStart, channels, rate), es);
            && s.start <= s.position <= |file|
            && s.played + s.ring + Floats(file[s.position..]) == Floats(file[s.start..])
  {
    RunValid(Load(file, dataStart, channels, rate), es);
  }

  /** The callback ends a stream exactly when it plays it audibly, the file is read to its
      end and the ring buffer runs dry; then everything from the last positioning on has been
      played. */
  lemma NaturalStop(s: Stream, nframes: nat, audible: bool)
    requires Valid(s)
    ensures s.playing && !Callback(s, nframes, audible).playing <==>
            s.playing && s.eof && audible && |s.ring| < nframes * s.channels
    ensures s.playing && !Callback(s, nframes, audible).playing ==>
            && Callback(s, nframes, audible).stopping
            && Callback(s, nframes, audible).played == Floats(s.file[s.start..])
            && Callback(s, nframes, audible).ring == []
    ensures Callback(s, nframes, audible).stopping <==>
            s.stopping || (s.playing && !Callback(s, nframes, audible).playing)
  {
    if s.playing {
      var k := Min(nframes * s.channels, |s.ring|);
      assert FramesRead(s, nframes) != nframes <==> |s.ring| < nframes * s.channels by {
        assert |s.ring| / s.channels * s.channels == |s.ring|;
      }
      if !Callback(s, nframes, audible).playing {
        CallbackValid(s, nframes, audible);
        var t := Callback(s, nframes, audible);
        assert s.file[|s.file|..] == [];
        assert t.ring == [] && t.played + [] + Floats([]) == t.played;
      }
    }
  }

  /** A positioning that fails still loses what the ring buffer held. */
  lemma FailedSeekDropsRing(s: Stream, ms: nat)
    requires Valid(s) && SeekFrame(s, ms) > |s.file| / s.channels
    ensures Seek(s, ms).ring == [] && Seek(s, ms).position == s.position
    ensures s.played + s.ring + Floats(s.file[Seek(s, ms).start..]) == Floats(s.file[s.start..])
  {
  }

  // --------------------------------------------------------------------- progress

  /** A tick that refills, then a callback, `k` times over. */
  function Rounds(nframes: nat, k: nat): seq<Event> {
    if k == 0 then [] else [Tick(true), Process(nframes, true)] + Rounds(nframes, k - 1)
  }

  function Round(s: Stream, nframes: nat): Stream
    requires Valid(s)
  {
    StepValid(s, Tick(true));
    Step(Step(s, Tick(true)), Process(nframes, true))
  }

  lemma RoundsUnfold(s: Stream, nframes: nat, k: nat)
    requires Valid(s) && k > 0
    ensures Valid(Round(s, nframes))
    ensures Run(s, Rounds(nframes, k)) == Run(Round(s, nframes), Rounds(nframes, k - 1))
  {
    var es := Rounds(nframes, k);
    StepValid(s, Tick(true));
    StepValid(Step(s, Tick(true)), Process(nframes, true));
    assert es[1..][1..] == Rounds(nframes, k - 1);
    assert Run(s, es) == Run(Step(s, es[0]), es[1..]);
  }

  /** Frames from the start point on that have not been played. */
  function FramesLeft(s: Stream): int
    requires 1 <= s.channels <= 2
  {
    var n := |s.ring| + |s.file| - s.position;
    if s.channels == 1 then n else n / 2
  }

  /** A fill changes neither what is left nor what has been played. */
  lemma {:induction false} FillLeft(s: Stream, nframes: nat)
    requires Valid(s) && nframes * s.channels <= RING_BYTES / SAMPLE_BYTES - 3
    ensures var f := Fill(s);
            && Valid(f) && f == s.(ring := f.ring, position := f.position, eof := f.eof)
            && FramesLeft(f) == FramesLeft(s) && (f.eof || |f.ring| >= nframes * f.channels)
  {
    FillFits(s);
    FillValid(s);
    assert |Fill(s).ring| + |s.file| - Fill(s).position == |s.ring| + |s.file| - s.position;
  }

  lemma {:induction false} RoundProgress(s: Stream, nframes: nat)
    requires Valid(s) && s.playing && 0 < nframes
    requires nframes * s.channels <= RING_BYTES / SAMPLE_BYTES - 3
    ensures var t := Round(s, nframes);
            && Valid(t) && t.channels == s.channels && t.file == s.file && t.start == s.start
            && FramesLeft(t) == FramesLeft(s) - Min(nframes, FramesLeft(s))
            && (t.playing <==> nframes <= FramesLeft(s))
            && (!t.playing ==> t.stopping && t.played == Floats(s.file[s.start..]))
  {
    var s' := s.(stopping := false);
    FillLeft(s', nframes);
    var f := Fill(s');
    NaturalStop(f, nframes, true);
    CallbackValid(f, nframes, true);
    CallbackLeft(f, nframes);
  }

  lemma {:induction false} CallbackLeft(f: Stream, nframes: nat)
    requires Valid(f) && f.playing && (f.eof || |f.ring| >= nframes * f.channels)
    ensures FramesLeft(Callback(f, nframes, true)) == FramesLeft(f) - Min(nframes, FramesLeft(f))
    ensures |f.ring| < nframes * f.channels <==> FramesLeft(f) < nframes
  {
    var k := Min(nframes * f.channels, |f.ring|);
    assert |Callback(f, nframes, true).ring| == |f.ring| - k;
  }

  lemma {:induction false} StaysStopped(s: Stream, nframes: nat, k: nat)
    requires Valid(s) && !s.playing
    ensures var t := Run(s, Rounds(nframes, k));
            !t.playing && t.played == s.played && t.channels == s.channels && t.start == s.start
    decreases k
  {
    if k > 0 {
      RoundsUnfold(s, nframes, k);
      StaysStopped(Round(s, nframes), nframes, k - 1);
    }
  }

  /** Round after round, an audible stream plays every frame once and stops in the first
      round that asks for more than is left: nothing is cut off, and nothing plays on. */
  lemma {:induction false} PlaysToTheEnd(s: Stream, nframes: nat, k: nat)
    requires Valid(s) && s.playing && 0 < nframes
    requires nframes * s.channels <= RING_BYTES / SAMPLE_BYTES - 3
    ensures var t := Run(s, Rounds(nframes, k));
            && t.channels == s.channels && t.start == s.start
            && (t.playing <==> k * nframes <= FramesLeft(s))
            && (t.playing ==> FramesLeft(t) == FramesLeft(s) - k * nframes)
            && (!t.playing ==> t.played == Floats(s.file[s.start..]))
    decreases k
  {
    if k > 0 {
      RoundsUnfold(s, nframes, k);
      RoundProgress(s, nframes);
      var t := Round(s, nframes);
      SuccessorTimes(k, nframes);
      if t.playing {
        PlaysToTheEnd(t, nframes, k - 1);
      } else {
        StaysStopped(t, nframes, k - 1);
      }
    }
  }

  lemma SuccessorTimes(k: nat, n: nat)
    requires k > 0
    ensures k * n == (k - 1) * n + n && (k - 1) * n >= 0
  {
  }
}
