/**
 Recording from a JACK input port (cae/cae_jack.cpp): the audio callback appends what it
 captures to a ring buffer, and the clock moves it from there to the wave file.
 */
module JackRecord {
  import opened Arithmetic
  import opened Sequences

  /** Whole samples that a ring buffer of 262144 bytes holds. It keeps one byte free, and a
      write into too little room leaves at most three bytes of a further sample, which the
      reader drops. */
  const RING_SAMPLES := 65535
  const CHUNK := 1152

  // ---------------------------------------------------------------- what is captured

  /** A mono sample. */
  function Mono(mode: int, volume: real, left: real, right: real): real {
    if mode == 3 then Scaled(volume, right)
    else if mode == 2 then Scaled(volume, left)
    else Scaled(volume, left + right)
  }

  /** Side `k` of a stereo frame. */
  function Side(mode: int, volume: real, left: real, right: real, k: int): real {
    if mode == 3 then if k == 0 then 0.0 else Scaled(volume, right)
    else if mode == 2 then if k == 0 then Scaled(volume, left) else 0.0
    else if mode == 1 then Scaled(volume, if k == 0 then right else left)
    else Scaled(volume, if k == 0 then left else right)
  }

  /** The interleaved samples captured from the two sides of an input port. */
  function Mixdown(channels: nat, mode: int, volume: real, left: seq<real>, right: seq<real>): (b: seq<real>)
    requires |left| == |right|
    ensures |b| == if channels == 1 || channels == 2 then channels * |left| else 0
  {
    if channels == 1 then seq(|left|, j requires 0 <= j < |left| => Mono(mode, volume, left[j], right[j]))
    else if channels == 2 then
      seq(2 * |left|, x requires 0 <= x < 2 * |left| => Side(mode, volume, left[x / 2], right[x / 2], x % 2))
    else []
  }

  lemma FrameAt(mode: int, volume: real, left: seq<real>, right: seq<real>, j: nat)
    requires |left| == |right| && j < |left|
    ensures var b := Mixdown(2, mode, volume, left, right);
            && b[2 * j] == Side(mode, volume, left[j], right[j], 0)
            && b[2 * j + 1] == Side(mode, volume, left[j], right[j], 1)
            && b[..2 * j + 2] == b[..2 * j] + [b[2 * j], b[2 * j + 1]]
  {
    var b := Mixdown(2, mode, volume, left, right);
    assert (2 * j) / 2 == j && (2 * j) % 2 == 0 && (2 * j + 1) / 2 == j && (2 * j + 1) % 2 == 1;
    assert b[2 * j] == Side(mode, volume, left[j], right[j], 0);
    assert b[2 * j + 1] == Side(mode, volume, left[j], right[j], 1);
  }

  lemma FrameAdded(before: seq<real>, after: seq<real>, i: nat, x: real, y: real)
    requires i + 1 < |before| && after == before[i := x][i + 1 := y]
    ensures after[..i + 2] == before[..i] + [x, y]
  {
  }

  lemma Distribute(level: real, x: real, y: real)
    ensures Scaled(level, x + y) == Scaled(level, x) + Scaled(level, y)
  {
  }

  lemma SidesSum(mode: int, volume: real, left: real, right: real)
    ensures Mono(mode, volume, left, right) == Side(mode, volume, left, right, 0) + Side(mode, volume, left, right, 1)
  {
    Distribute(volume, left, right);
  }

  /** In every mode a mono recording is the sum of the sides of a stereo one. */
  lemma MonoIsSumOfSides(mode: int, volume: real, left: seq<real>, right: seq<real>, j: nat)
    requires |left| == |right| && j < |left|
    ensures Mixdown(1, mode, volume, left, right)[j]
            == Mixdown(2, mode, volume, left, right)[2 * j] + Mixdown(2, mode, volume, left, right)[2 * j + 1]
  {
    FrameAt(mode, volume, left, right, j);
    SidesSum(mode, volume, left[j], right[j]);
  }

  /** Mode 1 exchanges the sides of an input; a mono recording does not tell it from mode 0. */
  lemma SwapExchanges(volume: real, left: seq<real>, right: seq<real>)
    requires |left| == |right|
    ensures Mixdown(2, 1, volume, left, right) == Mixdown(2, 0, volume, right, left)
    ensures Mixdown(1, 1, volume, left, right) == Mixdown(1, 0, volume, right, left)
  {
  }

  // ---------------------------------------------------------------- recording

  /** A loaded record stream: `written` is what reached the file's encoder or converter and
      `captured` what the callback saw while recording. */
  datatype Recorder = Recorder(
    channels: nat,
    mpeg: bool,
    mode: int,
    volume: real,
    recording: bool,
    ring: seq<real>,
    samplesRecorded: nat,
    written: seq<real>,
    captured: seq<real>)

  predicate Valid(r: Recorder) { r.channels > 0 && |r.ring| <= RING_SAMPLES }

  function Loaded(channels: nat, mpeg: bool, mode: int, volume: real): Recorder {
    Recorder(channels, mpeg, mode, volume, false, [], 0, [], [])
  }

  function Capture(r: Recorder, left: seq<real>, right: seq<real>): Recorder
    requires Valid(r) && |left| == |right|
  {
    if !r.recording then r
    else
      var data := Mixdown(r.channels, r.mode, r.volume, left, right);
      r.(ring := r.ring + data[..Min(|data|, RING_SAMPLES - |r.ring|)], captured := r.captured + data)
  }

  predicate Overruns(r: Recorder, left: seq<real>, right: seq<real>)
    requires |left| == |right|
  {
    r.recording && |r.ring| + |Mixdown(r.channels, r.mode, r.volume, left, right)| > RING_SAMPLES
  }

  /** The part of the data that makes whole frames. */
  function WholeFrames(data: seq<real>, channels: nat): (w: seq<real>)
    requires channels > 0
    ensures |w| == |data| / channels * channels <= |data| && w == data[..|w|]
  {
    assert |data| == channels * (|data| / channels) + |data| % channels;
    data[..|data| / channels * channels]
  }

  /** The ring buffer is emptied into the file, the encoder taking whole frames only. */
  function Empty(r: Recorder): Recorder
    requires r.channels > 0
  {
    r.(ring := [], samplesRecorded := r.samplesRecorded + |r.ring| / r.channels,
       written := r.written + if r.mpeg then WholeFrames(r.ring, r.channels) else r.ring)
  }

  datatype Event =
    | Callback(left: seq<real>, right: seq<real>)
    | Clock
    | Start
    | Stop
    | SetMode(mode: int)
    | SetVolume(volume: real)

  predicate WellFormed(e: Event) { e.Callback? ==> |e.left| == |e.right| }

  function Step(r: Recorder, e: Event): Recorder
    requires Valid(r) && WellFormed(e)
  {
    match e
    case Callback(left, right) => Capture(r, left, right)
    case Clock => if r.recording then Empty(r) else r
    case Start => r.(recording := true)
    case Stop => r.(recording := false)
    case SetMode(mode) => r.(mode := mode)
    case SetVolume(volume) => r.(volume := volume)
  }

  lemma StepValid(r: Recorder, e: Event)
    requires Valid(r) && WellFormed(e)
    ensures Valid(Step(r, e)) && Step(r, e).channels == r.channels
  {
  }

  function Run(r: Recorder, es: seq<Event>): Recorder
    requires Valid(r) && forall e <- es :: WellFormed(e)
    decreases |es|
  {
    if es == [] then r
    else
      StepValid(r, es[0]);
      Run(Step(r, es[0]), es[1..])
  }

  /** Does every callback of a run find room in the ring buffer for what it captures? */
  predicate NoOverrun(r: Recorder, es: seq<Event>)
    requires Valid(r) && forall e <- es :: WellFormed(e)
    decreases |es|
  {
    es == [] ||
    (StepValid(r, es[0]);
     (es[0].Callback? ==> !Overruns(r, es[0].left, es[0].right)) && NoOverrun(Step(r, es[0]), es[1..]))
  }

  /** Nothing captured is lost, doubled or out of order, and the count of frames is right. */
  predicate Conserved(r: Recorder) {
    && r.written + r.ring == r.captured
    && |r.written| == r.samplesRecorded * r.channels
    && r.channels > 0 && |r.ring| % r.channels == 0
  }

  /** Something captured is lost. */
  predicate Lossy(r: Recorder) { |r.written| + |r.ring| < |r.captured| }

  lemma WholeRing(r: Recorder)
    requires Valid(r) && Conserved(r)
    ensures |r.ring| / r.channels * r.channels == |r.ring|
    ensures (r.samplesRecorded + |r.ring| / r.channels) * r.channels == |r.written| + |r.ring|
  {
    var q := |r.ring| / r.channels;
    assert |r.ring| == r.channels * q + |r.ring| % r.channels;
    assert (r.samplesRecorded + q) * r.channels == r.samplesRecorded * r.channels + q * r.channels;
  }

  lemma EmptyConserves(r: Recorder)
    requires Valid(r)
    ensures Conserved(r) ==> Conserved(Empty(r)) && Empty(r).written == r.captured
    ensures Lossy(r) ==> Lossy(Empty(r))
  {
    if Conserved(r) {
      WholeRing(r);
      assert Empty(r).written == r.written + r.ring;
      assert Empty(r).written + [] == Empty(r).written;
    }
  }

  lemma RoomyRing(ring: nat, added: nat, channels: nat, frames: nat)
    requires channels > 0 && ring % channels == 0 && added == channels * frames
    ensures (ring + added) % channels == 0
  {
    var q := ring / channels;
    assert ring + added == channels * (q + frames) by {
      assert ring == channels * q;
      assert channels * (q + frames) == channels * q + channels * frames;
    }
    MultipleIsWhole(channels, q + frames);
  }

  lemma MultipleIsWhole(channels: nat, k: nat)
    requires channels > 0
    ensures (channels * k) % channels == 0
  {
    var p := channels * k;
    var q, m := p / channels, p % channels;
    assert p == channels * q + m;
    assert m == channels * (k - q);
    if k - q > 0 {
      ProductMonotone(1, k - q, channels);
    } else if k - q < 0 {
      ProductMonotone(k - q, -1, channels);
    }
  }

  lemma CaptureConserves(r: Recorder, left: seq<real>, right: seq<real>)
    requires Valid(r) && |left| == |right|
    ensures Conserved(r) && !Overruns(r, left, right) ==> Conserved(Capture(r, left, right))
    ensures Conserved(r) && Overruns(r, left, right) ==> Lossy(Capture(r, left, right))
    ensures Lossy(r) ==> Lossy(Capture(r, left, right))
  {
    if r.recording {
      var data := Mixdown(r.channels, r.mode, r.volume, left, right);
      if Conserved(r) && !Overruns(r, left, right) {
        assert data[..|data|] == data;
        assert r.written + (r.ring + data) == r.written + r.ring + data;
        RoomyRing(|r.ring|, |data|, r.channels, if r.channels <= 2 then |left| else 0);
      }
    }
  }

  lemma StepConserves(r: Recorder, e: Event)
    requires Valid(r) && WellFormed(e)
    ensures Conserved(r) && !(e.Callback? && Overruns(r, e.left, e.right)) ==> Conserved(Step(r, e))
    ensures Conserved(r) && e.Callback? && Overruns(r, e.left, e.right) ==> Lossy(Step(r, e))
    ensures Lossy(r) ==> Lossy(Step(r, e))
  {
    match e
    case Callback(left, right) => CaptureConserves(r, left, right);
    case Clock => EmptyConserves(r);
    case Start =>
    case Stop =>
    case SetMode(_) =>
    case SetVolume(_) =>
  }

  lemma {:induction false} LossStays(r: Recorder, es: seq<Event>)
    requires Valid(r) && (forall e <- es :: WellFormed(e)) && Lossy(r)
    ensures Lossy(Run(r, es)) && Valid(Run(r, es))
    decreases |es|
  {
    if es != [] {
      StepValid(r, es[0]);
      StepConserves(r, es[0]);
      LossStays(Step(r, es[0]), es[1..]);
    }
  }

  /** Over any run, everything captured is in the file or still in the ring buffer, in order,
      exactly when no callback overran the ring buffer; what it loses is never made up. */
  lemma {:induction false} RunConservesExactly(r: Recorder, es: seq<Event>)
    requires Valid(r) && (forall e <- es :: WellFormed(e)) && Conserved(r)
    ensures Valid(Run(r, es)) && Run(r, es).channels == r.channels
    ensures if NoOverrun(r, es) then Conserved(Run(r, es)) else Lossy(Run(r, es))
    decreases |es|
  {
    if es != [] {
      var e := es[0];
      StepValid(r, e);
      StepConserves(r, e);
      if e.Callback? && Overruns(r, e.left, e.right) {
        LossStays(Step(r, e), es[1..]);
        RunChannels(Step(r, e), es[1..]);
      } else {
        RunConservesExactly(Step(r, e), es[1..]);
      }
    }
  }

  lemma {:induction false} RunChannels(r: Recorder, es: seq<Event>)
    requires Valid(r) && forall e <- es :: WellFormed(e)
    ensures Run(r, es).channels == r.channels
    decreases |es|
  {
    if es != [] {
      StepValid(r, es[0]);
      RunChannels(Step(r, es[0]), es[1..]);
    }
  }

  /** Unloading after any run leaves exactly the captured samples in the file, and reports
      their number of frames, if and only if no callback overran the ring buffer. */
  lemma UnloadWritesAllExactly(channels: nat, mpeg: bool, mode: int, volume: real, es: seq<Event>)
    requires channels > 0 && forall e <- es :: WellFormed(e)
    ensures var start := Loaded(channels, mpeg, mode, volume);
            var last := Run(start, es);
            last.channels > 0 &&
            var done := Empty(last);
            && done.captured == last.captured
            && (done.written == last.captured <==> NoOverrun(start, es))
            && (NoOverrun(start, es) ==> done.samplesRecorded * channels == |last.captured|)
  {
    var start := Loaded(channels, mpeg, mode, volume);
    RunConservesExactly(start, es);
    EmptyConserves(Run(start, es));
  }

  // ---------------------------------------------------------------- what is written

  /** A frame of the input port, with the mode and the volume that it is heard with. */
  datatype Frame = Frame(mode: int, volume: real, left: real, right: real)

  function Frames(mode: int, volume: real, left: seq<real>, right: seq<real>): seq<Frame>
    requires |left| == |right|
  {
    seq(|left|, j requires 0 <= j < |left| => Frame(mode, volume, left[j], right[j]))
  }

  /** The frames that callbacks bring while it is recording. */
  function Heard(mode: int, volume: real, recording: bool, es: seq<Event>): seq<Frame>
    requires forall e <- es :: WellFormed(e)
    decreases |es|
  {
    if es == [] then []
    else
      match es[0]
      case Callback(left, right) =>
        assert WellFormed(es[0]);
        (if recording then Frames(mode, volume, left, right) else []) + Heard(mode, volume, recording, es[1..])
      case Clock => Heard(mode, volume, recording, es[1..])
      case Start => Heard(mode, volume, true, es[1..])
      case Stop => Heard(mode, volume, false, es[1..])
      case SetMode(m) => Heard(m, volume, recording, es[1..])
      case SetVolume(v) => Heard(mode, v, recording, es[1..])
  }

  /** One sample for each frame: right alone in mode 3, left alone in mode 2, otherwise both. */
  ghost predicate HoldsMono(b: seq<real>, fs: seq<Frame>) {
    && |b| == |fs|
    && forall j :: 0 <= j < |fs| ==>
         b[j] == if fs[j].mode == 3 then fs[j].volume * fs[j].right
                 else if fs[j].mode == 2 then fs[j].volume * fs[j].left
                 else fs[j].volume * (fs[j].left + fs[j].right)
  }

  /** Left and right of frame `j`: silence on the left in mode 3, on the right in mode 2, and
      exchanged in mode 1. */
  ghost predicate StereoAt(b: seq<real>, j: nat, f: Frame) {
    && 2 * j + 1 < |b|
    && b[2 * j] == (if f.mode == 3 then 0.0 else if f.mode == 1 then f.volume * f.right else f.volume * f.left)
    && b[2 * j + 1] == (if f.mode == 2 then 0.0 else if f.mode == 1 then f.volume * f.left else f.volume * f.right)
  }

  ghost predicate HoldsStereo(b: seq<real>, fs: seq<Frame>) {
    |b| == 2 * |fs| && forall j :: 0 <= j < |fs| ==> StereoAt(b, j, fs[j])
  }

  /** What a recording of so many channels holds of the frames heard. */
  ghost predicate Holds(b: seq<real>, channels: nat, fs: seq<Frame>) {
    if channels == 1 then HoldsMono(b, fs) else if channels == 2 then HoldsStereo(b, fs) else b == []
  }

  lemma {:induction false} MixdownHolds(channels: nat, mode: int, volume: real, left: seq<real>, right: seq<real>)
    requires |left| == |right|
    ensures Holds(Mixdown(channels, mode, volume, left, right), channels, Frames(mode, volume, left, right))
  {
    if channels == 2 {
      forall j | 0 <= j < |left|
        ensures StereoAt(Mixdown(2, mode, volume, left, right), j, Frame(mode, volume, left[j], right[j]))
      {
        FrameAt(mode, volume, left, right, j);
      }
    }
  }

  lemma {:induction false} StereoOn(a: seq<real>, b: seq<real>, n: nat, j: nat, f: Frame)
    requires |a| == 2 * n && StereoAt(b, j, f)
    ensures StereoAt(a + b, n + j, f)
  {
    assert (a + b)[2 * (n + j)] == b[2 * j] && (a + b)[2 * (n + j) + 1] == b[2 * j + 1];
  }

  lemma {:induction false} HoldsBoth(a: seq<real>, b: seq<real>, channels: nat, fs: seq<Frame>, gs: seq<Frame>)
    requires Holds(a, channels, fs) && Holds(b, channels, gs)
    ensures Holds(a + b, channels, fs + gs)
  {
    if channels == 2 {
      forall j | 0 <= j < |fs + gs|
        ensures StereoAt(a + b, j, (fs + gs)[j])
      {
        if j < |fs| {
          assert StereoAt(a, j, fs[j]);
        } else {
          StereoOn(a, b, |fs|, j - |fs|, gs[j - |fs|]);
        }
      }
    }
  }

  /** What was captured is, frame by frame, what was heard while recording. */
  lemma {:induction false} CapturesHeard(r: Recorder, es: seq<Event>, before: seq<Frame>)
    requires Valid(r) && (forall e <- es :: WellFormed(e)) && Holds(r.captured, r.channels, before)
    ensures Holds(Run(r, es).captured, r.channels, before + Heard(r.mode, r.volume, r.recording, es))
    decreases |es|
  {
    if es == [] {
      assert before + [] == before;
    } else {
      var e := es[0];
      StepValid(r, e);
      if e.Callback? && r.recording {
        var fs := Frames(r.mode, r.volume, e.left, e.right);
        MixdownHolds(r.channels, r.mode, r.volume, e.left, e.right);
        HoldsBoth(r.captured, Mixdown(r.channels, r.mode, r.volume, e.left, e.right), r.channels, before, fs);
        CapturesHeard(Step(r, e), es[1..], before + fs);
        Reassociate(before, fs, Heard(r.mode, r.volume, r.recording, es[1..]));
      } else {
        CapturesHeard(Step(r, e), es[1..], before);
        if e.Callback? {
          assert [] + Heard(r.mode, r.volume, r.recording, es[1..]) == Heard(r.mode, r.volume, r.recording, es[1..]);
        }
      }
    }
  }

  /** So a file recorded without overrun holds exactly the frames heard, each side where its mode
      puts it and at its volume, and their number is reported. */
  lemma {:induction false} WritesHeard(channels: nat, mpeg: bool, mode: int, volume: real, es: seq<Event>)
    requires 1 <= channels <= 2 && (forall e <- es :: WellFormed(e))
    requires NoOverrun(Loaded(channels, mpeg, mode, volume), es)
    ensures var last := Run(Loaded(channels, mpeg, mode, volume), es);
            last.channels > 0
            && Holds(Empty(last).written, channels, Heard(mode, volume, false, es))
            && Empty(last).samplesRecorded == |Heard(mode, volume, false, es)|
  {
    var start := Loaded(channels, mpeg, mode, volume);
    UnloadWritesAllExactly(channels, mpeg, mode, volume, es);
    CapturesHeard(start, es, []);
    assert [] + Heard(mode, volume, false, es) == Heard(mode, volume, false, es);
  }

  /** The ring buffer takes 65535 samples that the clock has not yet moved, and no more. */
  lemma {:induction false} OverrunsExactly(r: Recorder, left: seq<real>, right: seq<real>)
    requires Valid(r) && r.recording && |left| == |right| && 1 <= r.channels <= 2
    ensures NoOverrun(r, [Callback(left, right)]) <==> |r.ring| + r.channels * |left| <= 65535
  {
    StepValid(r, Callback(left, right));
    assert [Callback(left, right)][1..] == [];
  }

  // ---------------------------------------------------------------- the driver

  /** One input port of the driver. */
  class JackInput {
    var ready: bool
    var recording: bool
    var channels: nat
    var mpeg: bool
    var mode: int
    var volume: real
    var ring: seq<real>
    var samplesRecorded: nat
    /** What the wave file has taken, and what the callback saw. */
    var written: seq<real>
    ghost var captured: seq<real>

    ghost function Now(): Recorder
      reads this
    {
      Recorder(channels, mpeg, mode, volume, recording, ring, samplesRecorded, written, captured)
    }

    /** Nothing is recorded, or left over, when no file is loaded. */
    ghost predicate Ok()
      reads this
    {
      && (ready ==> Valid(Now()))
      && (!ready ==> !recording && samplesRecorded == 0)
    }

    constructor ()
      ensures Ok() && !ready
    {
      ready, recording, channels, mpeg, mode, volume := false, false, 0, false, 0, 1.0;
      ring, samplesRecorded, written, captured := [], 0, [], [];
    }

    method LoadRecord(chans: nat, mpeg: bool)
      requires Ok() && !ready && chans > 0
      modifies this
      ensures Ok() && ready && Now() == Loaded(chans, mpeg, old(mode), old(volume))
    {
      channels, this.mpeg, ring, written, captured := chans, mpeg, [], [], [];
      ready := true;
    }

    method Record() returns (ok: bool)
      requires Ok()
      modifies this`recording
      ensures Ok() && ok == ready
      ensures Now() == if ok then Step(old(Now()), Start) else old(Now())
    {
      if !ready {
        return false;
      }
      recording := true;
      return true;
    }

    method StopRecord() returns (ok: bool)
      requires Ok()
      modifies this`recording
      ensures Ok() && ok == old(recording)
      ensures Now() == if ready then Step(old(Now()), Stop) else old(Now())
    {
      if !recording {
        return false;
      }
      recording := false;
      return true;
    }

    /** The callback's buffer for a mono recording. */
    method CaptureMono(left: seq<real>, right: seq<real>) returns (buffer: array<real>)
      requires |left| == |right|
      ensures fresh(buffer) && buffer[..] == Mixdown(1, mode, volume, left, right)
    {
      buffer := new real[|left|];
      var j := 0;
      while j < |left|
        invariant 0 <= j <= |left| == buffer.Length
        invariant forall x :: 0 <= x < j ==> buffer[x] == Mono(mode, volume, left[x], right[x])
      {
        match mode {
          case 3 => buffer[j] := Scaled(volume, right[j]);
          case 2 => buffer[j] := Scaled(volume, left[j]);
          case _ => buffer[j] := Scaled(volume, left[j] + right[j]);
        }
        j := j + 1;
      }
    }

    /** Puts one stereo frame in the callback's buffer. */
    method CaptureFrame(buffer: array<real>, j: nat, left: real, right: real)
      requires 2 * j + 1 < buffer.Length
      modifies buffer
      ensures buffer[..] == old(buffer[..])[2 * j := Side(mode, volume, left, right, 0)]
                                           [2 * j + 1 := Side(mode, volume, left, right, 1)]
    {
      match mode {
        case 3 => buffer[2 * j], buffer[2 * j + 1] := 0.0, Scaled(volume, right);
        case 2 => buffer[2 * j], buffer[2 * j + 1] := Scaled(volume, left), 0.0;
        case 1 => buffer[2 * j], buffer[2 * j + 1] := Scaled(volume, right), Scaled(volume, left);
        case _ => buffer[2 * j], buffer[2 * j + 1] := Scaled(volume, left), Scaled(volume, right);
      }
    }

    /** The callback's buffer for a stereo recording. */
    method CaptureStereo(left: seq<real>, right: seq<real>) returns (buffer: array<real>)
      requires |left| == |right|
      ensures fresh(buffer) && buffer[..] == Mixdown(2, mode, volume, left, right)
    {
      buffer := new real[2 * |left|];
      ghost var all := Mixdown(2, mode, volume, left, right);
      var j := 0;
      assert |all| == 2 * |left|;
      while j < |left|
        invariant 0 <= j <= |left| && buffer.Length == 2 * |left|
        invariant fresh(buffer)
        invariant buffer[..][..2 * j] == all[..2 * j]
      {
        ghost var before := buffer[..];
        CaptureFrame(buffer, j, left[j], right[j]);
        FrameAt(mode, volume, left, right, j);
        FrameAdded(before, buffer[..], 2 * j, all[2 * j], all[2 * j + 1]);
        j := j + 1;
      }
    }

    /** The ring buffer takes as much as it has room for. */
    method RingWrite(data: seq<real>)
      requires |ring| <= RING_SAMPLES
      modifies this`ring
      ensures ring == old(ring) + data[..Min(|data|, RING_SAMPLES - |old(ring)|)]
    {
      var free := RING_SAMPLES - |ring|;
      ring := ring + data[..if |data| > free then free else |data|];
    }

    /** What the callback does with this port. */
    method JackProcess(left: seq<real>, right: seq<real>)
      requires Ok() && |left| == |right|
      modifies this`ring, this`captured
      ensures Ok() && Now() == if ready then Step(old(Now()), Callback(left, right)) else old(Now())
    {
      if recording {
        captured := captured + Mixdown(channels, mode, volume, left, right);
        match channels {
          case 1 =>
            var buffer := CaptureMono(left, right);
            RingWrite(buffer[..]);
          case 2 =>
            var buffer := CaptureStereo(left, right);
            RingWrite(buffer[..]);
          case _ =>
            assert ring + [] == ring;
        }
      }
    }

    /** The encoder is given the frames of a buffer in chunks: every one of 1152 frames but the
        last, none empty, and together the buffer's frames, each once and in order. */
    method Encode(buffer: seq<real>, frames: nat) returns (chunks: seq<seq<real>>)
      requires channels > 0 && frames * channels <= |buffer|
      ensures Concat(chunks) == buffer[..frames * channels]
      ensures Chunked(chunks, channels)
    {
      chunks := [];
      var i := 0;
      while i < frames
        invariant 0 <= i && (i < frames ==> AllFull(chunks, channels))
        invariant Chunked(chunks, channels)
        invariant 0 <= Min(i, frames) * channels <= |buffer|
        invariant Concat(chunks) == buffer[..Min(i, frames) * channels]
      {
        var n := if i + CHUNK > frames then frames - i else CHUNK;
        ChunkBounds(i, n, frames, channels, |buffer|);
        var chunk := buffer[i * channels..(i + n) * channels];
        ConcatNext(chunks, chunk);
        SliceNext(buffer, i * channels, (i + n) * channels);
        ChunkNext(chunks, chunk, channels);
        chunks := chunks + [chunk];
        i := i + CHUNK;
      }
    }

    method WriteBuffer(buffer: seq<real>)
      requires channels > 0
      modifies this`samplesRecorded, this`written
      ensures samplesRecorded == old(samplesRecorded) + |buffer| / channels
      ensures written == old(written) + if mpeg then WholeFrames(buffer, channels) else buffer
    {
      var frames := |buffer| / channels;
      samplesRecorded := samplesRecorded + frames;
      if mpeg {
        var whole := WholeFrames(buffer, channels);
        var chunks := Encode(buffer, frames);
        written := written + Concat(chunks);
      } else {
        written := written + buffer;
      }
    }

    method EmptyInputStream()
      requires Ok() && ready
      modifies this`ring, this`samplesRecorded, this`written
      ensures Ok() && Now() == Empty(old(Now()))
    {
      var buffer := ring;
      ring := [];
      WriteBuffer(buffer);
    }

    /** One clock tick. */
    method JackClock()
      requires Ok()
      modifies this`ring, this`samplesRecorded, this`written
      ensures Ok() && Now() == if ready then Step(old(Now()), Clock) else old(Now())
    {
      if recording {
        EmptyInputStream();
      }
    }

    /** The ring buffer is drained into the file before the length is reported; the next
        recording counts from zero. */
    method UnloadRecord() returns (len: nat)
      requires Ok() && ready
      modifies this
      ensures Ok() && !ready && mode == old(mode) && volume == old(volume)
      ensures written == Empty(old(Now())).written && len == Empty(old(Now())).samplesRecorded
    {
      recording := false;
      EmptyInputStream();
      ready := false;
      len := samplesRecorded;
      samplesRecorded := 0;
    }
  }

  /** Chunks of 1152 frames, and a last one of as many or fewer, but at least one. */
  predicate Chunked(chunks: seq<seq<real>>, channels: nat) {
    && (forall k :: 0 <= k < |chunks| ==> channels <= |chunks[k]| <= 1152 * channels)
    && (forall k :: 0 <= k < |chunks| - 1 ==> |chunks[k]| == 1152 * channels)
  }

  predicate AllFull(chunks: seq<seq<real>>, channels: nat) {
    forall k :: 0 <= k < |chunks| ==> |chunks[k]| == 1152 * channels
  }

  lemma {:induction false} ChunkNext(chunks: seq<seq<real>>, chunk: seq<real>, channels: nat)
    requires AllFull(chunks, channels) && channels <= |chunk| <= 1152 * channels
    ensures Chunked(chunks + [chunk], channels)
    ensures |chunk| == 1152 * channels ==> AllFull(chunks + [chunk], channels)
  {
  }

  lemma {:induction false} SliceNext(buffer: seq<real>, a: nat, b: nat)
    requires a <= b <= |buffer|
    ensures buffer[..a] + buffer[a..b] == buffer[..b]
  {
  }

  lemma ChunkBounds(i: nat, n: nat, frames: nat, channels: nat, size: nat)
    requires channels > 0 && i < frames && n == Min(CHUNK, frames - i) && frames * channels <= size
    ensures i * channels <= (i + n) * channels <= size && (i + n) * channels == i * channels + n * channels
    ensures channels <= n * channels <= CHUNK * channels
  {
    assert (i + n) * channels == i * channels + n * channels;
    ProductMonotone(i + n, frames, channels);
    ProductMonotone(1, n, channels);
    ProductMonotone(n, CHUNK, channels);
  }
}
