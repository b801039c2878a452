/**
 Runs of the whole JACK driver (cae/cae_jack.cpp): whatever its callback, its clock and the
 commands for its streams do in turn, what happens to one stream is a run of that stream.
 */
module JackRuns {
  import opened JackStream
  import opened JackMix

  /** The streams, and their levels by port and stream. */
  datatype Driver = Driver(streams: seq<Stream>, level: seq<seq<real>>)

  ghost predicate Ready(d: Driver) {
    && |d.streams| == PLAY_STREAMS && (forall i :: 0 <= i < PLAY_STREAMS ==> Valid(d.streams[i]))
    && Levels(d.level, PORTS, PLAY_STREAMS)
  }

  datatype DriverEvent =
    | JackProcess(nframes: nat)
    | JackClock(phase: int)
    | LoadPlayback(stream: int, file: seq<int>, dataStart: Offset, channels: int, rate: int)
    | PlaybackPosition(stream: int, ms: nat)
    | JackPlay(stream: int)
    | JackStopPlayback(stream: int)
    | SetOutputVolume(stream: int, port: int, gain: real)

  predicate Fits(e: DriverEvent) {
    match e
    case JackProcess(_) => true
    case JackClock(_) => true
    case LoadPlayback(i, file, _, channels, rate) =>
      0 <= i < PLAY_STREAMS && 1 <= channels <= 2 && rate > 0 && |file| % channels == 0
    case PlaybackPosition(i, _) => 0 <= i < PLAY_STREAMS
    case JackPlay(i) => 0 <= i < PLAY_STREAMS
    case JackStopPlayback(i) => 0 <= i < PLAY_STREAMS
    case SetOutputVolume(i, port, gain) => 0 <= i < PLAY_STREAMS && 0 <= port < PORTS && gain >= 0.0
  }

  /** The driver after one event, as the methods of `JackMix.JackDriver` leave it. */
  ghost function DriverStep(d: Driver, e: DriverEvent): Driver
    requires Ready(d) && Fits(e)
  {
    match e
    case JackProcess(n) => d.(streams := AllProcessed(d.streams, d.level, n, PLAY_STREAMS))
    case JackClock(phase) =>
      d.(streams := seq(PLAY_STREAMS, i requires 0 <= i < PLAY_STREAMS => Clock(d.streams[i], phase % 4 == 0)))
    case LoadPlayback(i, file, dataStart, channels, rate) =>
      d.(streams := d.streams[i := Load(file, dataStart, channels, rate)])
    case PlaybackPosition(i, ms) => d.(streams := d.streams[i := Seek(d.streams[i], ms)])
    case JackPlay(i) => d.(streams := d.streams[i := Step(d.streams[i], Play)])
    case JackStopPlayback(i) => d.(streams := d.streams[i := Step(d.streams[i], Stop)])
    case SetOutputVolume(i, port, gain) => d.(level := d.level[port := d.level[port][i := gain]])
  }

  /** What one stream sees of an event that does not load it. */
  ghost function Seen(d: Driver, e: DriverEvent, i: int): seq<Event>
    requires Ready(d) && 0 <= i < PLAY_STREAMS
  {
    match e
    case JackProcess(n) => [Process(n, Audible(d.level, i, PORTS))]
    case JackClock(phase) => [Tick(phase % 4 == 0)]
    case LoadPlayback(_, _, _, _, _) => []
    case PlaybackPosition(stream, ms) => if stream == i then [Position(ms)] else []
    case JackPlay(stream) => if stream == i then [Play] else []
    case JackStopPlayback(stream) => if stream == i then [Stop] else []
    case SetOutputVolume(_, _, _) => []
  }

  lemma {:induction false} StepSeen(d: Driver, e: DriverEvent, i: int)
    requires Ready(d) && Fits(e) && 0 <= i < PLAY_STREAMS
    ensures |DriverStep(d, e).streams| == PLAY_STREAMS
    ensures DriverStep(d, e).streams[i] ==
            if e.LoadPlayback? && e.stream == i then Load(e.file, e.dataStart, e.channels, e.rate)
            else Run(d.streams[i], Seen(d, e, i))
  {
    RunOne(d.streams[i], Seen(d, e, i));
  }

  lemma {:induction false} RunOne(s: Stream, es: seq<Event>)
    requires Valid(s) && |es| <= 1
    ensures Run(s, es) == if es == [] then s else Step(s, es[0])
  {
    if es != [] {
      StepValid(s, es[0]);
      assert es[1..] == [];
    }
  }

  lemma {:induction false} StepReady(d: Driver, e: DriverEvent)
    requires Ready(d) && Fits(e)
    ensures Ready(DriverStep(d, e))
  {
    var t := DriverStep(d, e);
    forall i | 0 <= i < PLAY_STREAMS
      ensures |t.streams| == PLAY_STREAMS && Valid(t.streams[i])
    {
      StepSeen(d, e, i);
      RunValid(d.streams[i], Seen(d, e, i));
    }
  }

  ghost function DriverRun(d: Driver, es: seq<DriverEvent>): Driver
    requires Ready(d) && forall e <- es :: Fits(e)
    decreases |es|
  {
    if es == [] then d else (StepReady(d, es[0]); DriverRun(DriverStep(d, es[0]), es[1..]))
  }

  /** The stream as it was last loaded, or at the start, and what it has seen since. */
  datatype History = History(first: Stream, seen: seq<Event>)

  ghost function HistoryOf(h: History, d: Driver, es: seq<DriverEvent>, i: int): History
    requires Ready(d) && (forall e <- es :: Fits(e)) && 0 <= i < PLAY_STREAMS
    decreases |es|
  {
    if es == [] then h
    else
      StepReady(d, es[0]);
      var e := es[0];
      var next := if e.LoadPlayback? && e.stream == i then History(Load(e.file, e.dataStart, e.channels, e.rate), [])
                  else History(h.first, h.seen + Seen(d, e, i));
      HistoryOf(next, DriverStep(d, e), es[1..], i)
  }

  lemma {:induction false} RunAppend(s: Stream, a: seq<Event>, b: seq<Event>)
    requires Valid(s)
    ensures Valid(Run(s, a)) && Run(s, a + b) == Run(Run(s, a), b)
    decreases |a|
  {
    RunValid(s, a);
    if a == [] {
      assert a + b == b;
    } else {
      StepValid(s, a[0]);
      assert (a + b)[1..] == a[1..] + b;
      RunAppend(Step(s, a[0]), a[1..], b);
    }
  }

  /** Over any run of the driver, every stream is where a run of its own has taken it since it
      was last loaded. */
  lemma {:induction false} StreamsRunAlone(h: History, d: Driver, es: seq<DriverEvent>, i: int)
    requires Ready(d) && (forall e <- es :: Fits(e)) && 0 <= i < PLAY_STREAMS
    requires Valid(h.first) && d.streams[i] == Run(h.first, h.seen)
    ensures Ready(DriverRun(d, es))
    ensures var h' := HistoryOf(h, d, es, i);
            Valid(h'.first) && DriverRun(d, es).streams[i] == Run(h'.first, h'.seen)
    decreases |es|
  {
    if es != [] {
      var e := es[0];
      StepReady(d, e);
      StepSeen(d, e, i);
      if e.LoadPlayback? && e.stream == i {
        var first := Load(e.file, e.dataStart, e.channels, e.rate);
        StreamsRunAlone(History(first, []), DriverStep(d, e), es[1..], i);
      } else {
        RunAppend(h.first, h.seen, Seen(d, e, i));
        StreamsRunAlone(History(h.first, h.seen + Seen(d, e, i)), DriverStep(d, e), es[1..], i);
      }
    }
  }

  /** So for every stream, whatever the others do, what was played since the last positioning,
      what the ring buffer holds and what is unread make up the file it was loaded with from the
      point positioned to. */
  lemma {:induction false} DriverConserves(d: Driver, es: seq<DriverEvent>, i: int)
    requires Ready(d) && (forall e <- es :: Fits(e)) && 0 <= i < PLAY_STREAMS
    ensures var s := DriverRun(d, es).streams;
            && |s| == PLAY_STREAMS && s[i].start <= s[i].position <= |s[i].file|
            && s[i].played + s[i].ring + Floats(s[i].file[s[i].position..]) == Floats(s[i].file[s[i].start..])
            && s[i].file == HistoryOf(History(d.streams[i], []), d, es, i).first.file
  {
    StreamsRunAlone(History(d.streams[i], []), d, es, i);
    var h := HistoryOf(History(d.streams[i], []), d, es, i);
    RunValid(h.first, h.seen);
  }
}
