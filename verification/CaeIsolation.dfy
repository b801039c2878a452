/**
 Who is touched by an event of the Core Audio Engine: clients' events leave other clients'
 handles, streams and connections alone, and every message reaches a connected client that
 it concerns.
 */
module CaeIsolation {
  import opened Options
  import opened CaeState
  import opened CaeInvariant
  import opened CaeRuns

  /** Nothing that `other` owns, and nothing of its connection, differs. */
  ghost predicate SameFor(s: Cae, t: Cae, other: int)
    requires Sized(s) && Sized(t) && 0 <= other < CONNECTIONS
  {
    && (forall h :: 0 <= h < HANDLES && (s.handles[h].owner == other || t.handles[h].owner == other) ==>
                      t.handles[h] == s.handles[h])
    && (forall k :: k in AllSlots() && (s.playOwner[k] == other || t.playOwner[k] == other) ==>
                      t.playOwner[k] == s.playOwner[k] && (k in t.rings <==> k in s.rings))
    && (forall k :: k in AllSlots() && (s.recordOwner[k] == other || t.recordOwner[k] == other) ==>
                      t.recordOwner[k] == s.recordOwner[k])
    && t.socket[other] == s.socket[other] && t.auth[other] == s.auth[other] && t.meterPort[other] == s.meterPort[other]
    && t.argnum[other] == s.argnum[other] && t.argptr[other] == s.argptr[other]
  }

  lemma {:induction false} LoadIsolated(s: Cae, ch: int, card: int, playable: bool, other: int)
    requires Inv(s) && 0 <= ch < CONNECTIONS && s.socket[ch] && card < CARDS
    requires 0 <= other < CONNECTIONS && other != ch
    ensures Sized(LoadPlayback(s, ch, card, playable).0)
    ensures SameFor(s, LoadPlayback(s, ch, card, playable).0, other)
  {
    if s.auth[ch] && card >= 0 && Allot(s, card, playable).Some? {
      var k := Slot(card, Allot(s, card, playable).value);
      assert k in AllSlots();
      NoStaleHandle(s, k);
      HandleAlwaysFree(s);
      assert HandleOk(s, NewHandle(s));
      assert StreamOk(s, k);
    }
  }

  lemma UnloadIsolated(s: Cae, ch: int, arg: Option<int>, other: int)
    requires Inv(s) && InRange(s) && 0 <= ch < CONNECTIONS
    requires 0 <= other < CONNECTIONS && other != ch
    ensures Sized(UnloadPlayback(s, ch, arg).0)
    ensures SameFor(s, UnloadPlayback(s, ch, arg).0, other)
  {
    InvUnloadPlayback(s, ch, arg);
    match NamedHandle(s.handles, arg) {
      case None =>
      case Some(h) => assert HandleOk(s, h);
    }
  }

  lemma KillIsolated(s: Cae, ch: int, other: int)
    requires Inv(s) && 0 <= ch < CONNECTIONS
    requires 0 <= other < CONNECTIONS && other != ch
    ensures Sized(Kill(s, ch))
    ensures SameFor(s, Kill(s, ch), other)
  {
  }

  lemma {:induction false} PlayIsolated(s: Cae, ch: int, arg: Option<int>, length: Option<int>, speed: Option<int>,
                                        flag: Option<int>, started: bool, other: int)
    requires Sized(s) && InRange(s) && 0 <= ch < CONNECTIONS && 0 <= other < CONNECTIONS
    ensures var t := Play(s, ch, arg, length, speed, flag, started).0; Sized(t) && SameFor(s, t, other)
  {
    PlayChanges(s, ch, arg, length, speed, flag, started);
  }

  lemma {:induction false} LoadRecordIsolated(s: Cae, ch: int, k: Slot, ok: bool, other: int)
    requires Sized(s) && 0 <= ch < CONNECTIONS && k.card < CARDS && k.stream < STREAMS
    requires 0 <= other < CONNECTIONS && other != ch
    ensures var t := LoadRecord(s, ch, k, ok).0; Sized(t) && SameFor(s, t, other)
  {
  }

  lemma {:induction false} UnloadRecordIsolated(s: Cae, ch: int, k: Slot, unloaded: Option<nat>, other: int)
    requires Sized(s) && 0 <= ch < CONNECTIONS && k.card < CARDS && k.stream < STREAMS
    requires 0 <= other < CONNECTIONS && other != ch
    ensures var t := UnloadRecord(s, ch, k, unloaded).0; Sized(t) && SameFor(s, t, other)
  {
  }

  lemma {:induction false} RecordIsolated(s: Cae, ch: int, k: Slot, length: Option<int>, threshold: Option<int>,
                                          started: bool, vox: bool, other: int)
    requires Sized(s) && 0 <= ch < CONNECTIONS && k.card < CARDS && k.stream < STREAMS
    requires 0 <= other < CONNECTIONS && other != ch
    ensures var t := Record(s, ch, k, length, threshold, started, vox).0; Sized(t) && SameFor(s, t, other)
  {
    SlotIsolated(s, Record(s, ch, k, length, threshold, started, vox).0, ch, other);
  }

  lemma {:induction false} StopRecordIsolated(s: Cae, ch: int, k: Slot, other: int)
    requires Sized(s) && 0 <= ch < CONNECTIONS && k.card < CARDS && k.stream < STREAMS
    requires 0 <= other < CONNECTIONS && other != ch
    ensures var t := StopRecord(s, ch, k).0; Sized(t) && SameFor(s, t, other)
  {
    SlotIsolated(s, StopRecord(s, ch, k).0, ch, other);
  }

  /** What touches one slot of the connections, or stored arguments, leaves another client alone. */
  lemma {:induction false} SlotIsolated(s: Cae, t: Cae, ch: int, other: int)
    requires Sized(s) && Sized(t) && 0 <= ch < CONNECTIONS && 0 <= other < CONNECTIONS && other != ch
    requires t == s.(auth := t.auth, meterPort := t.meterPort, recordParams := t.recordParams,
                     recordings := t.recordings, flags := t.flags)
    requires t.auth[other] == s.auth[other] && t.meterPort[other] == s.meterPort[other]
    ensures SameFor(s, t, other)
  {
  }

  lemma {:induction false} PlaybackIsolated(s: Cae, e: Event, other: int)
    requires Inv(s) && Enabled(s, e) && e.OfClient() && OfPlayback(e)
    requires 0 <= other < CONNECTIONS && other != e.ch
    ensures Sized(Step(s, e).0) && SameFor(s, Step(s, e).0, other)
  {
    LiveInRange(s);
    match e {
      case LP(ch, card, playable) => LoadIsolated(s, ch, card, playable, other);
      case UP(ch, arg) => UnloadIsolated(s, ch, arg, other);
      case PY(ch, arg, length, speed, flag, started) => PlayIsolated(s, ch, arg, length, speed, flag, started, other);
      case PW(ch, accepted) => SlotIsolated(s, Authenticate(s, ch, accepted).0, ch, other);
      case ME(ch, port) => SlotIsolated(s, EnableMeter(s, ch, port).0, ch, other);
      case SP(_, _, _) =>
    }
  }

  lemma {:induction false} RecordingIsolated(s: Cae, e: Event, other: int)
    requires Inv(s) && Enabled(s, e) && OfRecording(e)
    requires 0 <= other < CONNECTIONS && other != e.ch
    ensures Sized(Step(s, e).0) && SameFor(s, Step(s, e).0, other)
  {
    match e {
      case LR(ch, k, ok) => LoadRecordIsolated(s, ch, k, ok, other);
      case UR(ch, k, unloaded) => UnloadRecordIsolated(s, ch, k, unloaded, other);
      case RD(ch, k, length, threshold, started, vox) =>
        RecordIsolated(s, ch, k, length, threshold, started, vox, other);
      case SR(ch, k) => StopRecordIsolated(s, ch, k, other);
    }
  }

  lemma {:induction false} OthersIsolated(s: Cae, e: Event, other: int)
    requires Inv(s) && Enabled(s, e) && e.OfClient() && !OfPlayback(e) && !OfRecording(e)
    requires 0 <= other < CONNECTIONS && other != e.ch
    ensures Sized(Step(s, e).0) && SameFor(s, Step(s, e).0, other)
  {
    match e {
      case OS(ch, output, on) => SlotIsolated(s, SetStatus(s, ch, output, on).0, ch, other);
      case DC(ch) => KillIsolated(s, ch, other);
      case Closed(ch) => KillIsolated(s, ch, other);
    }
  }

  /** No command of one client, and no disconnection, changes what another client owns. */
  lemma {:induction false} ClientsIsolated(s: Cae, e: Event, other: int)
    requires Inv(s) && Enabled(s, e) && e.OfClient()
    requires 0 <= other < CONNECTIONS && other != e.ch
    ensures Sized(Step(s, e).0) && SameFor(s, Step(s, e).0, other)
  {
    if OfPlayback(e) {
      PlaybackIsolated(s, e, other);
    } else if OfRecording(e) {
      RecordingIsolated(s, e, other);
    } else {
      OthersIsolated(s, e, other);
    }
  }

  /** After a client is gone, its slot is empty and owns nothing. */
  lemma KillGivesUpEverything(s: Cae, ch: int)
    requires Inv(s) && 0 <= ch < CONNECTIONS
    ensures var t := Kill(s, ch);
            && Sized(t) && !t.socket[ch] && !t.auth[ch] && t.meterPort[ch] == 0 && t.argnum[ch] == 0
              && t.argptr[ch] == 0
            && (forall p <- t.handles :: p.owner != ch)
            && (forall k <- AllSlots() :: t.playOwner[k] != ch && t.recordOwner[k] != ch
                                          && (s.playOwner[k] == ch ==> k !in t.rings))
  {
    InvKill(s, ch);
    EmptySlotOwnsNothing(Kill(s, ch), ch);
  }

  /** A new connection takes the first empty slot and inherits nothing; a full table refuses it. */
  lemma NewClientInheritsNothing(s: Cae)
    requires Inv(s)
    ensures var i := FirstClosed(s.socket, 0);
            if i < CONNECTIONS then
              var t := Connect(s);
              && Sized(t) && t == s.(socket := t.socket) && t.socket[i] && !s.socket[i]
              && !t.auth[i] && t.meterPort[i] == 0 && t.argnum[i] == 0 && t.argptr[i] == 0
              && (forall p <- t.handles :: p.owner != i)
              && (forall k <- AllSlots() :: t.playOwner[k] != i && t.recordOwner[k] != i)
            else Connect(s) == s && (forall j :: 0 <= j < CONNECTIONS ==> s.socket[j])
  {
    var i := FirstClosed(s.socket, 0);
    if i < CONNECTIONS {
      assert SlotOk(s, i);
      EmptySlotOwnsNothing(s, i);
    }
  }

  // ------------------------------------------------------- the exception: `PY` arguments

  /** Would these arguments, as far as they can be read, change the stored ones? */
  predicate Overwrites(p: Params, length: Option<int>, speed: Option<int>, flag: Option<int>) {
    length.Some? && (
      || length.value != p.length
      || (speed.Some? && (
            || speed.value != p.speed
            || (flag == Some(0) && p.pitch)
            || (flag == Some(1) && !p.pitch)))
    )
  }

  lemma {:induction false} StoredParams(s: Cae, at: Slot, length: Option<int>, speed: Option<int>, flag: Option<int>,
                                        k: Slot)
    requires Sized(s) && at in AllSlots() && k in AllSlots()
    ensures var t := StoreParams(s, at, length, speed, flag);
            t.playParams[k] == s.playParams[k] <==> !(k == at && Overwrites(s.playParams[k], length, speed, flag))
  {
  }

  lemma {:induction false} PlayParamsKept(s: Cae, ch: int, arg: Option<int>, length: Option<int>, speed: Option<int>,
                                          flag: Option<int>, started: bool, k: Slot)
    requires Inv(s) && InRange(s) && 0 <= ch < CONNECTIONS && k in AllSlots() && s.playOwner[k] != -1
    ensures k in Play(s, ch, arg, length, speed, flag, started).0.playParams
    ensures Play(s, ch, arg, length, speed, flag, started).0.playParams[k] == s.playParams[k] <==>
            !(s.auth[ch] && NamedHandle(s.handles, arg) == Some(FindHandle(s.handles, k, 0))
              && Overwrites(s.playParams[k], length, speed, flag))
  {
    OneToOne(s, k);
    match NamedHandle(s.handles, arg) {
      case None =>
      case Some(h) =>
        StoredParams(s, s.handles[h].At(), length, speed, flag, k);
        if s.handles[h].At() == k {
          assert h == FindHandle(s.handles, k, 0);
        }
    }
  }

  /** The stored length, speed and pitch of another client's stream are kept by every event
      except an authenticated `PY` that names its handle with different arguments: the
      arguments are stored before the owner is looked at. */
  lemma {:induction false} ParamsKeptExactly(s: Cae, e: Event, k: Slot)
    requires Inv(s) && Enabled(s, e) && e.OfClient()
    requires k in AllSlots() && s.playOwner[k] != -1 && s.playOwner[k] != e.ch
    ensures k in Step(s, e).0.playParams
    ensures Step(s, e).0.playParams[k] == s.playParams[k] <==>
            !(e.PY? && s.auth[e.ch]
              && NamedHandle(s.handles, e.arg) == Some(FindHandle(s.handles, k, 0))
              && Overwrites(s.playParams[k], e.length, e.speed, e.flag))
  {
    LiveInRange(s);
    match e {
      case UP(ch, arg) => InvUnloadPlayback(s, ch, arg);
      case PY(ch, arg, length, speed, flag, started) => PlayParamsKept(s, ch, arg, length, speed, flag, started, k);
      case _ =>
    }
  }

  // ------------------------------------------------------- the exception: `RD` arguments

  /** Would these arguments, as far as they can be read, change the stored ones? */
  predicate OverwritesRecord(p: RecordParams, length: Option<int>, threshold: Option<int>) {
    length.Some? && (length.value != p.length || (threshold.Some? && threshold.value != p.threshold))
  }

  /** Likewise the stored length and threshold of another client's recording are kept by every
      event except an authenticated `RD` that names its stream with different arguments. */
  lemma {:induction false} RecordParamsKeptExactly(s: Cae, e: Event, k: Slot)
    requires Inv(s) && Enabled(s, e) && e.OfClient()
    requires k in AllSlots() && s.recordOwner[k] != -1 && s.recordOwner[k] != e.ch
    ensures k in Step(s, e).0.recordParams
    ensures Step(s, e).0.recordParams[k] == s.recordParams[k] <==>
            !(e.RD? && s.auth[e.ch] && e.k == k && OverwritesRecord(s.recordParams[k], e.length, e.threshold))
  {
    if OfPlayback(e) {
      PlaybackKeepsRecords(s, e);
    }
  }

  lemma {:induction false} PlaybackKeepsRecords(s: Cae, e: Event)
    requires Inv(s) && Enabled(s, e) && OfPlayback(e)
    ensures var t := Step(s, e).0;
            t.recordOwner == s.recordOwner && t.recordParams == s.recordParams && t.recordings == s.recordings
  {
    LiveInRange(s);
    match e {
      case LP(ch, card, playable) => LoadKeepsRecords(s, ch, card, playable);
      case UP(ch, arg) => InvUnloadPlayback(s, ch, arg);
      case PY(ch, arg, length, speed, flag, started) => PlayChanges(s, ch, arg, length, speed, flag, started);
      case _ =>
    }
  }

  // ------------------------------------------------------- the exception: `SR`

  /** Another client's recording goes on, or does not begin, with every event except an
      authenticated `SR` that names its stream: the owner is not looked at. */
  lemma {:induction false} RecordingKeptExactly(s: Cae, e: Event, k: Slot)
    requires Inv(s) && Enabled(s, e) && e.OfClient()
    requires k in AllSlots() && s.recordOwner[k] != -1 && s.recordOwner[k] != e.ch
    ensures (k in Step(s, e).0.recordings <==> k in s.recordings) <==>
            !(e.SR? && s.auth[e.ch] && e.k == k && k in s.recordings)
  {
    assert RecordOk(s, k);
    if OfPlayback(e) {
      PlaybackKeepsRecords(s, e);
    }
  }

  lemma {:induction false} LoadKeepsRecords(s: Cae, ch: int, card: int, playable: bool)
    requires Inv(s) && 0 <= ch < CONNECTIONS && s.socket[ch] && card < CARDS
    ensures var t := LoadPlayback(s, ch, card, playable).0;
            t.recordOwner == s.recordOwner && t.recordParams == s.recordParams && t.recordings == s.recordings
  {
  }

  // ------------------------------------------------------------------- messages

  /** The message concerns the client it is sent to, in the state it is sent in. */
  ghost predicate Concerns(s: Cae, n: Notice)
    requires Sized(s) && 0 <= n.to < CONNECTIONS
  {
    match n.message
    case Loaded(card, stream, h) => 0 <= h < HANDLES && s.handles[h] == PlayHandle(card, stream, n.to)
    case Playing(h, length, speed) =>
      && 0 <= h < HANDLES && s.handles[h].Live() && s.handles[h].owner == n.to
      && s.handles[h].At() in s.playParams
      && s.playParams[s.handles[h].At()].length == length && s.playParams[s.handles[h].At()].speed == speed
    case Stopped(h) => 0 <= h < HANDLES && s.handles[h].Live() && s.handles[h].owner == n.to
    case Recording(card, stream, length, threshold) =>
      && Slot(card, stream) in s.recordOwner && s.recordOwner[Slot(card, stream)] == n.to
      && Slot(card, stream) in s.recordParams && s.recordParams[Slot(card, stream)] == RecordParams(length, threshold)
    case RecordStarted(card, stream) => Slot(card, stream) in s.recordOwner && s.recordOwner[Slot(card, stream)] == n.to
    case RecordStopped(card, stream) => Slot(card, stream) in s.recordOwner && s.recordOwner[Slot(card, stream)] == n.to
    case RecordUnloaded(card, stream, _) => Slot(card, stream) in s.recordOwner
      && s.recordOwner[Slot(card, stream)] == -1
    case OutputStatus(output, flag) => s.meterPort[n.to] > 0 && flag == (output in s.flags)
    case Broadcast(_) => s.auth[n.to]
    case Meter(_) => s.meterPort[n.to] > 0
    case _ => true
  }

  lemma PlayUpdateReaches(s: Cae, k: Slot, state: int, n: Notice)
    requires Inv(s) && k in AllSlots() && n in PlayUpdate(s, k.card, k.stream, state)
    ensures 0 <= n.to < CONNECTIONS && s.socket[n.to] && n.to == s.playOwner[k] && Concerns(s, n)
  {
    OneToOne(s, k);
    assert k == Slot(k.card, k.stream);
  }

  lemma LoadReaches(s: Cae, ch: int, card: int, playable: bool, n: Notice)
    requires Inv(s) && 0 <= ch < CONNECTIONS && s.socket[ch] && card < CARDS
    requires n in LoadPlayback(s, ch, card, playable).1
    ensures n.to == ch && Sized(LoadPlayback(s, ch, card, playable).0)
    ensures Concerns(LoadPlayback(s, ch, card, playable).0, n)
  {
    if s.auth[ch] && card >= 0 && Allot(s, card, playable).Some? {
      var k := Slot(card, Allot(s, card, playable).value);
      assert k in AllSlots();
      NoStaleHandle(s, k);
    }
  }

  lemma {:induction false} PlayOutcome(s: Cae, ch: int, arg: Option<int>, length: Option<int>, speed: Option<int>,
                                       flag: Option<int>, started: bool) returns (k: Slot)
    requires Sized(s) && InRange(s) && 0 <= ch < CONNECTIONS
    ensures var (t, out) := Play(s, ch, arg, length, speed, flag, started);
            && Sized(t) && t == s.(playParams := t.playParams)
            && (out == [Notice(ch, Status(false))]
                || (k in AllSlots() && t.playOwner[k] == ch && out == PlayUpdate(t, k.card, k.stream, 1)))
  {
    k := Slot(0, 0);
    match NamedHandle(s.handles, arg) {
      case None =>
      case Some(h) => k := s.handles[h].At();
    }
  }

  lemma {:induction false} PlayReaches(s: Cae, ch: int, arg: Option<int>, length: Option<int>, speed: Option<int>,
                                       flag: Option<int>, started: bool, n: Notice)
    requires Inv(s) && InRange(s) && 0 <= ch < CONNECTIONS && s.socket[ch]
    requires n in Play(s, ch, arg, length, speed, flag, started).1
    ensures var t := Play(s, ch, arg, length, speed, flag, started).0;
            n.to == ch && Sized(t) && Concerns(t, n)
  {
    var k := PlayOutcome(s, ch, arg, length, speed, flag, started);
    var (t, out) := Play(s, ch, arg, length, speed, flag, started);
    InvParams(s, t);
    if out != [Notice(ch, Status(false))] {
      PlayUpdateReaches(t, k, 1, n);
    }
  }

  lemma StopReaches(s: Cae, ch: int, arg: Option<int>, stopped: bool, n: Notice)
    requires Inv(s) && InRange(s) && 0 <= ch < CONNECTIONS && s.socket[ch] && n in Stop(s, ch, arg, stopped)
    ensures n.to == ch && Concerns(s, n)
  {
    match NamedHandle(s.handles, arg) {
      case None =>
      case Some(h) =>
        if n.message.Stopped? {
          PlayUpdateReaches(s, s.handles[h].At(), 2, n);
        }
    }
  }

  /** The message tells the status of an output as it is. */
  predicate TellsStatus(m: Message, flags: set<Output>) { m.OutputStatus? && m.flag == (m.output in flags) }

  /** What is sent to each goes to them and to no other. */
  lemma {:induction false} ToEachExactly(to: seq<bool>, m: Message, i: nat)
    requires i <= |to|
    ensures forall n :: n in ToEach(to, m, i) <==> i <= n.to < |to| && to[n.to] && n.message == m
    decreases |to| - i
  {
    if i < |to| {
      ToEachExactly(to, m, i + 1);
    }
  }

  /** Every message is an output's status, to a metered client. */
  predicate AllTell(ns: seq<Notice>, to: seq<bool>, flags: set<Output>) {
    forall i :: 0 <= i < |ns| ==> 0 <= ns[i].to < |to| && to[ns[i].to] && TellsStatus(ns[i].message, flags)
  }

  lemma {:induction false} BothTell(a: seq<Notice>, b: seq<Notice>, to: seq<bool>, flags: set<Output>)
    requires AllTell(a, to, flags) && AllTell(b, to, flags)
    ensures AllTell(a + b, to, flags)
  {
  }

  lemma {:induction false} StreamsTell(to: seq<bool>, flags: set<Output>, card: int, port: int, n: nat)
    ensures AllTell(StreamsTold(to, flags, card, port, n), to, flags)
  {
    if n > 0 {
      StreamsTell(to, flags, card, port, n - 1);
      var output := Output(card, port, n - 1);
      ToEachExactly(to, OutputStatus(output, output in flags), 0);
      BothTell(StreamsTold(to, flags, card, port, n - 1), ToEach(to, OutputStatus(output, output in flags), 0),
               to, flags);
    }
  }

  lemma {:induction false} PortsTell(to: seq<bool>, flags: set<Output>, card: int, n: nat)
    ensures AllTell(PortsTold(to, flags, card, n), to, flags)
  {
    if n > 0 {
      PortsTell(to, flags, card, n - 1);
      StreamsTell(to, flags, card, n - 1, STREAMS);
      BothTell(PortsTold(to, flags, card, n - 1), StreamsTold(to, flags, card, n - 1, STREAMS), to, flags);
    }
  }

  lemma {:induction false} CardTells(to: seq<bool>, flags: set<Output>, driver: Driver, card: int)
    ensures AllTell(CardTold(to, flags, driver, card), to, flags)
  {
    PortsTell(to, flags, card, PORTS);
  }

  lemma {:induction false} CardsTell(to: seq<bool>, flags: set<Output>, driver: seq<Driver>, n: nat)
    requires n <= |driver|
    ensures AllTell(CardsTold(to, flags, driver, n), to, flags)
  {
    if n > 0 {
      CardsTell(to, flags, driver, n - 1);
      CardTells(to, flags, driver[n - 1], n - 1);
      BothTell(CardsTold(to, flags, driver, n - 1), CardTold(to, flags, driver[n - 1], n - 1), to, flags);
    }
  }

  lemma {:induction false} MeterReaches(s: Cae, ch: int, port: int, n: Notice)
    requires Inv(s) && 0 <= ch < CONNECTIONS && s.socket[ch] && n in EnableMeter(s, ch, port).1
    ensures var t := EnableMeter(s, ch, port).0;
            Sized(t) && 0 <= n.to < CONNECTIONS && s.socket[n.to] && Concerns(t, n)
    ensures n.to == ch || n.message.OutputStatus?
  {
    InvEnableMeter(s, ch, port);
    CardsTell(Metered(EnableMeter(s, ch, port).0.meterPort), s.flags, s.driver, CARDS);
    if n.message.OutputStatus? {
      assert SlotOk(EnableMeter(s, ch, port).0, n.to);
    }
  }

  lemma {:induction false} PlaybackReaches(s: Cae, e: Event, n: Notice)
    requires Inv(s) && Enabled(s, e) && OfPlayback(e) && n in Step(s, e).1
    ensures Sized(Step(s, e).0)
    ensures 0 <= n.to < CONNECTIONS && s.socket[n.to] && Concerns(Step(s, e).0, n)
    ensures n.to == e.ch || n.message.OutputStatus?
  {
    LiveInRange(s);
    match e {
      case PW(_, _) =>
      case LP(ch, card, playable) => LoadReaches(s, ch, card, playable, n);
      case UP(ch, arg) => InvUnloadPlayback(s, ch, arg);
      case PY(ch, arg, length, speed, flag, started) => PlayReaches(s, ch, arg, length, speed, flag, started, n);
      case SP(ch, arg, stopped) => StopReaches(s, ch, arg, stopped, n);
      case ME(ch, port) => MeterReaches(s, ch, port, n);
    }
  }

  lemma {:induction false} UnloadRecordReaches(s: Cae, ch: int, k: Slot, unloaded: Option<nat>, n: Notice)
    requires Sized(s) && 0 <= ch < CONNECTIONS && k.card < CARDS && k.stream < STREAMS
    requires n in UnloadRecord(s, ch, k, unloaded).1
    ensures var t := UnloadRecord(s, ch, k, unloaded).0; Sized(t) && n.to == ch && Concerns(t, n)
  {
  }

  lemma {:induction false} RecordReaches(s: Cae, ch: int, k: Slot, length: Option<int>, threshold: Option<int>,
                                         started: bool, vox: bool, n: Notice)
    requires Sized(s) && 0 <= ch < CONNECTIONS && k.card < CARDS && k.stream < STREAMS
    requires n in Record(s, ch, k, length, threshold, started, vox).1
    ensures var t := Record(s, ch, k, length, threshold, started, vox).0; Sized(t) && n.to == ch && Concerns(t, n)
  {
  }

  lemma {:induction false} RecordingReaches(s: Cae, e: Event, n: Notice)
    requires Inv(s) && Enabled(s, e) && OfRecording(e) && n in Step(s, e).1
    ensures Sized(Step(s, e).0)
    ensures n.to == e.ch && s.socket[n.to] && Concerns(Step(s, e).0, n)
  {
    match e {
      case LR(_, _, _) =>
      case UR(ch, k, unloaded) => UnloadRecordReaches(s, ch, k, unloaded, n);
      case RD(ch, k, length, threshold, started, vox) => RecordReaches(s, ch, k, length, threshold, started, vox, n);
      case SR(_, _) =>
    }
  }

  lemma {:induction false} ManyReach(s: Cae, e: Event, n: Notice)
    requires Inv(s) && Enabled(s, e) && (e.BroadcastAll? || e.MeterAll? || e.OS?) && n in Step(s, e).1
    ensures Sized(Step(s, e).0)
    ensures 0 <= n.to < CONNECTIONS && s.socket[n.to] && Concerns(Step(s, e).0, n)
    ensures e.OfClient() ==> n.to == e.ch || n.message.OutputStatus?
  {
    match e {
      case BroadcastAll(id) => ToEachExactly(s.auth, Broadcast(id), 0);
      case MeterAll(id) => ToEachExactly(Metered(s.meterPort), Meter(id), 0);
      case OS(_, output, on) => ToEachExactly(Metered(s.meterPort), OutputStatus(output, on), 0);
    }
    assert SlotOk(s, n.to);
  }

  lemma {:induction false} OthersReach(s: Cae, e: Event, n: Notice)
    requires Inv(s) && Enabled(s, e) && !OfPlayback(e) && !OfRecording(e) && n in Step(s, e).1
    ensures Sized(Step(s, e).0)
    ensures 0 <= n.to < CONNECTIONS && s.socket[n.to] && Concerns(Step(s, e).0, n)
    ensures e.OfClient() ==> n.to == e.ch || n.message.OutputStatus?
  {
    match e {
      case PlayState(k, state) => PlayUpdateReaches(s, k, state, n);
      case RecordState(k, _) => assert RecordOk(s, k);
      case RecordTimer(k) => assert RecordOk(s, k);
      case BroadcastAll(_) => ManyReach(s, e, n);
      case MeterAll(_) => ManyReach(s, e, n);
      case OS(_, _, _) => ManyReach(s, e, n);
      case _ =>
    }
  }

  /** Every message goes to a connected client that it concerns, and every answer to the client
      that asked. */
  lemma {:induction false} MessagesReachClients(s: Cae, e: Event, n: Notice)
    requires Inv(s) && Enabled(s, e) && n in Step(s, e).1
    ensures Sized(Step(s, e).0)
    ensures 0 <= n.to < CONNECTIONS && s.socket[n.to] && Concerns(Step(s, e).0, n)
    ensures e.OfClient() ==> n.to == e.ch || n.message.OutputStatus?
  {
    if OfPlayback(e) {
      PlaybackReaches(s, e, n);
    } else if OfRecording(e) {
      RecordingReaches(s, e, n);
    } else {
      OthersReach(s, e, n);
    }
  }
}
