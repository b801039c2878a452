/**
 Runs of the Core Audio Engine's session state machine: every event keeps the invariant, so
 that the tables agree in every state that a run can reach.
 */
module CaeRuns {
  import opened Options
  import opened CaeState
  import opened CaeInvariant

  /** A client's commands, connections coming and going, and what drivers and timers report.
      The results of the drivers' own work (a file that can be played, a stream that starts)
      are part of the event. */
  datatype Event =
    | NewConnection
    | PW(ch: int, accepted: bool)
    | LP(ch: int, card: int, playable: bool)
    | UP(ch: int, arg: Option<int>)
    | PY(ch: int, arg: Option<int>, length: Option<int>, speed: Option<int>, flag: Option<int>, started: bool)
    | SP(ch: int, arg: Option<int>, stopped: bool)
    | LR(ch: int, k: Slot, recordable: bool)
    | UR(ch: int, k: Slot, unloaded: Option<nat>)
    | RD(ch: int, k: Slot, length: Option<int>, threshold: Option<int>, started: bool, vox: bool)
    | SR(ch: int, k: Slot)
    | OS(ch: int, output: Output, on: bool)
    | ME(ch: int, port: int)
    | DC(ch: int)
    | Closed(ch: int)
    | PlayState(k: Slot, state: int)
    | RecordState(k: Slot, state: int)
    | RecordTimer(k: Slot)
    | BroadcastAll(id: int)
    | MeterAll(id: int)
  {
    predicate OfClient() {
      !NewConnection? && !PlayState? && !RecordState? && !RecordTimer? && !BroadcastAll? && !MeterAll?
    }
  }

  /** Clients' events come from connected clients, with cards and streams in range. */
  ghost predicate Enabled(s: Cae, e: Event)
    requires Sized(s)
  {
    && (e.OfClient() ==> 0 <= e.ch < CONNECTIONS && s.socket[e.ch])
    && (e.LP? ==> e.card < CARDS)
    && (e.LR? || e.UR? || e.RD? || e.SR? ==> e.k.card < CARDS && e.k.stream < STREAMS)
    && (e.PlayState? || e.RecordState? || e.RecordTimer? ==> e.k in AllSlots())
  }

  lemma LiveInRange(s: Cae)
    requires Inv(s)
    ensures InRange(s)
  {
    forall h | h in s.handles && h.Live()
      ensures h.At() in AllSlots()
    {
      var i :| 0 <= i < HANDLES && s.handles[i] == h;
      assert HandleOk(s, i);
    }
  }

  ghost function Step(s: Cae, e: Event): (Cae, seq<Notice>)
    requires Inv(s) && Enabled(s, e)
  {
    LiveInRange(s);
    match e
    case NewConnection => (Connect(s), [])
    case PW(ch, accepted) => Authenticate(s, ch, accepted)
    case LP(ch, card, playable) => LoadPlayback(s, ch, card, playable)
    case UP(ch, arg) => UnloadPlayback(s, ch, arg)
    case PY(ch, arg, length, speed, flag, started) => Play(s, ch, arg, length, speed, flag, started)
    case SP(ch, arg, stopped) => (s, Stop(s, ch, arg, stopped))
    case LR(ch, k, recordable) => LoadRecord(s, ch, k, recordable)
    case UR(ch, k, unloaded) => UnloadRecord(s, ch, k, unloaded)
    case RD(ch, k, length, threshold, started, vox) => Record(s, ch, k, length, threshold, started, vox)
    case SR(ch, k) => StopRecord(s, ch, k)
    case OS(ch, output, flag) => SetStatus(s, ch, output, flag)
    case ME(ch, port) => EnableMeter(s, ch, port)
    case DC(ch) => (Kill(s, ch), [])
    case Closed(ch) => (Kill(s, ch), [])
    case PlayState(k, state) => (s, PlayUpdate(s, k.card, k.stream, state))
    case RecordState(k, state) => (s, RecordNotice(s, k, state))
    case RecordTimer(k) => EndRecord(s, k)
    case BroadcastAll(id) => (s, ToEach(s.auth, Broadcast(id), 0))
    case MeterAll(id) => (s, ToEach(Metered(s.meterPort), Meter(id), 0))
  }

  // ------------------------------------------------------- each event keeps the invariant

  /** Record streams are as good as before where owners stay and no recording begins. */
  lemma {:induction false} RecordsStay(s: Cae, t: Cae)
    requires Inv(s) && Sized(t) && t.recordOwner == s.recordOwner && t.recordings <= s.recordings
             && t.driver == s.driver
    requires forall ch :: 0 <= ch < CONNECTIONS && s.socket[ch] ==> t.socket[ch]
    ensures forall k :: k in AllSlots() ==> RecordOk(t, k)
  {
    forall k | k in AllSlots()
      ensures RecordOk(t, k)
    {
      assert RecordOk(s, k);
    }
  }

  /** So are playback streams where handles, owners and rings stay. */
  lemma {:induction false} StreamsStay(s: Cae, t: Cae)
    requires Inv(s) && Sized(t)
    requires t.handles == s.handles && t.playOwner == s.playOwner && t.rings == s.rings && t.driver == s.driver
    requires forall ch :: 0 <= ch < CONNECTIONS && s.socket[ch] ==> t.socket[ch]
    ensures forall h :: 0 <= h < HANDLES ==> HandleOk(t, h)
    ensures forall k :: k in AllSlots() ==> StreamOk(t, k)
  {
    forall h | 0 <= h < HANDLES
      ensures HandleOk(t, h)
    {
      assert HandleOk(s, h);
    }
    forall k | k in AllSlots()
      ensures StreamOk(t, k)
    {
      assert StreamOk(s, k);
      KeepHandle(s, t, k);
    }
  }

  /** Changes that leave sockets, handles, owners and rings alone. */
  lemma {:induction false} InvSlotsOnly(s: Cae, t: Cae)
    requires Inv(s) && Sized(t)
    requires t.handles == s.handles && t.playOwner == s.playOwner && t.rings == s.rings && t.driver == s.driver
    requires t.recordOwner == s.recordOwner && t.recordings <= s.recordings
    requires forall ch :: 0 <= ch < CONNECTIONS && s.socket[ch] ==> t.socket[ch]
    requires forall ch :: 0 <= ch < CONNECTIONS ==> SlotOk(t, ch)
    ensures Inv(t)
  {
    StreamsStay(s, t);
    RecordsStay(s, t);
  }

  lemma InvConnect(s: Cae)
    requires Inv(s)
    ensures Inv(Connect(s))
  {
    var t := Connect(s);
    forall ch | 0 <= ch < CONNECTIONS
      ensures SlotOk(t, ch)
    {
      assert SlotOk(s, ch);
    }
    InvSlotsOnly(s, t);
  }

  lemma InvClientSlot(s: Cae, t: Cae, ch: int)
    requires Inv(s) && Sized(t) && 0 <= ch < CONNECTIONS && s.socket[ch]
    requires t == s.(auth := t.auth, meterPort := t.meterPort)
    requires forall i :: 0 <= i < CONNECTIONS && i != ch ==> t.auth[i] == s.auth[i] && t.meterPort[i] == s.meterPort[i]
    requires t.meterPort[ch] >= 0
    ensures Inv(t)
  {
    forall i | 0 <= i < CONNECTIONS
      ensures SlotOk(t, i)
    {
      assert SlotOk(s, i);
    }
    InvSlotsOnly(s, t);
  }

  lemma {:induction false} InvParams(s: Cae, t: Cae)
    requires Inv(s) && Sized(t)
    requires t == s.(playParams := t.playParams, recordParams := t.recordParams, recordings := t.recordings,
             flags := t.flags)
    requires t.recordings <= s.recordings
    ensures Inv(t)
  {
    forall i | 0 <= i < CONNECTIONS
      ensures SlotOk(t, i)
    {
      assert SlotOk(s, i);
    }
    InvSlotsOnly(s, t);
  }

  /** One record stream changes: its owner, or whether it records. */
  lemma {:induction false} InvRecord(s: Cae, t: Cae, k: Slot)
    requires Inv(s) && k in AllSlots() && Sized(t)
    requires t == s.(recordOwner := t.recordOwner, recordings := t.recordings)
    requires t.recordOwner[k] == -1 || (0 <= t.recordOwner[k] < CONNECTIONS && s.socket[t.recordOwner[k]])
    requires k in t.recordings ==> t.recordOwner[k] != -1 && s.driver[k.card] != NoDriver
    requires t.recordings <= s.recordings + {k}
    requires forall j :: j in AllSlots() && j != k ==> t.recordOwner[j] == s.recordOwner[j]
    ensures Inv(t)
  {
    StreamsStay(s, t);
    forall j | j in AllSlots()
      ensures RecordOk(t, j)
    {
      assert RecordOk(s, j);
    }
    forall i | 0 <= i < CONNECTIONS
      ensures SlotOk(t, i)
    {
      assert SlotOk(s, i);
    }
  }

  lemma KeepHandle(s: Cae, t: Cae, k: Slot)
    requires Sized(s) && Sized(t)
    requires forall h :: 0 <= h < HANDLES && s.handles[h].At() == k ==> t.handles[h] == s.handles[h]
    ensures HasHandle(s, k) ==> HasHandle(t, k)
  {
    if HasHandle(s, k) {
      var h :| 0 <= h < HANDLES && s.handles[h].Live() && s.handles[h].At() == k;
      assert t.handles[h].Live();
    }
  }

  /** The driver never allots a stream that still has a handle, so the branch that clears a
      stale assignment is never taken. */
  lemma NoStaleHandle(s: Cae, k: Slot)
    requires Inv(s) && k in AllSlots() && k !in s.rings
    ensures FindHandle(s.handles, k, 0) == HANDLES
    ensures ClearStale(s.(rings := s.rings + {k}), k) == s.(rings := s.rings + {k})
  {
    OneToOne(s, k);
  }

  lemma {:induction false} InvAssign(s: Cae, ch: int, k: Slot)
    requires Inv(s) && k in AllSlots() && k !in s.rings && s.driver[k.card] != NoDriver
    requires 0 <= ch < CONNECTIONS && s.socket[ch]
    ensures Inv(Assign(s.(rings := s.rings + {k}), ch, k))
  {
    var n := NewHandle(s);
    var t := Assign(s.(rings := s.rings + {k}), ch, k);
    HandleAlwaysFree(s);
    NoStaleHandle(s, k);
    assert t.handles == s.handles[n := PlayHandle(k.card, k.stream, ch)];
    forall h | 0 <= h < HANDLES
      ensures HandleOk(t, h)
    {
      assert HandleOk(s, h);
      assert s.handles[h].At() != k;
    }
    assert HandleOk(s, n);
    forall j | j in AllSlots()
      ensures StreamOk(t, j)
    {
      assert StreamOk(s, j);
      if j == k {
        assert t.handles[n].Live() && t.handles[n].At() == k;
      } else if HasHandle(s, j) {
        var h :| 0 <= h < HANDLES && s.handles[h].Live() && s.handles[h].At() == j;
        assert t.handles[h].Live() && t.handles[h].At() == j;
      }
    }
    RecordsStay(s, t);
    forall i | 0 <= i < CONNECTIONS
      ensures SlotOk(t, i)
    {
      assert SlotOk(s, i);
    }
  }

  lemma InvLoadPlayback(s: Cae, ch: int, card: int, playable: bool)
    requires Inv(s) && 0 <= ch < CONNECTIONS && s.socket[ch] && card < CARDS
    ensures Inv(LoadPlayback(s, ch, card, playable).0)
  {
    if s.auth[ch] && card >= 0 && Allot(s, card, playable).Some? {
      var k := Slot(card, Allot(s, card, playable).value);
      assert k in AllSlots();
      NoStaleHandle(s, k);
      InvAssign(s, ch, k);
    }
  }

  /** Giving up a stream, its ring buffer and its handle together. */
  lemma {:induction false} InvRelease(s: Cae, h: int)
    requires Inv(s) && 0 <= h < HANDLES && s.handles[h].Live()
    ensures var k := s.handles[h].At();
            k in AllSlots() && k in s.rings && s.driver[k.card] != NoDriver
            && Inv(ReleaseHandle(s.(rings := s.rings - {k}, playOwner := s.playOwner[k := -1]), h))
  {
    assert HandleOk(s, h);
    var k := s.handles[h].At();
    assert StreamOk(s, k);
    var t := ReleaseHandle(s.(rings := s.rings - {k}, playOwner := s.playOwner[k := -1]), h);
    forall g | 0 <= g < HANDLES
      ensures HandleOk(t, g)
    {
      assert HandleOk(s, g);
    }
    forall j | j in AllSlots()
      ensures StreamOk(t, j)
    {
      assert StreamOk(s, j);
      if j != k {
        KeepHandle(s, t, j);
      }
    }
    RecordsStay(s, t);
    forall i | 0 <= i < CONNECTIONS
      ensures SlotOk(t, i)
    {
      assert SlotOk(s, i);
    }
  }

  /** An unload that finds its handle always has a stream to unload, and only the owner's
      succeeds. */
  lemma InvUnloadPlayback(s: Cae, ch: int, arg: Option<int>)
    requires Inv(s) && InRange(s) && 0 <= ch < CONNECTIONS
    ensures Inv(UnloadPlayback(s, ch, arg).0)
    ensures UnloadPlayback(s, ch, arg).0 ==
            (match NamedHandle(s.handles, arg)
             case None => s
             case Some(h) =>
               var k := s.handles[h].At();
               if s.auth[ch] && s.handles[h].owner == ch
               then ReleaseHandle(s.(rings := s.rings - {k}, playOwner := s.playOwner[k := -1]), h)
               else s)
  {
    match NamedHandle(s.handles, arg) {
      case None =>
      case Some(h) =>
        InvRelease(s, h);
        assert HandleOk(s, h);
    }
  }

  /** What the connection did not own stays as good as it was. */
  lemma {:induction false} KillStreamOk(s: Cae, ch: int, k: Slot)
    requires Inv(s) && 0 <= ch < CONNECTIONS && k in AllSlots()
    ensures Sized(Kill(s, ch)) && StreamOk(Kill(s, ch), k)
  {
    var t := Kill(s, ch);
    assert StreamOk(s, k);
    if k in t.rings {
      var h :| 0 <= h < HANDLES && s.handles[h].Live() && s.handles[h].At() == k;
      assert HandleOk(s, h);
      assert t.handles[h].Live() && t.handles[h].At() == k;
    }
  }

  lemma {:induction false} InvKill(s: Cae, ch: int)
    requires Inv(s) && 0 <= ch < CONNECTIONS
    ensures Inv(Kill(s, ch))
  {
    var t := Kill(s, ch);
    forall h | 0 <= h < HANDLES
      ensures HandleOk(t, h)
    {
      assert HandleOk(s, h);
    }
    forall k | k in AllSlots()
      ensures StreamOk(t, k)
    {
      KillStreamOk(s, ch, k);
    }
    forall k | k in AllSlots()
      ensures RecordOk(t, k)
    {
      assert RecordOk(s, k);
    }
    forall i | 0 <= i < CONNECTIONS
      ensures SlotOk(t, i)
    {
      assert SlotOk(s, i);
    }
  }

  lemma InvLoadRecord(s: Cae, ch: int, k: Slot, recordable: bool)
    requires Inv(s) && 0 <= ch < CONNECTIONS && s.socket[ch] && k.card < CARDS && k.stream < STREAMS
    ensures Inv(LoadRecord(s, ch, k, recordable).0)
  {
    var t := LoadRecord(s, ch, k, recordable).0;
    if t != s {
      assert RecordOk(s, k);
      InvRecord(s, t, k);
    }
  }

  lemma InvUnloadRecord(s: Cae, ch: int, k: Slot, unloaded: Option<nat>)
    requires Inv(s) && 0 <= ch < CONNECTIONS && k.card < CARDS && k.stream < STREAMS
    ensures Inv(UnloadRecord(s, ch, k, unloaded).0)
  {
    var t := UnloadRecord(s, ch, k, unloaded).0;
    if t != s {
      InvRecord(s, t, k);
    }
  }

  lemma InvEnableMeter(s: Cae, ch: int, port: int)
    requires Inv(s) && 0 <= ch < CONNECTIONS && s.socket[ch]
    ensures Inv(EnableMeter(s, ch, port).0)
  {
    assert SlotOk(s, ch);
    InvClientSlot(s, EnableMeter(s, ch, port).0, ch);
  }

  lemma InvAuthenticate(s: Cae, ch: int, correct: bool)
    requires Inv(s) && 0 <= ch < CONNECTIONS && s.socket[ch]
    ensures Inv(Authenticate(s, ch, correct).0)
  {
    assert SlotOk(s, ch);
    InvClientSlot(s, Authenticate(s, ch, correct).0, ch);
  }

  lemma {:induction false} PlayLiveChanges(s: Cae, ch: int, k: Slot, length: Option<int>, speed: Option<int>,
                                           flag: Option<int>, started: bool)
    requires Sized(s) && k in AllSlots()
    ensures var t := PlayHandleAt(s, ch, k, length, speed, flag, started).0;
            Sized(t) && t == s.(playParams := t.playParams)
  {
  }

  /** Playing changes nothing but the stored arguments. */
  lemma {:induction false} PlayChanges(s: Cae, ch: int, arg: Option<int>, length: Option<int>, speed: Option<int>,
                                       flag: Option<int>, started: bool)
    requires Sized(s) && InRange(s) && 0 <= ch < CONNECTIONS
    ensures var t := Play(s, ch, arg, length, speed, flag, started).0;
            Sized(t) && t == s.(playParams := t.playParams)
  {
    var named := NamedHandle(s.handles, arg);
    if named.Some? {
      PlayLiveChanges(s, ch, s.handles[named.value].At(), length, speed, flag, started);
    }
  }

  lemma {:induction false} InvPlay(s: Cae, ch: int, arg: Option<int>, length: Option<int>, speed: Option<int>,
                                   flag: Option<int>, started: bool)
    requires Inv(s) && InRange(s) && 0 <= ch < CONNECTIONS
    ensures Inv(Play(s, ch, arg, length, speed, flag, started).0)
  {
    PlayChanges(s, ch, arg, length, speed, flag, started);
    InvParams(s, Play(s, ch, arg, length, speed, flag, started).0);
  }

  lemma {:induction false} InvRecordCommand(s: Cae, ch: int, k: Slot, length: Option<int>, threshold: Option<int>,
                                            started: bool, vox: bool)
    requires Inv(s) && 0 <= ch < CONNECTIONS && s.socket[ch] && k.card < CARDS && k.stream < STREAMS
    ensures Inv(Record(s, ch, k, length, threshold, started, vox).0)
  {
    if s.auth[ch] && k.card >= 0 && k.stream >= 0 {
      var s1 := StoreRecordParams(s, k, length, threshold);
      InvParams(s, s1);
      if Record(s, ch, k, length, threshold, started, vox).0 != s1 {
        InvRecord(s1, Record(s, ch, k, length, threshold, started, vox).0, k);
      }
    }
  }

  /** Events of connections and playback. */
  predicate OfPlayback(e: Event) { e.PW? || e.LP? || e.UP? || e.PY? || e.SP? || e.ME? }

  lemma {:induction false} InvPlaybackStep(s: Cae, e: Event)
    requires Inv(s) && Enabled(s, e) && OfPlayback(e)
    ensures Inv(Step(s, e).0)
  {
    LiveInRange(s);
    match e {
      case PW(ch, correct) => InvAuthenticate(s, ch, correct);
      case LP(ch, card, playable) => InvLoadPlayback(s, ch, card, playable);
      case UP(ch, arg) => InvUnloadPlayback(s, ch, arg);
      case PY(ch, arg, length, speed, flag, started) => InvPlay(s, ch, arg, length, speed, flag, started);
      case ME(ch, port) => InvEnableMeter(s, ch, port);
      case _ =>
    }
  }

  /** Events of record streams. */
  predicate OfRecording(e: Event) { e.LR? || e.UR? || e.RD? || e.SR? }

  lemma {:induction false} InvRecordStep(s: Cae, e: Event)
    requires Inv(s) && Enabled(s, e) && OfRecording(e)
    ensures Inv(Step(s, e).0)
  {
    match e {
      case LR(ch, k, recordable) => InvLoadRecord(s, ch, k, recordable);
      case UR(ch, k, unloaded) => InvUnloadRecord(s, ch, k, unloaded);
      case RD(ch, k, length, threshold, started, vox) => InvRecordCommand(s, ch, k, length, threshold, started, vox);
      case SR(ch, k) => InvParams(s, StopRecord(s, ch, k).0);
    }
  }

  lemma {:induction false} InvOtherStep(s: Cae, e: Event)
    requires Inv(s) && Enabled(s, e) && !OfPlayback(e) && !OfRecording(e)
    ensures Inv(Step(s, e).0)
  {
    match e {
      case NewConnection => InvConnect(s);
      case OS(ch, output, flag) => InvParams(s, SetStatus(s, ch, output, flag).0);
      case RecordTimer(k) => InvParams(s, EndRecord(s, k).0);
      case DC(ch) => InvKill(s, ch);
      case Closed(ch) => InvKill(s, ch);
      case _ =>
    }
  }

  /** Every event keeps the invariant. */
  lemma {:induction false} InvStep(s: Cae, e: Event)
    requires Inv(s) && Enabled(s, e)
    ensures Inv(Step(s, e).0)
  {
    if OfPlayback(e) {
      InvPlaybackStep(s, e);
    } else if OfRecording(e) {
      InvRecordStep(s, e);
    } else {
      InvOtherStep(s, e);
    }
  }

  // ------------------------------------------------------------------------- runs

  ghost predicate EnabledRun(s: Cae, es: seq<Event>)
    requires Inv(s)
    decreases |es|
  {
    es == [] || (Enabled(s, es[0]) && (InvStep(s, es[0]); EnabledRun(Step(s, es[0]).0, es[1..])))
  }

  ghost function Run(s: Cae, es: seq<Event>): Cae
    requires Inv(s) && EnabledRun(s, es)
    decreases |es|
  {
    if es == [] then s else (InvStep(s, es[0]); Run(Step(s, es[0]).0, es[1..]))
  }

  /** The invariant holds after any run. */
  lemma {:induction false} InvRun(s: Cae, es: seq<Event>)
    requires Inv(s) && EnabledRun(s, es)
    ensures Inv(Run(s, es))
    decreases |es|
  {
    if es != [] {
      InvStep(s, es[0]);
      InvRun(Step(s, es[0]).0, es[1..]);
    }
  }

  /** The engine as it starts up. */
  ghost function Started(driver: seq<Driver>, sampleRate: nat): (s: Cae)
    requires |driver| == CARDS && sampleRate > 0
    ensures Inv(s)
  {
    InvInitial(driver, sampleRate);
    Initial(driver, sampleRate)
  }

  /** In every state reachable from start-up the handle table, the owners and the ring
      buffers agree stream by stream, and a handle is free for the next stream. */
  lemma ReachableOneToOne(driver: seq<Driver>, sampleRate: nat, es: seq<Event>, k: Slot)
    requires |driver| == CARDS && sampleRate > 0 && k in AllSlots() && EnabledRun(Started(driver, sampleRate), es)
    ensures var s := Run(Started(driver, sampleRate), es);
            && Sized(s)
            && (k in s.rings <==> s.playOwner[k] != -1)
            && (k in s.rings <==>
                exists h :: 0 <= h < HANDLES && s.handles[h] == PlayHandle(k.card, k.stream, s.playOwner[k]))
            && (forall g, h :: 0 <= g < HANDLES && 0 <= h < HANDLES && s.handles[g].At() == s.handles[h].At() == k ==>
                                 g == h)
            && (k in s.rings ==> 0 <= s.playOwner[k] < CONNECTIONS && s.socket[s.playOwner[k]])
            && FreeOffset(s.handles, s.next, 0) < HANDLES
  {
    InvRun(Started(driver, sampleRate), es);
    var s := Run(Started(driver, sampleRate), es);
    OneToOne(s, k);
    HandleAlwaysFree(s);
    if k in s.rings {
      assert s.handles[FindHandle(s.handles, k, 0)] == PlayHandle(k.card, k.stream, s.playOwner[k]);
    }
  }
}
