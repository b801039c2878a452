/**
 The Core Audio Engine's main object (cae/cae.cpp) with its tables updated in place. Each
 method is proved to have the effect, and to send the messages, that `CaeState` gives.
 */
module CaeServer {
  import opened Options
  import opened Sequences
  import opened CaeState
  import opened CaeInvariant
  import opened CaeRuns

  class MainObject {
    var socket: seq<bool>
    var auth: seq<bool>
    var meterPort: seq<int>
    var argnum: seq<int>
    var argptr: seq<int>
    const caeDriver: seq<Driver>
    var playHandle: seq<PlayHandle>
    var nextPlayHandle: int
    var playOwner: map<Slot, int>
    var playParams: map<Slot, Params>
    var recordOwner: map<Slot, int>
    var recordParams: map<Slot, RecordParams>
    /** The streams for which a driver is recording. */
    var recordings: set<Slot>
    var outputStatusFlag: set<Output>
    const systemSampleRate: nat
    /** The streams for which a driver holds a ring buffer. */
    var playRing: set<Slot>
    /** Every message written to a client. */
    var sent: seq<Notice>

    ghost function State(): Cae
      reads this
    {
      Cae(socket, auth, meterPort, argnum, argptr, caeDriver, playHandle, nextPlayHandle,
          playOwner, playParams, recordOwner, recordParams, recordings, playRing, outputStatusFlag, systemSampleRate)
    }

    constructor (driver: seq<Driver>, sampleRate: nat)
      requires |driver| == CARDS && sampleRate > 0
      ensures State() == Started(driver, sampleRate) && sent == []
    {
      var none := map k | k in AllSlots() :: -1;
      socket := seq(CONNECTIONS, i => false);
      auth := seq(CONNECTIONS, i => false);
      meterPort := seq(CONNECTIONS, i => 0);
      argnum := seq(CONNECTIONS, i => 0);
      argptr := seq(CONNECTIONS, i => 0);
      caeDriver := driver;
      playHandle := seq(HANDLES, i => FREE_HANDLE);
      nextPlayHandle := 0;
      playOwner := none;
      playParams := map k | k in AllSlots() :: DEFAULT_PARAMS;
      recordOwner := none;
      recordParams := map k | k in AllSlots() :: DEFAULT_RECORD_PARAMS;
      recordings, outputStatusFlag := {}, {};
      systemSampleRate := sampleRate;
      playRing := {};
      sent := [];
    }

    /** Writes to a client; the client must be there. */
    method EchoCommand(ch: int, message: Message)
      requires 0 <= ch < |socket| && socket[ch]
      modifies this`sent
      ensures sent == old(sent) + [Notice(ch, message)]
    {
      sent := sent + [Notice(ch, message)];
    }

    method NewConnection()
      requires Inv(State())
      modifies this`socket
      ensures State() == Connect(old(State())) && Inv(State())
    {
      InvConnect(State());
      var i := 0;
      while i < CONNECTIONS && socket[i]
        invariant 0 <= i <= CONNECTIONS
        invariant FirstClosed(socket, 0) == FirstClosed(socket, i)
      {
        i := i + 1;
      }
      if i == CONNECTIONS {
        return;
      }
      socket := socket[i := true];
    }

    // --------------------------------------------------------------- handles

    /** The next free handle; the search needs one to end. */
    method GetNextHandle() returns (handle: int)
      requires |playHandle| == HANDLES && 0 <= nextPlayHandle < HANDLES
      requires FreeOffset(playHandle, nextPlayHandle, 0) < HANDLES
      modifies this`nextPlayHandle
      ensures handle == Around(old(nextPlayHandle), FreeOffset(playHandle, old(nextPlayHandle), 0))
      ensures nextPlayHandle == Around(handle, 1)
    {
      ghost var start, d := nextPlayHandle, 0;
      while playHandle[nextPlayHandle].card >= 0
        invariant 0 <= d < HANDLES && 0 <= nextPlayHandle < HANDLES
        invariant nextPlayHandle == Around(start, d)
        invariant FreeOffset(playHandle, start, 0) == FreeOffset(playHandle, start, d)
        decreases HANDLES - d
      {
        AroundNext(start, d);
        nextPlayHandle := nextPlayHandle + 1;
        nextPlayHandle := nextPlayHandle % 256;
        d := d + 1;
      }
      handle := nextPlayHandle;
      nextPlayHandle := nextPlayHandle + 1;
      nextPlayHandle := nextPlayHandle % 256;
    }

    /** The handle of a stream, or -1. */
    method GetHandle(card: int, stream: int) returns (handle: int)
      requires |playHandle| == HANDLES
      ensures var r := FindHandle(playHandle, Slot(card, stream), 0);
              handle == if r < HANDLES then r else -1
    {
      var i := 0;
      while i < 256
        invariant 0 <= i <= 256
        invariant FindHandle(playHandle, Slot(card, stream), 0) == FindHandle(playHandle, Slot(card, stream), i)
      {
        if playHandle[i].card == card && playHandle[i].stream == stream {
          return i;
        }
        i := i + 1;
      }
      return -1;
    }

    /** The live handle that a command's argument names, or -1. */
    method GetHandleArg(arg: Option<int>) returns (handle: int)
      requires |playHandle| == HANDLES
      ensures handle == match NamedHandle(playHandle, arg) case None => -1 case Some(h) => h
    {
      if arg == None || arg.value < 0 || arg.value >= 256 {
        return -1;
      }
      if playHandle[arg.value].card < 0 || playHandle[arg.value].stream < 0 {
        return -1;
      }
      return arg.value;
    }

    // --------------------------------------------------------------- drivers

    /** The allocator of the ALSA and JACK drivers: the first stream without a ring buffer. */
    method GetOutputStream(card: int) returns (stream: int)
      modifies this`playRing
      ensures var i := FirstFreeStream(old(playRing), card, 0);
              if i < STREAMS then stream == i && playRing == old(playRing) + {Slot(card, i)}
              else stream == -1 && playRing == old(playRing)
    {
      var i := 0;
      while i < STREAMS
        invariant 0 <= i <= STREAMS && playRing == old(playRing)
        invariant FirstFreeStream(playRing, card, 0) == FirstFreeStream(playRing, card, i)
      {
        if Slot(card, i) !in playRing {
          playRing := playRing + {Slot(card, i)};
          return i;
        }
        i := i + 1;
      }
      return -1;
    }

    /** A driver's load: a stream is allotted, and freed again if the file cannot be played. */
    method DriverLoad(card: int, playable: bool) returns (stream: int)
      requires Sized(State()) && 0 <= card < CARDS
      modifies this`playRing
      ensures match Allot(old(State()), card, playable)
              case None => stream == -1 && playRing == old(playRing)
              case Some(i) => stream == i && playRing == old(playRing) + {Slot(card, i)}
    {
      if caeDriver[card] == NoDriver {
        return -1;
      }
      stream := GetOutputStream(card);
      if stream >= 0 && !playable {
        playRing := playRing - {Slot(card, stream)};
        stream := -1;
      }
    }

    /** A driver's unload fails if the stream has no ring buffer. */
    method DriverUnload(card: int, stream: int) returns (ok: bool)
      modifies this`playRing
      ensures ok == (Slot(card, stream) in old(playRing))
      ensures playRing == old(playRing) - {Slot(card, stream)}
    {
      ok := Slot(card, stream) in playRing;
      playRing := playRing - {Slot(card, stream)};
    }

    // -------------------------------------------------------------- commands

    method PasswordCommand(ch: int, accepted: bool)
      requires Inv(State()) && 0 <= ch < CONNECTIONS && socket[ch]
      modifies this`auth, this`sent
      ensures State() == Authenticate(old(State()), ch, accepted).0 && Inv(State())
      ensures sent == old(sent) + Authenticate(old(State()), ch, accepted).1
    {
      InvStep(State(), PW(ch, accepted));
      auth := auth[ch := accepted];
      EchoCommand(ch, Password(accepted));
    }

    /** The part of the load command that follows the driver's: `s` is the state before it. */
    method AssignHandle(ghost s: Cae, ch: int, card: int, stream: int) returns (handle: int)
      requires Inv(s) && 0 <= ch < CONNECTIONS && 0 <= card < CARDS && 0 <= stream < STREAMS
      requires Slot(card, stream) !in s.rings && State() == s.(rings := s.rings + {Slot(card, stream)})
      modifies this`playHandle, this`nextPlayHandle, this`playOwner
      ensures handle == NewHandle(s)
      ensures State() == Assign(s.(rings := s.rings + {Slot(card, stream)}), ch, Slot(card, stream))
    {
      ghost var k := Slot(card, stream);
      handle := GetHandle(card, stream);
      if handle >= 0 {
        playHandle := playHandle[handle := FREE_HANDLE];
      }
      assert State() == ClearStale(s.(rings := s.rings + {k}), k);
      NoStaleHandle(s, k);
      HandleAlwaysFree(s);
      handle := GetNextHandle();
      playHandle := playHandle[handle := PlayHandle(card, stream, ch)];
      playOwner := playOwner[Slot(card, stream) := ch];
    }

    method LoadPlaybackCommand(ch: int, card: int, playable: bool)
      requires Inv(State()) && 0 <= ch < CONNECTIONS && socket[ch] && card < CARDS
      modifies this`playRing, this`playHandle, this`nextPlayHandle, this`playOwner, this`sent
      ensures State() == LoadPlayback(old(State()), ch, card, playable).0 && Inv(State())
      ensures sent == old(sent) + LoadPlayback(old(State()), ch, card, playable).1
    {
      ghost var s := State();
      InvLoadPlayback(s, ch, card, playable);
      if !auth[ch] {
        EchoCommand(ch, Status(false));
        return;
      }
      if card < 0 {
        EchoCommand(ch, LoadFailed(card));
        return;
      }
      var stream := DriverLoad(card, playable);
      if stream < 0 {
        EchoCommand(ch, LoadFailed(card));
        return;
      }
      NoStaleHandle(s, Slot(card, stream));
      var handle := AssignHandle(s, ch, card, stream);
      EchoCommand(ch, Loaded(card, stream, handle));
    }

    method UnloadPlaybackCommand(ch: int, arg: Option<int>)
      requires Inv(State()) && InRange(State()) && 0 <= ch < CONNECTIONS && socket[ch]
      modifies this`playRing, this`playHandle, this`playOwner, this`sent
      ensures State() == UnloadPlayback(old(State()), ch, arg).0 && Inv(State())
      ensures sent == old(sent) + UnloadPlayback(old(State()), ch, arg).1
    {
      InvUnloadPlayback(State(), ch, arg);
      if !auth[ch] {
        EchoCommand(ch, Status(false));
        return;
      }
      var handle := GetHandleArg(arg);
      if handle < 0 {
        EchoCommand(ch, Status(false));
        return;
      }
      UnloadLive(ch, handle);
    }

    /** The client names a live handle. */
    method UnloadLive(ch: int, handle: int)
      requires Sized(State()) && InRange(State()) && 0 <= ch < CONNECTIONS && socket[ch]
      requires 0 <= handle < HANDLES && playHandle[handle].Live()
      modifies this`playRing, this`playHandle, this`playOwner, this`sent
      ensures State() == UnloadHandle(old(State()), ch, handle).0
      ensures sent == old(sent) + UnloadHandle(old(State()), ch, handle).1
    {
      var k := playHandle[handle].At();
      assert playHandle[handle] in playHandle;
      if playOwner[k] == -1 || playOwner[k] == ch {
        if caeDriver[k.card] == NoDriver {
          EchoCommand(ch, Status(false));
          return;
        }
        GiveUp(ch, handle, k);
      } else {
        EchoCommand(ch, Status(false));
      }
    }

    /** Unloads a stream and frees its handle, whether there was something to unload or not. */
    method GiveUp(ch: int, handle: int, k: Slot)
      requires 0 <= ch < |socket| && socket[ch] && 0 <= handle < |playHandle|
      modifies this`playRing, this`playHandle, this`playOwner, this`sent
      ensures playHandle == old(playHandle)[handle := FREE_HANDLE] && playRing == old(playRing) - {k}
      ensures playOwner == if k in old(playRing) then old(playOwner)[k := -1] else old(playOwner)
      ensures sent == old(sent) + [Notice(ch, Status(k in old(playRing)))]
    {
      var unloaded := DriverUnload(k.card, k.stream);
      if unloaded {
        playOwner := playOwner[k := -1];
      }
      EchoCommand(ch, Status(unloaded));
      playHandle := playHandle[handle := FREE_HANDLE];
    }

    /** The play command's arguments are stored one by one as they are read. */
    method StorePlayArguments(k: Slot, length: Option<int>, speed: Option<int>, flag: Option<int>) returns (ok: bool)
      requires Sized(State()) && k in AllSlots()
      modifies this`playParams
      ensures State() == StoreParams(old(State()), k, length, speed, flag)
      ensures ok <==> length.Some? && speed.Some? && (flag == Some(0) || flag == Some(1))
    {
      ghost var s := State();
      if length == None {
        return false;
      }
      playParams := playParams[k := playParams[k].(length := length.value)];
      if speed == None {
        return false;
      }
      playParams := playParams[k := playParams[k].(speed := speed.value)];
      ok := flag == Some(0) || flag == Some(1);
      if ok {
        playParams := playParams[k := playParams[k].(pitch := flag == Some(1))];
      }
      assert playParams == StoreParams(s, k, length, speed, flag).playParams;
    }

    method PlayCommand(ch: int, arg: Option<int>, length: Option<int>, speed: Option<int>, flag: Option<int>,
                       started: bool)
      requires Inv(State()) && InRange(State()) && 0 <= ch < CONNECTIONS && socket[ch]
      modifies this`playParams, this`sent
      ensures State() == Play(old(State()), ch, arg, length, speed, flag, started).0 && Inv(State())
      ensures sent == old(sent) + Play(old(State()), ch, arg, length, speed, flag, started).1
    {
      InvPlay(State(), ch, arg, length, speed, flag, started);
      if !auth[ch] {
        EchoCommand(ch, Status(false));
        return;
      }
      var handle := GetHandleArg(arg);
      if handle < 0 {
        EchoCommand(ch, Status(false));
        return;
      }
      assert playHandle[handle] in playHandle;
      PlayLive(ch, playHandle[handle].At(), length, speed, flag, started);
    }

    /** The client names a live handle, of stream `k`. */
    method PlayLive(ch: int, k: Slot, length: Option<int>, speed: Option<int>, flag: Option<int>, started: bool)
      requires Inv(State()) && 0 <= ch < CONNECTIONS && socket[ch] && k in AllSlots()
      modifies this`playParams, this`sent
      ensures State() == PlayHandleAt(old(State()), ch, k, length, speed, flag, started).0
      ensures sent == old(sent) + PlayHandleAt(old(State()), ch, k, length, speed, flag, started).1
    {
      ghost var s := State();
      var ok := StorePlayArguments(k, length, speed, flag);
      if !ok || playOwner[k] != ch || caeDriver[k.card] == NoDriver || k !in playRing || !started {
        EchoCommand(ch, Status(false));
        return;
      }
      InvParams(s, State());
      StatePlayUpdate(k.card, k.stream, 1);
    }

    method StopCommand(ch: int, arg: Option<int>, stopped: bool)
      requires Inv(State()) && InRange(State()) && 0 <= ch < CONNECTIONS && socket[ch]
      modifies this`sent
      ensures sent == old(sent) + Stop(State(), ch, arg, stopped)
    {
      if !auth[ch] {
        EchoCommand(ch, Status(false));
        return;
      }
      var handle := GetHandleArg(arg);
      if handle < 0 {
        EchoCommand(ch, Status(false));
        return;
      }
      var k := playHandle[handle].At();
      assert playHandle[handle] in playHandle;
      if playOwner[k] != ch || caeDriver[k.card] == NoDriver || k !in playRing || !stopped {
        EchoCommand(ch, Status(false));
        return;
      }
      StatePlayUpdate(k.card, k.stream, 2);
    }

    /** Tells the owner of a stream what the driver has done with it. */
    method StatePlayUpdate(card: int, stream: int, state: int)
      requires Inv(State()) && Slot(card, stream) in AllSlots()
      modifies this`sent
      ensures sent == old(sent) + PlayUpdate(State(), card, stream, state)
    {
      var handle := GetHandle(card, stream);
      if handle < 0 {
        return;
      }
      var k := Slot(card, stream);
      OneToOne(State(), k);
      var owner := playOwner[k];
      if owner != -1 {
        if state == 1 {
          EchoCommand(owner, Playing(handle, playParams[k].length, playParams[k].speed));
        } else if state == 2 || state == 0 {
          EchoCommand(owner, Stopped(handle));
        }
      }
    }

    method LoadRecordCommand(ch: int, k: Slot, recordable: bool)
      requires Inv(State()) && 0 <= ch < CONNECTIONS && socket[ch] && k.card < CARDS && k.stream < STREAMS
      modifies this`recordOwner, this`sent
      ensures State() == LoadRecord(old(State()), ch, k, recordable).0 && Inv(State())
      ensures sent == old(sent) + LoadRecord(old(State()), ch, k, recordable).1
    {
      InvLoadRecord(State(), ch, k, recordable);
      if !auth[ch] || k.card < 0 || k.stream < 0 || recordOwner[k] != -1 || caeDriver[k.card] == NoDriver
        || !recordable {
        EchoCommand(ch, Status(false));
        return;
      }
      recordOwner := recordOwner[k := ch];
      EchoCommand(ch, Status(true));
    }

    method UnloadRecordCommand(ch: int, k: Slot, unloaded: Option<nat>)
      requires Inv(State()) && 0 <= ch < CONNECTIONS && socket[ch] && k.card < CARDS && k.stream < STREAMS
      modifies this`recordOwner, this`recordings, this`sent
      ensures State() == UnloadRecord(old(State()), ch, k, unloaded).0 && Inv(State())
      ensures sent == old(sent) + UnloadRecord(old(State()), ch, k, unloaded).1
    {
      InvUnloadRecord(State(), ch, k, unloaded);
      if !auth[ch] || k.card < 0 || k.stream < 0 {
        EchoCommand(ch, Status(false));
        return;
      }
      if (recordOwner[k] != -1 && recordOwner[k] != ch) || caeDriver[k.card] == NoDriver || unloaded.None? {
        EchoCommand(ch, Status(false));
        return;
      }
      ReleaseRecord(ch, k, unloaded.value);
    }

    /** The stream is given up, and the client is told for how long it recorded. */
    method ReleaseRecord(ch: int, k: Slot, frames: nat)
      requires 0 <= ch < |socket| && socket[ch] && systemSampleRate > 0 && k in recordOwner
      modifies this`recordOwner, this`recordings, this`sent
      ensures recordOwner == old(recordOwner)[k := -1] && recordings == old(recordings) - {k}
      ensures sent == old(sent) + [Notice(ch, RecordUnloaded(k.card, k.stream, frames * 1000 / systemSampleRate))]
    {
      recordings := recordings - {k};
      recordOwner := recordOwner[k := -1];
      EchoCommand(ch, RecordUnloaded(k.card, k.stream, frames * 1000 / systemSampleRate));
    }

    /** The record command's arguments are stored one by one as they are read. */
    method StoreRecordArguments(k: Slot, length: Option<int>, threshold: Option<int>) returns (ok: bool)
      requires Sized(State()) && k in AllSlots()
      modifies this`recordParams
      ensures State() == StoreRecordParams(old(State()), k, length, threshold)
      ensures ok <==> length.Some? && threshold.Some?
    {
      ghost var s := State();
      if length == None {
        return false;
      }
      recordParams := recordParams[k := recordParams[k].(length := length.value)];
      if threshold == None {
        return false;
      }
      recordParams := recordParams[k := recordParams[k].(threshold := threshold.value)];
      ok := true;
      assert recordParams == StoreRecordParams(s, k, length, threshold).recordParams;
    }

    method RecordCommand(ch: int, k: Slot, length: Option<int>, threshold: Option<int>, started: bool, vox: bool)
      requires Inv(State()) && 0 <= ch < CONNECTIONS && socket[ch] && k.card < CARDS && k.stream < STREAMS
      modifies this`recordParams, this`recordings, this`sent
      ensures State() == Record(old(State()), ch, k, length, threshold, started, vox).0 && Inv(State())
      ensures sent == old(sent) + Record(old(State()), ch, k, length, threshold, started, vox).1
    {
      InvRecordCommand(State(), ch, k, length, threshold, started, vox);
      if !auth[ch] || k.card < 0 || k.stream < 0 {
        EchoCommand(ch, Status(false));
        return;
      }
      var ok := StoreRecordArguments(k, length, threshold);
      if !ok || recordOwner[k] != ch || caeDriver[k.card] == NoDriver || !started {
        EchoCommand(ch, Status(false));
        return;
      }
      DriverRecord(k, vox);
    }

    /** The driver starts to record, and reports it unless it waits for the input's level. */
    method DriverRecord(k: Slot, vox: bool)
      requires Sized(State()) && k in AllSlots() && 0 <= recordOwner[k] < CONNECTIONS && socket[recordOwner[k]]
      modifies this`recordings, this`sent
      ensures recordings == old(recordings) + {k}
      ensures sent == old(sent) + if vox then [] else [Notice(recordOwner[k], RecordStarted(k.card, k.stream))]
    {
      recordings := recordings + {k};
      if !vox {
        StateRecordUpdate(k, 4);
      }
    }

    /** The driver stops recording, if it is. */
    method DriverStopRecord(k: Slot) returns (ok: bool)
      modifies this`recordings
      ensures ok == (k in old(recordings)) && recordings == old(recordings) - {k}
    {
      ok := k in recordings;
      recordings := recordings - {k};
    }

    method StopRecordCommand(ch: int, k: Slot)
      requires Inv(State()) && 0 <= ch < CONNECTIONS && socket[ch] && k.card < CARDS && k.stream < STREAMS
      modifies this`recordings, this`sent
      ensures State() == StopRecord(old(State()), ch, k).0 && Inv(State())
      ensures sent == old(sent) + StopRecord(old(State()), ch, k).1
    {
      InvParams(State(), StopRecord(State(), ch, k).0);
      if !auth[ch] || k.card < 0 || k.stream < 0 || caeDriver[k.card] == NoDriver {
        EchoCommand(ch, Status(false));
        return;
      }
      var ok := DriverStopRecord(k);
      EchoCommand(ch, Status(ok));
    }

    /** The timer of a recording whose length was given. */
    method RecordTimerData(k: Slot)
      requires Inv(State()) && k in AllSlots()
      modifies this`recordings, this`sent
      ensures State() == EndRecord(old(State()), k).0 && Inv(State())
      ensures sent == old(sent) + EndRecord(old(State()), k).1
    {
      InvParams(State(), EndRecord(State(), k).0);
      assert RecordOk(State(), k);
      var ok := DriverStopRecord(k);
      StateRecordUpdate(k, 2);
    }

    method StateRecordUpdate(k: Slot, state: int)
      requires Sized(State()) && k in AllSlots()
      requires recordOwner[k] != -1 ==> 0 <= recordOwner[k] < CONNECTIONS && socket[recordOwner[k]]
      modifies this`sent
      ensures sent == old(sent) + RecordNotice(State(), k, state)
    {
      if recordOwner[k] == -1 {
        return;
      }
      match state {
        case 0 =>
          EchoCommand(recordOwner[k], Recording(k.card, k.stream, recordParams[k].length, recordParams[k].threshold));
        case 4 => EchoCommand(recordOwner[k], RecordStarted(k.card, k.stream));
        case 2 => EchoCommand(recordOwner[k], RecordStopped(k.card, k.stream));
        case 3 => EchoCommand(recordOwner[k], RecordStopped(k.card, k.stream));
        case _ =>
      }
    }

    method MeterEnableCommand(ch: int, port: int)
      requires Inv(State()) && 0 <= ch < CONNECTIONS && socket[ch]
      modifies this`meterPort, this`sent
      ensures State() == EnableMeter(old(State()), ch, port).0 && Inv(State())
      ensures sent == old(sent) + EnableMeter(old(State()), ch, port).1
    {
      InvEnableMeter(State(), ch, port);
      if !auth[ch] || port < 0 || port > 0xFFFF {
        EchoCommand(ch, Status(false));
        return;
      }
      meterPort := meterPort[ch := port];
      InvMetersConnected();
      AnswerMeter(ch);
    }

    /** The answer, and then the status of every output. */
    method AnswerMeter(ch: int)
      requires MetersConnected() && |caeDriver| == CARDS && 0 <= ch < CONNECTIONS && socket[ch]
      modifies this`sent
      ensures sent == old(sent) + ([Notice(ch, Status(true))]
                                   + CardsTold(Metered(meterPort), outputStatusFlag, caeDriver, CARDS))
    {
      ghost var before := sent;
      EchoCommand(ch, Status(true));
      SendMeterOutputStatusUpdate();
      Reassociate(before, [Notice(ch, Status(true))],
                  CardsTold(Metered(meterPort), outputStatusFlag, caeDriver, CARDS));
    }

    // --------------------------------------------------------- disconnection

    /** Gives up the streams at `k` that `ch` owns. */
    method ReleaseStreams(ch: int, k: Slot)
      requires k in playOwner && k in playParams && k in recordOwner && k in recordParams && 0 <= k.card < |caeDriver|
      modifies this`recordOwner, this`recordParams, this`recordings, this`playOwner, this`playParams, this`playRing
      ensures Streams() == old(Streams()).Released(k, ch, caeDriver[k.card])
    {
      if recordOwner[k] == ch {
        recordings := recordings - {k};
        recordParams := recordParams[k := DEFAULT_RECORD_PARAMS];
        recordOwner := recordOwner[k := -1];
      }
      if playOwner[k] == ch {
        if caeDriver[k.card] != NoDriver {
          var unloaded := DriverUnload(k.card, k.stream);
        }
        playOwner := playOwner[k := -1];
        playParams := playParams[k := DEFAULT_PARAMS];
      }
    }

    /** Frees the handles that `ch` owns. */
    method ReleaseHandles(ch: int)
      requires |playHandle| == HANDLES
      modifies this`playHandle
      ensures playHandle == ReleaseOwned(old(playHandle), ch)
    {
      var i := 0;
      while i < 256
        invariant 0 <= i <= 256 && |playHandle| == HANDLES
        invariant playHandle[..i] == ReleaseOwned(old(playHandle), ch)[..i]
        invariant playHandle[i..] == old(playHandle)[i..]
      {
        assert playHandle[i] == playHandle[i..][0] == old(playHandle)[i..][0];
        if playHandle[i].owner == ch {
          playHandle := playHandle[i := FREE_HANDLE];
        }
        i := i + 1;
      }
    }

    /** The streams of card `i`; `part` are the tables from stream to stream. */
    method ReleaseCard(ghost part: seq<StreamTables>, ch: int, i: int)
      requires 0 <= i < |caeDriver| && ReleasesCard(part, ch, i, caeDriver[i]) && Streams() == part[0]
      modifies this`recordOwner, this`recordParams, this`recordings, this`playOwner, this`playParams, this`playRing
      ensures Streams() == part[STREAMS]
    {
      var j := 0;
      while j < STREAMS
        invariant 0 <= j <= STREAMS && Streams() == part[j]
      {
        assert ReleasesNext(part[j], part[j + 1], Slot(i, j), ch, caeDriver[i]);
        ReleaseStreams(ch, Slot(i, j));
        j := j + 1;
      }
    }

    /** Everything the connection owns; its other entries are cleared already. */
    method ReleaseAll(ghost part: seq<seq<StreamTables>>, ch: int)
      requires |caeDriver| == CARDS && |playHandle| == HANDLES && ReleasesAll(part, ch, caeDriver)
      requires Streams() == part[0][0]
      modifies this`recordOwner, this`recordParams, this`recordings, this`playOwner, this`playParams, this`playRing,
               this`playHandle
      ensures playHandle == ReleaseOwned(old(playHandle), ch)
      ensures Streams() == part[CARDS][0]
    {
      var i := 0;
      while i < CARDS
        invariant 0 <= i <= CARDS && Streams() == part[i][0]
        invariant playHandle == if i > 0 then ReleaseOwned(old(playHandle), ch) else old(playHandle)
      {
        ReleaseCard(part[i], ch, i);
        ReleaseHandles(ch);
        ReleasedTwice(old(playHandle), ch);
        i := i + 1;
      }
    }

    method KillSocket(ch: int)
      requires Inv(State()) && 0 <= ch < CONNECTIONS && socket[ch]
      modifies this
      ensures State() == Kill(old(State()), ch) && Inv(State())
      ensures sent == old(sent)
    {
      ghost var part := KillParts(State(), ch);
      InvKill(State(), ch);
      argnum := argnum[ch := 0];
      argptr := argptr[ch := 0];
      auth := auth[ch := false];
      meterPort := meterPort[ch := 0];
      ReleaseAll(part, ch);
      socket := socket[ch := false];
    }

    ghost function Streams(): StreamTables
      reads this
    {
      StreamTables(playOwner, playParams, recordOwner, recordParams, recordings, playRing)
    }

    // ------------------------------------------------------ to many clients

    method BroadcastCommand(id: int)
      requires Inv(State())
      modifies this`sent
      ensures sent == old(sent) + ToEach(auth, Broadcast(id), 0)
    {
      var i := 0;
      while i < CONNECTIONS
        invariant 0 <= i <= CONNECTIONS
        invariant sent + ToEach(auth, Broadcast(id), i) == old(sent) + ToEach(auth, Broadcast(id), 0)
      {
        assert SlotOk(State(), i);
        if auth[i] {
          EchoCommand(i, Broadcast(id));
        }
        i := i + 1;
      }
    }

    /** Only connected clients have a meter port. */
    ghost predicate MetersConnected()
      reads this
    {
      |meterPort| == |socket| == CONNECTIONS && forall i :: 0 <= i < CONNECTIONS && meterPort[i] > 0 ==> socket[i]
    }

    lemma {:induction false} InvMetersConnected()
      requires Inv(State())
      ensures MetersConnected()
    {
      forall i | 0 <= i < CONNECTIONS && meterPort[i] > 0
        ensures socket[i]
      {
        assert SlotOk(State(), i);
      }
    }

    /** One message to every client with a meter port. */
    method SendMeterUpdate(message: Message)
      requires MetersConnected()
      modifies this`sent
      ensures sent == old(sent) + ToEach(Metered(meterPort), message, 0)
    {
      ghost var to := Metered(meterPort);
      var i := 0;
      while i < CONNECTIONS
        invariant 0 <= i <= CONNECTIONS
        invariant sent + ToEach(to, message, i) == old(sent) + ToEach(to, message, 0)
      {
        Reassociate(sent, if to[i] then [Notice(i, message)] else [], ToEach(to, message, i + 1));
        if meterPort[i] > 0 {
          EchoCommand(i, message);
        }
        i := i + 1;
      }
    }

    /** The status of one output, to every metered client. */
    method SendStatus(output: Output)
      requires MetersConnected()
      modifies this`sent
      ensures sent == old(sent) + ToEach(Metered(meterPort), OutputStatus(output, output in outputStatusFlag), 0)
    {
      SendMeterUpdate(OutputStatus(output, output in outputStatusFlag));
    }

    method OutputStatusCommand(ch: int, output: Output, on: bool)
      requires Inv(State()) && 0 <= ch < CONNECTIONS && socket[ch]
      modifies this`outputStatusFlag, this`sent
      ensures State() == SetStatus(old(State()), ch, output, on).0 && Inv(State())
      ensures sent == old(sent) + SetStatus(old(State()), ch, output, on).1
    {
      InvParams(State(), SetStatus(State(), ch, output, on).0);
      if !auth[ch] || !(0 <= output.card < CARDS && 0 <= output.port < PORTS && 0 <= output.stream < STREAMS) {
        EchoCommand(ch, Status(false));
        return;
      }
      InvMetersConnected();
      outputStatusFlag := if on then outputStatusFlag + {output} else outputStatusFlag - {output};
      SendStatus(output);
      EchoCommand(ch, Status(true));
    }

    /** The output status of every stream at one port of a card. */
    method SendPortStatus(card: int, port: int)
      requires MetersConnected()
      modifies this`sent
      ensures sent == old(sent) + StreamsTold(Metered(meterPort), outputStatusFlag, card, port, STREAMS)
    {
      ghost var to, before := Metered(meterPort), sent;
      var k := 0;
      while k < STREAMS
        invariant 0 <= k <= STREAMS
        invariant sent == before + StreamsTold(to, outputStatusFlag, card, port, k)
      {
        ghost var output := Output(card, port, k);
        SendStatus(Output(card, port, k));
        Reassociate(before, StreamsTold(to, outputStatusFlag, card, port, k),
                    ToEach(to, OutputStatus(output, output in outputStatusFlag), 0));
        k := k + 1;
      }
    }

    method SendCardStatus(card: int)
      requires MetersConnected()
      modifies this`sent
      ensures sent == old(sent) + PortsTold(Metered(meterPort), outputStatusFlag, card, PORTS)
    {
      ghost var to, before := Metered(meterPort), sent;
      var j := 0;
      while j < PORTS
        invariant 0 <= j <= PORTS
        invariant sent == before + PortsTold(to, outputStatusFlag, card, j)
      {
        SendPortStatus(card, j);
        Reassociate(before, PortsTold(to, outputStatusFlag, card, j),
                    StreamsTold(to, outputStatusFlag, card, j, STREAMS));
        j := j + 1;
      }
    }

    /** The output status of every stream at every port of the cards that have a driver. */
    method SendMeterOutputStatusUpdate()
      requires MetersConnected() && |caeDriver| == CARDS
      modifies this`sent
      ensures sent == old(sent) + CardsTold(Metered(meterPort), outputStatusFlag, caeDriver, CARDS)
    {
      ghost var to, before := Metered(meterPort), sent;
      var i := 0;
      while i < CARDS
        invariant 0 <= i <= CARDS
        invariant sent == before + CardsTold(to, outputStatusFlag, caeDriver, i)
      {
        ghost var told := CardsTold(to, outputStatusFlag, caeDriver, i);
        if caeDriver[i] != NoDriver {
          SendCardStatus(i);
          Reassociate(before, told, CardTold(to, outputStatusFlag, caeDriver[i], i));
        } else {
          assert told + [] == told;
        }
        i := i + 1;
      }
    }
  }

  // ------------------------------------------------ a disconnection, half way through

  datatype StreamTables = StreamTables(
    owner: map<Slot, int>,
    params: map<Slot, Params>,
    record: map<Slot, int>,
    recordParams: map<Slot, RecordParams>,
    recordings: set<Slot>,
    rings: set<Slot>)
  {
    /** The tables after what `ch` owns at `k` is given up. */
    ghost function Released(k: Slot, ch: int, driver: Driver): StreamTables
      requires k in owner && k in record
    {
      var t := if record[k] == ch then
                 this.(record := record[k := -1], recordParams := recordParams[k := DEFAULT_RECORD_PARAMS],
                       recordings := recordings - {k})
               else this;
      if owner[k] == ch then
        t.(owner := owner[k := -1], params := params[k := DEFAULT_PARAMS],
           rings := if driver == NoDriver then rings else rings - {k})
      else t
    }
  }

  /** The streams of the cards before `i`, and of card `i` before `j`. */
  predicate Before(k: Slot, i: int, j: int) {
    k.card < i || (k.card == i && k.stream < j)
  }

  ghost function OwnerPart(owner: map<Slot, int>, ch: int, i: int, j: int): map<Slot, int> {
    map k | k in owner :: if Before(k, i, j) && owner[k] == ch then -1 else owner[k]
  }

  ghost function ParamsPart<P>(owner: map<Slot, int>, params: map<Slot, P>, none: P, ch: int, i: int,
                               j: int): map<Slot, P> {
    map k | k in owner && k in params :: if Before(k, i, j) && owner[k] == ch then none else params[k]
  }

  ghost function RingsPart(owner: map<Slot, int>, rings: set<Slot>, ch: int, i: int, j: int): set<Slot> {
    set k | k in rings && !(k in owner && Before(k, i, j) && owner[k] == ch)
  }

  /** The tables when the streams before `i`, `j` have been given up. */
  ghost function KillPart(s: Cae, ch: int, i: int, j: int): StreamTables
    requires Sized(s)
  {
    StreamTables(OwnerPart(s.playOwner, ch, i, j), ParamsPart(s.playOwner, s.playParams, DEFAULT_PARAMS, ch, i, j),
                 OwnerPart(s.recordOwner, ch, i, j), ParamsPart(s.recordOwner, s.recordParams, DEFAULT_RECORD_PARAMS,
                   ch, i, j),
                 RingsPart(s.recordOwner, s.recordings, ch, i, j), RingsPart(s.playOwner, s.rings, ch, i, j))
  }

  lemma ReleasedTwice(handles: seq<PlayHandle>, ch: int)
    ensures ReleaseOwned(ReleaseOwned(handles, ch), ch) == ReleaseOwned(handles, ch)
  {
  }

  lemma KillBegins(s: Cae, ch: int)
    requires Inv(s)
    ensures KillPart(s, ch, 0, 0) == TablesOf(s)
  {
    forall k | k in AllSlots()
      ensures !Before(k, 0, 0)
    {
      assert 0 <= k.card < CARDS && 0 <= k.stream < STREAMS;
    }
  }

  lemma {:induction false} BeforeNext(i: int, j: int)
    ensures forall m: Slot :: Before(m, i, j + 1) <==> Before(m, i, j) || m == Slot(i, j)
  {
    forall m: Slot
      ensures Before(m, i, j + 1) <==> Before(m, i, j) || m == Slot(i, j)
    {
      assert m == Slot(m.card, m.stream);
    }
  }

  lemma {:induction false} OwnerNext(owner: map<Slot, int>, ch: int, i: int, j: int)
    requires Slot(i, j) in owner && 0 <= ch
    ensures var p := OwnerPart(owner, ch, i, j); var k := Slot(i, j);
            && p.Keys == owner.Keys && p[k] == owner[k]
            && OwnerPart(owner, ch, i, j + 1) == if p[k] == ch then p[k := -1] else p
  {
    BeforeNext(i, j);
  }

  lemma {:induction false} ParamsNext<P>(owner: map<Slot, int>, params: map<Slot, P>, none: P, ch: int, i: int, j: int)
    requires Slot(i, j) in owner && owner.Keys == params.Keys
    ensures var p := ParamsPart(owner, params, none, ch, i, j); var k := Slot(i, j);
            && p.Keys == params.Keys
            && ParamsPart(owner, params, none, ch, i, j + 1) == if owner[k] == ch then p[k := none] else p
  {
    BeforeNext(i, j);
  }

  lemma {:induction false} RingsNext(owner: map<Slot, int>, rings: set<Slot>, ch: int, i: int, j: int)
    requires Slot(i, j) in owner
    ensures var p := RingsPart(owner, rings, ch, i, j); var k := Slot(i, j);
            RingsPart(owner, rings, ch, i, j + 1) == if owner[k] == ch then p - {k} else p
  {
    BeforeNext(i, j);
  }

  /** A stream with an owner is of a card with a driver. */
  ghost predicate OwnersHaveDrivers(s: Cae) {
    Sized(s) && forall k <- AllSlots() :: s.playOwner[k] != -1 ==> s.driver[k.card] != NoDriver
  }

  lemma {:induction false} InvOwners(s: Cae)
    requires Inv(s)
    ensures OwnersHaveDrivers(s)
  {
    forall k | k in AllSlots() && s.playOwner[k] != -1
      ensures s.driver[k.card] != NoDriver
    {
      assert StreamOk(s, k);
    }
  }

  lemma KillNext(s: Cae, ch: int, i: int, j: int)
    requires OwnersHaveDrivers(s) && 0 <= i < CARDS && 0 <= j < STREAMS && 0 <= ch
    ensures ReleasesNext(KillPart(s, ch, i, j), KillPart(s, ch, i, j + 1), Slot(i, j), ch, s.driver[i])
  {
    assert Slot(i, j) in AllSlots();
    OwnerNext(s.playOwner, ch, i, j);
    OwnerNext(s.recordOwner, ch, i, j);
    ParamsNext(s.playOwner, s.playParams, DEFAULT_PARAMS, ch, i, j);
    ParamsNext(s.recordOwner, s.recordParams, DEFAULT_RECORD_PARAMS, ch, i, j);
    RingsNext(s.playOwner, s.rings, ch, i, j);
    RingsNext(s.recordOwner, s.recordings, ch, i, j);
  }

  /** Streams in range. */
  ghost predicate OnGrid(keys: set<Slot>) {
    forall k <- keys :: 0 <= k.card < CARDS && 0 <= k.stream < STREAMS
  }

  lemma {:induction false} OwnerRow(owner: map<Slot, int>, ch: int, i: int)
    requires OnGrid(owner.Keys)
    ensures OwnerPart(owner, ch, i, STREAMS) == OwnerPart(owner, ch, i + 1, 0)
  {
    assert forall k <- owner.Keys :: Before(k, i, STREAMS) <==> Before(k, i + 1, 0);
  }

  lemma {:induction false} ParamsRow<P>(owner: map<Slot, int>, params: map<Slot, P>, none: P, ch: int, i: int)
    requires OnGrid(owner.Keys)
    ensures ParamsPart(owner, params, none, ch, i, STREAMS) == ParamsPart(owner, params, none, ch, i + 1, 0)
  {
    assert forall k <- owner.Keys :: Before(k, i, STREAMS) <==> Before(k, i + 1, 0);
  }

  lemma {:induction false} RingsRow(owner: map<Slot, int>, rings: set<Slot>, ch: int, i: int)
    requires OnGrid(owner.Keys)
    ensures RingsPart(owner, rings, ch, i, STREAMS) == RingsPart(owner, rings, ch, i + 1, 0)
  {
    assert forall k <- owner.Keys :: Before(k, i, STREAMS) <==> Before(k, i + 1, 0);
  }

  lemma {:induction false} SlotsOnGrid()
    ensures OnGrid(AllSlots())
  {
  }

  lemma {:induction false} KillRow(s: Cae, ch: int, i: int)
    requires Sized(s)
    ensures KillPart(s, ch, i, STREAMS) == KillPart(s, ch, i + 1, 0)
  {
    SlotsOnGrid();
    OwnerRow(s.playOwner, ch, i);
    OwnerRow(s.recordOwner, ch, i);
    ParamsRow(s.playOwner, s.playParams, DEFAULT_PARAMS, ch, i);
    ParamsRow(s.recordOwner, s.recordParams, DEFAULT_RECORD_PARAMS, ch, i);
    RingsRow(s.playOwner, s.rings, ch, i);
    RingsRow(s.recordOwner, s.recordings, ch, i);
  }

  /** From `before`, what `ch` owns at `k` is given up. */
  ghost predicate ReleasesNext(before: StreamTables, after: StreamTables, k: Slot, ch: int, driver: Driver) {
    && k in before.owner && k in before.params && k in before.record && k in before.recordParams
    && after == before.Released(k, ch, driver)
  }

  /** The tables as stream after stream of a card is given up. */
  ghost predicate ReleasesCard(part: seq<StreamTables>, ch: int, i: int, driver: Driver) {
    && |part| == STREAMS + 1
    && forall j :: 0 <= j < STREAMS ==> ReleasesNext(part[j], part[j + 1], Slot(i, j), ch, driver)
  }

  /** And of card after card. */
  ghost predicate ReleasesAll(part: seq<seq<StreamTables>>, ch: int, driver: seq<Driver>)
    requires |driver| == CARDS
  {
    && |part| == CARDS + 1 && (forall i :: 0 <= i <= CARDS ==> |part[i]| == STREAMS + 1)
    && (forall i :: 0 <= i < CARDS ==> ReleasesCard(part[i], ch, i, driver[i]) && part[i + 1][0] == part[i][STREAMS])
  }

  ghost function CardPart(s: Cae, ch: int, i: int): (part: seq<StreamTables>)
    requires Sized(s)
    ensures |part| == STREAMS + 1
  {
    seq(STREAMS + 1, j => KillPart(s, ch, i, j))
  }

  lemma {:induction false} StreamReleases(s: Cae, ch: int, i: int, j: int)
    requires OwnersHaveDrivers(s) && 0 <= ch && 0 <= i < CARDS && 0 <= j < STREAMS
    ensures ReleasesNext(CardPart(s, ch, i)[j], CardPart(s, ch, i)[j + 1], Slot(i, j), ch, s.driver[i])
  {
    KillNext(s, ch, i, j);
  }

  lemma {:induction false} CardReleases(s: Cae, ch: int, i: int)
    requires OwnersHaveDrivers(s) && 0 <= ch && 0 <= i < CARDS
    ensures ReleasesCard(CardPart(s, ch, i), ch, i, s.driver[i])
  {
    forall j | 0 <= j < STREAMS
      ensures ReleasesNext(CardPart(s, ch, i)[j], CardPart(s, ch, i)[j + 1], Slot(i, j), ch, s.driver[i])
    {
      StreamReleases(s, ch, i, j);
    }
  }

  lemma {:induction false} CardEnds(s: Cae, ch: int, i: int)
    requires Sized(s)
    ensures CardPart(s, ch, i + 1)[0] == CardPart(s, ch, i)[STREAMS]
  {
    KillRow(s, ch, i);
  }

  /** From the tables before a disconnection to those after it. */
  lemma {:induction false} KillParts(s: Cae, ch: int) returns (part: seq<seq<StreamTables>>)
    requires Inv(s) && 0 <= ch < CONNECTIONS
    ensures ReleasesAll(part, ch, s.driver) && part[0][0] == TablesOf(s) && part[CARDS][0] == TablesOf(Kill(s, ch))
  {
    InvOwners(s);
    part := seq(CARDS + 1, i => CardPart(s, ch, i));
    forall i | 0 <= i < CARDS
      ensures ReleasesCard(part[i], ch, i, s.driver[i]) && part[i + 1][0] == part[i][STREAMS]
    {
      CardReleases(s, ch, i);
      CardEnds(s, ch, i);
    }
    KillBegins(s, ch);
    KillEnds(s, ch);
  }

  ghost function TablesOf(s: Cae): StreamTables {
    StreamTables(s.playOwner, s.playParams, s.recordOwner, s.recordParams, s.recordings, s.rings)
  }

  lemma {:induction false} OwnerEnds(owner: map<Slot, int>, ch: int)
    requires OnGrid(owner.Keys)
    ensures OwnerPart(owner, ch, CARDS, 0) == map k | k in owner :: if owner[k] == ch then -1 else owner[k]
  {
    assert forall k <- owner.Keys :: Before(k, CARDS, 0);
  }

  lemma {:induction false} ParamsEnd<P>(owner: map<Slot, int>, params: map<Slot, P>, none: P, ch: int)
    requires OnGrid(owner.Keys)
    ensures ParamsPart(owner, params, none, ch, CARDS, 0)
         == map k | k in owner && k in params :: if owner[k] == ch then none else params[k]
  {
    assert forall k <- owner.Keys :: Before(k, CARDS, 0);
  }

  lemma {:induction false} RingsEnd(owner: map<Slot, int>, rings: set<Slot>, ch: int)
    requires OnGrid(owner.Keys)
    ensures RingsPart(owner, rings, ch, CARDS, 0) == set k | k in rings && !(k in owner && owner[k] == ch)
  {
    assert forall k <- owner.Keys :: Before(k, CARDS, 0);
  }

  lemma {:induction false} KillEnds(s: Cae, ch: int)
    requires Sized(s) && 0 <= ch < CONNECTIONS
    ensures KillPart(s, ch, CARDS, 0) == TablesOf(Kill(s, ch))
  {
    SlotsOnGrid();
    OwnerEnds(s.playOwner, ch);
    OwnerEnds(s.recordOwner, ch);
    ParamsEnd(s.playOwner, s.playParams, DEFAULT_PARAMS, ch);
    ParamsEnd(s.recordOwner, s.recordParams, DEFAULT_RECORD_PARAMS, ch);
    RingsEnd(s.playOwner, s.rings, ch);
    RingsEnd(s.recordOwner, s.recordings, ch);
  }
}
