/**
 The session state of the Core Audio Engine (cae/cae.cpp): which connections are open,
 which of them own playback and record streams, and the table of playback handles.
 Each operation is a function from state to state and to the messages it sends; the
 drivers enter through their stream allocators (cae/cae_alsa.cpp, cae/cae_jack.cpp).
 */
module CaeState {
  import opened Options

  const CARDS := 8
  const STREAMS := 16
  const CONNECTIONS := 128
  const HANDLES := 256
  const PORTS := 8

  datatype Slot = Slot(card: int, stream: int)

  datatype PlayHandle = PlayHandle(card: int, stream: int, owner: int) {
    predicate Live() { card >= 0 }

    function At(): Slot { Slot(card, stream) }
  }

  const FREE_HANDLE := PlayHandle(-1, -1, -1)

  datatype Driver = NoDriver | Alsa | Jack

  datatype Params = Params(length: int, speed: int, pitch: bool)

  const DEFAULT_PARAMS := Params(0, 100, false)

  datatype RecordParams = RecordParams(length: int, threshold: int)

  const DEFAULT_RECORD_PARAMS := RecordParams(0, -10000)

  datatype Message =
    | Password(accepted: bool)
    | Status(ok: bool)
    | Loaded(card: int, stream: int, handle: int)
    | LoadFailed(card: int)
    | Playing(handle: int, length: int, speed: int)
    | Stopped(handle: int)
    | Recording(card: int, stream: int, length: int, threshold: int)
    | RecordStarted(card: int, stream: int)
    | RecordStopped(card: int, stream: int)
    | RecordUnloaded(card: int, stream: int, ms: nat)
    | Broadcast(id: int)
    | Meter(id: int)
    | OutputStatus(output: Output, flag: bool)

  /** A stream at an output port of a card. */
  datatype Output = Output(card: int, port: int, stream: int)

  /** A message and the connection it is written to. */
  datatype Notice = Notice(to: int, message: Message)

  datatype Cae = Cae(
    socket: seq<bool>,
    auth: seq<bool>,
    meterPort: seq<int>,
    argnum: seq<int>,
    argptr: seq<int>,
    driver: seq<Driver>,
    handles: seq<PlayHandle>,
    next: int,
    playOwner: map<Slot, int>,
    playParams: map<Slot, Params>,
    recordOwner: map<Slot, int>,
    recordParams: map<Slot, RecordParams>,
    recordings: set<Slot>,
    rings: set<Slot>,
    flags: set<Output>,
    sampleRate: nat
  )

  function AllSlots(): set<Slot> {
    set c, s | 0 <= c < CARDS && 0 <= s < STREAMS :: Slot(c, s)
  }

  /** The state after start-up, with the drivers that were found. */
  function Initial(driver: seq<Driver>, sampleRate: nat): Cae {
    Cae(seq(CONNECTIONS, i => false), seq(CONNECTIONS, i => false), seq(CONNECTIONS, i => 0),
        seq(CONNECTIONS, i => 0), seq(CONNECTIONS, i => 0), driver,
        seq(HANDLES, i => FREE_HANDLE), 0,
        map k | k in AllSlots() :: -1, map k | k in AllSlots() :: DEFAULT_PARAMS, map k | k in AllSlots() :: -1,
        map k | k in AllSlots() :: DEFAULT_RECORD_PARAMS, {}, {}, {}, sampleRate)
  }

  /** The fixed sizes and ranges of the tables. */
  ghost predicate Sized(s: Cae) {
    && |s.socket| == |s.auth| == |s.meterPort| == |s.argnum| == |s.argptr| == CONNECTIONS
    && |s.driver| == CARDS
    && |s.handles| == HANDLES
    && 0 <= s.next < HANDLES
    && s.playOwner.Keys == s.playParams.Keys == s.recordOwner.Keys == s.recordParams.Keys == AllSlots()
    && s.sampleRate > 0
  }

  // -------------------------------------------------------------------- lookups

  /** The first closed slot at or after `i`, or the table size. */
  function FirstClosed(socket: seq<bool>, i: nat): (r: nat)
    requires i <= |socket|
    ensures i <= r <= |socket|
    ensures forall j :: i <= j < r ==> socket[j]
    ensures r < |socket| ==> !socket[r]
    decreases |socket| - i
  {
    if i == |socket| || !socket[i] then i else FirstClosed(socket, i + 1)
  }

  /** The first stream of a card, at or after `i`, without a ring buffer. */
  function FirstFreeStream(rings: set<Slot>, card: int, i: nat): (r: nat)
    requires i <= STREAMS
    ensures i <= r <= STREAMS
    ensures forall j :: i <= j < r ==> Slot(card, j) in rings
    ensures r < STREAMS ==> Slot(card, r) !in rings
    decreases STREAMS - i
  {
    if i == STREAMS || Slot(card, i) !in rings then i else FirstFreeStream(rings, card, i + 1)
  }

  /** The first handle, at or after `i`, of a stream. */
  function FindHandle(handles: seq<PlayHandle>, k: Slot, i: nat): (r: nat)
    requires i <= |handles|
    ensures i <= r <= |handles|
    ensures forall j :: i <= j < r ==> handles[j].At() != k
    ensures r < |handles| ==> handles[r].At() == k
    decreases |handles| - i
  {
    if i == |handles| || handles[i].At() == k then i else FindHandle(handles, k, i + 1)
  }

  /** The handle a client names, if it is live. */
  function NamedHandle(handles: seq<PlayHandle>, arg: Option<int>): (r: Option<int>)
    requires |handles| == HANDLES
    ensures r.Some? ==> 0 <= r.value < HANDLES && handles[r.value].Live()
  {
    if arg.Some? && 0 <= arg.value < HANDLES && handles[arg.value].card >= 0 && handles[arg.value].stream >= 0
    then arg else None
  }

  /** The handle number `d` places after `from`, around the table. */
  function Around(from: int, d: int): (r: int)
    ensures 0 <= r < HANDLES
  {
    (from + d) % HANDLES
  }

  /** How far the cursor moves before it meets a free handle. */
  function FreeOffset(handles: seq<PlayHandle>, next: int, d: nat): (r: nat)
    requires |handles| == HANDLES && 0 <= next < HANDLES && d <= HANDLES
    ensures d <= r <= HANDLES
    ensures forall j :: d <= j < r ==> handles[Around(next, j)].Live()
    ensures r < HANDLES ==> !handles[Around(next, r)].Live()
    decreases HANDLES - d
  {
    if d == HANDLES || !handles[Around(next, d)].Live() then d else FreeOffset(handles, next, d + 1)
  }

  // ----------------------------------------------------------------- operations

  function Connect(s: Cae): Cae
    requires Sized(s)
  {
    var i := FirstClosed(s.socket, 0);
    if i == CONNECTIONS then s else s.(socket := s.socket[i := true])
  }

  function Authenticate(s: Cae, ch: int, accepted: bool): (Cae, seq<Notice>)
    requires Sized(s) && 0 <= ch < CONNECTIONS
  {
    (s.(auth := s.auth[ch := accepted]), [Notice(ch, Password(accepted))])
  }

  /** The stream the driver allots for a file, if it has a stream free and can play the file. */
  function Allot(s: Cae, card: int, playable: bool): Option<int>
    requires Sized(s) && 0 <= card < CARDS
  {
    var i := FirstFreeStream(s.rings, card, 0);
    if s.driver[card] != NoDriver && i < STREAMS && playable then Some(i) else None
  }

  function ReleaseHandle(s: Cae, h: int): Cae
    requires Sized(s) && 0 <= h < HANDLES
  {
    s.(handles := s.handles[h := FREE_HANDLE])
  }

  /** The handle that is issued for a new stream, after any stale one is cleared. */
  function NewHandle(s: Cae): int
    requires Sized(s)
  {
    Around(s.next, FreeOffset(s.handles, s.next, 0))
  }

  function ClearStale(s: Cae, k: Slot): Cae
    requires Sized(s)
  {
    var h := FindHandle(s.handles, k, 0);
    if h < HANDLES then ReleaseHandle(s, h) else s
  }

  function Assign(s: Cae, ch: int, k: Slot): Cae
    requires Sized(s)
  {
    var h := NewHandle(s);
    s.(handles := s.handles[h := PlayHandle(k.card, k.stream, ch)],
       next := Around(h, 1),
       playOwner := s.playOwner[k := ch])
  }

  function LoadPlayback(s: Cae, ch: int, card: int, playable: bool): (Cae, seq<Notice>)
    requires Sized(s) && 0 <= ch < CONNECTIONS && card < CARDS
  {
    if !s.auth[ch] then (s, [Notice(ch, Status(false))])
    else if card < 0 then (s, [Notice(ch, LoadFailed(card))])
    else match Allot(s, card, playable)
      case None => (s, [Notice(ch, LoadFailed(card))])
      case Some(stream) =>
        var k := Slot(card, stream);
        var s1 := ClearStale(s.(rings := s.rings + {k}), k);
        (Assign(s1, ch, k), [Notice(ch, Loaded(card, stream, NewHandle(s1)))])
  }

  function UnloadPlayback(s: Cae, ch: int, arg: Option<int>): (Cae, seq<Notice>)
    requires Sized(s) && InRange(s) && 0 <= ch < CONNECTIONS
  {
    if s.auth[ch] && NamedHandle(s.handles, arg).Some? then UnloadHandle(s, ch, NamedHandle(s.handles, arg).value)
    else (s, [Notice(ch, Status(false))])
  }

  /** The client names a live handle. */
  function UnloadHandle(s: Cae, ch: int, h: int): (Cae, seq<Notice>)
    requires Sized(s) && InRange(s) && 0 <= h < HANDLES && s.handles[h].Live()
  {
    var k := s.handles[h].At();
    if (s.playOwner[k] != -1 && s.playOwner[k] != ch) || s.driver[k.card] == NoDriver then (s, [Notice(ch,
      Status(false))])
    else
      var unloaded := k in s.rings;
      var s1 := if unloaded then s.(rings := s.rings - {k}, playOwner := s.playOwner[k := -1]) else s;
      (ReleaseHandle(s1, h), [Notice(ch, Status(unloaded))])
  }

  /** Live handles name existing streams. */
  ghost predicate InRange(s: Cae) {
    forall h <- s.handles :: h.Live() ==> h.At() in AllSlots()
  }

  /** `PY`: the arguments are stored before the owner is checked. */
  function Play(s: Cae, ch: int, arg: Option<int>, length: Option<int>, speed: Option<int>, flag: Option<int>,
                started: bool): (Cae, seq<Notice>)
    requires Sized(s) && InRange(s) && 0 <= ch < CONNECTIONS
  {
    if s.auth[ch] && NamedHandle(s.handles, arg).Some? then
      PlayHandleAt(s, ch, s.handles[NamedHandle(s.handles, arg).value].At(), length, speed, flag, started)
    else (s, [Notice(ch, Status(false))])
  }

  /** The client names a live handle, of stream `k`. */
  function PlayHandleAt(s: Cae, ch: int, k: Slot, length: Option<int>, speed: Option<int>, flag: Option<int>,
                        started: bool): (Cae, seq<Notice>)
    requires Sized(s) && k in AllSlots()
  {
    var s1 := StoreParams(s, k, length, speed, flag);
    if length == None || speed == None || (flag != Some(0) && flag != Some(1))
       || s1.playOwner[k] != ch || s1.driver[k.card] == NoDriver || k !in s1.rings || !started
    then (s1, [Notice(ch, Status(false))])
    else (s1, PlayUpdate(s1, k.card, k.stream, 1))
  }

  function StoreParams(s: Cae, k: Slot, length: Option<int>, speed: Option<int>, flag: Option<int>): Cae
    requires Sized(s) && k in AllSlots()
  {
    var p := s.playParams[k];
    if length == None then s
    else
      var p1 := p.(length := length.value);
      if speed == None then s.(playParams := s.playParams[k := p1])
      else
        var p2 := p1.(speed := speed.value);
        if flag == Some(0) then s.(playParams := s.playParams[k := p2.(pitch := false)])
        else if flag == Some(1) then s.(playParams := s.playParams[k := p2.(pitch := true)])
        else s.(playParams := s.playParams[k := p2])
  }

  function Stop(s: Cae, ch: int, arg: Option<int>, stopped: bool): seq<Notice>
    requires Sized(s) && InRange(s) && 0 <= ch < CONNECTIONS
  {
    var no := [Notice(ch, Status(false))];
    if !s.auth[ch] then no
    else match NamedHandle(s.handles, arg)
      case None => no
      case Some(h) =>
        var k := s.handles[h].At();
        if s.playOwner[k] != ch || s.driver[k.card] == NoDriver || k !in s.rings || !stopped then no
        else PlayUpdate(s, k.card, k.stream, 2)
  }

  /** What the owner of a stream is told when the driver starts (1), pauses (2) or stops (0) it. */
  function PlayUpdate(s: Cae, card: int, stream: int, state: int): seq<Notice>
    requires Sized(s)
  {
    var k := Slot(card, stream);
    var h := FindHandle(s.handles, k, 0);
    if h == HANDLES || k !in s.playOwner || s.playOwner[k] == -1 then []
    else if state == 1 then
      [Notice(s.playOwner[k], Playing(h, s.playParams[k].length, s.playParams[k].speed))]
    else if state == 2 || state == 0 then [Notice(s.playOwner[k], Stopped(h))]
    else []
  }

  function LoadRecord(s: Cae, ch: int, k: Slot, recordable: bool): (Cae, seq<Notice>)
    requires Sized(s) && 0 <= ch < CONNECTIONS && k.card < CARDS && k.stream < STREAMS
  {
    if s.auth[ch] && k.card >= 0 && k.stream >= 0 && s.recordOwner[k] == -1 && s.driver[k.card] != NoDriver
      && recordable
    then (s.(recordOwner := s.recordOwner[k := ch]), [Notice(ch, Status(true))])
    else (s, [Notice(ch, Status(false))])
  }

  /** `unloaded` is the number of frames that the driver recorded, if it had anything to unload;
      the client is told the time that they take. */
  function UnloadRecord(s: Cae, ch: int, k: Slot, unloaded: Option<nat>): (Cae, seq<Notice>)
    requires Sized(s) && 0 <= ch < CONNECTIONS && k.card < CARDS && k.stream < STREAMS
  {
    if s.auth[ch] && k.card >= 0 && k.stream >= 0 && (s.recordOwner[k] == -1 || s.recordOwner[k] == ch)
       && s.driver[k.card] != NoDriver && unloaded.Some?
    then (s.(recordOwner := s.recordOwner[k := -1], recordings := s.recordings - {k}),
          [Notice(ch, RecordUnloaded(k.card, k.stream, unloaded.value * 1000 / s.sampleRate))])
    else (s, [Notice(ch, Status(false))])
  }

  /** `RD`: the arguments are stored before the owner is checked. A driver that starts reports it
      at once, unless it waits for the input's level (`vox`). */
  function Record(s: Cae, ch: int, k: Slot, length: Option<int>, threshold: Option<int>, started: bool, vox: bool)
    : (Cae, seq<Notice>)
    requires Sized(s) && 0 <= ch < CONNECTIONS && k.card < CARDS && k.stream < STREAMS
  {
    var no := [Notice(ch, Status(false))];
    if !s.auth[ch] || k.card < 0 || k.stream < 0 then (s, no)
    else
      var s1 := StoreRecordParams(s, k, length, threshold);
      if length == None || threshold == None || s1.recordOwner[k] != ch || s1.driver[k.card] == NoDriver || !started
      then (s1, no)
      else
        var s2 := s1.(recordings := s1.recordings + {k});
        (s2, if vox then [] else RecordNotice(s2, k, 4))
  }

  function StoreRecordParams(s: Cae, k: Slot, length: Option<int>, threshold: Option<int>): Cae
    requires Sized(s) && k in AllSlots()
  {
    var p := s.recordParams[k];
    if length == None then s
    else if threshold == None then s.(recordParams := s.recordParams[k := p.(length := length.value)])
    else s.(recordParams := s.recordParams[k := RecordParams(length.value, threshold.value)])
  }

  /** `SR`: the owner is not looked at. */
  function StopRecord(s: Cae, ch: int, k: Slot): (Cae, seq<Notice>)
    requires Sized(s) && 0 <= ch < CONNECTIONS && k.card < CARDS && k.stream < STREAMS
  {
    if s.auth[ch] && k.card >= 0 && k.stream >= 0 && s.driver[k.card] != NoDriver && k in s.recordings
    then (s.(recordings := s.recordings - {k}), [Notice(ch, Status(true))])
    else (s, [Notice(ch, Status(false))])
  }

  /** The length that was asked for is over. */
  function EndRecord(s: Cae, k: Slot): (Cae, seq<Notice>)
    requires Sized(s) && k in AllSlots()
  {
    (s.(recordings := s.recordings - {k}), RecordNotice(s, k, 2))
  }

  /** `OS`: the status of an output is set, and told to every metered client. */
  function SetStatus(s: Cae, ch: int, output: Output, flag: bool): (Cae, seq<Notice>)
    requires Sized(s) && 0 <= ch < CONNECTIONS
  {
    if s.auth[ch] && 0 <= output.card < CARDS && 0 <= output.port < PORTS && 0 <= output.stream < STREAMS then
      (s.(flags := if flag then s.flags + {output} else s.flags - {output}),
       ToEach(Metered(s.meterPort), OutputStatus(output, flag), 0) + [Notice(ch, Status(true))])
    else (s, [Notice(ch, Status(false))])
  }

  function RecordNotice(s: Cae, k: Slot, state: int): seq<Notice>
    requires Sized(s) && k in AllSlots()
  {
    if s.recordOwner[k] == -1 then []
    else if state == 0 then
      [Notice(s.recordOwner[k], Recording(k.card, k.stream, s.recordParams[k].length, s.recordParams[k].threshold))]
    else if state == 4 then [Notice(s.recordOwner[k], RecordStarted(k.card, k.stream))]
    else if state == 2 || state == 3 then [Notice(s.recordOwner[k], RecordStopped(k.card, k.stream))]
    else []
  }

  function EnableMeter(s: Cae, ch: int, port: int): (Cae, seq<Notice>)
    requires Sized(s) && 0 <= ch < CONNECTIONS
  {
    if s.auth[ch] && 0 <= port <= 0xFFFF then
      var s1 := s.(meterPort := s.meterPort[ch := port]);
      (s1, [Notice(ch, Status(true))] + CardsTold(Metered(s1.meterPort), s1.flags, s1.driver, CARDS))
    else (s, [Notice(ch, Status(false))])
  }

  /** The output status of the first `n` streams of a port, each to every metered client. */
  function StreamsTold(to: seq<bool>, flags: set<Output>, card: int, port: int, n: nat): seq<Notice>
    decreases n, to
  {
    if n == 0 then []
    else
      var output := Output(card, port, n - 1);
      StreamsTold(to, flags, card, port, n - 1) + ToEach(to, OutputStatus(output, output in flags), 0)
  }

  function PortsTold(to: seq<bool>, flags: set<Output>, card: int, n: nat): seq<Notice>
    decreases n, to
  {
    if n == 0 then [] else PortsTold(to, flags, card, n - 1) + StreamsTold(to, flags, card, n - 1, STREAMS)
  }

  function CardsTold(to: seq<bool>, flags: set<Output>, driver: seq<Driver>, n: nat): seq<Notice>
    requires n <= |driver|
    decreases n, to
  {
    if n == 0 then [] else CardsTold(to, flags, driver, n - 1) + CardTold(to, flags, driver[n - 1], n - 1)
  }

  function CardTold(to: seq<bool>, flags: set<Output>, driver: Driver, card: int): seq<Notice> {
    if driver == NoDriver then [] else PortsTold(to, flags, card, PORTS)
  }

  /** One copy of `m` for each connection of `to`, in order. */
  function ToEach(to: seq<bool>, m: Message, i: nat): seq<Notice>
    requires i <= |to|
    decreases |to| - i
  {
    if i == |to| then [] else (if to[i] then [Notice(i, m)] else []) + ToEach(to, m, i + 1)
  }

  /** The clients with a meter port. */
  function Metered(meterPort: seq<int>): seq<bool> {
    seq(|meterPort|, i requires 0 <= i < |meterPort| => meterPort[i] > 0)
  }

  /** Everything the connection owned is given up, and its slot is as at start-up. */
  function Kill(s: Cae, ch: int): Cae
    requires Sized(s) && 0 <= ch < CONNECTIONS
  {
    s.(socket := s.socket[ch := false],
       auth := s.auth[ch := false],
       meterPort := s.meterPort[ch := 0],
       argnum := s.argnum[ch := 0],
       argptr := s.argptr[ch := 0],
       handles := ReleaseOwned(s.handles, ch),
       playOwner := map k | k in s.playOwner :: if s.playOwner[k] == ch then -1 else s.playOwner[k],
       playParams := map k | k in s.playOwner && k in s.playParams ::
                       if s.playOwner[k] == ch then DEFAULT_PARAMS else s.playParams[k],
       recordOwner := map k | k in s.recordOwner :: if s.recordOwner[k] == ch then -1 else s.recordOwner[k],
       recordParams := map k | k in s.recordOwner && k in s.recordParams ::
                         if s.recordOwner[k] == ch then DEFAULT_RECORD_PARAMS else s.recordParams[k],
       recordings := (set k | k in s.recordings && !(k in s.recordOwner && s.recordOwner[k] == ch)),
       rings := (set k | k in s.rings && !(k in s.playOwner && s.playOwner[k] == ch)))
  }

  function ReleaseOwned(handles: seq<PlayHandle>, ch: int): seq<PlayHandle> {
    seq(|handles|, i requires 0 <= i < |handles| => if handles[i].owner == ch then FREE_HANDLE else handles[i])
  }
}
