/**
 What each event of the Core Audio Engine (cae/cae.cpp) changes and answers, in numbers and
 fields, and who is authenticated after a run.
 */
module CaeLaws {
  import opened Options
  import opened CaeState
  import opened CaeInvariant
  import opened CaeRuns

  // ------------------------------------------------------------------- passwords

  /** Does the client go with this event? */
  predicate Leaves(e: Event, ch: int) { (e.DC? || e.Closed?) && e.ch == ch }

  /** Was the client's last password since it came accepted? */
  predicate Trusted(es: seq<Event>, ch: int) {
    es != [] &&
    var e := es[|es| - 1];
    if e.PW? && e.ch == ch then e.accepted else !Leaves(e, ch) && Trusted(es[..|es| - 1], ch)
  }

  lemma {:induction false} RunLast(s: Cae, es: seq<Event>)
    requires Inv(s) && EnabledRun(s, es) && es != []
    ensures var before, e := es[..|es| - 1], es[|es| - 1];
            && EnabledRun(s, before) && Inv(Run(s, before)) && Enabled(Run(s, before), e)
            && Run(s, es) == Step(Run(s, before), e).0
    decreases |es|
  {
    InvStep(s, es[0]);
    var before := es[..|es| - 1];
    if |es| == 1 {
      assert before == [] && es[1..] == [];
    } else {
      assert es[1..][..|es| - 2] == before[1..] && before[0] == es[0];
      RunLast(Step(s, es[0]).0, es[1..]);
    }
  }

  lemma {:induction false} PlaybackKeepsAuth(s: Cae, e: Event)
    requires Inv(s) && Enabled(s, e) && OfPlayback(e) && !e.PW?
    ensures Step(s, e).0.auth == s.auth
  {
    LiveInRange(s);
    match e {
      case UP(ch, arg) => InvUnloadPlayback(s, ch, arg);
      case PY(ch, arg, length, speed, flag, started) => PlayChanges(s, ch, arg, length, speed, flag, started);
      case _ =>
    }
  }

  lemma {:induction false} OthersKeepAuth(s: Cae, e: Event)
    requires Inv(s) && Enabled(s, e) && !OfPlayback(e) && !e.DC? && !e.Closed?
    ensures Step(s, e).0.auth == s.auth
  {
  }

  lemma {:induction false} AuthStep(s: Cae, e: Event, ch: int)
    requires Inv(s) && Enabled(s, e) && 0 <= ch < CONNECTIONS
    ensures Inv(Step(s, e).0)
    ensures Step(s, e).0.auth[ch] <==>
            if e.PW? && e.ch == ch then e.accepted else !Leaves(e, ch) && s.auth[ch]
  {
    InvStep(s, e);
    if OfPlayback(e) && !e.PW? {
      PlaybackKeepsAuth(s, e);
    } else if !e.PW? && !e.DC? && !e.Closed? {
      OthersKeepAuth(s, e);
    }
  }

  /** After any run from start-up a client is authenticated if and only if its last password since
      it connected was accepted. */
  lemma {:induction false} AuthenticatedExactly(driver: seq<Driver>, sampleRate: nat, es: seq<Event>, ch: int)
    requires |driver| == CARDS && sampleRate > 0 && 0 <= ch < CONNECTIONS
    requires EnabledRun(Started(driver, sampleRate), es)
    ensures Inv(Run(Started(driver, sampleRate), es))
    ensures Run(Started(driver, sampleRate), es).auth[ch] <==> Trusted(es, ch)
    decreases |es|
  {
    var s := Started(driver, sampleRate);
    if es != [] {
      RunLast(s, es);
      var before := es[..|es| - 1];
      AuthenticatedExactly(driver, sampleRate, before, ch);
      AuthStep(Run(s, before), es[|es| - 1], ch);
    }
  }

  /** The answer to a password says what becomes of it. */
  lemma {:induction false} PasswordAnswered(s: Cae, ch: int, accepted: bool)
    requires Inv(s) && Enabled(s, PW(ch, accepted))
    ensures var (t, out) := Step(s, PW(ch, accepted));
            && t == s.(auth := t.auth) && |t.auth| == 128 && out == [Notice(ch, Password(t.auth[ch]))]
            && (t.auth[ch] <==> accepted) && forall i :: 0 <= i < 128 && i != ch ==> t.auth[i] == s.auth[i]
  {
  }

  /** The commands that need a password. */
  predicate Guarded(e: Event) {
    e.LP? || e.UP? || e.PY? || e.SP? || e.LR? || e.UR? || e.RD? || e.SR? || e.OS? || e.ME?
  }

  lemma {:induction false} Refused(s: Cae, e: Event)
    requires Inv(s) && Enabled(s, e) && Guarded(e) && !s.auth[e.ch]
    ensures Step(s, e) == (s, [Notice(e.ch, Status(false))])
  {
    LiveInRange(s);
  }

  /** Until a client's password is accepted its commands change nothing and are refused. */
  lemma {:induction false} RefusedUntilTrusted(driver: seq<Driver>, sampleRate: nat, es: seq<Event>, e: Event)
    requires |driver| == CARDS && sampleRate > 0 && EnabledRun(Started(driver, sampleRate), es)
    requires Inv(Run(Started(driver, sampleRate), es)) && Enabled(Run(Started(driver, sampleRate), es), e)
    requires Guarded(e) && !Trusted(es, e.ch)
    ensures var s := Run(Started(driver, sampleRate), es); Step(s, e) == (s, [Notice(e.ch, Status(false))])
  {
    var s := Run(Started(driver, sampleRate), es);
    AuthenticatedExactly(driver, sampleRate, es, e.ch);
    Refused(s, e);
  }

  // ------------------------------------------------------------------- playback

  /** A number that a client gives names a handle in use. */
  predicate Names(s: Cae, arg: Option<int>) {
    arg.Some? && 0 <= arg.value < 256 && |s.handles| == 256 && s.handles[arg.value].card >= 0
  }

  lemma {:induction false} NamesHandle(s: Cae, arg: Option<int>)
    requires Inv(s)
    ensures NamedHandle(s.handles, arg) == if Names(s, arg) then arg else None
  {
    if Names(s, arg) {
      assert HandleOk(s, arg.value);
    }
  }

  /** The stream that a handle names: it exists, is the owner's, and has this handle only. */
  lemma {:induction false} HandleNames(s: Cae, h: int)
    requires Inv(s) && 0 <= h < HANDLES && s.handles[h].Live()
    ensures var k := s.handles[h].At();
            && k in AllSlots() && k in s.rings && s.playOwner[k] == s.handles[h].owner != -1
            && s.driver[k.card] != NoDriver && FindHandle(s.handles, k, 0) == h
  {
    assert HandleOk(s, h);
    var k := s.handles[h].At();
    assert StreamOk(s, k);
    OneToOne(s, k);
  }

  /** How far a handle number is from the cursor, around the table. */
  function Ahead(next: int, h: int): int { (h - next) % 256 }

  lemma {:induction false} AheadOfAround(next: int, d: int)
    requires 0 <= next < HANDLES && 0 <= d < HANDLES
    ensures Ahead(next, Around(next, d)) == d
  {
    if next + d >= 256 {
      assert (next + d) % 256 == next + d - 256;
    }
  }

  lemma {:induction false} NoneNearer(handles: seq<PlayHandle>, next: int, g: int)
    requires |handles| == HANDLES && 0 <= next < HANDLES && 0 <= g < HANDLES && !handles[g].Live()
    ensures FreeOffset(handles, next, 0) <= Ahead(next, g)
  {
    var d := AroundReaches(next, g);
    AheadOfAround(next, d);
  }

  /** The first free handle from the cursor on. */
  lemma {:induction false} FirstFreeHandle(s: Cae) returns (h: int)
    requires Inv(s)
    ensures 0 <= h < 256 && h == NewHandle(s) && s.handles[h].card < 0
    ensures forall g :: 0 <= g < 256 && s.handles[g].card < 0 ==> Ahead(s.next, h) <= Ahead(s.next, g)
  {
    h := NewHandle(s);
    HandleAlwaysFree(s);
    AheadOfAround(s.next, FreeOffset(s.handles, s.next, 0));
    forall g | 0 <= g < 256 && s.handles[g].card < 0
      ensures Ahead(s.next, h) <= Ahead(s.next, g)
    {
      NoneNearer(s.handles, s.next, g);
    }
  }

  lemma {:induction false} LoadIssues(s: Cae, ch: int, card: int, playable: bool)
    requires Inv(s) && Enabled(s, LP(ch, card, playable)) && s.auth[ch] && card >= 0
    requires Allot(s, card, playable).Some?
    ensures var h := NewHandle(s); var k := Slot(card, Allot(s, card, playable).value);
            LoadPlayback(s, ch, card, playable) ==
            (s.(rings := s.rings + {k}, handles := s.handles[h := PlayHandle(k.card, k.stream, ch)],
                next := (h + 1) % 256, playOwner := s.playOwner[k := ch]),
             [Notice(ch, Loaded(card, k.stream, h))])
  {
    NoStaleHandle(s, Slot(card, Allot(s, card, playable).value));
  }

  /** LP: the card's lowest stream without ring buffer, and the first free handle. */
  lemma {:induction false} LoadTells(s: Cae, ch: int, card: int, playable: bool) returns (stream: int, h: int)
    requires Inv(s) && Enabled(s, LP(ch, card, playable))
    ensures 0 <= stream <= 16 && (stream < 16 ==> Slot(card, stream) !in s.rings)
    ensures forall i :: 0 <= i < stream ==> Slot(card, i) in s.rings
    ensures 0 <= h < 256 && s.handles[h].card < 0
    ensures forall g :: 0 <= g < 256 && s.handles[g].card < 0 ==> Ahead(s.next, h) <= Ahead(s.next, g)
    ensures var k := Slot(card, stream);
            Step(s, LP(ch, card, playable)) ==
            if !s.auth[ch] then (s, [Notice(ch, Status(false))])
            else if card < 0 || s.driver[card] == NoDriver || stream == 16 || !playable
            then (s, [Notice(ch, LoadFailed(card))])
            else (s.(rings := s.rings + {k}, handles := s.handles[h := PlayHandle(card, stream, ch)],
                     next := (h + 1) % 256, playOwner := s.playOwner[k := ch]),
                  [Notice(ch, Loaded(card, stream, h))])
  {
    stream := FirstFreeStream(s.rings, card, 0);
    h := FirstFreeHandle(s);
    assert card >= 0 && s.driver[card] != NoDriver && stream < 16 && playable <==>
           card >= 0 && Allot(s, card, playable) == Some(stream);
    if s.auth[ch] && card >= 0 && Allot(s, card, playable).Some? {
      LoadIssues(s, ch, card, playable);
    }
  }

  /** UP: the owner's frees handle, ring buffer and owner; any other is refused. */
  lemma {:induction false} UnloadTells(s: Cae, ch: int, arg: Option<int>)
    requires Inv(s) && Enabled(s, UP(ch, arg))
    ensures Step(s, UP(ch, arg)) ==
            if s.auth[ch] && Names(s, arg) && s.handles[arg.value].owner == ch then
              var k := Slot(s.handles[arg.value].card, s.handles[arg.value].stream);
              (s.(handles := s.handles[arg.value := PlayHandle(-1, -1, -1)], rings := s.rings - {k},
                  playOwner := s.playOwner[k := -1]),
               [Notice(ch, Status(true))])
            else (s, [Notice(ch, Status(false))])
  {
    LiveInRange(s);
    NamesHandle(s, arg);
    if Names(s, arg) {
      HandleNames(s, arg.value);
    }
  }

  lemma {:induction false} PlayTellsOwner(s: Cae, h: int, state: int)
    requires Inv(s) && 0 <= h < HANDLES && s.handles[h].Live()
    ensures var p := s.handles[h]; var k := Slot(p.card, p.stream);
            && k in s.playParams
            && PlayUpdate(s, p.card, p.stream, state) ==
               if state == 1 then [Notice(p.owner, Playing(h, s.playParams[k].length, s.playParams[k].speed))]
               else if state == 0 || state == 2 then [Notice(p.owner, Stopped(h))] else []
  {
    HandleNames(s, h);
  }

  /** PY: length, speed and pitch are stored as far as they can be read, one after the other, and
      the owner's is told that they play. */
  lemma {:induction false} PlayTells(s: Cae, ch: int, arg: Option<int>, length: Option<int>, speed: Option<int>,
                                     flag: Option<int>, started: bool)
    requires Inv(s) && Enabled(s, PY(ch, arg, length, speed, flag, started))
    ensures var (t, out) := Step(s, PY(ch, arg, length, speed, flag, started));
            if s.auth[ch] && Names(s, arg) then
              var p := s.handles[arg.value]; var k := Slot(p.card, p.stream);
              && k in s.playParams && k in t.playParams
              && t == s.(playParams := s.playParams[k := t.playParams[k]])
              && t.playParams[k].length == (if length.Some? then length.value else s.playParams[k].length)
              && t.playParams[k].speed ==
                 (if length.Some? && speed.Some? then speed.value else s.playParams[k].speed)
              && t.playParams[k].pitch ==
                 (if length.Some? && speed.Some? && flag == Some(0) then false
                  else if length.Some? && speed.Some? && flag == Some(1) then true
                  else s.playParams[k].pitch)
              && out == [Notice(ch, if length.Some? && speed.Some? && (flag == Some(0) || flag == Some(1))
                                       && p.owner == ch && started
                                    then Playing(arg.value, length.value, speed.value) else Status(false))]
            else (t, out) == (s, [Notice(ch, Status(false))])
  {
    LiveInRange(s);
    NamesHandle(s, arg);
    PlayChanges(s, ch, arg, length, speed, flag, started);
    if s.auth[ch] && Names(s, arg) {
      HandleNames(s, arg.value);
      PlayStores(s, s.handles[arg.value].At(), length, speed, flag);
      InvPlay(s, ch, arg, length, speed, flag, started);
      PlayTellsOwner(Play(s, ch, arg, length, speed, flag, started).0, arg.value, 1);
    }
  }

  lemma {:induction false} PlayStores(s: Cae, k: Slot, length: Option<int>, speed: Option<int>, flag: Option<int>)
    requires Sized(s) && k in AllSlots()
    ensures var t := StoreParams(s, k, length, speed, flag);
            && k in t.playParams && t == s.(playParams := s.playParams[k := t.playParams[k]])
            && t.playParams[k].length == (if length.Some? then length.value else s.playParams[k].length)
            && t.playParams[k].speed == (if length.Some? && speed.Some? then speed.value else s.playParams[k].speed)
            && t.playParams[k].pitch ==
               (if length.Some? && speed.Some? && flag == Some(0) then false
                else if length.Some? && speed.Some? && flag == Some(1) then true
                else s.playParams[k].pitch)
  {
  }

  /** SP: the owner is told that the stream stopped, and nothing else changes. */
  lemma {:induction false} StopTells(s: Cae, ch: int, arg: Option<int>, stopped: bool)
    requires Inv(s) && Enabled(s, SP(ch, arg, stopped))
    ensures Step(s, SP(ch, arg, stopped)) ==
            (s, [Notice(ch, if s.auth[ch] && Names(s, arg) && s.handles[arg.value].owner == ch && stopped
                            then Stopped(arg.value) else Status(false))])
  {
    LiveInRange(s);
    NamesHandle(s, arg);
    if Names(s, arg) {
      HandleNames(s, arg.value);
      PlayTellsOwner(s, arg.value, 2);
    }
  }

  /** What a driver reports of a stream is told with its handle to its owner: that it plays (1), or
      that it has paused (2) or stopped (0). */
  lemma {:induction false} PlayStateTells(s: Cae, h: int, state: int)
    requires Inv(s) && 0 <= h < 256 && s.handles[h].card >= 0
    requires Enabled(s, PlayState(s.handles[h].At(), state))
    ensures var p := s.handles[h]; var k := Slot(p.card, p.stream);
            && k in s.playParams
            && Step(s, PlayState(k, state)) ==
               (s, if state == 1 then [Notice(p.owner, Playing(h, s.playParams[k].length, s.playParams[k].speed))]
                   else if state == 2 || state == 0 then [Notice(p.owner, Stopped(h))] else [])
  {
    PlayTellsOwner(s, h, state);
  }

  // ------------------------------------------------------------------- recording

  /** A record stream of a card with a driver. */
  predicate Records(s: Cae, k: Slot) {
    0 <= k.card < 8 && 0 <= k.stream < 16 && |s.driver| == 8 && s.driver[k.card] != NoDriver
  }

  /** LR: a stream without owner gets one. */
  lemma {:induction false} LoadRecordTells(s: Cae, ch: int, k: Slot, recordable: bool)
    requires Inv(s) && Enabled(s, LR(ch, k, recordable))
    ensures Step(s, LR(ch, k, recordable)) ==
            if s.auth[ch] && Records(s, k) && k in s.recordOwner && s.recordOwner[k] == -1 && recordable
            then (s.(recordOwner := s.recordOwner[k := ch]), [Notice(ch, Status(true))])
            else (s, [Notice(ch, Status(false))])
  {
  }

  /** UR: the stream has no owner and does not record any more, and the client is told for how many
      whole milliseconds it did. */
  lemma {:induction false} UnloadRecordTells(s: Cae, ch: int, k: Slot, unloaded: Option<nat>) returns (ms: nat)
    requires Inv(s) && Enabled(s, UR(ch, k, unloaded))
    ensures Step(s, UR(ch, k, unloaded)) ==
            if s.auth[ch] && Records(s, k) && k in s.recordOwner && s.recordOwner[k] in {-1, ch} && unloaded.Some?
            then (s.(recordOwner := s.recordOwner[k := -1], recordings := s.recordings - {k}),
                  [Notice(ch, RecordUnloaded(k.card, k.stream, ms))])
            else (s, [Notice(ch, Status(false))])
    ensures unloaded.Some? ==> ms * s.sampleRate <= 1000 * unloaded.value < (ms + 1) * s.sampleRate
  {
    ms := if unloaded.Some? then unloaded.value * 1000 / s.sampleRate else 0;
    if unloaded.Some? {
      Quotient(unloaded.value * 1000, s.sampleRate);
    }
  }

  lemma {:induction false} Quotient(n: nat, d: nat)
    requires d > 0
    ensures n / d * d <= n < (n / d + 1) * d
  {
  }

  /** RD: length and threshold are stored as far as they can be read; the owner's recording begins
      and is reported, unless it waits for the input's level. */
  lemma {:induction false} RecordTells(s: Cae, ch: int, k: Slot, length: Option<int>, threshold: Option<int>,
                                       started: bool, vox: bool)
    requires Inv(s) && Enabled(s, RD(ch, k, length, threshold, started, vox))
    ensures var (t, out) := Step(s, RD(ch, k, length, threshold, started, vox));
            if s.auth[ch] && k.card >= 0 && k.stream >= 0 then
              var begins := length.Some? && threshold.Some? && Records(s, k) && k in s.recordOwner
                            && s.recordOwner[k] == ch && started;
              && k in s.recordParams && k in t.recordParams
              && t == s.(recordParams := s.recordParams[k := t.recordParams[k]],
                         recordings := if begins then s.recordings + {k} else s.recordings)
              && t.recordParams[k].length == (if length.Some? then length.value else s.recordParams[k].length)
              && t.recordParams[k].threshold ==
                 (if length.Some? && threshold.Some? then threshold.value else s.recordParams[k].threshold)
              && out == if !begins then [Notice(ch, Status(false))]
                        else if vox then [] else [Notice(ch, RecordStarted(k.card, k.stream))]
            else (t, out) == (s, [Notice(ch, Status(false))])
  {
  }

  /** SR: a recording is stopped, whoever owns it. */
  lemma {:induction false} StopRecordTells(s: Cae, ch: int, k: Slot)
    requires Inv(s) && Enabled(s, SR(ch, k))
    ensures Step(s, SR(ch, k)) ==
            if s.auth[ch] && k in s.recordings then (s.(recordings := s.recordings - {k}), [Notice(ch, Status(true))])
            else (s, [Notice(ch, Status(false))])
  {
    if k in s.recordings {
      assert RecordOk(s, k);
    }
  }

  /** A driver's report of a record stream goes to its owner, if it has one: ready (0), recording (4),
      stopped (2) or paused (3). */
  lemma {:induction false} RecordStateTells(s: Cae, k: Slot, state: int)
    requires Inv(s) && Enabled(s, RecordState(k, state))
    ensures k in s.recordOwner && k in s.recordParams
    ensures Step(s, RecordState(k, state)) ==
            (s, if s.recordOwner[k] == -1 || state !in {0, 2, 3, 4} then []
                else [Notice(s.recordOwner[k],
                             if state == 0 then Recording(k.card, k.stream, s.recordParams[k].length,
                                                          s.recordParams[k].threshold)
                             else if state == 4 then RecordStarted(k.card, k.stream)
                             else RecordStopped(k.card, k.stream))])
  {
  }

  /** When its length is over a recording stops, and its owner is told. */
  lemma {:induction false} RecordTimerTells(s: Cae, k: Slot)
    requires Inv(s) && Enabled(s, RecordTimer(k))
    ensures k in s.recordOwner
    ensures Step(s, RecordTimer(k)) ==
            (s.(recordings := s.recordings - {k}),
             if s.recordOwner[k] == -1 then [] else [Notice(s.recordOwner[k], RecordStopped(k.card, k.stream))])
  {
  }

  // ------------------------------------------------------------------- telling many

  /** How often a message is sent. */
  function Times(ns: seq<Notice>, m: Notice): nat {
    if ns == [] then 0 else Times(ns[..|ns| - 1], m) + if ns[|ns| - 1] == m then 1 else 0
  }

  lemma {:induction false} TimesOne(x: Notice, m: Notice)
    ensures Times([x], m) == if x == m then 1 else 0
  {
    assert [x][..0] == [];
  }

  lemma {:induction false} TimesAdd(a: seq<Notice>, b: seq<Notice>, m: Notice)
    ensures Times(a + b, m) == Times(a, m) + Times(b, m)
    decreases |b|
  {
    if b == [] {
      assert a + b == a;
    } else {
      assert (a + b)[..|a + b| - 1] == a + b[..|b| - 1];
      TimesAdd(a, b[..|b| - 1], m);
    }
  }

  lemma {:induction false} EachTimes(to: seq<bool>, message: Message, i: nat, m: Notice)
    requires i <= |to|
    ensures Times(ToEach(to, message, i), m) ==
            if i <= m.to < |to| && to[m.to] && m.message == message then 1 else 0
    decreases |to| - i
  {
    if i < |to| {
      EachTimes(to, message, i + 1, m);
      var first := if to[i] then [Notice(i, message)] else [];
      TimesAdd(first, ToEach(to, message, i + 1), m);
      if to[i] {
        TimesOne(Notice(i, message), m);
      }
    }
  }

  /** A message to one of the clients that tells the status of one of these outputs as it is. */
  predicate TellsOf(m: Notice, to: seq<bool>, flags: set<Output>, card: int, ports: int, streams: int) {
    && 0 <= m.to < |to| && to[m.to] && m.message.OutputStatus?
    && m.message.output.card == card && 0 <= m.message.output.port < ports
    && 0 <= m.message.output.stream < streams && m.message.flag == (m.message.output in flags)
  }

  lemma {:induction false} StreamsTimes(to: seq<bool>, flags: set<Output>, card: int, port: nat, n: nat, m: Notice)
    ensures Times(StreamsTold(to, flags, card, port, n), m) ==
            if TellsOf(m, to, flags, card, port + 1, n) && m.message.output.port == port then 1 else 0
  {
    if n > 0 {
      StreamsTimes(to, flags, card, port, n - 1, m);
      var output := Output(card, port, n - 1);
      EachTimes(to, OutputStatus(output, output in flags), 0, m);
      TimesAdd(StreamsTold(to, flags, card, port, n - 1), ToEach(to, OutputStatus(output, output in flags), 0), m);
    }
  }

  lemma {:induction false} PortsTimes(to: seq<bool>, flags: set<Output>, card: int, n: nat, m: Notice)
    ensures Times(PortsTold(to, flags, card, n), m) == if TellsOf(m, to, flags, card, n, 16) then 1 else 0
  {
    if n > 0 {
      PortsTimes(to, flags, card, n - 1, m);
      StreamsTimes(to, flags, card, n - 1, STREAMS, m);
      TimesAdd(PortsTold(to, flags, card, n - 1), StreamsTold(to, flags, card, n - 1, STREAMS), m);
    }
  }

  /** Likewise of the first `n` cards, as far as they have a driver. */
  predicate TellsOfCards(m: Notice, to: seq<bool>, flags: set<Output>, driver: seq<Driver>, n: nat)
    requires n <= |driver|
  {
    && m.message.OutputStatus? && 0 <= m.message.output.card < n && driver[m.message.output.card] != NoDriver
    && TellsOf(m, to, flags, m.message.output.card, 8, 16)
  }

  lemma {:induction false} CardTimes(to: seq<bool>, flags: set<Output>, driver: Driver, card: int, m: Notice)
    ensures Times(CardTold(to, flags, driver, card), m) ==
            if driver != NoDriver && TellsOf(m, to, flags, card, 8, 16) then 1 else 0
  {
    PortsTimes(to, flags, card, PORTS, m);
  }

  lemma {:induction false} CardsNext(m: Notice, to: seq<bool>, flags: set<Output>, driver: seq<Driver>, n: nat)
    requires 0 < n <= |driver|
    ensures var last := driver[n - 1] != NoDriver && TellsOf(m, to, flags, n - 1, 8, 16);
            && (TellsOfCards(m, to, flags, driver, n) <==> TellsOfCards(m, to, flags, driver, n - 1) || last)
            && !(TellsOfCards(m, to, flags, driver, n - 1) && last)
  {
  }

  lemma {:induction false} CardsTimes(to: seq<bool>, flags: set<Output>, driver: seq<Driver>, n: nat, m: Notice)
    requires n <= |driver|
    ensures Times(CardsTold(to, flags, driver, n), m) == if TellsOfCards(m, to, flags, driver, n) then 1 else 0
  {
    if n > 0 {
      CardsTimes(to, flags, driver, n - 1, m);
      CardTimes(to, flags, driver[n - 1], n - 1, m);
      CardsNext(m, to, flags, driver, n);
      TimesAdd(CardsTold(to, flags, driver, n - 1), CardTold(to, flags, driver[n - 1], n - 1), m);
    }
  }

  /** The clients with a meter port. */
  predicate HasMeter(s: Cae, ch: int) { 0 <= ch < |s.meterPort| && s.meterPort[ch] > 0 }

  /** ME: the answer first; then every metered client, this one included if its port is not zero,
      is told once of every output of every card with a driver, and of nothing else. */
  lemma {:induction false} MeterTells(s: Cae, ch: int, port: int, m: Notice)
    requires Inv(s) && Enabled(s, ME(ch, port))
    ensures var (t, out) := Step(s, ME(ch, port));
            if s.auth[ch] && 0 <= port <= 65535 then
              && t == s.(meterPort := s.meterPort[ch := port])
              && |out| > 0 && out[0] == Notice(ch, Status(true))
              && Times(out[1..], m) == if HasMeter(t, m.to) && TellsOfDriver(s, m.message) then 1 else 0
            else (t, out) == (s, [Notice(ch, Status(false))])
  {
    if s.auth[ch] && 0 <= port <= 65535 {
      var t := s.(meterPort := s.meterPort[ch := port]);
      CardsTimes(Metered(t.meterPort), s.flags, s.driver, CARDS, m);
      var told := CardsTold(Metered(t.meterPort), s.flags, s.driver, CARDS);
      assert ([Notice(ch, Status(true))] + told)[1..] == told;
    }
  }

  /** The status of an output of a card with a driver, as it is. */
  predicate TellsOfDriver(s: Cae, message: Message) {
    && message.OutputStatus? && |s.driver| == 8
    && 0 <= message.output.card < 8 && 0 <= message.output.port < 8 && 0 <= message.output.stream < 16
    && s.driver[message.output.card] != NoDriver && message.flag == (message.output in s.flags)
  }

  /** OS: the flag is set or cleared, every metered client is told once, and then the client is
      answered. */
  lemma {:induction false} StatusTells(s: Cae, ch: int, output: Output, on: bool, m: Notice)
    requires Inv(s) && Enabled(s, OS(ch, output, on))
    ensures var (t, out) := Step(s, OS(ch, output, on));
            if s.auth[ch] && 0 <= output.card < 8 && 0 <= output.port < 8 && 0 <= output.stream < 16 then
              && t == s.(flags := t.flags)
              && (forall x :: x in t.flags <==> if x == output then on else x in s.flags)
              && |out| > 0 && out[|out| - 1] == Notice(ch, Status(true))
              && Times(out[..|out| - 1], m) ==
                 if HasMeter(s, m.to) && m.message == OutputStatus(output, on) then 1 else 0
            else (t, out) == (s, [Notice(ch, Status(false))])
  {
    EachTimes(Metered(s.meterPort), OutputStatus(output, on), 0, m);
    var told := ToEach(Metered(s.meterPort), OutputStatus(output, on), 0);
    assert (told + [Notice(ch, Status(true))])[..|told|] == told;
  }

  /** A broadcast reaches every authenticated client once, a meter update every metered one. */
  lemma {:induction false} ManyTold(s: Cae, id: int, m: Notice)
    requires Inv(s)
    ensures Step(s, BroadcastAll(id)).0 == Step(s, MeterAll(id)).0 == s
    ensures Times(Step(s, BroadcastAll(id)).1, m) ==
            if 0 <= m.to < 128 && s.auth[m.to] && m.message == Broadcast(id) then 1 else 0
    ensures Times(Step(s, MeterAll(id)).1, m) == if HasMeter(s, m.to) && m.message == Meter(id) then 1 else 0
  {
    EachTimes(s.auth, Broadcast(id), 0, m);
    EachTimes(Metered(s.meterPort), Meter(id), 0, m);
  }

  // ------------------------------------------------------------------- coming and going

  /** At start-up nobody is connected and nothing is owned, played, recorded or flagged; what is
      stored for a stream is no length, normal speed and pitch, and a threshold of -100 dB. */
  lemma {:induction false} StartsEmpty(driver: seq<Driver>, sampleRate: nat, ch: int, h: int, k: Slot)
    requires |driver| == CARDS && sampleRate > 0
    requires 0 <= ch < 128 && 0 <= h < 256 && 0 <= k.card < 8 && 0 <= k.stream < 16
    ensures var s := Started(driver, sampleRate);
            && Sized(s) && s.driver == driver && s.sampleRate == sampleRate && s.next == 0
            && !s.socket[ch] && !s.auth[ch] && s.meterPort[ch] == s.argnum[ch] == s.argptr[ch] == 0
            && s.handles[h] == PlayHandle(-1, -1, -1)
            && s.playOwner[k] == s.recordOwner[k] == -1
            && s.playParams[k] == Params(0, 100, false) && s.recordParams[k] == RecordParams(0, -10000)
            && s.rings == {} && s.recordings == {} && s.flags == {}
  {
  }

  lemma {:induction false} GoneStreams(s: Cae, ch: int, h: int, k: Slot)
    requires Sized(s) && 0 <= ch < CONNECTIONS && 0 <= h < 256 && k in AllSlots()
    ensures var t := Kill(s, ch);
            && |t.handles| == 256 && k in t.playOwner && k in t.playParams
            && t.handles[h] == (if s.handles[h].owner == ch then PlayHandle(-1, -1, -1) else s.handles[h])
            && (if s.playOwner[k] == ch
                then t.playOwner[k] == -1 && t.playParams[k] == Params(0, 100, false) && k !in t.rings
                else t.playOwner[k] == s.playOwner[k] && t.playParams[k] == s.playParams[k]
                     && (k in t.rings <==> k in s.rings))
  {
  }

  lemma {:induction false} GoneRecords(s: Cae, ch: int, k: Slot)
    requires Sized(s) && 0 <= ch < CONNECTIONS && k in AllSlots()
    ensures var t := Kill(s, ch);
            && k in t.recordOwner && k in t.recordParams
            && (if s.recordOwner[k] == ch
                then t.recordOwner[k] == -1 && t.recordParams[k] == RecordParams(0, -10000) && k !in t.recordings
                else t.recordOwner[k] == s.recordOwner[k] && t.recordParams[k] == s.recordParams[k]
                     && (k in t.recordings <==> k in s.recordings))
  {
  }

  /** A client that goes, by DC or by itself, takes along the handles, streams and recordings that
      it owns, and what is stored for them is as at start-up; all others are as they were. */
  lemma {:induction false} GoneTells(s: Cae, e: Event, h: int, k: Slot)
    requires Inv(s) && Enabled(s, e) && (e.DC? || e.Closed?) && 0 <= h < 256 && k in AllSlots()
    ensures var (t, out) := Step(s, e); var ch := e.ch;
            && Inv(t) && out == [] && k in t.playOwner && k in t.playParams && k in t.recordOwner && k in t.recordParams
            && t == s.(socket := s.socket[ch := false], auth := s.auth[ch := false],
                       meterPort := s.meterPort[ch := 0], argnum := s.argnum[ch := 0], argptr := s.argptr[ch := 0],
                       handles := t.handles, playOwner := t.playOwner, playParams := t.playParams,
                       recordOwner := t.recordOwner, recordParams := t.recordParams, recordings := t.recordings,
                       rings := t.rings)
            && t.handles[h] == (if s.handles[h].owner == ch then PlayHandle(-1, -1, -1) else s.handles[h])
            && (if s.playOwner[k] == ch
                then t.playOwner[k] == -1 && t.playParams[k] == Params(0, 100, false) && k !in t.rings
                else t.playOwner[k] == s.playOwner[k] && t.playParams[k] == s.playParams[k]
                     && (k in t.rings <==> k in s.rings))
            && (if s.recordOwner[k] == ch
                then t.recordOwner[k] == -1 && t.recordParams[k] == RecordParams(0, -10000) && k !in t.recordings
                else t.recordOwner[k] == s.recordOwner[k] && t.recordParams[k] == s.recordParams[k]
                     && (k in t.recordings <==> k in s.recordings))
  {
    InvKill(s, e.ch);
    GoneStreams(s, e.ch, h, k);
    GoneRecords(s, e.ch, k);
  }
}
