/**
 What every reachable state of the Core Audio Engine keeps: live handles, owned streams
 and allocated ring buffers correspond one to one, owners are connected, and an empty
 connection slot is as at start-up.
 */
module CaeInvariant {
  import opened CaeState

  // ------------------------------------------------------------------- invariant

  /** A handle is free, or names a stream that its owner, a connected client, owns. */
  ghost predicate HandleOk(s: Cae, h: int)
    requires Sized(s) && 0 <= h < HANDLES
  {
    var p := s.handles[h];
    if p.Live() then
      && p.At() in AllSlots()
      && s.playOwner[p.At()] == p.owner
      && 0 <= p.owner < CONNECTIONS && s.socket[p.owner]
    else p == FREE_HANDLE
  }

  ghost predicate HasHandle(s: Cae, k: Slot)
    requires Sized(s)
  {
    exists h :: 0 <= h < HANDLES && s.handles[h].Live() && s.handles[h].At() == k
  }

  /** A stream has an owner exactly when the driver has a ring buffer for it, and then a handle. */
  ghost predicate StreamOk(s: Cae, k: Slot)
    requires Sized(s) && k in AllSlots()
  {
    && (s.playOwner[k] != -1 <==> k in s.rings)
    && (k in s.rings ==> s.driver[k.card] != NoDriver && HasHandle(s, k))
  }

  /** A record stream is free or a connected client's, and recording only while it is owned. */
  ghost predicate RecordOk(s: Cae, k: Slot)
    requires Sized(s) && k in AllSlots()
  {
    && (k in s.recordings ==> s.recordOwner[k] != -1 && s.driver[k.card] != NoDriver)
    && (s.recordOwner[k] == -1 || (0 <= s.recordOwner[k] < CONNECTIONS && s.socket[s.recordOwner[k]]))
  }

  ghost predicate OneHandleEach(handles: seq<PlayHandle>) {
    forall g, h :: 0 <= g < h < |handles| && handles[g].Live() && handles[h].Live() ==>
                     handles[g].At() != handles[h].At()
  }

  /** An empty slot has nothing for its next client to inherit. */
  ghost predicate SlotOk(s: Cae, ch: int)
    requires Sized(s) && 0 <= ch < CONNECTIONS
  {
    && s.meterPort[ch] >= 0
    && (!s.socket[ch] ==> !s.auth[ch] && s.meterPort[ch] == 0 && s.argnum[ch] == 0 && s.argptr[ch] == 0)
  }

  ghost predicate Inv(s: Cae) {
    && Sized(s)
    && s.rings <= AllSlots() && s.recordings <= AllSlots()
    && OneHandleEach(s.handles)
    && (forall h :: 0 <= h < HANDLES ==> HandleOk(s, h))
    && (forall k :: k in AllSlots() ==> StreamOk(s, k))
    && (forall k :: k in AllSlots() ==> RecordOk(s, k))
    && (forall ch :: 0 <= ch < CONNECTIONS ==> SlotOk(s, ch))
  }

  lemma InvInitial(driver: seq<Driver>, sampleRate: nat)
    requires |driver| == CARDS && sampleRate > 0
    ensures Inv(Initial(driver, sampleRate))
  {
  }

  /** An empty slot owns no handle, no playback stream and no record stream. */
  lemma EmptySlotOwnsNothing(s: Cae, ch: int)
    requires Inv(s) && 0 <= ch < CONNECTIONS && !s.socket[ch]
    ensures forall p <- s.handles :: p.owner != ch
    ensures forall k <- AllSlots() :: s.playOwner[k] != ch && s.recordOwner[k] != ch
  {
    forall p | p in s.handles
      ensures p.owner != ch
    {
      var h :| 0 <= h < HANDLES && s.handles[h] == p;
      assert HandleOk(s, h);
    }
    forall k | k in AllSlots()
      ensures s.playOwner[k] != ch && s.recordOwner[k] != ch
    {
      assert StreamOk(s, k) && RecordOk(s, k);
      if k in s.rings {
        var h :| 0 <= h < HANDLES && s.handles[h].Live() && s.handles[h].At() == k;
        assert HandleOk(s, h);
      }
    }
  }

  /** The three tables agree: a handle is live for a stream exactly when the stream is owned,
      exactly when it has a ring buffer; the handle is the only one, and has the same owner. */
  lemma OneToOne(s: Cae, k: Slot)
    requires Inv(s) && k in AllSlots()
    ensures k in s.rings <==> s.playOwner[k] != -1
    ensures var h := FindHandle(s.handles, k, 0);
            if k in s.rings
            then h < HANDLES && s.handles[h] == PlayHandle(k.card, k.stream, s.playOwner[k])
                 && (forall g :: 0 <= g < HANDLES && s.handles[g].At() == k ==> g == h)
                 && 0 <= s.playOwner[k] < CONNECTIONS && s.socket[s.playOwner[k]]
            else h == HANDLES
  {
    assert StreamOk(s, k);
    var h := FindHandle(s.handles, k, 0);
    if h < HANDLES {
      assert HandleOk(s, h);
    }
    if k in s.rings {
      var g :| 0 <= g < HANDLES && s.handles[g].Live() && s.handles[g].At() == k;
    }
  }

  // -------------------------------------------------------------- pigeonhole

  /** The streams named by the first `n` handles. */
  ghost function SlotsOf(handles: seq<PlayHandle>, n: nat): set<Slot>
    requires n <= |handles|
  {
    if n == 0 then {}
    else SlotsOf(handles, n - 1) + (if handles[n - 1].Live() then {handles[n - 1].At()} else {})
  }

  /** How many of the first `n` handles are live. */
  function LiveCount(handles: seq<PlayHandle>, n: nat): (r: nat)
    requires n <= |handles|
    ensures r <= n
  {
    if n == 0 then 0 else LiveCount(handles, n - 1) + (if handles[n - 1].Live() then 1 else 0)
  }

  lemma {:induction false} SlotsOfMember(handles: seq<PlayHandle>, n: nat, k: Slot)
    requires n <= |handles| && k in SlotsOf(handles, n)
    ensures exists h :: 0 <= h < n && handles[h].Live() && handles[h].At() == k
  {
    if k in SlotsOf(handles, n - 1) {
      SlotsOfMember(handles, n - 1, k);
    }
  }

  lemma {:induction false} LiveCountIsSlots(handles: seq<PlayHandle>, n: nat)
    requires n <= |handles| && OneHandleEach(handles)
    ensures LiveCount(handles, n) == |SlotsOf(handles, n)|
  {
    if n > 0 {
      LiveCountIsSlots(handles, n - 1);
      var k := handles[n - 1].At();
      if handles[n - 1].Live() && k in SlotsOf(handles, n - 1) {
        SlotsOfMember(handles, n - 1, k);
        assert false;
      }
    }
  }

  ghost function Row(c: int, n: nat): (r: set<Slot>)
    ensures forall k :: k in r <==> k.card == c && 0 <= k.stream < n
    ensures |r| == n
  {
    if n == 0 then {} else Row(c, n - 1) + {Slot(c, n - 1)}
  }

  ghost function Grid(m: nat, n: nat): (r: set<Slot>)
    ensures forall k :: k in r <==> 0 <= k.card < m && 0 <= k.stream < n
    ensures |r| == m * n
  {
    if m == 0 then {}
    else
      assert Grid(m - 1, n) !! Row(m - 1, n);
      Grid(m - 1, n) + Row(m - 1, n)
  }

  lemma GridSize(m: nat, n: nat)
    ensures |set c, s | 0 <= c < m && 0 <= s < n :: Slot(c, s)| == m * n
  {
    var slots := set c, s | 0 <= c < m && 0 <= s < n :: Slot(c, s);
    forall k | k in Grid(m, n)
      ensures k in slots
    {
      assert k == Slot(k.card, k.stream);
    }
    assert slots == Grid(m, n);
  }

  /** At most 128 handles are live: one for each stream of each card. */
  lemma LiveBound(s: Cae)
    requires Inv(s)
    ensures LiveCount(s.handles, HANDLES) <= CARDS * STREAMS
  {
    LiveCountIsSlots(s.handles, HANDLES);
    var named := SlotsOf(s.handles, HANDLES);
    forall k | k in named
      ensures k in AllSlots()
    {
      SlotsOfMember(s.handles, HANDLES, k);
      var h :| 0 <= h < HANDLES && s.handles[h].Live() && s.handles[h].At() == k;
      assert HandleOk(s, h);
    }
    assert AllSlots() == named + (AllSlots() - named);
    GridSize(CARDS, STREAMS);
  }

  lemma AroundReaches(from: int, h: int) returns (d: int)
    requires 0 <= from < HANDLES && 0 <= h < HANDLES
    ensures 0 <= d < HANDLES && Around(from, d) == h
  {
    d := if h >= from then h - from else h - from + HANDLES;
  }

  lemma AroundNext(from: int, d: int)
    requires 0 <= from < HANDLES && 0 <= d
    ensures (Around(from, d) + 1) % 256 == Around(from, d + 1)
  {
  }

  lemma SearchCoversTable(handles: seq<PlayHandle>, next: int, h: int)
    requires |handles| == HANDLES && 0 <= next < HANDLES && 0 <= h < HANDLES
    requires FreeOffset(handles, next, 0) == HANDLES
    ensures handles[h].Live()
  {
    var d := AroundReaches(next, h);
  }

  /** So the search for a free handle always ends, at one that is not live. */
  lemma HandleAlwaysFree(s: Cae)
    requires Inv(s)
    ensures FreeOffset(s.handles, s.next, 0) < HANDLES
    ensures !s.handles[NewHandle(s)].Live()
  {
    LiveBound(s);
    if FreeOffset(s.handles, s.next, 0) == HANDLES {
      forall h | 0 <= h < HANDLES
        ensures s.handles[h].Live()
      {
        SearchCoversTable(s.handles, s.next, h);
      }
      AllLiveCount(s.handles, HANDLES);
    }
  }

  lemma {:induction false} AllLiveCount(handles: seq<PlayHandle>, n: nat)
    requires n <= |handles| && forall h :: 0 <= h < n ==> handles[h].Live()
    ensures LiveCount(handles, n) == n
  {
    if n > 0 {
      AllLiveCount(handles, n - 1);
    }
  }
}
