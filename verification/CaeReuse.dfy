/**
 How long a playback handle number rests: between two issues of the same number the Core
 Audio Engine issues at least 128 others, whatever its clients do.
 */
module CaeReuse {
  import opened Options
  import opened CaeState
  import opened CaeInvariant
  import opened CaeRuns

  /** The handle number that an event issues, if it loads a stream. */
  ghost function Issue(s: Cae, e: Event): (r: Option<int>)
    requires Inv(s) && Enabled(s, e)
    ensures r.Some? ==> 0 <= r.value < HANDLES
  {
    if e.LP? && s.auth[e.ch] && e.card >= 0 && Allot(s, e.card, e.playable).Some? then Some(NewHandle(s)) else None
  }

  /** The number issued is the one the client is told. */
  lemma IssueIsTold(s: Cae, e: Event)
    requires Inv(s) && Enabled(s, e) && e.LP?
    ensures match Issue(s, e)
            case Some(h) => Step(s, e).1 == [Notice(e.ch, Loaded(e.card, Allot(s, e.card, e.playable).value, h))]
            case None =>
              && Step(s, e).0 == s
              && (Step(s, e).1 == [Notice(e.ch, Status(false))] || Step(s, e).1 == [Notice(e.ch, LoadFailed(e.card))])
  {
    LiveInRange(s);
    if Issue(s, e).Some? {
      var k := Slot(e.card, Allot(s, e.card, e.playable).value);
      assert k in AllSlots();
      NoStaleHandle(s, k);
    }
  }

  lemma KillQuiet(s: Cae, ch: int)
    requires Sized(s) && 0 <= ch < CONNECTIONS
    ensures Kill(s, ch).next == s.next && |Kill(s, ch).handles| == HANDLES
    ensures forall h :: 0 <= h < HANDLES && Kill(s, ch).handles[h].Live() ==> s.handles[h].Live()
  {
  }

  lemma UnloadQuiet(s: Cae, ch: int, arg: Option<int>)
    requires Inv(s) && InRange(s) && 0 <= ch < CONNECTIONS
    ensures var t := UnloadPlayback(s, ch, arg).0;
            && t.next == s.next && |t.handles| == HANDLES
            && forall h :: 0 <= h < HANDLES && t.handles[h].Live() ==> s.handles[h].Live()
  {
    InvUnloadPlayback(s, ch, arg);
  }

  /** The cursor stays, and no handle becomes live. */
  ghost predicate Quiet(s: Cae, t: Cae)
    requires Sized(s)
  {
    t.next == s.next && |t.handles| == HANDLES && forall h :: 0 <= h < HANDLES && t.handles[h].Live() ==>
      s.handles[h].Live()
  }

  lemma {:induction false} QuietPlayback(s: Cae, e: Event)
    requires Inv(s) && Enabled(s, e) && OfPlayback(e) && Issue(s, e) == None
    ensures Quiet(s, Step(s, e).0)
  {
    LiveInRange(s);
    match e {
      case LP(_, _, _) => IssueIsTold(s, e);
      case UP(ch, arg) => UnloadQuiet(s, ch, arg);
      case PY(ch, arg, length, speed, flag, started) => PlayChanges(s, ch, arg, length, speed, flag, started);
      case _ =>
    }
  }

  /** An event that issues no handle leaves the cursor, and makes no handle live. */
  lemma {:induction false} QuietStep(s: Cae, e: Event)
    requires Inv(s) && Enabled(s, e) && Issue(s, e) == None
    ensures Quiet(s, Step(s, e).0)
  {
    if OfPlayback(e) {
      QuietPlayback(s, e);
    } else if e.DC? || e.Closed? {
      KillQuiet(s, e.ch);
    }
  }

  /** An event that issues a handle issues the next free one, and moves the cursor past it. */
  lemma IssueStep(s: Cae, e: Event)
    requires Inv(s) && Enabled(s, e) && Issue(s, e).Some?
    ensures FreeOffset(s.handles, s.next, 0) < HANDLES
    ensures Issue(s, e).value == Around(s.next, FreeOffset(s.handles, s.next, 0))
    ensures Step(s, e).0.next == Around(Issue(s, e).value, 1) && |Step(s, e).0.handles| == HANDLES
    ensures forall h :: 0 <= h < HANDLES && h != Issue(s, e).value ==> Step(s, e).0.handles[h] == s.handles[h]
    ensures Step(s, e).0.handles[Issue(s, e).value].Live()
  {
    HandleAlwaysFree(s);
    var k := Slot(e.card, Allot(s, e.card, e.playable).value);
    assert k in AllSlots();
    NoStaleHandle(s, k);
  }

  // ------------------------------------------------------------------- one lap

  /** `seen` accounts for every number that the cursor has passed since `from`, in `d` places;
      the live numbers still ahead were live when the lap began, in `start`. */
  ghost predicate Lap(handles: seq<PlayHandle>, next: int, from: int, d: int, seen: set<int>, start: set<int>)
    requires |handles| == HANDLES
  {
    && 0 <= from < HANDLES && 0 <= d < HANDLES
    && next == Around(from, d)
    && (forall j :: 0 <= j < d ==> Around(from, j) in seen || Around(from, j) in start)
    && (forall j :: d <= j < HANDLES - 1 && handles[Around(from, j)].Live() ==> Around(from, j) in start)
  }

  /** Every number but `h` was issued in the lap or live when it began. */
  ghost predicate Covered(h: int, seen: set<int>, start: set<int>) {
    forall x :: 0 <= x < HANDLES && x != h ==> x in seen || x in start
  }

  lemma AroundDistinct(from: int, i: int, j: int)
    requires 0 <= from < HANDLES && 0 <= i < HANDLES && 0 <= j < HANDLES && Around(from, i) == Around(from, j)
    ensures i == j
  {
  }

  lemma AroundTwice(from: int, i: int, j: int)
    requires 0 <= from < HANDLES && 0 <= i && 0 <= j
    ensures Around(Around(from, i), j) == Around(from, i + j)
  {
  }

  lemma LapEnd(h: int)
    requires 0 <= h < HANDLES
    ensures Around(Around(h, 1), HANDLES - 1) == h
  {
  }

  /** The numbers that the search skips were live when the lap began. */
  lemma SkippedWereLive(handles: seq<PlayHandle>, next: int, from: int, d: int, seen: set<int>, start: set<int>)
    requires |handles| == HANDLES && 0 <= next < HANDLES && Lap(handles, next, from, d, seen, start)
    ensures forall j :: d <= j < d + FreeOffset(handles, next, 0) && j < HANDLES - 1 ==> Around(from, j) in start
  {
    var f := FreeOffset(handles, next, 0);
    forall j | d <= j < d + f && j < HANDLES - 1
      ensures Around(from, j) in start
    {
      AroundTwice(from, d, j - d);
      assert handles[Around(next, j - d)].Live();
    }
  }

  /** A search that stops short of the lap's end finds a number other than the first. */
  lemma {:induction false} LapFinds(from: int, h: int, next: int, d: int, f: int)
    requires 0 <= h < HANDLES && from == Around(h, 1) && 0 <= d && 0 <= f && d + f < HANDLES - 1
             && next == Around(from, d)
    ensures Around(next, f) == Around(from, d + f) != h
    ensures Around(Around(next, f), 1) == Around(from, d + f + 1)
  {
    AroundTwice(from, d, f);
    AroundTwice(from, d + f, 1);
    LapEnd(h);
    if Around(from, d + f) == h {
      AroundDistinct(from, d + f, HANDLES - 1);
    }
  }

  /** It issues one more number of the lap. */
  lemma {:induction false} LapAdvances(handles: seq<PlayHandle>, next: int, after: seq<PlayHandle>, h: int, d: int,
                                       seen: set<int>, start: set<int>)
    requires |handles| == |after| == HANDLES && 0 <= next < HANDLES && 0 <= h < HANDLES
    requires Lap(handles, next, Around(h, 1), d, seen, start)
    requires d + FreeOffset(handles, next, 0) < HANDLES - 1
    requires forall x :: 0 <= x < HANDLES && x != Around(next, FreeOffset(handles, next, 0)) ==> after[x] == handles[x]
    ensures var g := Around(next, FreeOffset(handles, next, 0));
            && g != h
            && Lap(after, Around(g, 1), Around(h, 1), d + FreeOffset(handles, next, 0) + 1, seen + {g}, start)
  {
    var from, f := Around(h, 1), FreeOffset(handles, next, 0);
    LapFinds(from, h, next, d, f);
    LapPassed(handles, next, from, d, f, seen, start);
    StillLive(handles, after, from, d + f, start);
  }

  /** Every number passed was issued in the lap or live when it began. */
  lemma {:induction false} LapPassed(handles: seq<PlayHandle>, next: int, from: int, d: int, f: int, seen: set<int>,
                                     start: set<int>)
    requires |handles| == HANDLES && 0 <= next < HANDLES && Lap(handles, next, from, d, seen, start)
    requires f == FreeOffset(handles, next, 0) && d + f < HANDLES - 1
    ensures forall j :: 0 <= j < d + f + 1 ==>
              Around(from, j) in seen + {Around(from, d + f)} || Around(from, j) in start
  {
    SkippedWereLive(handles, next, from, d, seen, start);
    forall j | 0 <= j < d + f + 1
      ensures Around(from, j) in seen + {Around(from, d + f)} || Around(from, j) in start
    {
      assert j < d || j < d + f || j == d + f;
    }
  }

  /** Issuing one number makes no other one of the lap live. */
  lemma StillLive(handles: seq<PlayHandle>, after: seq<PlayHandle>, from: int, e: int, start: set<int>)
    requires |handles| == |after| == HANDLES && 0 <= from < HANDLES && 0 <= e < HANDLES
    requires forall x :: 0 <= x < HANDLES && x != Around(from, e) ==> after[x] == handles[x]
    requires forall j :: e < j < HANDLES - 1 && handles[Around(from, j)].Live() ==> Around(from, j) in start
    ensures forall j :: e < j < HANDLES - 1 && after[Around(from, j)].Live() ==> Around(from, j) in start
  {
    forall j | e < j < HANDLES - 1 && after[Around(from, j)].Live()
      ensures Around(from, j) in start
    {
      if Around(from, j) == Around(from, e) {
        AroundDistinct(from, j, e);
      }
    }
  }

  /** A search that reaches the lap's end has passed every other number. */
  lemma LapCloses(handles: seq<PlayHandle>, next: int, h: int, d: int, seen: set<int>, start: set<int>)
    requires |handles| == HANDLES && 0 <= next < HANDLES && 0 <= h < HANDLES
    requires Lap(handles, next, Around(h, 1), d, seen, start)
    requires d + FreeOffset(handles, next, 0) >= HANDLES - 1
    ensures Covered(h, seen, start)
  {
    var from := Around(h, 1);
    SkippedWereLive(handles, next, from, d, seen, start);
    LapEnd(h);
    forall x | 0 <= x < HANDLES && x != h
      ensures x in seen || x in start
    {
      var j := AroundReaches(from, x);
      assert j != HANDLES - 1;
    }
  }

  // -------------------------------------------------------------- runs as paths

  /** The handle table and its cursor. */
  datatype Point = Point(handles: seq<PlayHandle>, next: int)

  /** A step that issues the handle number `g`, or none. */
  ghost predicate Moves(p: Point, q: Point, g: Option<int>) {
    && |p.handles| == |q.handles| == HANDLES && 0 <= p.next < HANDLES
    && match g
       case None => q.next == p.next && forall h :: 0 <= h < HANDLES && q.handles[h].Live() ==> p.handles[h].Live()
       case Some(n) =>
         && FreeOffset(p.handles, p.next, 0) < HANDLES
         && n == Around(p.next, FreeOffset(p.handles, p.next, 0))
         && q.next == Around(n, 1)
         && forall h :: 0 <= h < HANDLES && h != n ==> q.handles[h] == p.handles[h]
  }

  ghost predicate Path(ps: seq<Point>, gs: seq<Option<int>>) {
    |ps| == |gs| + 1 && forall i :: 0 <= i < |gs| ==> Moves(ps[i], ps[i + 1], gs[i])
  }

  /** The numbers issued in `gs`, `h` apart. */
  ghost function Others(gs: seq<Option<int>>, h: int): set<int> {
    if gs == [] then {}
    else Others(gs[1..], h) + (if gs[0].Some? && gs[0].value != h then {gs[0].value} else {})
  }

  /** One step within a lap: the lap closes, goes on, or goes on with one more number seen. */
  lemma {:induction false} LapMove(p: Point, q: Point, g: Option<int>, h: int, d: int, seen: set<int>, start: set<int>)
    requires Moves(p, q, g) && 0 <= h < HANDLES && Lap(p.handles, p.next, Around(h, 1), d, seen, start)
    ensures
      || Covered(h, seen, start)
      || (g == None && Lap(q.handles, q.next, Around(h, 1), d, seen, start))
      || (g.Some? && g.value != h
          && Lap(q.handles, q.next, Around(h, 1), d + FreeOffset(p.handles, p.next, 0) + 1, seen + {g.value}, start))
  {
    if d + FreeOffset(p.handles, p.next, 0) >= HANDLES - 1 {
      LapCloses(p.handles, p.next, h, d, seen, start);
    } else if g.Some? {
      LapAdvances(p.handles, p.next, q.handles, h, d, seen, start);
    }
  }

  /** A path from within a lap to the next issue of `h` covers every other number. */
  lemma {:induction false} LapPath(ps: seq<Point>, gs: seq<Option<int>>, h: int, d: int, seen: set<int>,
                                   start: set<int>)
    requires gs != [] && Path(ps, gs) && 0 <= h < HANDLES && gs[|gs| - 1] == Some(h)
    requires |ps[0].handles| == HANDLES && Lap(ps[0].handles, ps[0].next, Around(h, 1), d, seen, start)
    ensures Covered(h, seen + Others(gs, h), start)
    decreases |gs|
  {
    var p, q := ps[0], ps[1];
    assert Moves(p, q, gs[0]);
    LapMove(p, q, gs[0], h, d, seen, start);
    if !Covered(h, seen, start) {
      PathTail(ps, gs);
      if gs[0] == None {
        LapPath(ps[1..], gs[1..], h, d, seen, start);
      } else {
        var g := gs[0].value;
        LapPath(ps[1..], gs[1..], h, d + FreeOffset(p.handles, p.next, 0) + 1, seen + {g}, start);
        assert seen + Others(gs, h) == seen + {g} + Others(gs[1..], h);
      }
    }
  }

  lemma PathTail(ps: seq<Point>, gs: seq<Option<int>>)
    requires gs != [] && Path(ps, gs)
    ensures Path(ps[1..], gs[1..])
  {
    forall i | 0 <= i < |gs| - 1
      ensures Moves(ps[1..][i], ps[1..][i + 1], gs[1..][i])
    {
      assert Moves(ps[i + 1], ps[i + 2], gs[i + 1]);
    }
  }

  /** The handle numbers issued in a run, event by event. */
  ghost function Issues(s: Cae, es: seq<Event>): (r: seq<Option<int>>)
    requires Inv(s) && EnabledRun(s, es)
    ensures |r| == |es|
    decreases |es|
  {
    if es == [] then []
    else
      InvStep(s, es[0]);
      [Issue(s, es[0])] + Issues(Step(s, es[0]).0, es[1..])
  }

  ghost function Points(s: Cae, es: seq<Event>): (r: seq<Point>)
    requires Inv(s) && EnabledRun(s, es)
    ensures |r| == |es| + 1 && r[0] == Point(s.handles, s.next)
    decreases |es|
  {
    if es == [] then [Point(s.handles, s.next)]
    else
      InvStep(s, es[0]);
      [Point(s.handles, s.next)] + Points(Step(s, es[0]).0, es[1..])
  }

  lemma StepMoves(s: Cae, e: Event)
    requires Inv(s) && Enabled(s, e)
    ensures Moves(Point(s.handles, s.next), Point(Step(s, e).0.handles, Step(s, e).0.next), Issue(s, e))
  {
    if Issue(s, e) == None {
      QuietStep(s, e);
    } else {
      IssueStep(s, e);
    }
  }

  /** A run is a path on which at most 128 handles are ever live. */
  lemma {:induction false} RunIsPath(s: Cae, es: seq<Event>)
    requires Inv(s) && EnabledRun(s, es)
    ensures Path(Points(s, es), Issues(s, es))
    ensures forall p <- Points(s, es) :: |p.handles| == HANDLES && LiveCount(p.handles, HANDLES) <= CARDS * STREAMS
    decreases |es|
  {
    LiveBound(s);
    if es != [] {
      StepMoves(s, es[0]);
      InvStep(s, es[0]);
      RunIsPath(Step(s, es[0]).0, es[1..]);
      PathCons(Point(s.handles, s.next), Issue(s, es[0]), Points(Step(s, es[0]).0, es[1..]), Issues(Step(s, es[0]).0,
        es[1..]));
    }
  }

  lemma PathCons(p: Point, g: Option<int>, ps: seq<Point>, gs: seq<Option<int>>)
    requires Path(ps, gs) && Moves(p, ps[0], g)
    ensures Path([p] + ps, [g] + gs)
  {
  }

  // ---------------------------------------------------------------- counting

  ghost function LiveSet(handles: seq<PlayHandle>, n: nat): (r: set<int>)
    requires n <= |handles|
    ensures forall h :: h in r <==> 0 <= h < n && handles[h].Live()
    ensures |r| == LiveCount(handles, n)
  {
    if n == 0 then {}
    else LiveSet(handles, n - 1) + (if handles[n - 1].Live() then {n - 1} else {})
  }

  ghost function Range(n: nat): (r: set<int>)
    ensures forall i :: i in r <==> 0 <= i < n
    ensures |r| == n
  {
    if n == 0 then {} else Range(n - 1) + {n - 1}
  }

  lemma SubsetCount<T>(a: set<T>, b: set<T>)
    requires a <= b
    ensures |a| <= |b|
  {
    assert b == a + (b - a);
  }

  lemma CoveredCount(h: int, seen: set<int>, start: set<int>)
    requires 0 <= h < HANDLES && Covered(h, seen, start)
    ensures |seen| + |start| >= HANDLES - 1
  {
    SubsetCount(Range(HANDLES) - {h}, seen + start);
  }

  /** A lap that has just begun at `h`. */
  lemma LapStarts(handles: seq<PlayHandle>, h: int, start: set<int>)
    requires |handles| == HANDLES && 0 <= h < HANDLES
    requires start == LiveSet(handles, HANDLES) - {h}
    ensures Lap(handles, Around(h, 1), Around(h, 1), 0, {}, start)
  {
    var from := Around(h, 1);
    assert Around(from, 0) == from;
    forall j | 0 <= j < HANDLES - 1 && handles[Around(from, j)].Live()
      ensures Around(from, j) in start
    {
      LapEnd(h);
      if Around(from, j) == h {
        AroundDistinct(from, j, HANDLES - 1);
      }
    }
  }

  lemma PathPart(ps: seq<Point>, gs: seq<Option<int>>, i: nat, j: nat)
    requires Path(ps, gs) && i <= j <= |gs|
    ensures Path(ps[i..j + 1], gs[i..j])
  {
    forall k | 0 <= k < j - i
      ensures Moves(ps[i..j + 1][k], ps[i..j + 1][k + 1], gs[i..j][k])
    {
      assert Moves(ps[i + k], ps[i + k + 1], gs[i + k]);
    }
  }

  lemma {:induction false} OthersLast(gs: seq<Option<int>>, h: int)
    ensures Others(gs + [Some(h)], h) == Others(gs, h)
  {
    if gs == [] {
      assert (gs + [Some(h)])[1..] == [];
    } else {
      assert (gs + [Some(h)])[1..] == gs[1..] + [Some(h)];
      OthersLast(gs[1..], h);
    }
  }

  lemma LapOthers(gs: seq<Option<int>>, h: int, i: nat, j: nat)
    requires i < j < |gs| && gs[j] == Some(h)
    ensures Others(gs[i + 1..j + 1], h) == Others(gs[i + 1..j], h)
  {
    assert gs[i + 1..j + 1] == gs[i + 1..j] + [Some(h)];
    OthersLast(gs[i + 1..j], h);
  }

  /** From a handle's issue on, the path to its next issue passes every other number. */
  lemma {:induction false} LapIsCovered(ps: seq<Point>, gs: seq<Option<int>>, i: nat, j: nat, start: set<int>)
    requires Path(ps, gs) && i < j < |gs| && gs[i].Some? && gs[j] == gs[i] && 0 <= gs[i].value < HANDLES
    requires ps[i + 1].handles[gs[i].value].Live() && |ps[i + 1].handles| == HANDLES
    requires start == LiveSet(ps[i + 1].handles, HANDLES) - {gs[i].value}
    ensures Covered(gs[i].value, Others(gs[i + 1..j], gs[i].value), start)
  {
    var h := gs[i].value;
    assert Moves(ps[i], ps[i + 1], gs[i]);
    LapStarts(ps[i + 1].handles, h, start);
    PathPart(ps, gs, i + 1, j + 1);
    var lap := gs[i + 1..j + 1];
    LapPath(ps[i + 1..j + 2], lap, h, 0, {}, start);
    assert {} + Others(lap, h) == Others(lap, h);
    LapOthers(gs, h, i, j);
  }

  lemma {:induction false} PathReuse(ps: seq<Point>, gs: seq<Option<int>>, i: nat, j: nat)
    requires Path(ps, gs) && i < j < |gs| && gs[i].Some? && gs[j] == gs[i] && 0 <= gs[i].value < HANDLES
    requires forall p <- ps :: |p.handles| == HANDLES && LiveCount(p.handles, HANDLES) <= CARDS * STREAMS
    requires ps[i + 1].handles[gs[i].value].Live()
    ensures |Others(gs[i + 1..j], gs[i].value)| >= HANDLES - CARDS * STREAMS
  {
    var h := gs[i].value;
    var t := ps[i + 1];
    assert t in ps;
    var start := LiveSet(t.handles, HANDLES) - {h};
    LapIsCovered(ps, gs, i, j, start);
    LapStarts(t.handles, h, start);
    CoveredCount(h, Others(gs[i + 1..j], h), start);
  }

  lemma {:induction false} IssuedIsLive(s: Cae, es: seq<Event>, i: nat)
    requires Inv(s) && EnabledRun(s, es) && i < |es| && Issues(s, es)[i].Some?
    ensures var h := Issues(s, es)[i].value;
            0 <= h < HANDLES && |Points(s, es)[i + 1].handles| == HANDLES && Points(s, es)[i + 1].handles[h].Live()
    decreases |es|
  {
    InvStep(s, es[0]);
    var t := Step(s, es[0]).0;
    if i == 0 {
      IssueStep(s, es[0]);
      assert Points(s, es)[1] == Points(t, es[1..])[0];
    } else {
      IssuedIsLive(t, es[1..], i - 1);
    }
  }

  /** Over any run, between two issues of the same handle number at least 128 other numbers
      are issued. */
  lemma {:induction false} ReuseDistance(s: Cae, es: seq<Event>, i: nat, j: nat)
    requires Inv(s) && EnabledRun(s, es) && i < j < |es|
    requires Issues(s, es)[i].Some? && Issues(s, es)[i] == Issues(s, es)[j]
    ensures |Others(Issues(s, es)[i + 1..j], Issues(s, es)[i].value)| >= HANDLES - CARDS * STREAMS
  {
    RunIsPath(s, es);
    IssuedIsLive(s, es, i);
    PathReuse(Points(s, es), Issues(s, es), i, j);
  }
}
