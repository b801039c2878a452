/**
 Which fades of the JACK driver end (cae/cae_jack.cpp), whatever sixteen-bit numbers they are
 begun with.
 */
module FadeEnds {
  import opened Arithmetic
  import opened Fade

  /** The timer stops, sooner or later. */
  ghost predicate Ends(driver: Driver, s: State) { exists n: nat :: !Ticks(driver, s, n).active }

  lemma {:induction false} EndsLater(driver: Driver, s: State)
    requires s.active && Ends(driver, Tick(driver, s))
    ensures Ends(driver, s)
  {
    var n: nat :| !Ticks(driver, Tick(driver, s), n).active;
    assert !Ticks(driver, s, n + 1).active;
  }

  lemma {:induction false} EndsNow(driver: Driver, s: State)
    requires !s.active
    ensures Ends(driver, s)
  {
    var n: nat := if s.up then 1 else 2;
    assert !Ticks(driver, s, n).active;
  }

  /** What a fade needs to end: going up, an increment, or a target no higher than it gets
      without one; going down, a target that the mute depth, or the level it begins at, is
      within an increment of. */
  predicate WillLand(s: State) {
    if s.up then s.increment > 0 || Max(s.db, MUTE) + s.increment >= s.target
    else if s.increment == 0 then s.db <= s.target
    else (if s.db < MUTE then s.db else MUTE) - s.increment <= s.target
  }

  lemma {:induction false} NeverEnds(s: State, n: nat)
    requires s.active && Shorts(s) && (s.up || s.increment >= 0) && !WillLand(s)
    ensures Ticks(Jack, s, n).active
    decreases n
  {
    if n > 0 {
      var t := Tick(Jack, s);
      assert t.active && Shorts(t) && !WillLand(t);
      NeverEnds(t, n - 1);
    }
  }

  lemma {:induction false} UpwardEnds(s: State)
    requires s.active && Shorts(s) && s.up && WillLand(s)
    ensures Ends(Jack, s)
    decreases if s.target > s.db then s.target - s.db else 0
  {
    var t := Tick(Jack, s);
    if !t.active {
      EndsNow(Jack, t);
    } else if s.increment > 0 {
      UpwardEnds(t);
    } else {
      EndsNow(Jack, Tick(Jack, t));
      EndsLater(Jack, t);
    }
    EndsLater(Jack, s);
  }

  lemma {:induction false} DownwardEnds(s: State)
    requires s.active && Shorts(s) && !s.up && s.increment >= 0 && WillLand(s)
    ensures Ends(Jack, s)
    decreases if s.db > MUTE then s.db - MUTE else 0
  {
    var t := Tick(Jack, s);
    if t.active {
      DownwardEnds(t);
    } else {
      EndsNow(Jack, t);
    }
    EndsLater(Jack, s);
  }

  // ---------------------------------------------------------------- truncated increments

  /** A downward fade whose increment was truncated to a negative number climbs instead, and
      wraps around at the top of sixteen bits. */
  predicate Climbs(s: State) { s.active && Shorts(s) && !s.up && s.increment < 0 }

  /** The level that the tick after the first `n` computes, if all of those climb. */
  function LevelAt(s: State, n: nat): int { ToShort(s.db + n * -s.increment) - s.increment }

  /** A level that low lands, or is held at the mute depth. */
  function Floor(s: State): int { Max(s.target, MUTE) }

  /** The tick after the first `n` is the first to compute such a level. */
  predicate FirstLow(s: State, n: nat) {
    LevelAt(s, n) <= Floor(s) && forall m: nat :: m < n ==> LevelAt(s, m) > Floor(s)
  }

  const ROUND := 65536

  /** The first low level lands. */
  predicate Falls(s: State) { exists n: nat :: n < ROUND && FirstLow(s, n) && LevelAt(s, n) <= s.target }

  /** The first low level falls short of the target, and is held at the mute depth. */
  predicate FallsShort(s: State) { exists n: nat :: n < ROUND && FirstLow(s, n) && LevelAt(s, n) > s.target }

  function Muted(s: State): State { s.(db := MUTE) }

  /** A climbing fade falls to its target when it first comes low, or when it next does from the
      mute depth. */
  predicate WillFall(s: State) { Falls(s) || (FallsShort(s) && Falls(Muted(s))) }

  lemma {:induction false} ShortSum(x: int, y: int)
    ensures ToShort(ToShort(x) + y) == ToShort(x + y)
  {
    ModShift(ToShort(x) + y + 32768, (x + 32768) / 65536, 65536);
  }

  lemma {:induction false} ClimbTick(s: State, n: nat)
    requires Climbs(s) && LevelAt(s, n) > Floor(s)
    ensures Tick(Jack, s.(db := ToShort(s.db + n * -s.increment))) == s.(db := ToShort(s.db + (n + 1) * -s.increment))
  {
    var y := n * -s.increment;
    assert (n + 1) * -s.increment == y - s.increment;
    ShortSum(s.db + y, -s.increment);
  }

  lemma {:induction false} ClimbTo(s: State, n: nat)
    requires Climbs(s) && forall m: nat :: m < n ==> LevelAt(s, m) > Floor(s)
    ensures Ticks(Jack, s, n) == s.(db := ToShort(s.db + n * -s.increment))
  {
    var k: nat := 0;
    while k < n
      invariant k <= n && Ticks(Jack, s, k) == s.(db := ToShort(s.db + k * -s.increment))
    {
      TicksThenTick(Jack, s, k);
      ClimbTick(s, k);
      k := k + 1;
    }
  }

  lemma {:induction false} FirstLowTick(s: State, n: nat)
    requires Climbs(s) && FirstLow(s, n)
    ensures Ticks(Jack, s, n + 1) == if LevelAt(s, n) <= s.target then s.(db := Stored(s.target),
            active := false) else Muted(s)
  {
    ClimbTo(s, n);
    TicksThenTick(Jack, s, n);
  }

  lemma {:induction false} FallsEnds(s: State)
    requires Climbs(s) && Falls(s)
    ensures Ends(Jack, s)
  {
    var n: nat :| n < ROUND && FirstLow(s, n) && LevelAt(s, n) <= s.target;
    FirstLowTick(s, n);
    assert !Ticks(Jack, s, n + 1).active;
  }

  /** The levels come round. */
  lemma {:induction false} LevelsRecur(s: State, n: nat)
    ensures LevelAt(s, n) == LevelAt(s, n % ROUND)
  {
    var q, m := n / ROUND, n % ROUND;
    var step := -s.increment;
    assert n * step == m * step + q * step * ROUND by {
      assert n == q * ROUND + m;
      assert (q * ROUND + m) * step == q * ROUND * step + m * step;
      assert q * ROUND * step == q * step * ROUND;
    }
    ModShift(s.db + m * step + 32768, q * step, ROUND);
  }

  lemma {:induction false} LeastLow(s: State, n: nat) returns (m: nat)
    requires LevelAt(s, n) <= Floor(s)
    ensures m <= n && FirstLow(s, m)
  {
    m := 0;
    while LevelAt(s, m) > Floor(s)
      invariant m <= n && forall j: nat :: j < m ==> LevelAt(s, j) > Floor(s)
      decreases n - m
    {
      m := m + 1;
    }
  }

  lemma {:induction false} NeverLow(s: State)
    requires Climbs(s) && !Falls(s) && !FallsShort(s)
    ensures !Ends(Jack, s)
  {
    forall n: nat
      ensures LevelAt(s, n) > Floor(s)
    {
      LevelsRecur(s, n);
      if LevelAt(s, n % ROUND) <= Floor(s) {
        var m := LeastLow(s, n % ROUND);
        assert false;
      }
    }
    forall n: nat
      ensures Ticks(Jack, s, n).active
    {
      ClimbTo(s, n);
    }
  }

  lemma {:induction false} EndsVia(driver: Driver, s: State, m: nat)
    requires Ticks(driver, s, m).active
    ensures Ends(driver, s) <==> Ends(driver, Ticks(driver, s, m))
  {
    var t := Ticks(driver, s, m);
    if Ends(driver, t) {
      var n: nat :| !Ticks(driver, t, n).active;
      TicksAdd(driver, s, m, n);
      assert !Ticks(driver, s, m + n).active;
    }
    if Ends(driver, s) {
      var n: nat :| !Ticks(driver, s, n).active;
      if n < m {
        TicksAdd(driver, s, n, m - n);
        assert false;
      }
      TicksAdd(driver, s, m, n - m);
      assert !Ticks(driver, t, n - m).active;
    }
  }

  /** A fade that comes back to where it was goes round for ever. */
  lemma {:induction false} CycleNeverEnds(s: State, period: nat, n: nat)
    requires period > 0 && s.active && Ticks(Jack, s, period) == s
    ensures Ticks(Jack, s, n).active
    decreases n
  {
    if n < period {
      TicksAdd(Jack, s, n, period - n);
    } else {
      TicksAdd(Jack, s, period, n - period);
      CycleNeverEnds(s, period, n - period);
    }
  }

  lemma {:induction false} FallsShortCycles(s: State)
    requires Climbs(s) && s.db == MUTE && FallsShort(s)
    ensures !Ends(Jack, s)
  {
    var n: nat :| n < ROUND && FirstLow(s, n) && LevelAt(s, n) > s.target;
    FirstLowTick(s, n);
    forall k: nat
      ensures Ticks(Jack, s, k).active
    {
      CycleNeverEnds(s, n + 1, k);
    }
  }

  lemma {:induction false} OnlyOneFirst(s: State)
    ensures !(Falls(s) && FallsShort(s))
  {
  }

  /** A climbing fade ends exactly when it falls to its target, at once or from the mute depth. */
  lemma {:induction false} ClimbEndsExactly(s: State)
    requires Climbs(s)
    ensures Ends(Jack, s) <==> WillFall(s)
  {
    if Falls(s) {
      FallsEnds(s);
    } else if FallsShort(s) {
      var n: nat :| n < ROUND && FirstLow(s, n) && LevelAt(s, n) > s.target;
      FirstLowTick(s, n);
      EndsVia(Jack, s, n + 1);
      if Falls(Muted(s)) {
        FallsEnds(Muted(s));
      } else if FallsShort(Muted(s)) {
        FallsShortCycles(Muted(s));
      } else {
        NeverLow(Muted(s));
      }
    } else {
      NeverLow(s);
    }
  }

  // ---------------------------------------------------------------- all fades

  predicate WillEnd(s: State) { if !s.up && s.increment < 0 then WillFall(s) else WillLand(s) }

  /** A fade of whatever sixteen-bit numbers ends, sooner or later, exactly when it has what it
      needs. */
  lemma {:induction false} EndsExactly(s: State)
    requires s.active && Shorts(s)
    ensures Ends(Jack, s) <==> WillEnd(s)
  {
    if !s.up && s.increment < 0 {
      ClimbEndsExactly(s);
    } else if !WillLand(s) {
      forall n: nat
        ensures Ticks(Jack, s, n).active
      {
        NeverEnds(s, n);
      }
    } else if s.up {
      UpwardEnds(s);
    } else {
      DownwardEnds(s);
    }
  }

  /** Of any fade asked for, with its numbers truncated as they are kept; of one whose numbers
      fit: it ends exactly when there is nothing to do, or the increment is not rounded to nothing
      and takes the mute depth to a target below it. */
  lemma {:induction false} FadeEndsExactly(s: State, level: int, length: int)
    requires IsShort(s.db) && length != 0
    ensures Ends(Jack, Begin(s, level, length)) <==> WillEnd(Begin(s, level, length))
    ensures var inc := Increment(Distance(level, s.db), length);
            s.db >= MUTE && IsShort(level) && length > 0 && IsShort(inc) ==>
              (WillEnd(Begin(s, level, length)) <==>
               level == s.db || (inc > 0 && (level >= MUTE || inc >= MUTE - level)))
  {
    EndsExactly(Begin(s, level, length));
    if length > 0 {
      IncrementPositive(Distance(level, s.db), length);
    }
  }

  /** A fade from 0 dB to -200 dB in one second is held at the mute depth for ever. */
  lemma {:induction false} FadeBelowMuteHangs(s: State)
    requires s.db == 0
    ensures !Ends(Jack, Begin(s, -20000, 1000))
  {
    FadeEndsExactly(s, -20000, 1000);
  }

  // ---------------------------------------------------------------- closed forms

  /** The lowest level that it comes by. */
  function Lowest(s: State): int
    requires s.increment < 0
  {
    -32768 + (s.db + 32768) % Gcd(-s.increment, 65536)
  }

  lemma LowestBelow(x: nat, g: nat)
    requires g > 0
    ensures x % g <= x
  {
    assert x == x / g * g + x % g;
    ProductMonotone(0, x / g, g);
  }

  lemma {:induction false} LowestBounds(s: State, n: nat)
    requires Climbs(s)
    ensures Lowest(s) <= ToShort(s.db + n * -s.increment)
  {
    var g := Gcd(-s.increment, 65536);
    GcdAtMost(-s.increment, 65536);
    RemainderKept(s.db + 32768, -s.increment, 65536, n);
    LowestBelow((s.db + 32768 + n * -s.increment) % 65536, g);
  }

  lemma {:induction false} LowestComes(s: State) returns (n: nat)
    requires Climbs(s)
    ensures n > 0 && ToShort(s.db + n * -s.increment) == Lowest(s)
  {
    var g := Gcd(-s.increment, 65536);
    var c := (s.db + 32768) % g;
    GcdAtMost(-s.increment, 65536);
    QuotientIs(c, g, 0, c);
    n := RemainderReached(s.db + 32768, -s.increment, 65536, c);
  }

  lemma {:induction false} LowFalls(s: State, n: nat)
    requires s.target >= MUTE && LevelAt(s, n) <= Floor(s)
    ensures Falls(s)
  {
    LevelsRecur(s, n);
    var m := LeastLow(s, n % ROUND);
    assert m < ROUND && FirstLow(s, m) && LevelAt(s, m) <= s.target;
  }

  /** To a target not below the mute depth a climbing fade ends exactly when the lowest level that
      it comes by is within one increment of it. */
  lemma {:induction false} ClimbEndsAboveMute(s: State)
    requires Climbs(s) && s.target >= MUTE
    ensures Ends(Jack, s) <==> Lowest(s) - s.increment <= s.target
  {
    ClimbEndsExactly(s);
    var n := LowestComes(s);
    if LevelAt(s, n) <= Floor(s) {
      LowFalls(s, n);
    }
    if Falls(s) {
      var m: nat :| m < ROUND && FirstLow(s, m) && LevelAt(s, m) <= s.target;
      LowestBounds(s, m);
    }
  }

  /** In short steps, the first low level: at once, or after the first wrap. */
  function LowLevel(x: int, step: int): int
    requires step > 0
  {
    if x + step <= MUTE then x + step else x + ((32767 - x) / step + 2) * step - 65536
  }

  lemma {:induction false} ShortStepLow(s: State) returns (n: nat)
    requires Climbs(s) && s.target < MUTE && -s.increment <= 11384
    ensures n < ROUND && FirstLow(s, n) && LevelAt(s, n) == LowLevel(s.db, -s.increment)
  {
    var step := -s.increment;
    if s.db + step <= MUTE {
      n := 0;
    } else {
      var q := (32767 - s.db) / step;
      n := q + 1;
      ShortStepWraps(s, q);
      forall m: nat | m < n
        ensures LevelAt(s, m) > Floor(s)
      {
        ProductMonotone(0, m, step);
        ProductMonotone(m, q, step);
      }
    }
  }

  lemma {:induction false} ShortStepWraps(s: State, q: nat)
    requires Climbs(s) && -s.increment <= 11384 && s.db - s.increment > MUTE
    requires q == (32767 - s.db) / -s.increment
    ensures var step := -s.increment;
            && q < ROUND - 1 && s.db + q * step <= 32767
            && LevelAt(s, q + 1) == s.db + (q + 2) * step - 65536 <= MUTE
  {
    var step := -s.increment;
    QuotientBounds(32767 - s.db, step);
    assert (q + 1) * step == q * step + step && (q + 2) * step == q * step + 2 * step;
    var x := s.db + (q + 1) * step;
    assert 32767 < x <= 32767 + step;
    assert ToShort(x) == x - 65536;
    if q >= ROUND - 1 {
      ProductMonotone(1, step, q);
      assert false;
    }
  }

  /** In short steps to a target below the mute depth: it ends exactly when the first low level,
      or the first one from the mute depth, is at the target or beyond. */
  lemma {:induction false} ShortStepsEndExactly(s: State)
    requires Climbs(s) && s.target < MUTE && -s.increment <= 11384
    ensures Ends(Jack, s) <==>
            LowLevel(s.db, -s.increment) <= s.target || LowLevel(MUTE, -s.increment) <= s.target
  {
    ClimbEndsExactly(s);
    OnlyOneFirst(s);
    OnlyOneFirst(Muted(s));
    var n := ShortStepLow(s);
    var m := ShortStepLow(Muted(s));
  }

  /** In long steps no level is low, and it never ends. */
  lemma {:induction false} LongStepsNeverEnd(s: State)
    requires Climbs(s) && s.target < MUTE && -s.increment > 22768
    ensures !Ends(Jack, s)
  {
    ClimbEndsExactly(s);
    assert forall t: State, n: nat {:trigger LevelAt(t, n)} :: t.increment == s.increment ==> LevelAt(t, n) > MUTE;
  }

  /** The fade to silence in 30 milliseconds goes up, and never ends. */
  lemma {:induction false} ShortFadeHangs(s: State)
    requires s.db == 0
    ensures Begin(s, MUTE, 30).increment < 0 && !Ends(Jack, Begin(s, MUTE, 30))
  {
    var b := Begin(s, MUTE, 30);
    assert b == State(0, MUTE, -32203, false, true);
    GcdAtMost(-b.increment, 65536);
    assert (b.db + 32768) % Gcd(-b.increment, 65536) >= 0;
    ClimbEndsAboveMute(b);
  }
}
