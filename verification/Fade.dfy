/**
 Fading a stream's output level (cae/cae_jack.cpp, cae/cae_alsa.cpp): a timer that every
 100 ms moves the level, in hundredths of a decibel, one increment towards its target.
 */
module Fade {
  import opened Arithmetic

  const INTERVAL := 100
  const MUTE := -10000

  /** A sixteen-bit field takes the low sixteen bits. */
  function ToShort(x: int): (r: int)
    ensures -32768 <= r <= 32767
    ensures -32768 <= x <= 32767 ==> r == x
  {
    (x + 32768) % 65536 - 32768
  }

  /** What is cut off is a multiple of 2^16. */
  lemma {:induction false} ShortCuts(x: int) returns (k: int)
    ensures x == ToShort(x) + 65536 * k
  {
    k := (x + 32768) / 65536;
  }

  predicate IsShort(x: int) { -32768 <= x <= 32767 }

  /** A fade as the drivers hold it: every number in a sixteen-bit field. */
  datatype State = State(db: int, target: int, increment: int, up: bool, active: bool)

  predicate Shorts(s: State) { IsShort(s.db) && IsShort(s.target) && IsShort(s.increment) }

  /** The stored level: nothing below the mute depth, otherwise sixteen bits. */
  function Stored(level: int): int { if level > MUTE then ToShort(level) else MUTE }

  function Distance(a: int, b: int): nat { if a > b then a - b else b - a }

  /** The increment of a fade over `d` in `length` milliseconds, which may be negative. */
  function Increment(d: nat, length: int): int
    requires length != 0
  {
    d * INTERVAL / length
  }

  /** A fade to `level` in `length` milliseconds begins. */
  function Begin(s: State, level: int, length: int): State
    requires length != 0
  {
    State(s.db, ToShort(level), ToShort(Increment(Distance(level, s.db), length)), level > s.db, true)
  }

  /** The level that the next tick computes. */
  function Computed(s: State): int { if s.up then s.db + s.increment else s.db - s.increment }

  function Landed(s: State, level: int): State {
    var lands := if s.up then level >= s.target else level <= s.target;
    s.(db := Stored(if lands then s.target else level), active := s.active && !lands)
  }

  datatype Driver = Jack | Alsa

  /** One tick. The JACK driver computes the level in a full integer, the ALSA driver in a
      sixteen-bit variable. */
  function Tick(driver: Driver, s: State): State {
    Landed(s, if driver.Jack? then Computed(s) else ToShort(Computed(s)))
  }

  /** `n` ticks of the timer, which ticks only while it is active. */
  function Ticks(driver: Driver, s: State, n: nat): State
    decreases n
  {
    if n == 0 || !s.active then s else Ticks(driver, Tick(driver, s), n - 1)
  }

  /** The ticks that a fade takes. */
  function Duration(d: nat, increment: nat): nat
    requires increment > 0
  {
    if d == 0 then 1 else (d - 1) / increment + 1
  }

  lemma DurationBounds(d: nat, increment: nat, n: nat)
    requires increment > 0 && d > 0
    ensures Product(n, increment) < d <==> n < Duration(d, increment)
    ensures Product(Duration(d, increment), increment) < d + increment
  {
    var q := (d - 1) / increment;
    assert Product(q, increment) <= d - 1 < Product(q, increment) + increment;
    ProductNext(q + 1, increment);
    if n <= q {
      ProductGrows(n, q, increment);
    } else {
      ProductGrows(q + 1, n, increment);
    }
  }

  /** Between the ticks that a fade takes and the time asked for. */
  lemma TimeAtLeast(d: nat, inc: nat, n: nat, length: nat)
    requires inc > 0 && Product(length, inc) <= d * INTERVAL && d <= Product(n, inc)
    ensures length <= INTERVAL * n
  {
    TravelScales(n, inc);
    if length > INTERVAL * n {
      ProductNext(length, inc);
      ProductGrows(INTERVAL * n, length - 1, inc);
      assert false;
    }
  }

  lemma TravelScales(n: nat, inc: nat)
    ensures Product(INTERVAL * n, inc) == INTERVAL * Product(n, inc)
  {
    assert (INTERVAL * n) * inc == INTERVAL * (n * inc);
  }

  lemma TimeBelow(d: nat, inc: nat, n: nat, length: nat)
    requires inc > 0 && d * INTERVAL < Product(length, inc) + length && Product(n, inc) < d + inc
    ensures INTERVAL * n < 2 * length + INTERVAL
  {
    TravelScales(n, inc);
    ProductAtLeast(length, inc);
    assert Product(2 * length + INTERVAL, inc) == 2 * Product(length, inc) + INTERVAL * inc by {
      assert (2 * length + INTERVAL) * inc == 2 * (length * inc) + INTERVAL * inc;
    }
    if INTERVAL * n >= 2 * length + INTERVAL {
      ProductGrows(2 * length + INTERVAL, INTERVAL * n, inc);
      assert false;
    }
  }

  lemma PositiveQuotient(a: nat, b: nat)
    requires b > 0
    ensures Product(b, a / b) <= a < Product(b, a / b) + b
    ensures a / b > 0 <==> a >= b
  {
    assert a == b * (a / b) + a % b;
    if a >= b {
      QuotientPositive(a, b);
    } else {
      assert a / b == 0;
    }
  }

  lemma QuotientPositive(a: nat, b: nat)
    requires 0 < b <= a
    ensures a / b > 0
  {
    var q := a / b;
    assert a == b * q + a % b;
    assert q <= 0 ==> b * q <= 0;
  }

  /** The time that a fade takes, against the time asked for. */
  lemma DurationLength(d: nat, length: int)
    requires length > 0 && d * INTERVAL >= length
    ensures Increment(d, length) > 0
    ensures length <= INTERVAL * Duration(d, Increment(d, length)) < 2 * length + INTERVAL
  {
    var inc := Increment(d, length);
    PositiveQuotient(d * INTERVAL, length);
    var n := Duration(d, inc);
    DurationBounds(d, inc, n);
    TimeAtLeast(d, inc, n, length);
    TimeBelow(d, inc, n, length);
  }

  lemma DurationNext(d: nat, increment: nat)
    requires 0 < increment < d
    ensures Duration(d, increment) == Duration(d - increment, increment) + 1
  {
    var m := Duration(d - increment, increment);
    DurationBounds(d - increment, increment, m);
    DurationBounds(d, increment, m);
    DurationBounds(d, increment, m + 1);
    ProductNext(m + 1, increment);
  }

  lemma DurationOfOne(d: nat, increment: nat)
    requires 0 < increment && d <= increment
    ensures Duration(d, increment) == 1 && Product(1, increment) == increment
  {
    ProductNext(1, increment);
    if d > 0 {
      DurationBounds(d, increment, 1);
    }
  }


  /** A fade on its way to a target that it has not passed, from a level that is not below the
      mute depth. */
  predicate UnderWay(s: State) {
    && s.active && Shorts(s) && s.increment >= 0 && s.db >= MUTE
    && (if s.up then s.db < s.target else s.target <= s.db)
  }

  /** How far there is to go. */
  function ToGo(s: State): nat { Distance(s.target, s.db) }

  /** The level after `n` increments, held at the mute depth. */
  function After(s: State, n: nat): int
    requires s.increment >= 0
  {
    if s.up then s.db + Product(n, s.increment) else Max(MUTE, s.db - Product(n, s.increment))
  }

  /** A target below the mute depth is reached from there in one increment, or not at all. */
  predicate CanLand(s: State) { s.increment > 0 && (s.target >= MUTE || s.increment >= MUTE - s.target) }

  /** One tick lands, or moves the level and leaves one tick less to go. */
  lemma TickMoves(s: State)
    requires UnderWay(s) && CanLand(s)
    ensures var t := Tick(Jack, s);
            if s.increment >= ToGo(s) then t == s.(db := Stored(s.target), active := false)
            else
              && t == s.(db := if s.up then s.db + s.increment else Max(MUTE, s.db - s.increment))
              && UnderWay(t) && CanLand(t)
              && Duration(ToGo(s), s.increment) == Duration(ToGo(t), s.increment) + 1
  {
    var t := Tick(Jack, s);
    if s.increment < ToGo(s) {
      DurationNext(ToGo(s), s.increment);
      if !s.up && s.db - s.increment < MUTE {
        DurationOfOne(ToGo(s) - s.increment, s.increment);
        DurationOfOne(ToGo(t), s.increment);
      }
    }
  }

  lemma AfterNext(s: State, n: nat)
    requires s.increment > 0 && n > 0 && s.db >= MUTE
    ensures After(s, n) == After(s.(db := if s.up then s.db + s.increment else Max(MUTE, s.db - s.increment)), n - 1)
  {
    ProductNext(n, s.increment);
  }

  lemma {:induction false} TicksNext(driver: Driver, s: State, n: nat)
    requires s.active && n > 0
    ensures Ticks(driver, s, n) == Ticks(driver, Tick(driver, s), n - 1)
    ensures !Tick(driver, s).active ==> Ticks(driver, s, n) == Tick(driver, s)
  {
  }

  lemma {:induction false} TicksThenTick(driver: Driver, s: State, n: nat)
    ensures Ticks(driver, s, n).active ==> Ticks(driver, s, n + 1) == Tick(driver, Ticks(driver, s, n))
    decreases n
  {
    if n > 0 && s.active {
      TicksThenTick(driver, Tick(driver, s), n - 1);
    }
  }

  lemma {:induction false} TicksAdd(driver: Driver, s: State, m: nat, n: nat)
    ensures Ticks(driver, s, m + n) == Ticks(driver, Ticks(driver, s, m), n)
    decreases m
  {
    if m > 0 && s.active {
      TicksAdd(driver, Tick(driver, s), m - 1, n);
    }
  }

  /** Where a fade is after `n` ticks: `n` increments on, or landed on the target for good. */
  function Arrived(s: State, n: nat): State
    requires s.increment > 0
  {
    if n < Duration(ToGo(s), s.increment) then s.(db := After(s, n)) else s.(db := Stored(s.target), active := false)
  }

  lemma {:induction false} ArrivedFirst(s: State)
    requires UnderWay(s) && CanLand(s)
    ensures Arrived(s, 0) == s
  {
    assert Product(0, s.increment) == 0;
    assert Duration(ToGo(s), s.increment) > 0;
  }

  lemma {:induction false} ArrivedNext(s: State, n: nat)
    requires UnderWay(s) && CanLand(s) && n > 0
    ensures var t := Tick(Jack, s);
            if t.active then UnderWay(t) && CanLand(t) && Arrived(s, n) == Arrived(t, n - 1) else Arrived(s, n) == t
  {
    TickMoves(s);
    if s.increment >= ToGo(s) {
      DurationOfOne(ToGo(s), s.increment);
    } else {
      AfterNext(s, n);
    }
  }

  lemma {:induction false} TicksMove(s: State, n: nat)
    requires UnderWay(s) && CanLand(s)
    ensures Ticks(Jack, s, n) == Arrived(s, n)
    decreases n
  {
    if n == 0 {
      ArrivedFirst(s);
    } else {
      ArrivedNext(s, n);
      TicksNext(Jack, s, n);
      if Tick(Jack, s).active {
        TicksMove(Tick(Jack, s), n - 1);
      }
    }
  }

  /** Nor does the level ever turn back. */
  lemma {:induction false} FadeNeverTurns(s: State, m: nat, n: nat)
    requires UnderWay(s) && CanLand(s) && m <= n
    ensures if s.up then Ticks(Jack, s, m).db <= Ticks(Jack, s, n).db else Ticks(Jack, s, n).db <= Ticks(Jack, s, m).db
  {
    TicksMove(s, m);
    TicksMove(s, n);
    ProductGrows(m, n, s.increment);
    if m < Duration(ToGo(s), s.increment) {
      AfterShortOfTarget(s, m);
    }
  }

  lemma AfterShortOfTarget(s: State, n: nat)
    requires UnderWay(s) && CanLand(s) && n < Duration(ToGo(s), s.increment)
    ensures if s.up then s.db <= After(s, n) < s.target else s.target <= After(s, n) <= s.db
    ensures s.target < s.db ==> s.target < s.db - Product(n, s.increment)
  {
    if ToGo(s) > 0 {
      DurationBounds(ToGo(s), s.increment, n);
    } else {
      assert n == 0 && Product(0, s.increment) == 0;
    }
  }

  /** A fade that can land moves monotonically, never passes its target, lands on it, or on the
      mute depth when the target is below, stops its timer, and takes from the time asked for
      to just over twice that. */
  lemma {:induction false} FadeLands(s: State, level: int, length: int, n: nat)
    requires IsShort(s.db) && s.db >= MUTE && IsShort(level) && length > 0
    requires IsShort(Increment(Distance(level, s.db), length)) && CanLand(Begin(s, level, length))
    ensures var b := Begin(s, level, length);
            var last := Duration(Distance(level, s.db), b.increment);
            var t := Ticks(Jack, b, n);
            && length <= INTERVAL * last < 2 * length + INTERVAL
            && (if level > s.db then s.db <= t.db <= Stored(level) else Stored(level) <= t.db <= s.db)
            && (n < last ==> t.active && t.db == After(b, n))
            && (n >= last ==> !t.active && t.db == Stored(level))
  {
    var b := Begin(s, level, length);
    var d := Distance(level, s.db);
    TicksMove(b, n);
    IncrementPositive(d, length);
    DurationLength(d, length);
    if n < Duration(d, b.increment) {
      AfterShortOfTarget(b, n);
    }
  }

  /** The same in numbers, for a target that is not below -100 dB: a step every tick, and the
      target itself in the tick that would come to it or pass it. */
  lemma {:induction false} FadeInNumbers(s: State, level: int, length: int, n: nat)
    requires -10000 <= s.db <= 32767 && -10000 <= level <= 32767 && length > 0
    requires var d := if level > s.db then level - s.db else s.db - level; 0 < d * 100 / length <= 32767
    ensures var d := if level > s.db then level - s.db else s.db - level;
            var step := d * 100 / length;
            var t := Ticks(Jack, Begin(s, level, length), n);
            && (t.active <==> n * step < d)
            && t.db == if n * step >= d then level else if level > s.db then s.db + n * step else s.db - n * step
  {
    var d := Distance(level, s.db);
    var step := Increment(d, length);
    IncrementPositive(d, length);
    FadeLands(s, level, length, n);
    DurationBounds(d, step, n);
    NamedProduct(n, step);
  }

  lemma {:induction false} NamedProduct(n: nat, step: nat)
    ensures Product(n, step) == n * step
  {
  }

  lemma IncrementPositive(d: nat, length: int)
    requires length > 0
    ensures Increment(d, length) >= 0
    ensures Increment(d, length) > 0 <==> d * INTERVAL >= length
  {
    PositiveQuotient(d * INTERVAL, length);
  }

  /** The levels and the fade of one stream, whose timer serves one output port at a time. */
  class FadeTimer {
    var outputVolumeDb: array<int>
    var fadePort: nat
    var fadeVolumeDb: int
    var fadeIncrement: int
    var fadeUp: bool
    var active: bool

    ghost predicate Valid()
      reads this
    {
      fadePort < outputVolumeDb.Length
    }

    /** The fade as seen from one port. */
    ghost function At(port: nat): State
      reads this, outputVolumeDb
      requires port < outputVolumeDb.Length
    {
      State(outputVolumeDb[port], fadeVolumeDb, fadeIncrement, fadeUp, active)
    }

    constructor (ports: nat)
      requires ports > 0
      ensures Valid() && fresh(outputVolumeDb) && outputVolumeDb.Length == ports
      ensures !active && forall i :: 0 <= i < ports ==> outputVolumeDb[i] == 0
    {
      outputVolumeDb := new int[ports](_ => 0);
      fadePort, fadeVolumeDb, fadeIncrement, fadeUp, active := 0, 0, 0, false, false;
    }

    method SetOutputVolume(port: int, level: int) returns (ok: bool)
      requires Valid()
      modifies outputVolumeDb
      ensures ok <==> 0 <= port < outputVolumeDb.Length
      ensures outputVolumeDb[..] ==
              if ok then old(outputVolumeDb[..])[port := Stored(level)] else old(outputVolumeDb[..])
    {
      if port < 0 || port >= outputVolumeDb.Length {
        return false;
      }
      if level > -10000 {
        outputVolumeDb[port] := ToShort(level);
      } else {
        outputVolumeDb[port] := -10000;
      }
      ok := true;
    }

    /** A new fade replaces one under way, whose port keeps the level it has reached. */
    method FadeOutputVolume(port: int, level: int, length: int) returns (ok: bool)
      requires Valid() && length != 0
      modifies this
      ensures Valid() && outputVolumeDb == old(outputVolumeDb)
      ensures outputVolumeDb[..] == old(outputVolumeDb[..])
      ensures ok <==> 0 <= port < outputVolumeDb.Length
      ensures ok ==> fadePort == port && At(port) == Begin(old(At(port)), level, length)
      ensures !ok ==> fadePort == old(fadePort) && At(fadePort) == old(At(fadePort))
    {
      if port < 0 || port >= outputVolumeDb.Length {
        return false;
      }
      if active {
        active := false;
      }
      var diff;
      if level > outputVolumeDb[port] {
        fadeUp := true;
        diff := level - outputVolumeDb[port];
      } else {
        fadeUp := false;
        diff := outputVolumeDb[port] - level;
      }
      fadeVolumeDb := ToShort(level);
      fadePort := port;
      fadeIncrement := ToShort(Increment(diff, length));
      active := true;
      ok := true;
    }

    method JackFadeTimerData()
      requires Valid() && active
      modifies this`active, outputVolumeDb
      ensures Valid() && At(fadePort) == Tick(Jack, old(At(fadePort)))
      ensures outputVolumeDb[..] ==
              old(outputVolumeDb[..])[fadePort := Tick(Jack, old(At(fadePort))).db]
    {
      var level;
      if !fadeUp {
        level := outputVolumeDb[fadePort] - fadeIncrement;
        if level <= fadeVolumeDb {
          level := fadeVolumeDb;
          active := false;
        }
      } else {
        level := outputVolumeDb[fadePort] + fadeIncrement;
        if level >= fadeVolumeDb {
          level := fadeVolumeDb;
          active := false;
        }
      }
      var _ := SetOutputVolume(fadePort, level);
    }

    method AlsaFadeTimerData()
      requires Valid() && active
      modifies this`active, outputVolumeDb
      ensures Valid() && At(fadePort) == Tick(Alsa, old(At(fadePort)))
      ensures outputVolumeDb[..] ==
              old(outputVolumeDb[..])[fadePort := Tick(Alsa, old(At(fadePort))).db]
    {
      var level;
      if fadeUp {
        level := ToShort(outputVolumeDb[fadePort] + fadeIncrement);
        if level >= fadeVolumeDb {
          level := fadeVolumeDb;
          active := false;
        }
      } else {
        level := ToShort(outputVolumeDb[fadePort] - fadeIncrement);
        if level <= fadeVolumeDb {
          level := fadeVolumeDb;
          active := false;
        }
      }
      var _ := SetOutputVolume(fadePort, level);
    }
  }
}
