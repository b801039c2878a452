/**
 The fades of the ALSA driver (cae/cae_alsa.cpp), which computes levels in sixteen bits, beside
 those of the JACK driver, which does not.
 */
module FadeDrivers {
  import opened Arithmetic
  import opened Fade
  import opened FadeEnds

  /** The level that the last tick of a fade with an increment computes, before it is held at
      the target, or the first one at or below the mute depth. */
  function LastComputed(s: State): int
    requires s.increment > 0
  {
    var goal := if s.up then s.target else Max(s.target, MUTE);
    var travel := Product(Duration(Distance(goal, s.db), s.increment), s.increment);
    if s.up then s.db + travel else s.db - travel
  }

  /** Every level computed fits in sixteen bits: the last one, and where the fade is held at the
      mute depth the ones from there. */
  predicate AllFit(s: State)
    requires s.increment >= 0
  {
    s.increment == 0 ||
    (IsShort(LastComputed(s)) && (s.up || LastComputed(s) <= s.target || IsShort(MUTE - s.increment)))
  }

  /** A tick of one driver is that of the other exactly when the level computed fits. */
  lemma {:induction false} SameTickExactly(s: State)
    requires UnderWay(s)
    ensures Tick(Alsa, s) == Tick(Jack, s) <==> IsShort(Computed(s))
  {
    if Computed(s) > 32767 {
      assert ToShort(Computed(s)) == Computed(s) - 65536;
    } else if Computed(s) < -32768 {
      assert ToShort(Computed(s)) == Computed(s) + 65536;
    }
  }

  lemma {:induction false} LastComputedStays(s: State)
    requires UnderWay(s) && s.increment > 0
    ensures var goal := if s.up then s.target else Max(s.target, MUTE);
            if s.increment < Distance(goal, s.db) then
              Tick(Jack, s) == s.(db := Computed(s)) && LastComputed(Tick(Jack, s)) == LastComputed(s)
              && (if s.up then Computed(s) <= LastComputed(s) else LastComputed(s) <= Computed(s))
            else LastComputed(s) == Computed(s)
  {
    var goal := if s.up then s.target else Max(s.target, MUTE);
    var d := Distance(goal, s.db);
    ProductNext(Duration(d, s.increment), s.increment);
    if s.increment < d {
      DurationNext(d, s.increment);
    } else {
      DurationOfOne(d, s.increment);
    }
  }

  lemma {:induction false} FitsOnward(s: State)
    requires UnderWay(s) && AllFit(s)
    ensures IsShort(Computed(s))
    ensures Tick(Jack, s).active ==> UnderWay(Tick(Jack, s)) && AllFit(Tick(Jack, s))
  {
    if s.increment > 0 {
      var t := Tick(Jack, s);
      LastComputedStays(s);
      if t.active && t.db == MUTE && !s.up {
        LastComputedStays(t);
      }
    }
  }

  lemma {:induction false} AlsaFollows(s: State, n: nat)
    requires UnderWay(s) && AllFit(s)
    ensures Ticks(Alsa, s, n) == Ticks(Jack, s, n)
    decreases n
  {
    if n > 0 {
      FitsOnward(s);
      SameTickExactly(s);
      if Tick(Jack, s).active {
        AlsaFollows(Tick(Jack, s), n - 1);
      }
    }
  }

  lemma {:induction false} StraysOnward(s: State)
    requires UnderWay(s) && !AllFit(s) && IsShort(Computed(s))
    ensures var t := Tick(Jack, s);
            && UnderWay(t) && !AllFit(t) && t.up == s.up && t.target == s.target
            && (if s.up then t.db > s.db else t.db < s.db)
  {
    var t := Tick(Jack, s);
    LastComputedStays(s);
    if !s.up && t.db == MUTE {
      LastComputedStays(t);
    }
  }

  lemma {:induction false} AlsaStrays(s: State) returns (n: nat)
    requires UnderWay(s) && !AllFit(s)
    ensures Ticks(Alsa, s, n) != Ticks(Jack, s, n)
    decreases if s.up then s.target - s.db else s.db - MUTE
  {
    SameTickExactly(s);
    n := 1;
    if IsShort(Computed(s)) {
      StraysOnward(s);
      var m := AlsaStrays(Tick(Jack, s));
      n := m + 1;
    }
    TicksNext(Alsa, s, n);
    TicksNext(Jack, s, n);
  }

  /** The two drivers' fades are the same, tick by tick. */
  ghost predicate Alike(s: State) { forall n: nat :: Ticks(Alsa, s, n) == Ticks(Jack, s, n) }

  /** A fade under way is alike exactly when every level computed fits in sixteen bits; beyond, the
      ALSA level wraps around to the other end of its range. */
  lemma {:induction false} UnderWayAlikeExactly(s: State)
    requires UnderWay(s)
    ensures Alike(s) <==> AllFit(s)
  {
    if AllFit(s) {
      forall n: nat
        ensures Ticks(Alsa, s, n) == Ticks(Jack, s, n)
      {
        AlsaFollows(s, n);
      }
    } else {
      var n := AlsaStrays(s);
    }
  }

  lemma {:induction false} AlikeNext(s: State)
    requires s.active
    ensures Alike(s) <==> Tick(Alsa, s) == Tick(Jack, s) && Alike(Tick(Jack, s))
  {
    if Alike(s) {
      TicksNext(Alsa, s, 1);
      TicksNext(Jack, s, 1);
      assert Ticks(Alsa, s, 1) == Ticks(Jack, s, 1);
      forall n: nat
        ensures Ticks(Alsa, Tick(Jack, s), n) == Ticks(Jack, Tick(Jack, s), n)
      {
        TicksNext(Alsa, s, n + 1);
        TicksNext(Jack, s, n + 1);
        assert Ticks(Alsa, s, n + 1) == Ticks(Jack, s, n + 1);
      }
    }
    if Tick(Alsa, s) == Tick(Jack, s) && Alike(Tick(Jack, s)) {
      forall n: nat
        ensures Ticks(Alsa, s, n) == Ticks(Jack, s, n)
      {
        if n > 0 {
          TicksNext(Alsa, s, n);
          TicksNext(Jack, s, n);
          assert Ticks(Alsa, Tick(Jack, s), n - 1) == Ticks(Jack, Tick(Jack, s), n - 1);
        }
      }
    }
  }

  // ---------------------------------------------------------------- fades that go the wrong way

  /** An upward fade with a negative increment sinks to the mute depth. */
  predicate Sinks(s: State) { s.active && Shorts(s) && s.up && s.increment < 0 && Computed(s) < s.target }

  lemma {:induction false} SinksAlike(s: State, n: nat)
    requires Sinks(s) && IsShort(Min(s.db, MUTE) + s.increment)
    ensures Ticks(Alsa, s, n) == Ticks(Jack, s, n)
    decreases n
  {
    if n > 0 {
      var t := Tick(Jack, s);
      assert Tick(Alsa, s) == t;
      TicksNext(Alsa, s, n);
      TicksNext(Jack, s, n);
      if Sinks(t) {
        SinksAlike(t, n - 1);
      } else {
        LandsShort(t, n - 1);
      }
    }
  }

  /** A fade about to land on a level that fits does so in either driver. */
  lemma {:induction false} LandsShort(s: State, n: nat)
    requires s.active && Shorts(s) && IsShort(Computed(s)) && !Tick(Jack, s).active
    ensures Ticks(Alsa, s, n) == Ticks(Jack, s, n)
  {
    if n > 0 {
      TicksNext(Alsa, s, n);
      TicksNext(Jack, s, n);
    }
  }

  lemma {:induction false} SinksStrays(s: State)
    requires Sinks(s) && !IsShort(Min(s.db, MUTE) + s.increment)
    ensures !Alike(s)
    decreases s.db + 32768
  {
    AlikeNext(s);
    if IsShort(Computed(s)) {
      SinksStrays(Tick(Jack, s));
    } else {
      assert ToShort(Computed(s)) == Computed(s) + 65536;
    }
  }

  /** A climbing fade is alike when it never wraps around to below the mute depth, or to the
      target. */
  predicate WrapsAlike(s: State)
    requires s.increment < 0
  {
    Lowest(s) >= MUTE && Lowest(s) > s.target
  }

  lemma {:induction false} ClimbsAlike(s: State, n: nat)
    requires Climbs(s) && WrapsAlike(s)
    ensures Ticks(Alsa, s, n) == Ticks(Jack, s, n)
    decreases n
  {
    if n > 0 {
      var t := Tick(Jack, s);
      assert s.db + 0 * -s.increment == s.db && s.db + 1 * -s.increment == s.db - s.increment;
      LowestBounds(s, 0);
      LowestBounds(s, 1);
      GcdAtMost(-s.increment, 65536);
      RemainderKept(s.db + 32768, -s.increment, 65536, 1);
      assert t == s.(db := ToShort(Computed(s))) == Tick(Alsa, s);
      TicksNext(Alsa, s, n);
      TicksNext(Jack, s, n);
      ClimbsAlike(t, n - 1);
    }
  }

  /** A climbing fade that is alike stays above the target, and at the mute depth or above. */
  lemma {:induction false} AlikeStaysHigh(s: State, n: nat)
    requires Climbs(s) && Computed(s) > Floor(s) && Alike(s) && n > 0
    ensures ToShort(s.db + n * -s.increment) >= MUTE && ToShort(s.db + n * -s.increment) > s.target
    decreases n
  {
    var t := Tick(Jack, s);
    AlikeNext(s);
    if Computed(s) > 32767 {
      assert ToShort(Computed(s)) == Computed(s) - 65536;
    }
    assert t == s.(db := ToShort(Computed(s)));
    if n > 1 {
      AlikeStaysHigh(t, n - 1);
      var y := (n - 1) * -s.increment;
      assert n * -s.increment == y - s.increment;
      ShortSum(Computed(s), y);
    } else {
      assert n * -s.increment == -s.increment;
    }
  }

  lemma {:induction false} ClimbsAlikeExactly(s: State)
    requires Climbs(s) && Computed(s) > Floor(s)
    ensures Alike(s) <==> WrapsAlike(s)
  {
    if WrapsAlike(s) {
      forall n: nat
        ensures Ticks(Alsa, s, n) == Ticks(Jack, s, n)
      {
        ClimbsAlike(s, n);
      }
    } else if Alike(s) {
      var n := LowestComes(s);
      AlikeStaysHigh(s, n);
    }
  }

  // ---------------------------------------------------------------- all fades

  /** Does the first tick land? */
  predicate LandsNow(s: State) { if s.up then Computed(s) >= s.target else Computed(s) <= s.target }

  /** What it takes for the drivers to fade alike: that the levels computed fit, or what is left of
      them in sixteen bits does as well. */
  predicate WillBeAlike(s: State) {
    var level := ToShort(Computed(s));
    if LandsNow(s) then IsShort(Computed(s)) || (if s.up then level >= s.target else level <= s.target)
    else if s.increment >= 0 then
      if s.db >= MUTE then AllFit(s)
      else var t := Tick(Jack, s); IsShort(Computed(s)) && ((t.up && t.db >= t.target) || AllFit(t))
    else if s.up then IsShort(Min(s.db, MUTE) + s.increment)
    else WrapsAlike(if Computed(s) <= MUTE then Muted(s) else s)
  }

  /** Fades of whatever sixteen-bit numbers are alike in the two drivers, tick by tick, exactly
      then. */
  lemma {:induction false} DriversFadeAlikeExactly(s: State)
    requires s.active && Shorts(s)
    ensures Alike(s) <==> WillBeAlike(s)
  {
    if LandsNow(s) {
      LandingAlikeExactly(s);
    } else if s.increment >= 0 {
      if s.db >= MUTE {
        UnderWayAlikeExactly(s);
      } else {
        RaisedAlikeExactly(s);
      }
    } else if s.up {
      SinksAlikeExactly(s);
    } else if Computed(s) <= MUTE {
      AlikeNext(s);
      ClimbsAlikeExactly(Muted(s));
    } else {
      ClimbsAlikeExactly(s);
    }
  }

  lemma {:induction false} StoppedAlike(s: State)
    requires !s.active
    ensures Alike(s)
  {
  }

  lemma {:induction false} LandingAlikeExactly(s: State)
    requires s.active && Shorts(s) && LandsNow(s)
    ensures Alike(s) <==> WillBeAlike(s)
  {
    AlikeNext(s);
    StoppedAlike(Tick(Jack, s));
  }

  lemma {:induction false} SinksAlikeExactly(s: State)
    requires Sinks(s)
    ensures Alike(s) <==> IsShort(Min(s.db, MUTE) + s.increment)
  {
    if IsShort(Min(s.db, MUTE) + s.increment) {
      forall n: nat
        ensures Ticks(Alsa, s, n) == Ticks(Jack, s, n)
      {
        SinksAlike(s, n);
      }
    } else {
      SinksStrays(s);
    }
  }

  /** From below the mute depth the first tick goes up to it. */
  lemma {:induction false} RaisedAlikeExactly(s: State)
    requires s.active && Shorts(s) && s.increment >= 0 && s.db < MUTE && !LandsNow(s)
    ensures Alike(s) <==> WillBeAlike(s)
  {
    var t := Tick(Jack, s);
    AlikeNext(s);
    if t.up && t.db >= t.target {
      AlikeNext(t);
      StoppedAlike(Tick(Jack, t));
    } else {
      UnderWayAlikeExactly(t);
    }
  }
}
