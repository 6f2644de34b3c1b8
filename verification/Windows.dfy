/** The trigger schedule of the batch replayer and the window of the dataset that each trigger replays. */
module Windows {
  /** Timestamps are whole microseconds since the epoch. */
  const SECOND := 1_000_000

  /** `Math.ceil(frequency / 60)`, the step of the cron expression. */
  function Step(f: nat): nat {
    (f + 59) / 60
  }

  /** The cron expression `0/m` fires in a minute of the hour that is a multiple of m. */
  predicate Fires(m: nat, minute: int)
    requires m > 0
  {
    (minute % 60) % m == 0
  }

  /** `calculate_time_range`: the half-open range that the trigger of a minute selects. */
  function Start(minute: int, offset: int): int {
    (minute * 60 - offset) * SECOND
  }

  function End(minute: int, offset: int, f: nat): int {
    Start(minute, offset) + f * SECOND
  }

  predicate InWindow(minute: int, offset: int, f: nat, t: int) {
    Start(minute, offset) <= t < End(minute, offset, f)
  }

  /** No instant is in the windows of two triggers. */
  ghost predicate Disjoint(f: nat, offset: int)
    requires f > 0
  {
    forall p, q, t :: p < q && Fires(Step(f), p) && Fires(Step(f), q) ==>
      !(InWindow(p, offset, f, t) && InWindow(q, offset, f, t))
  }

  /** Some trigger selects t. */
  ghost predicate Covered(f: nat, offset: int, t: int)
    requires f > 0
  {
    exists p :: Fires(Step(f), p) && InWindow(p, offset, f, t)
  }

  /** Every instant is in the window of some trigger. */
  ghost predicate Gapless(f: nat, offset: int)
    requires f > 0
  {
    forall t :: Covered(f, offset, t)
  }

  lemma StepBounds(f: nat)
    requires f > 0
    ensures Step(f) >= 1 && 60 * (Step(f) - 1) < f <= 60 * Step(f)
  {
  }

  /** The last trigger minute at or before a minute. */
  function LastFiring(m: nat, minute: int): int
    requires m > 0
  {
    minute - (minute % 60) % m
  }

  lemma SmallMod(x: int, m: nat)
    requires m > 0
    ensures 0 <= x % m < m
    ensures 0 <= x < m ==> x % m == x
  {
  }

  lemma MultipleBelow(x: nat, m: nat)
    requires m > 0
    ensures 0 <= x - x % m && (x - x % m) % m == 0
  {
    var d := x / m;
    assert x == d * m + x % m;
    MultipleMod(d, m);
  }

  lemma MultipleMod(d: nat, m: nat)
    requires m > 0
    ensures (d * m) % m == 0
    decreases d
  {
    if d > 0 {
      MultipleMod(d - 1, m);
      assert d * m == (d - 1) * m + m;
      AddMod((d - 1) * m, m);
    }
  }

  lemma AddMod(x: nat, m: nat)
    requires m > 0
    ensures (x + m) % m == x % m
  {
    var q, r := x / m, x % m;
    assert x + m == (q + 1) * m + r;
    DivModUnique(x + m, m, q + 1, r);
  }

  lemma AtLeast(a: int, m: nat)
    requires a >= 1
    ensures a * m >= m
  {
  }

  lemma NotPositive(a: int, m: nat)
    requires a <= 0
    ensures a * m <= 0
  {
  }

  lemma DivModUnique(x: int, m: nat, q: int, r: int)
    requires m > 0 && x == q * m + r && 0 <= r < m
    ensures x / m == q && x % m == r
  {
    var q', r' := x / m, x % m;
    assert (q - q') * m == r' - r && (q' - q) * m == r - r';
    if q > q' {
      AtLeast(q - q', m);
    } else if q < q' {
      AtLeast(q' - q, m);
    }
  }

  lemma LastFiringFires(m: nat, minute: int)
    requires m > 0
    ensures Fires(m, LastFiring(m, minute))
    ensures LastFiring(m, minute) <= minute < LastFiring(m, minute) + m
  {
    var mh := minute % 60;
    var p := LastFiring(m, minute);
    MultipleBelow(mh, m);
    assert p % 60 == mh - mh % m by {
      DivModUnique(p, 60, minute / 60, mh - mh % m);
    }
  }

  /** Two multiples of m that differ, differ by at least m. */
  lemma MultiplesApart(x: nat, y: nat, m: nat)
    requires m > 0 && x % m == 0 && y % m == 0 && x < y
    ensures y - x >= m
  {
    var a, b := x / m, y / m;
    assert x == a * m && y == b * m;
    assert (b - a) * m == y - x;
    if b - a >= 1 {
      AtLeast(b - a, m);
    } else {
      NotPositive(b - a, m);
    }
  }

  /** When m divides 60 the firings are the multiples of m, so they are m apart. */
  lemma FiringsApart(m: nat, p: int, q: int)
    requires m > 0 && 60 % m == 0 && p < q && Fires(m, p) && Fires(m, q)
    ensures q - p >= m
  {
    var hp, hq := p / 60, q / 60;
    var a, b := p % 60, q % 60;
    if hp == hq {
      MultiplesApart(a, b, m);
    } else {
      assert hq >= hp + 1;
      MultiplesApart(a, 60, m);
      assert q - p >= 60 * (hq - hp) + b - a;
      assert q - p >= 60 - a;
    }
  }

  lemma ApartDisjoint(f: nat, offset: int, p: int, q: int, t: int)
    requires f > 0 && q - p >= Step(f)
    ensures !(InWindow(p, offset, f, t) && InWindow(q, offset, f, t))
  {
  }

  /** When m does not divide 60, the last firing of an hour is too close to the first of the next. */
  lemma HourEndOverlaps(f: nat, offset: int)
    requires f > 0 && 60 % Step(f) != 0
    ensures !Disjoint(f, offset)
  {
    var m := Step(f);
    StepBounds(f);
    var p := LastFiring(m, 59);
    LastFiringFires(m, 59);
    assert Fires(m, 60) by {
      assert 60 % 60 == 0 && 0 % m == 0;
    }
    assert 60 - p < m by {
      if 60 - p == m {
        MultipleBelow(59, m);
        assert p % m == 0;
        AddMod(p, m);
      }
    }
    var t := Start(60, offset);
    assert t - Start(p, offset) == 60 * (60 - p) * SECOND;
    assert 60 * (60 - p) <= 60 * (m - 1) < f;
    assert InWindow(p, offset, f, t) && InWindow(60, offset, f, t);
  }

  /** The windows of all triggers are pairwise disjoint iff the cron step divides the hour. */
  lemma DisjointIff(f: nat, offset: int)
    requires f > 0
    ensures Disjoint(f, offset) <==> 60 % Step(f) == 0
  {
    StepBounds(f);
    if 60 % Step(f) == 0 {
      forall p, q, t | p < q && Fires(Step(f), p) && Fires(Step(f), q)
        ensures !(InWindow(p, offset, f, t) && InWindow(q, offset, f, t))
      {
        FiringsApart(Step(f), p, q);
        ApartDisjoint(f, offset, p, q, t);
      }
    } else {
      HourEndOverlaps(f, offset);
    }
  }

  /** The minute of the undelayed dataset in which t falls. */
  function MinuteOf(t: int, offset: int): int {
    (t + offset * SECOND) / (60 * SECOND)
  }

  lemma MinuteOfBounds(t: int, offset: int)
    ensures Start(MinuteOf(t, offset), offset) <= t < Start(MinuteOf(t, offset) + 1, offset)
  {
  }

  /** The last trigger at or before a minute is near enough for its window to reach the end of the minute. */
  lemma LastFiringReaches(f: nat, minute: int)
    requires f > 0 && (f % 60 == 0 || f >= 3600)
    ensures var p := LastFiring(Step(f), minute);
            Fires(Step(f), p) && p <= minute && 60 * (minute + 1 - p) <= f
  {
    var m := Step(f);
    LastFiringFires(m, minute);
    SmallMod(minute % 60, m);
    if f % 60 == 0 {
      assert f == 60 * m;
    }
  }

  lemma WindowReaches(f: nat, offset: int, p: int, minute: int, t: int)
    requires p <= minute && 60 * (minute + 1 - p) <= f
    requires Start(minute, offset) <= t < Start(minute + 1, offset)
    ensures InWindow(p, offset, f, t)
  {
  }

  lemma Covers(f: nat, offset: int, t: int)
    requires f > 0 && (f % 60 == 0 || f >= 3600)
    ensures Covered(f, offset, t)
  {
    var n := MinuteOf(t, offset);
    MinuteOfBounds(t, offset);
    LastFiringReaches(f, n);
    WindowReaches(f, offset, LastFiring(Step(f), n), n, t);
  }

  /** A frequency that is not whole minutes leaves the end of minute m - 1 of each hour uncovered. */
  lemma Misses(f: nat, offset: int)
    requires f > 0 && f % 60 != 0 && f < 3600
    ensures !Gapless(f, offset)
  {
    var m := Step(f);
    StepBounds(f);
    var t := Start(m, offset) - 1;
    forall p | Fires(m, p) ensures !InWindow(p, offset, f, t) {
      if 0 < p < m {
        SmallMod(p, 60);
        SmallMod(p, m);
      } else if p == 0 {
        assert f + 1 <= 60 * m;
      } else if p < 0 {
        assert End(p, offset, f) <= t by {
          PreviousHour(f, p);
          assert Start(m, offset) - Start(p, offset) == 60 * (m - p) * SECOND;
        }
      } else {
        assert Start(p, offset) >= Start(m, offset);
      }
    }
    assert !Covered(f, offset, t);
  }

  lemma PreviousHour(f: nat, p: int)
    requires f > 0 && p < 0
    ensures 60 * (Step(f) - p) >= f + 1
  {
    StepBounds(f);
  }

  /** The windows leave no instant out iff the frequency is whole minutes or at least an hour. */
  lemma GaplessIff(f: nat, offset: int)
    requires f > 0
    ensures Gapless(f, offset) <==> (f % 60 == 0 || f >= 3600)
  {
    if f % 60 == 0 || f >= 3600 {
      forall t ensures Covered(f, offset, t) {
        Covers(f, offset, t);
      }
    } else {
      Misses(f, offset);
    }
  }

  /** Exactly one trigger. */
  ghost predicate ExactlyOne(f: nat, offset: int, t: int)
    requires f > 0
  {
    && Covered(f, offset, t)
    && (forall p, q :: Fires(Step(f), p) && InWindow(p, offset, f, t) && Fires(Step(f), q) && InWindow(q, offset, f, t) ==> p == q)
  }

  /** The triggers partition time, over their whole unbounded run, iff the frequency is a whole number of
      minutes that divides the hour. */
  lemma PartitionIff(f: nat, offset: int)
    requires f > 0
    ensures (forall t :: ExactlyOne(f, offset, t)) <==> (f % 60 == 0 && 60 % Step(f) == 0)
  {
    DisjointIff(f, offset);
    GaplessIff(f, offset);
    StepBounds(f);
    if forall t :: ExactlyOne(f, offset, t) {
      assert Gapless(f, offset) by {
        forall t ensures Covered(f, offset, t) {
          assert ExactlyOne(f, offset, t);
        }
      }
      assert Disjoint(f, offset) by {
        forall p, q, t | p < q && Fires(Step(f), p) && Fires(Step(f), q)
          ensures !(InWindow(p, offset, f, t) && InWindow(q, offset, f, t))
        {
          assert ExactlyOne(f, offset, t);
        }
      }
      if f % 60 != 0 {
        SmallMod(60, Step(f));
      }
    } else if f % 60 == 0 && 60 % Step(f) == 0 {
      assert Gapless(f, offset) && Disjoint(f, offset);
      forall t ensures ExactlyOne(f, offset, t) {
        assert Covered(f, offset, t);
      }
    }
  }

  /** `(df[col] + Timedelta(offset)).strftime(...)`: shifted and cut to whole seconds. */
  function Shifted(t: int, offset: int): int {
    (t + offset * SECOND) / SECOND * SECOND
  }

  /** The last whole second not after the time that is later by the offset. */
  lemma ShiftedIs(t: int, offset: int)
    ensures Shifted(t, offset) % 1_000_000 == 0
    ensures 0 <= t + offset * 1_000_000 - Shifted(t, offset) < 1_000_000
  {
  }

  /** A timestamp is selected by a trigger iff, shifted and cut, it lies within the frequency after it. */
  lemma ShiftedIntoPeriod(minute: int, offset: int, f: nat, t: int)
    ensures InWindow(minute, offset, f, t)
       <==> minute * 60 * SECOND <= Shifted(t, offset) < (minute * 60 + f) * SECOND
  {
  }
}
