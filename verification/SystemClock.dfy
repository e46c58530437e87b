/** The tick-based wall clock of iotc_time.c: a 32-bit offset added to the scheduler's
    32-bit tick counter, set by every accepted SNTP reply. */
module SystemClock {
  import opened Words
  import opened NtpTime

  /** `unix_time_base` after `set_time(unix)` at tick `ticks`. */
  function BaseFor(unix: u32, ticks: u32, rate: nat): u32
    requires rate > 0
  {
    U32(unix - ticks / rate)
  }

  /** What `unix_time_get` shows at tick `ticks`. */
  function Shown(base: u32, ticks: u32, rate: nat): u32
    requires rate > 0
  {
    U32(base + ticks / rate)
  }

  class Clock {
    const rate: nat                 // configTICK_RATE_HZ
    var ticks: u32                  // the scheduler's counter
    var unixTimeBase: u32
    var callbackReceived: bool

    ghost predicate Valid() { rate > 0 }

    constructor (rate: nat)
      requires rate > 0
      ensures Valid() && this.rate == rate
      ensures ticks == 0 && unixTimeBase == 0 && !callbackReceived
    {
      this.rate := rate;
      ticks, unixTimeBase, callbackReceived := 0, 0, false;
    }

    /** The environment: `d` more ticks have passed. */
    method Advance(d: nat)
      modifies this`ticks
      ensures ticks == U32(old(ticks) + d)
    {
      ticks := U32(ticks + d);
    }

    method SetTime(unixSeconds: u32)
      requires Valid()
      modifies this`unixTimeBase
      ensures unixTimeBase == BaseFor(unixSeconds, ticks, rate)
      ensures Shown(unixTimeBase, ticks, rate) == unixSeconds
    {
      var systemTimeInSeconds := ticks / rate;
      unixTimeBase := U32(unixSeconds - systemTimeInSeconds);
      SetThenRead(unixSeconds, ticks, ticks, rate);
    }

    method UnixTimeGet() returns (unixTime: u32)
      requires Valid()
      ensures unixTime == Shown(unixTimeBase, ticks, rate)
    {
      unixTime := U32(unixTimeBase + ticks / rate);
    }

    method Time() returns (now: u32)
      requires Valid()
      ensures now == Shown(unixTimeBase, ticks, rate)
    {
      now := UnixTimeGet();
    }

    /** `iotc_set_system_time_us`: the microseconds are dropped. */
    method SetSystemTimeUs(sec: u32, us: u32)
      requires Valid()
      modifies this`unixTimeBase, this`callbackReceived
      ensures unixTimeBase == BaseFor(sec, ticks, rate) && callbackReceived
      ensures Shown(unixTimeBase, ticks, rate) == sec
    {
      SetTime(sec);
      callbackReceived := true;
    }
  }

  lemma ProductPositive(a: int, b: int)
    requires a > 0 && b > 0
    ensures a * b > 0
  {
  }

  /** Whole seconds of a tick count, counted separately at both ends, miss the elapsed
      ticks by less than one second's worth. */
  lemma WholeSeconds(t0: nat, t: nat, rate: nat)
    requires rate > 0
    ensures 0 - rate < (t / rate - t0 / rate) * rate - (t - t0) < rate
  {
    assert (t / rate - t0 / rate) * rate == (t / rate) * rate - (t0 / rate) * rate;
  }

  /** Over `d` ticks from counter value `t0`, the counter loses 2^32 ticks each time it wraps; what is
      left is counted to within a second. Below a rate of 2^30 the count is good exactly until the first wrap. */
  lemma CountedSeconds(t0: u32, d: nat, rate: nat)
    requires rate > 0
    ensures var counted := (U32(t0 + d) / rate - t0 / rate) * rate;
            && 0 - rate < counted - (d - 0x1_0000_0000 * ((t0 + d) / 0x1_0000_0000)) < rate
            && (rate <= TWO_30 ==> (0 - rate < counted - d < rate <==> t0 + d < TWO_32))
  {
    WholeSeconds(t0, U32(t0 + d), rate);
  }

  /** After the clock is set at tick `t0`, it shows the set time plus the whole seconds counted
      at both ends, whatever the counter has gone through in between. */
  lemma SetThenRead(unix: u32, t0: u32, t: u32, rate: nat)
    requires rate > 0
    ensures Shown(BaseFor(unix, t0, rate), t, rate) == U32(unix + t / rate - t0 / rate)
    ensures Shown(BaseFor(unix, t0, rate), t0, rate) == unix
  {
    var x := unix - t0 / rate;
    assert BaseFor(unix, t0, rate) == x - 0x1_0000_0000 * (x / 0x1_0000_0000);
    var y := x + t / rate;
    U32Of(BaseFor(unix, t0, rate) + t / rate, y / 0x1_0000_0000 - x / 0x1_0000_0000, U32(y));
    U32Of(BaseFor(unix, t0, rate) + t0 / rate, -(x / 0x1_0000_0000), unix);
  }

  /** A server whose clock shows Unix time `unix`, plus `frac` units of 2^-32 s, writes
      its transmit stamp this way, in any NTP era. */
  function ServerStamp(unix: nat, frac: u32): RawStamp { RawStamp(U32(unix + NTP_TO_UNIX), frac) }

  /** From the server's date to the wall clock. Without compensation the clock is set to the
      server's date modulo 2^32, exactly for every date before February 2106. */
  lemma PacketToClock(unix: nat, frac: u32, ts: Timestamps, check: nat, local: UnixStamp)
    requires ts.xmit == ServerStamp(unix, frac)
    ensures Process(false, check, ts, local) == UnixStamp(unix % 0x1_0000_0000, FracToUs(frac))
    ensures Process(false, check, ts, local).sec == unix <==> unix < TWO_32
  {
    EraChange(unix);
    var x := unix + NTP_TO_UNIX;
    S32Of(U32(x), -(x / 0x1_0000_0000) + (x - S32(x)) / 0x1_0000_0000, S32(x));
  }

  /** `d` ticks after the server's date was `unix` + `frac`, the shown time leads the date by less than a second
      and trails it by less than two. All times are in units of 2^-32 s / rate. */
  predicate KeepsTime(shown: u32, unix: nat, frac: u32, d: nat, rate: nat) {
    -2 * (rate * 0x1_0000_0000)
    < shown * (rate * 0x1_0000_0000) - (unix * (rate * 0x1_0000_0000) + frac * rate + d * 0x1_0000_0000)
    < rate * 0x1_0000_0000
  }

  /** End to end: a reply stamped `unix` + `frac` is accepted at counter value `t0`, and `time()` is called `d`
      true ticks later. It shows `unix` plus the seconds `n` counted at both ends, modulo 2^32. It keeps time
      exactly if the ticks lost in wraps of the counter make up for the seconds lost in wraps of the shown time.
      While the date itself does not wrap, that means until the counter wraps for the first time. (Above 2^30 ticks
      a second one wrap is too short to show in these bounds.) */
  lemma WallClock(unix: nat, frac: u32, ts: Timestamps, check: nat, local: UnixStamp, t0: u32, d: nat, rate: nat)
    requires rate > 0 && ts.xmit == ServerStamp(unix, frac)
    ensures var t := U32(t0 + d); var n := t / rate - t0 / rate;
            var shown := Shown(BaseFor(Process(false, check, ts, local).sec, t0, rate), t, rate);
            && shown == U32(unix + n)
            && (0 <= unix + n < TWO_32 ==> shown == unix + n)
            && (0 <= unix + n < TWO_32 && t0 + d < TWO_32 ==> KeepsTime(shown, unix, frac, d, rate))
            && (rate <= TWO_30 ==>
                  (KeepsTime(shown, unix, frac, d, rate)
                   <==> (t0 + d) / 0x1_0000_0000 + rate * ((unix + n) / 0x1_0000_0000) == 0))
            && (rate <= TWO_30 && 0 <= unix + n < TWO_32 ==>
                  (KeepsTime(shown, unix, frac, d, rate) <==> t0 + d < TWO_32))
  {
    hide Process;
    var t := U32(t0 + d);
    PacketToClock(unix, frac, ts, check, local);
    ShownModulo(unix, t0, t, rate);
    var n := t / rate - t0 / rate;
    WholeSeconds(t0, t, rate);
    KeptTime(unix, n, frac, t0, d, rate);
  }

  lemma ShownModulo(unix: nat, t0: u32, t: u32, rate: nat)
    requires rate > 0
    ensures Shown(BaseFor(unix % 0x1_0000_0000, t0, rate), t, rate) == U32(unix + t / rate - t0 / rate)
  {
    SetThenRead(unix % 0x1_0000_0000, t0, t, rate);
    var x := unix + t / rate - t0 / rate;
    U32Of(unix % 0x1_0000_0000 + t / rate - t0 / rate, x / 0x1_0000_0000 - unix / 0x1_0000_0000, U32(x));
  }

  lemma KeptTime(unix: nat, n: int, frac: u32, t0: u32, d: nat, rate: nat)
    requires rate > 0 && 0 - rate < n * rate - (U32(t0 + d) - t0) < rate
    ensures (t0 + d) / 0x1_0000_0000 + rate * ((unix + n) / 0x1_0000_0000) == 0
            ==> KeepsTime(U32(unix + n), unix, frac, d, rate)
    ensures rate <= TWO_30 && KeepsTime(U32(unix + n), unix, frac, d, rate)
            ==> (t0 + d) / 0x1_0000_0000 + rate * ((unix + n) / 0x1_0000_0000) == 0
    ensures 0 <= unix + n < TWO_32 ==> (unix + n) / 0x1_0000_0000 == 0 && U32(unix + n) == unix + n
  {
    hide KeepsTime;
    var wraps, turns := (t0 + d) / 0x1_0000_0000, (unix + n) / 0x1_0000_0000;
    var eps := n * rate - (U32(t0 + d) - t0);
    FractionOfUnit(frac, rate);
    ErrorInUnits(unix, n, frac, d, rate, turns);
    assert eps == n * rate - d + 0x1_0000_0000 * wraps;
    LostTicks(eps, wraps + rate * turns, frac * rate, rate);
    KeepsTimeBy(U32(unix + n), unix, frac, d, rate);
  }

  lemma KeepsTimeBy(shown: u32, unix: nat, frac: u32, d: nat, rate: nat)
    ensures var err := shown * (rate * 0x1_0000_0000) - (unix * (rate * 0x1_0000_0000) + frac * rate + d * 0x1_0000_0000);
            KeepsTime(shown, unix, frac, d, rate) <==> -2 * (rate * 0x1_0000_0000) < err < rate * 0x1_0000_0000
  {
  }

  /** The error of the shown time, with `turns` turns of the shown time taken off. */
  lemma ErrorInUnits(unix: nat, n: int, frac: u32, d: nat, rate: nat, turns: int)
    ensures (unix + n - 0x1_0000_0000 * turns) * (rate * 0x1_0000_0000)
            - (unix * (rate * 0x1_0000_0000) + frac * rate + d * 0x1_0000_0000)
            == 0x1_0000_0000 * (n * rate - d - 0x1_0000_0000 * (rate * turns)) - frac * rate
  {
    var w := rate * 0x1_0000_0000;
    assert (unix + n - 0x1_0000_0000 * turns) * w == unix * w + n * w - (0x1_0000_0000 * turns) * w;
    assert n * w == n * rate * 0x1_0000_0000;
    assert (0x1_0000_0000 * turns) * w == 0x1_0000_0000 * (0x1_0000_0000 * (rate * turns));
  }

  lemma LostTicks(eps: int, lost: int, fraction: int, rate: nat)
    requires rate > 0 && 0 - rate < eps < rate && 0 <= fraction < rate * 0x1_0000_0000
    ensures var err := 0x1_0000_0000 * (eps - 0x1_0000_0000 * lost) - fraction;
            && (lost == 0 ==> -2 * (rate * 0x1_0000_0000) < err < rate * 0x1_0000_0000)
            && (rate <= TWO_30 && -2 * (rate * 0x1_0000_0000) < err < rate * 0x1_0000_0000 ==> lost == 0)
  {
  }

  lemma FractionOfUnit(frac: u32, rate: nat)
    requires rate > 0
    ensures 0 <= frac * rate < rate * 0x1_0000_0000
  {
    ProductPositive(0x1_0000_0000 - frac, rate);
    ProductPositive(frac + 1, rate);
  }

  /** At every rate, the tick on which the counter wraps takes all the seconds counted so far off the
      shown time: 4294967 of them at 1000 ticks a second. */
  lemma TickWrapStepsBack(unix: u32, rate: nat)
    requires rate > 0
    ensures Shown(BaseFor(unix, 0xffff_ffff, rate), U32(0xffff_ffff + 1), rate) == U32(unix - 0xffff_ffff / rate)
    ensures rate == 1000 && 4294967 <= unix
            ==> Shown(BaseFor(unix, 0xffff_ffff, rate), U32(0xffff_ffff + 1), rate) == unix - 4294967
  {
    hide Shown, BaseFor, U32;
    U32Of(0xffff_ffff + 1, 1, 0);
    SetThenRead(unix, 0xffff_ffff, 0, rate);
    assert unix + 0 / rate - 0xffff_ffff / rate == unix - 0xffff_ffff / rate;
    if rate == 1000 && 4294967 <= unix {
      U32Of(unix - 4294967, 0, unix - 4294967);
    }
  }
}
