/** The NTP/Unix time arithmetic of sntp.c: 32.32 fixed-point conversions in wrapping
    32-bit words, the 64-bit packing used by the round-trip compensation, and the
    clock-offset formula of section 5 of RFC 4330. */
module NtpTime {
  import opened Words

  const DIFF_SEC_1970_2036: u32 := 2085978496

  /** Seconds from the NTP epoch of 1900 to the Unix epoch (section 3 of RFC 4330). */
  const NTP_TO_UNIX: int := 2208988800

  datatype UnixStamp = UnixStamp(sec: u32, usec: u32)

  /** Signed seconds since 7 February 2036 06:28:16 UTC, and 2^-32 second units. */
  datatype NtpStamp = NtpStamp(sec: s32, frac: u32)

  /** A timestamp as it lies in a packet, in host order. */
  datatype RawStamp = RawStamp(sec: u32, frac: u32)

  datatype Timestamps = Timestamps(orig: RawStamp, recv: RawStamp, xmit: RawStamp)

  /** SNTP_FRAC_TO_US with 64-bit arithmetic. */
  function FracToUs(f: u32): u32 { f * 1000000 / 0x1_0000_0000 }

  /** SNTP_FRAC_TO_US without 64-bit arithmetic. */
  function FracToUs32(f: u32): u32 { f / 4295 }

  lemma FractionFormsAgree(f: u32)
    ensures 0 <= FracToUs(f) - FracToUs32(f) <= 8
    ensures FracToUs(f) < 1000000
  {
    var q := f / 4295;
    assert 4295 * q <= f < 4295 * q + 4295;
  }

  /** SNTP_GET_SYSTEM_TIME_NTP: every product and sum wraps at 32 bits. */
  function ToNtp(t: UnixStamp): NtpStamp {
    NtpStamp(S32(t.sec - DIFF_SEC_1970_2036),
             U32(U32(t.usec * 4295) - U32(t.usec * 2143) / 0x1_0000 + 2147))
  }

  /** The arguments SNTP_SET_SYSTEM_TIME_NTP hands to `iotc_set_system_time_us`. */
  function ToUnix(t: NtpStamp): UnixStamp {
    UnixStamp(U32(t.sec + DIFF_SEC_1970_2036), FracToUs(t.frac))
  }

  lemma WrapsFrom(usec: nat)
    requires usec < 1000000
    ensures U32(usec * 4295) == usec * 4295 <==> usec < 999993
  {
    if usec >= 999993 {
      U32Of(usec * 4295, 1, usec * 4295 - 0x1_0000_0000);
    } else {
      U32Of(usec * 4295, 0, usec * 4295);
    }
  }

  /** The fraction as ordinary arithmetic: the wraps cancel out. */
  lemma FracOf(t: UnixStamp)
    requires t.usec < 1000000
    ensures ToNtp(t).frac == t.usec * 4295 - t.usec * 2143 / 0x1_0000 + 2147
    ensures 0 < ToNtp(t).frac
  {
    var q := t.usec * 2143 / 0x1_0000;
    assert 0x1_0000 * q <= t.usec * 2143 < 0x1_0000 * q + 0x1_0000;
    var f := t.usec * 4295 - q + 2147;
    var k := if t.usec < 999993 then 0 else 1;
    U32Of(t.usec * 4295, k, t.usec * 4295 - 0x1_0000_0000 * k);
    U32Of(t.usec * 2143, 0, t.usec * 2143);
    U32Of(U32(t.usec * 4295) - q + 2147, -k, f);
  }

  /** Reading the system clock in NTP form and setting it back changes nothing. The
      product `usec * 4295` does wrap, for the last seven microseconds of a second. */
  lemma SystemTimeRoundTrip(t: UnixStamp)
    requires t.usec < 1000000
    ensures ToUnix(ToNtp(t)) == t
    ensures ToNtp(t).frac != 0
    ensures U32(t.usec * 4295) == t.usec * 4295 <==> t.usec < 999993
  {
    FracOf(t);
    var f := ToNtp(t).frac;
    assert t.usec * 0x1_0000_0000 <= f * 1000000 < t.usec * 0x1_0000_0000 + 0x1_0000_0000;
    var k := if t.sec >= DIFF_SEC_1970_2036 + TWO_31 then 1 else 0;
    S32Of(t.sec - DIFF_SEC_1970_2036, k, t.sec - DIFF_SEC_1970_2036 - 0x1_0000_0000 * k);
    U32Of(ToNtp(t).sec + DIFF_SEC_1970_2036, -k, t.sec);
    WrapsFrom(t.usec);
  }

  /** With the 32-bit fraction macro the same round trip holds only while the
      correction term has not used up the half-unit offset. */
  lemma RoundTripWith32BitForm(t: UnixStamp)
    requires t.usec < 1000000
    ensures FracToUs32(ToNtp(t).frac) == t.usec <==> t.usec * 2143 / 0x1_0000 <= 2147
  {
    var q := t.usec * 2143 / 0x1_0000;
    assert 0x1_0000 * q <= t.usec * 2143 < 0x1_0000 * q + 0x1_0000;
    FracOf(t);
    var f := ToNtp(t).frac;
    if q <= 2147 {
      assert 4295 * t.usec <= f < 4295 * t.usec + 4295;
    } else {
      assert f < 4295 * t.usec;
    }
  }

  /** The seconds field of a packet, whatever the era it was written in, maps one-to-one
      to 32-bit Unix seconds, and is the true date exactly up to February 2106. */
  lemma EraChange(unix: nat)
    ensures ToUnix(NtpStamp(S32(unix + NTP_TO_UNIX), 0)).sec == unix % 0x1_0000_0000
    ensures ToUnix(NtpStamp(S32(unix + NTP_TO_UNIX), 0)).sec == unix <==> unix < TWO_32
  {
    var r := unix % 0x1_0000_0000;
    var era := unix / 0x1_0000_0000;
    var k := if r >= DIFF_SEC_1970_2036 + TWO_31 then 1 else 0;
    S32Of(unix + NTP_TO_UNIX, era + 1 + k, r - DIFF_SEC_1970_2036 - 0x1_0000_0000 * k);
    U32Of(S32(unix + NTP_TO_UNIX) + DIFF_SEC_1970_2036, -k, r);
  }

  lemma UnixOf(x: u32)
    ensures ToUnix(NtpStamp(S32(x), 0)).sec
            == if x + DIFF_SEC_1970_2036 < TWO_32 then x + DIFF_SEC_1970_2036 else x + DIFF_SEC_1970_2036 - TWO_32
  {
    var k := if x < TWO_31 then 0 else 1;
    S32Of(x, k, x - 0x1_0000_0000 * k);
    var r := if x + DIFF_SEC_1970_2036 < TWO_32 then 0 else 1;
    U32Of(S32(x) + DIFF_SEC_1970_2036, r - k, x + DIFF_SEC_1970_2036 - 0x1_0000_0000 * r);
  }

  lemma SecondsOneToOne(a: u32, b: u32)
    ensures ToUnix(NtpStamp(S32(a), 0)).sec == ToUnix(NtpStamp(S32(b), 0)).sec <==> a == b
  {
    UnixOf(a);
    UnixOf(b);
  }

  // ----- 64-bit packing -----

  /** SNTP_SEC_FRAC_TO_S64. The shifted word has 32 zero low bits, so the bitwise
      `or` with a 32-bit fraction is an addition. */
  function Pack(sec: int, frac: u32): s64 { S64(U64(U64(sec) * 0x1_0000_0000) + frac) }

  /** The two assignments that take a signed 64-bit time apart again. */
  function Split(t: s64): NtpStamp { NtpStamp(S32(U64(t) / 0x1_0000_0000), U32(U64(t))) }

  lemma PackIsFixedPoint(sec: s32, frac: u32)
    ensures Pack(sec, frac) == sec * 0x1_0000_0000 + frac
    ensures Pack(U32(sec), frac) == sec * 0x1_0000_0000 + frac
  {
    var neg := if sec < 0 then 1 else 0;
    var high := (sec + 0x1_0000_0000 * neg) * 0x1_0000_0000;
    U64Of(sec, -neg, sec + 0x1_0000_0000_0000_0000 * neg);
    U32Of(sec, -neg, sec + 0x1_0000_0000 * neg);
    U64Of(U64(sec) * 0x1_0000_0000, 0x1_0000_0000 * neg - neg, high);
    U64Of(U32(sec), 0, U32(sec));
    U64Of(U32(sec) * 0x1_0000_0000, 0, high);
    S64Of(high + frac, neg, sec * 0x1_0000_0000 + frac);
  }

  lemma SplitOf(sec: s32, frac: u32)
    ensures InS64(sec * 0x1_0000_0000 + frac)
    ensures Split(sec * 0x1_0000_0000 + frac) == NtpStamp(sec, frac)
  {
    var neg := if sec < 0 then 1 else 0;
    var t := sec * 0x1_0000_0000 + frac;
    var word := (sec + 0x1_0000_0000 * neg) * 0x1_0000_0000 + frac;
    U64Of(t, -neg, word);
    assert word / 0x1_0000_0000 == sec + 0x1_0000_0000 * neg;
    S32Of(word / 0x1_0000_0000, neg, sec);
    U32Of(word, sec + 0x1_0000_0000 * neg, frac);
  }

  /** Splitting a packed time gives the time back. */
  lemma PackSplit(t: NtpStamp)
    ensures Split(Pack(t.sec, t.frac)) == t
  {
    PackIsFixedPoint(t.sec, t.frac);
    SplitOf(t.sec, t.frac);
  }

  /** Splitting is the quotient and remainder of the fixed-point value, and packing
      puts any 64-bit value back together. */
  lemma SplitPack(t: s64)
    ensures Split(t) == NtpStamp(t / 0x1_0000_0000, t % 0x1_0000_0000)
    ensures Pack(Split(t).sec, Split(t).frac) == t
  {
    SplitOf(t / 0x1_0000_0000, t % 0x1_0000_0000);
    PackIsFixedPoint(t / 0x1_0000_0000, t % 0x1_0000_0000);
  }

  predicate Earlier(a: NtpStamp, b: NtpStamp) {
    a.sec < b.sec || (a.sec == b.sec && a.frac < b.frac)
  }

  lemma PackPreservesOrder(a: NtpStamp, b: NtpStamp)
    ensures Pack(a.sec, a.frac) < Pack(b.sec, b.frac) <==> Earlier(a, b)
  {
    PackIsFixedPoint(a.sec, a.frac);
    PackIsFixedPoint(b.sec, b.frac);
  }

  // ----- Round-trip compensation -----

  function StepSec(dest: s32, sec: s32): u32 {
    if dest < sec then U32(U32(sec) - U32(dest)) else U32(U32(dest) - U32(sec))
  }

  /** `(step_sec >> 30) == 0` */
  predicate WithinStepLimit(dest: s32, sec: s32) { StepSec(dest, sec) / 0x4000_0000 == 0 }

  lemma StepLimitMeaning(dest: s32, sec: s32)
    ensures WithinStepLimit(dest, sec) <==> Abs(dest - sec) < TWO_30
  {
    assert U32(sec) - U32(dest) == sec - dest
        || U32(sec) - U32(dest) == sec - dest + TWO_32
        || U32(sec) - U32(dest) == sec - dest - TWO_32;
  }

  /** `t4 += ((t2 - t1) + (t3 - t4)) / 2` with every result reduced to 64 signed bits. */
  function Corrected(t1: s64, t2: s64, t3: s64, t4: s64): s64 {
    S64(t4 + Half(S64(S64(t2 - t1) + S64(t3 - t4))))
  }

  lemma StepBound(t3: s64, t4: s64)
    requires WithinStepLimit(Split(t4).sec, Split(t3).sec)
    ensures Abs(t3 - t4) < TWO_62
  {
    SplitPack(t3);
    SplitPack(t4);
    StepLimitMeaning(Split(t4).sec, Split(t3).sec);
  }

  /** The value the formula stands for. */
  function Offset(t1: s64, t2: s64, t3: s64, t4: s64): int { (t2 - t1) + (t3 - t4) }

  lemma S64Apart(x: int)
    ensures S64(x) == x <==> InS64(x)
    ensures !InS64(x) ==> Abs(S64(x) - x) >= 0x1_0000_0000_0000_0000
  {
    assert x == 0x1_0000_0000_0000_0000 * (x / 0x1_0000_0000_0000_0000) + x % 0x1_0000_0000_0000_0000;
  }

  lemma S64Sum(x: int, y: int)
    ensures S64(S64(x) + S64(y)) == S64(x + y)
  {
    var k := (x - S64(x)) / 0x1_0000_0000_0000_0000 + (y - S64(y)) / 0x1_0000_0000_0000_0000;
    S64Multiple(x);
    S64Multiple(y);
    S64Multiple(x + y);
    S64Of(S64(x) + S64(y), (x + y - S64(x + y)) / 0x1_0000_0000_0000_0000 - k, S64(x + y));
  }

  lemma S64Multiple(x: int)
    ensures x - S64(x) == 0x1_0000_0000_0000_0000 * ((x - S64(x)) / 0x1_0000_0000_0000_0000)
  {
    var q := x / 0x1_0000_0000_0000_0000;
    assert x - S64(x) == 0x1_0000_0000_0000_0000 * q || x - S64(x) == 0x1_0000_0000_0000_0000 * (q + 1);
  }

  /** Under the guard on the step, whatever the server's two stamps, the wrapping code computes the formula
      if and only if the sum and the result fit in 64 signed bits; otherwise it is off by at least 2^62. */
  lemma CorrectedExactly(t1: s64, t2: s64, t3: s64, t4: s64)
    requires Abs(t3 - t4) < TWO_62
    ensures var d := Offset(t1, t2, t3, t4);
            && (Corrected(t1, t2, t3, t4) == t4 + Half(d) <==> InS64(d) && InS64(t4 + Half(d)))
            && (!(InS64(d) && InS64(t4 + Half(d))) ==> Abs(Corrected(t1, t2, t3, t4) - (t4 + Half(d))) >= TWO_62)
  {
    hide S64;
    var d := Offset(t1, t2, t3, t4);
    S64Sum(t2 - t1, t3 - t4);
    S64Apart(d);
    S64Apart(t4 + Half(d));
    if !InS64(d) {
      HalfWrapped(d, t4);
    }
  }

  /** A sum that wrapped is off by 2^64, its half by 2^63: the final reduction cannot make up for it. */
  lemma HalfWrapped(d: int, t4: s64)
    requires !InS64(d) && Abs(d) <= TWO_64 + TWO_62
    ensures Abs(S64(t4 + Half(S64(d))) - (t4 + Half(d))) >= TWO_62
  {
    S64Multiple(t4 + Half(S64(d)));
    var k := if d < 0 then -1 else 1;
    S64Of(d, k, d - 0x1_0000_0000_0000_0000 * k);
  }

  /** The guard on the step, and a sane difference of the server's two stamps, keep every
      intermediate value in range. The result is then computed without overflow, and lies between the two
      estimates the formula averages, if and only if it is representable. */
  lemma CorrectedInRange(t1: s64, t2: s64, t3: s64, t4: s64)
    requires WithinStepLimit(Split(t4).sec, Split(t3).sec)
    requires Abs(t2 - t1) < TWO_62
    ensures Abs(t3 - t4) < TWO_62
    ensures InS64(t2 - t1) && InS64(t3 - t4) && InS64(Offset(t1, t2, t3, t4))
    ensures var t := t4 + Half(Offset(t1, t2, t3, t4));
            && Min(t3, t4 + (t2 - t1)) <= t <= Max(t3, t4 + (t2 - t1))
            && (Corrected(t1, t2, t3, t4) == t <==> InS64(t))
            && (Min(t3, t4 + (t2 - t1)) <= Corrected(t1, t2, t3, t4) <= Max(t3, t4 + (t2 - t1)) <==> InS64(t))
  {
    hide Corrected, WithinStepLimit, Split;
    StepBound(t3, t4);
    CorrectedExactly(t1, t2, t3, t4);
  }

  /** A clock whose true reading is `x` units shows the last whole unit. */
  function Reading(x: real): int { x.Floor }

  /** Section 5 of RFC 4330. The request leaves at local time `x1`, travels for `a`, is
      held by the server for `p`, and the reply travels for `b`; the server's clock leads
      by `theta`. All are real quantities in 2^-32 second units, read off by both clocks
      as whole units. The corrected clock is then off by at most half the
      difference of the two one-way delays, plus two units of reading error. */
  lemma OffsetErrorBound(x1: real, theta: real, a: real, p: real, b: real)
    requires a >= 0.0 && p >= 0.0 && b >= 0.0
    ensures var t1 := Reading(x1); var t2 := Reading(x1 + a + theta);
            var t3 := Reading(x1 + a + p + theta); var t4 := Reading(x1 + a + p + b);
            var arrival := x1 + a + p + b + theta;
            var result := (t4 + Half((t2 - t1) + (t3 - t4))) as real;
            && -2.0 < result - arrival - (a - b) / 2.0 < 1.0
            && -(a + b) / 2.0 - 2.0 < result - arrival < (a + b) / 2.0 + 1.0
  {
    var t1 := Reading(x1);
    var t2 := Reading(x1 + a + theta);
    var t3 := Reading(x1 + a + p + theta);
    var t4 := Reading(x1 + a + p + b);
    var s := (t2 - t1) + (t3 - t4);
    assert -1 <= 2 * Half(s) - s <= 1;
    assert -1.0 <= 2.0 * (Half(s) as real) - (s as real) <= 1.0;
    assert s as real == (t2 as real - t1 as real) + (t3 as real - t4 as real);
    assert (t4 + Half(s)) as real == t4 as real + Half(s) as real;
  }

  /** When both clocks are read without error, the only loss is the final halving:
      half the difference of the delays, rounded; none at all on a symmetric path. */
  lemma OffsetExactOnWholeUnits(t1: int, theta: int, a: nat, p: nat, b: nat)
    ensures var t2 := t1 + a + theta; var t3 := t2 + p; var t4 := t1 + a + p + b;
            var result := t4 + Half((t2 - t1) + (t3 - t4));
            && Abs(2 * (result - (t4 + theta)) - (a - b)) <= 1
            && (a == b ==> result == t4 + theta)
            && 2 * Abs(result - (t4 + theta)) <= a + b + 1
  {
  }

  // ----- sntp_process -----

  /** The branch of `sntp_process` under SNTP_COMP_ROUNDTRIP; `dest` is the time of arrival. */
  function Compensate(ts: Timestamps, dest: NtpStamp): NtpStamp {
    var sec := S32(ts.xmit.sec);
    var frac := ts.xmit.frac;
    if WithinStepLimit(dest.sec, sec) then
      Split(Corrected(Pack(ts.orig.sec, ts.orig.frac), Pack(ts.recv.sec, ts.recv.frac),
                      Pack(sec, frac), Pack(dest.sec, dest.frac)))
    else
      NtpStamp(sec, frac)
  }

  /** The Unix time `sntp_process` hands to the system clock. `comp` is
      SNTP_COMP_ROUNDTRIP, `check` is SNTP_CHECK_RESPONSE and `local` the reading of
      the system clock. */
  function Process(comp: bool, check: nat, ts: Timestamps, local: UnixStamp): UnixStamp {
    if comp && !(check >= 2 && ts.recv.sec == 0 && ts.recv.frac == 0) then
      ToUnix(Compensate(ts, ToNtp(local)))
    else
      ToUnix(NtpStamp(S32(ts.xmit.sec), ts.xmit.frac))
  }

  /** The fixed-point value a packet field stands for. */
  function Fixed(t: RawStamp): s64 {
    var sec := S32(t.sec);
    SplitOf(sec, t.frac);
    sec * 0x1_0000_0000 + t.frac
  }

  lemma UnsignedAgain(x: u32)
    ensures U32(S32(x)) == x
  {
    S32Of(x, if x < TWO_31 then 0 else 1, if x < TWO_31 then x else x - 0x1_0000_0000);
    U32Of(S32(x), if x < TWO_31 then 0 else -1, x);
  }

  lemma FixedIsPacked(t: RawStamp)
    ensures Pack(t.sec, t.frac) == Fixed(t) == Pack(S32(t.sec), t.frac)
  {
    hide Pack, S32, U32;
    PackIsFixedPoint(S32(t.sec), t.frac);
    UnsignedAgain(t.sec);
  }

  /** The fixed-point time a reply stands for: half way between the server's transmit stamp and
      the local clock shifted by the outbound offset; beyond the 34-year step, the transmit stamp alone. */
  function Meant(ts: Timestamps, dest: NtpStamp): int {
    var t4 := Pack(dest.sec, dest.frac);
    if Abs(dest.sec - S32(ts.xmit.sec)) < TWO_30
    then t4 + Half(Offset(Fixed(ts.orig), Fixed(ts.recv), Fixed(ts.xmit), t4))
    else Fixed(ts.xmit)
  }

  /** The formula is used, and its sum or its result does not fit in 64 signed bits. */
  predicate Overflows(ts: Timestamps, dest: NtpStamp) {
    var d := Offset(Fixed(ts.orig), Fixed(ts.recv), Fixed(ts.xmit), Pack(dest.sec, dest.frac));
    Abs(dest.sec - S32(ts.xmit.sec)) < TWO_30 && !(InS64(d) && InS64(Pack(dest.sec, dest.frac) + Half(d)))
  }

  /** For every packet and local time, the reply is compensated to the time it stands for if and only if
      nothing overflows; otherwise it is off by at least 2^30 seconds. */
  lemma CompensateMeaning(ts: Timestamps, dest: NtpStamp)
    ensures var adjusted := Compensate(ts, dest);
            var got := Pack(adjusted.sec, adjusted.frac);
            && (got == Meant(ts, dest) <==> !Overflows(ts, dest))
            && (Overflows(ts, dest) ==> Abs(got - Meant(ts, dest)) >= TWO_62)
  {
    hide Fixed, Pack, Split, S32, Corrected, WithinStepLimit;
    var sec := S32(ts.xmit.sec);
    var t1, t2, t3 := Fixed(ts.orig), Fixed(ts.recv), Fixed(ts.xmit);
    var t4 := Pack(dest.sec, dest.frac);
    FixedIsPacked(ts.orig);
    FixedIsPacked(ts.recv);
    FixedIsPacked(ts.xmit);
    StepLimitMeaning(dest.sec, sec);
    if WithinStepLimit(dest.sec, sec) {
      PackSplit(dest);
      PackSplit(NtpStamp(sec, ts.xmit.frac));
      StepBound(t3, t4);
      CorrectedExactly(t1, t2, t3, t4);
      SplitPack(Corrected(t1, t2, t3, t4));
    }
  }

  // ----- The time that is set -----

  /** The Unix time of a fixed-point value: seconds modulo 2^32, and microseconds. */
  function UnixTime(x: int): UnixStamp {
    UnixStamp(U32(x / 0x1_0000_0000 + DIFF_SEC_1970_2036), FracToUs(U32(x)))
  }

  lemma UnixOfSplit(x: s64)
    ensures ToUnix(Split(x)) == UnixTime(x)
  {
    SplitPack(x);
  }

  lemma UnixOfFixed(t: RawStamp)
    ensures ToUnix(NtpStamp(S32(t.sec), t.frac)) == UnixTime(Fixed(t))
  {
    SplitOf(S32(t.sec), t.frac);
    UnixOfSplit(Fixed(t));
  }

  /** A result that wraps by 2^64 wraps the seconds by 2^32: the Unix time stays the same. */
  lemma UnixOfWrapped(x: int)
    ensures UnixTime(S64(x)) == UnixTime(x)
  {
    S64Multiple(x);
    var m := (x - S64(x)) / 0x1_0000_0000_0000_0000;
    assert x / 0x1_0000_0000 == S64(x) / 0x1_0000_0000 + 0x1_0000_0000 * m;
    var r := x / 0x1_0000_0000 + DIFF_SEC_1970_2036;
    U32Of(S64(x) / 0x1_0000_0000 + DIFF_SEC_1970_2036, r / 0x1_0000_0000 - m, U32(r));
    U32Of(S64(x), x / 0x1_0000_0000 - 0x1_0000_0000 * m, U32(x));
  }

  /** Values about 2^63 apart are about 2^31 seconds apart. */
  lemma FarApart(x: int, y: int)
    requires Abs(Abs(x - y) - TWO_63) <= 4
    ensures UnixTime(x).sec != UnixTime(y).sec
  {
    var p, q := x / 0x1_0000_0000, y / 0x1_0000_0000;
    assert x == 0x1_0000_0000 * p + x % 0x1_0000_0000 && y == 0x1_0000_0000 * q + y % 0x1_0000_0000;
    assert Abs(Abs(p - q) - TWO_31) <= 1;
    U32Apart(p + DIFF_SEC_1970_2036, q + DIFF_SEC_1970_2036);
  }

  lemma U32Apart(p: int, q: int)
    requires 0 < Abs(p - q) < TWO_32
    ensures U32(p) != U32(q)
  {
    var a, b := p / 0x1_0000_0000, q / 0x1_0000_0000;
    assert p == 0x1_0000_0000 * a + U32(p) && q == 0x1_0000_0000 * b + U32(q);
  }

  /** Under the guard, the Unix time of the corrected value is right if and only if the sum does not overflow;
      otherwise it is that of no value anywhere near. */
  lemma CorrectedUnix(t1: s64, t2: s64, t3: s64, t4: s64, near: int)
    requires Abs(t3 - t4) < TWO_62
    requires Abs(near - (t4 + Half(Offset(t1, t2, t3, t4)))) <= 3
    ensures var d := Offset(t1, t2, t3, t4);
            && (InS64(d) ==> UnixTime(Corrected(t1, t2, t3, t4)) == UnixTime(t4 + Half(d)))
            && (!InS64(d) ==> UnixTime(Corrected(t1, t2, t3, t4)) != UnixTime(near))
  {
    hide S64, UnixTime;
    var d := Offset(t1, t2, t3, t4);
    S64Sum(t2 - t1, t3 - t4);
    S64Apart(d);
    UnixOfWrapped(t4 + Half(S64(d)));
    if !InS64(d) {
      S64Of(d, if d < 0 then -1 else 1, if d < 0 then d + TWO_64 else d - TWO_64);
      FarApart(t4 + Half(S64(d)), near);
    }
  }

  predicate Uncompensated(ts: Timestamps, check: nat) { check >= 2 && ts.recv == RawStamp(0, 0) }

  /** The fixed-point time that a reply stands for, with compensation compiled in. */
  function StandsFor(ts: Timestamps, check: nat, local: UnixStamp): int {
    if Uncompensated(ts, check) then Fixed(ts.xmit) else Meant(ts, ToNtp(local))
  }

  /** The formula is used and its sum does not fit in 64 signed bits. */
  predicate SumOverflows(ts: Timestamps, check: nat, local: UnixStamp) {
    var dest := ToNtp(local);
    && !Uncompensated(ts, check) && Abs(dest.sec - S32(ts.xmit.sec)) < TWO_30
    && !InS64(Offset(Fixed(ts.orig), Fixed(ts.recv), Fixed(ts.xmit), Pack(dest.sec, dest.frac)))
  }

  /** For every packet and local time, the clock is set to the time the reply stands for if and only if the
      sum of the formula does not overflow, as it never does while the server's two stamps are less than 2^30 s
      apart. When it does, the clock is set to no time anywhere near. Whether the result fits in 64 bits
      does not matter. */
  lemma TimeSet(ts: Timestamps, check: nat, local: UnixStamp, near: int)
    requires Abs(near - StandsFor(ts, check, local)) <= 3
    ensures Process(true, check, ts, local) == UnixTime(StandsFor(ts, check, local)) <==> !SumOverflows(ts, check, local)
    ensures SumOverflows(ts, check, local) ==> Process(true, check, ts, local) != UnixTime(near)
    ensures Abs(Fixed(ts.recv) - Fixed(ts.orig)) < TWO_62 ==> !SumOverflows(ts, check, local)
  {
    hide UnixTime, ToNtp, Corrected, Split, ToUnix, Pack, Fixed, S32;
    var dest := ToNtp(local);
    var t1, t2, t3 := Fixed(ts.orig), Fixed(ts.recv), Fixed(ts.xmit);
    var t4 := Pack(dest.sec, dest.frac);
    FixedIsPacked(ts.orig);
    FixedIsPacked(ts.recv);
    FixedIsPacked(ts.xmit);
    UnixOfFixed(ts.xmit);
    StepLimitMeaning(dest.sec, S32(ts.xmit.sec));
    PackSplit(dest);
    PackSplit(NtpStamp(S32(ts.xmit.sec), ts.xmit.frac));
    if WithinStepLimit(dest.sec, S32(ts.xmit.sec)) {
      StepBound(t3, t4);
      if !Uncompensated(ts, check) {
        CorrectedUnix(t1, t2, t3, t4, near);
        CorrectedUnix(t1, t2, t3, t4, t4 + Half(Offset(t1, t2, t3, t4)));
        UnixOfSplit(Corrected(t1, t2, t3, t4));
      }
    }
  }

  /** Without compensation, and with it for a reply whose receive stamp is zero where stamps are checked, the clock is set to
      the transmit stamp. */
  lemma TransmitStampAlone(comp: bool, ts: Timestamps, check: nat, local: UnixStamp)
    requires !comp || (check >= 2 && ts.recv.sec == 0 && ts.recv.frac == 0)
    ensures Process(comp, check, ts, local) == UnixTime(Fixed(ts.xmit))
    ensures Fixed(ts.xmit) % 0x1_0000_0000_0000_0000 == 0x1_0000_0000 * ts.xmit.sec + ts.xmit.frac
  {
    UnixOfFixed(ts.xmit);
    hide UnixTime, ToUnix;
    var k := if ts.xmit.sec < TWO_31 then 0 else 1;
    S32Of(ts.xmit.sec, k, ts.xmit.sec - 0x1_0000_0000 * k);
    U64Of(Fixed(ts.xmit), -k, 0x1_0000_0000 * ts.xmit.sec + ts.xmit.frac);
  }

  /** Within half the difference of the one-way delays and two units of the server's time at arrival. */
  predicate WithinBound(x: int, arrival: real, a: real, b: real) {
    -2.0 < x as real - arrival - (a - b) / 2.0 < 1.0
  }

  /** The two together: within the step limit, a compensated reply sets the clock to a Unix time within the bound of the
      server's time at arrival, if and only if the sum of the formula does not overflow. */
  lemma CompensationError(ts: Timestamps, check: nat, local: UnixStamp,
                          x1: real, theta: real, a: real, p: real, b: real)
    requires a >= 0.0 && p >= 0.0 && b >= 0.0
    requires check < 2 || ts.recv.sec != 0 || ts.recv.frac != 0
    requires Fixed(ts.orig) == Reading(x1) && Fixed(ts.recv) == Reading(x1 + a + theta)
    requires Fixed(ts.xmit) == Reading(x1 + a + p + theta)
    requires Pack(ToNtp(local).sec, ToNtp(local).frac) == Reading(x1 + a + p + b)
    requires Abs(ToNtp(local).sec - S32(ts.xmit.sec)) < TWO_30
    ensures (exists x: int ::
               WithinBound(x, x1 + a + p + b + theta, a, b) && Process(true, check, ts, local) == UnixTime(x))
            <==> !SumOverflows(ts, check, local)
  {
    hide Process, Pack, Fixed, S32, ToNtp, UnixTime, SumOverflows;
    var meant, arrival := StandsFor(ts, check, local), x1 + a + p + b + theta;
    OffsetErrorBound(x1, theta, a, p, b);
    assert WithinBound(meant, arrival, a, b);
    TimeSet(ts, check, local, meant);
    if x: int :| WithinBound(x, arrival, a, b) && Process(true, check, ts, local) == UnixTime(x) {
      assert (x - meant) as real == x as real - meant as real;
      TimeSet(ts, check, local, x);
    }
  }

  lemma EndsOfTheEra(t1: s64, t2: s64, t3: s64, t4: s64)
    requires t1 == -TWO_63 && t2 == 0x7fff_ffff * 0x1_0000_0000 && t3 == t4 == 2147
    ensures Offset(t1, t2, t3, t4) == TWO_64 - TWO_32 && Corrected(t1, t2, t3, t4) == 2147 - TWO_31
    ensures UnixTime(2147 - TWO_31).sec == DIFF_SEC_1970_2036 - 1
    ensures UnixTime(t4 + Half(TWO_64 - TWO_32)).sec == DIFF_SEC_1970_2036 - 1 + TWO_31
  {
    S64Of(t2 - t1, 1, -TWO_32);
    S64Of(0, 0, 0);
    S64Of(-TWO_32, 0, -TWO_32);
    S64Of(2147 - TWO_31, 0, 2147 - TWO_31);
  }

  /** The step limit does not look at the server's first two stamps. If they are at opposite ends of the era, the sum
      overflows, and the clock is set 2^31 s off. */
  lemma SumOverflowSetsWrongTime(ts: Timestamps, local: UnixStamp)
    requires local == UnixStamp(DIFF_SEC_1970_2036, 0)
    requires ts == Timestamps(RawStamp(0x8000_0000, 0), RawStamp(0x7fff_ffff, 0), RawStamp(0, 2147))
    ensures SumOverflows(ts, 0, local)
    ensures Process(true, 0, ts, local).sec == DIFF_SEC_1970_2036 - 1
    ensures UnixTime(StandsFor(ts, 0, local)).sec == DIFF_SEC_1970_2036 - 1 + TWO_31
  {
    assert ToNtp(local) == NtpStamp(0, 2147);
    assert Fixed(ts.orig) == -TWO_63 && Fixed(ts.recv) == 0x7fff_ffff * 0x1_0000_0000 && Fixed(ts.xmit) == 2147;
    assert S32(ts.xmit.sec) == 0;
    hide ToNtp, Fixed, S32, Pack, Split, Corrected, UnixTime, ToUnix, WithinStepLimit;
    FixedIsPacked(ts.orig);
    FixedIsPacked(ts.recv);
    FixedIsPacked(ts.xmit);
    PackIsFixedPoint(0, 2147);
    StepLimitMeaning(0, 0);
    EndsOfTheEra(Fixed(ts.orig), Fixed(ts.recv), Fixed(ts.xmit), Pack(0, 2147));
    UnixOfSplit(2147 - TWO_31);
  }
}
