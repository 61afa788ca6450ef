/**
  Deadlines. The POSIX branch keeps seconds and nanoseconds, the Windows branch
  counts 100 ns ticks. The clock, my_getsystime or the system file time, is a
  parameter, in ticks of 100 ns.
 */
module Timespec {
  import opened LittleEndian
  import opened ByteOrder

  const NSEC := 1_000_000_000
  const TICKS := 10_000_000

  datatype Stamp = Stamp(sec: int, nsec: int)

  function Total(t: Stamp): int { t.sec * NSEC + t.nsec }

  predicate Normal(t: Stamp) { 0 <= t.nsec < NSEC }

  function Sign(d: int): int { if d > 0 then 1 else if d < 0 then -1 else 0 }

  // ---- POSIX ----

  /** The normalised stamp of a given number of nanoseconds. */
  function StampOf(total: nat): (t: Stamp)
    ensures Normal(t) && t.sec >= 0 && Total(t) == total
  {
    Stamp(total / NSEC, total % NSEC)
  }

  lemma StampUnique(t: Stamp, t': Stamp)
    requires Normal(t) && Normal(t') && Total(t) == Total(t')
    ensures t == t'
  {
  }

  /** The deadline set_timespec_nsec leaves: clock and whole ticks add up in 64 bits. */
  function PosixDeadline(systime: nat, nsec: nat): (d: Stamp)
    ensures Normal(d) && d.sec >= 0
  {
    StampOf(100 * ((systime + nsec / 100) % B8) + nsec % 100)
  }

  class Timespec {
    var tvSec: int
    var tvNsec: int

    ghost function Value(): Stamp
      reads this
    {
      Stamp(tvSec, tvNsec)
    }

    method SetNsec(systime: nat, nsec: nat)
      requires systime < B8 && nsec < B8
      modifies this
      ensures Value() == PosixDeadline(systime, nsec)
      ensures tvSec >= 0 && 0 <= tvNsec < 1_000_000_000
    {
      var now := (systime + nsec / 100) % B8;
      tvSec := now / TICKS;
      tvNsec := now % TICKS * 100 + nsec % 100;
      StampUnique(Value(), PosixDeadline(systime, nsec));
    }

    method SetSec(systime: nat, sec: nat)
      requires systime < B8 && sec < B8
      modifies this
      ensures Value() == PosixDeadline(systime, sec * NSEC % B8)
    {
      SetNsec(systime, sec * NSEC % B8);
    }
  }

  /** The deadline is the clock plus the delay to the nanosecond, exactly when the tick count does not wrap. */
  lemma NsecExact(systime: nat, nsec: nat)
    requires systime < B8 && nsec < B8
    ensures Total(PosixDeadline(systime, nsec)) == 100 * systime + nsec
            <==> systime + nsec / 100 < B8
  {
  }

  /** A delay in seconds is exact when neither its nanoseconds nor the tick count wraps, and only then. */
  lemma SecExact(systime: nat, sec: nat)
    requires systime < B8 && sec < B8
    ensures Total(PosixDeadline(systime, sec * NSEC % B8)) == 100 * systime + sec * NSEC
            <==> sec * NSEC < B8 && systime + sec * TICKS < B8
  {
    var nsec := sec * NSEC % B8;
    NsecExact(systime, nsec);
    if sec * NSEC < B8 {
      assert nsec / 100 == sec * TICKS;
    } else {
      assert Total(PosixDeadline(systime, nsec)) <= 100 * (systime + nsec / 100) + nsec % 100;
    }
  }

  /** cmp_timespec. */
  function Cmp(ts1: Stamp, ts2: Stamp): int
  {
    if ts1.sec > ts2.sec || (ts1.sec == ts2.sec && ts1.nsec > ts2.nsec) then 1
    else if ts1.sec < ts2.sec || (ts1.sec == ts2.sec && ts1.nsec < ts2.nsec) then -1
    else 0
  }

  /**
    The comparison is the sign of the gap in nanoseconds exactly when the nanosecond
    fields do not outweigh the seconds.
   */
  lemma CmpExact(ts1: Stamp, ts2: Stamp)
    ensures Cmp(ts1, ts2) == Sign(Total(ts1) - Total(ts2))
            <==> (ts1.sec > ts2.sec ==> ts2.nsec - ts1.nsec < (ts1.sec - ts2.sec) * NSEC)
                 && (ts1.sec < ts2.sec ==> ts1.nsec - ts2.nsec < (ts2.sec - ts1.sec) * NSEC)
  {
  }

  /** Normalised stamps always meet that. */
  lemma CmpIsSign(ts1: Stamp, ts2: Stamp)
    requires Normal(ts1) && Normal(ts2)
    ensures Cmp(ts1, ts2) == Sign(Total(ts1) - Total(ts2))
  {
    CmpExact(ts1, ts2);
  }

  /** So it is a total order: antisymmetric, transitive, and zero only between equal stamps. */
  lemma CmpTotalOrder(a: Stamp, b: Stamp, c: Stamp)
    requires Normal(a) && Normal(b) && Normal(c)
    ensures Cmp(a, b) == -Cmp(b, a)
    ensures Cmp(a, b) >= 0 && Cmp(b, c) >= 0 ==> Cmp(a, c) >= 0
    ensures Cmp(a, b) == 0 <==> a == b
  {
  }

  /** diff_timespec: each conversion and operation on ulonglong wraps. */
  function Diff(ts1: Stamp, ts2: Stamp): (d: nat)
    ensures d < B8
  {
    var sec := (ts1.sec - ts2.sec) % B8 * NSEC % B8;
    ((sec + ts1.nsec % B8) % B8 - ts2.nsec % B8) % B8
  }

  lemma Wrap(x: int, y: int, q: int)
    requires x == y + B8 * q
    ensures x % B8 == y % B8
  {
  }

  /** The wrapping steps together give the gap modulo 2^64, for stamps of any kind. */
  lemma DiffIsGap(ts1: Stamp, ts2: Stamp)
    ensures Diff(ts1, ts2) == (Total(ts1) - Total(ts2)) % B8
  {
    var d := ts1.sec - ts2.sec;
    var q0, q1 := d / B8, d % B8 * NSEC / B8;
    var sec := d % B8 * NSEC % B8;
    assert sec == d * NSEC - B8 * (q0 * NSEC + q1);
    var n1, n2 := ts1.nsec % B8, ts2.nsec % B8;
    var q2, q3 := ts1.nsec / B8, ts2.nsec / B8;
    var q4 := (sec + n1) / B8;
    Wrap((sec + n1) % B8 - n2, Total(ts1) - Total(ts2), -(q0 * NSEC + q1) - q2 + q3 - q4);
  }

  /** Gaps along a chain of stamps add up modulo 2^64. */
  lemma DiffChain(a: Stamp, b: Stamp, c: Stamp)
    ensures Diff(a, c) == (Diff(a, b) + Diff(b, c)) % B8
  {
    DiffIsGap(a, b);
    DiffIsGap(b, c);
    DiffIsGap(a, c);
    var x, y := Total(a) - Total(b), Total(b) - Total(c);
    Wrap(x % B8 + y % B8, x + y, -(x / B8) - y / B8);
  }

  /** The difference is the true gap exactly when that gap is a 64-bit number at all. */
  lemma DiffExact(ts1: Stamp, ts2: Stamp)
    ensures Diff(ts1, ts2) == Total(ts1) - Total(ts2) <==> 0 <= Total(ts1) - Total(ts2) < B8
  {
    DiffIsGap(ts1, ts2);
  }

  /** A caller may check with cmp_timespec first. */
  lemma DiffAfterCmp(ts1: Stamp, ts2: Stamp)
    requires Normal(ts1) && Normal(ts2) && Total(ts1) - Total(ts2) < B8
    ensures Diff(ts1, ts2) == Total(ts1) - Total(ts2) <==> Cmp(ts1, ts2) >= 0
  {
    DiffExact(ts1, ts2);
    CmpIsSign(ts1, ts2);
  }

  // ---- Windows ----

  datatype WinStamp = WinStamp(i64: int, maxTimeoutMsec: int)

  function WinDeadline(filetime: nat, nsec: nat): WinStamp
  {
    WinStamp(ToSigned64(filetime + nsec / 100), ToSigned32(nsec / 1_000_000))
  }

  class WinTimespec {
    var i64: int
    var maxTimeoutMsec: int

    method SetNsec(filetime: nat, nsec: nat)
      requires filetime < B8 / 2 && nsec < B8
      modifies this
      ensures WinStamp(i64, maxTimeoutMsec) == WinDeadline(filetime, nsec)
    {
      i64 := ToSigned64(filetime + nsec / 100);
      maxTimeoutMsec := ToSigned32(nsec / 1_000_000);
    }
  }

  function WinCmp(ts1: WinStamp, ts2: WinStamp): int
  {
    if ts1.i64 > ts2.i64 then 1 else if ts1.i64 < ts2.i64 then -1 else 0
  }

  function WinDiff(ts1: WinStamp, ts2: WinStamp): nat { (ts1.i64 - ts2.i64) * 100 % B8 }

  /** The millisecond cap survives the cast to a 32-bit long only below 2^31 ms. */
  lemma MaxTimeoutExact(filetime: nat, nsec: nat)
    requires nsec < B8
    ensures WinDeadline(filetime, nsec).maxTimeoutMsec == nsec / 1_000_000
            <==> nsec < 0x8000_0000 * 1_000_000
    ensures -0x8000_0000 <= WinDeadline(filetime, nsec).maxTimeoutMsec < 0x8000_0000
    ensures (WinDeadline(filetime, nsec).maxTimeoutMsec - nsec / 1_000_000) % B4 == 0
  {
  }

  /** The tick count of a deadline, in 64 bits. */
  function Ticks(clock: nat, nsec: nat): (t: nat) { (clock + nsec / 100) % B8 }

  /** The signed count of the Windows branch has turned negative. */
  predicate Negative(clock: nat, nsec: nat) { Ticks(clock, nsec) >= B8 / 2 }

  lemma DeadlineTicks(clock: nat, nsec: nat)
    ensures Total(PosixDeadline(clock, nsec)) == 100 * Ticks(clock, nsec) + nsec % 100
    ensures WinDeadline(clock, nsec).i64 == Ticks(clock, nsec) - if Negative(clock, nsec) then B8 else 0
  {
  }

  /**
    From one clock reading the Windows deadline lies below the POSIX one by the nanoseconds of the
    last tick, if and only if the tick count stays below 2^63; beyond that also by 2^64 ticks.
   */
  lemma WindowsBelowPosix(clock: nat, nsec: nat)
    ensures 100 * WinDeadline(clock, nsec).i64 == Total(PosixDeadline(clock, nsec)) - nsec % 100
            <==> Ticks(clock, nsec) < B8 / 2
    ensures Ticks(clock, nsec) >= B8 / 2 ==>
              100 * WinDeadline(clock, nsec).i64 == Total(PosixDeadline(clock, nsec)) - nsec % 100 - 100 * B8
  {
    DeadlineTicks(clock, nsec);
  }

  /**
    The two platforms order two deadlines differently exactly when one Windows count is negative and
    the other not, or when the deadlines differ within one tick.
   */
  lemma PlatformsDisagree(c1: nat, n1: nat, c2: nat, n2: nat)
    ensures var p := Cmp(PosixDeadline(c1, n1), PosixDeadline(c2, n2));
            var w := WinCmp(WinDeadline(c1, n1), WinDeadline(c2, n2));
            && (p != w <==> Negative(c1, n1) != Negative(c2, n2)
                            || (Ticks(c1, n1) == Ticks(c2, n2) && n1 % 100 != n2 % 100))
            && (p != w && Negative(c1, n1) == Negative(c2, n2) ==> w == 0)
  {
    DeadlineTicks(c1, n1);
    DeadlineTicks(c2, n2);
    CmpIsSign(PosixDeadline(c1, n1), PosixDeadline(c2, n2));
    SignOfParts(Ticks(c1, n1) - Ticks(c2, n2), n1 % 100, n2 % 100);
  }

  lemma SignOfParts(d: int, r1: nat, r2: nat)
    requires r1 < 100 && r2 < 100
    ensures Sign(100 * d + r1 - r2) == if d == 0 then Sign(r1 - r2) else Sign(d)
  {
  }

  /** The two differences agree up to the nanoseconds within a tick, whatever wraps. */
  lemma PlatformDifferences(c1: nat, n1: nat, c2: nat, n2: nat)
    ensures Diff(PosixDeadline(c1, n1), PosixDeadline(c2, n2))
         == (WinDiff(WinDeadline(c1, n1), WinDeadline(c2, n2)) + n1 % 100 - n2 % 100) % B8
  {
    DiffIsGap(PosixDeadline(c1, n1), PosixDeadline(c2, n2));
    DeadlineTicks(c1, n1);
    DeadlineTicks(c2, n2);
    var r := n1 % 100 - n2 % 100;
    var d := (WinDeadline(c1, n1).i64 - WinDeadline(c2, n2).i64) * 100;
    var gap := Total(PosixDeadline(c1, n1)) - Total(PosixDeadline(c2, n2));
    var q1, q2 := if Negative(c1, n1) then 1 else 0, if Negative(c2, n2) then 1 else 0;
    assert gap == d + r + B8 * (100 * (q1 - q2));
    Wrap(gap, d + r, 100 * (q1 - q2));
    Wrap(d % B8 + r, d + r, -(d / B8));
  }
}
