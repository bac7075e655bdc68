/** Wrapping uptimes and NTP fractions. */
module Timestamps {
  import opened Bytes
  import opened Ipfix
  import Calendar

  const SECOND: nat := 1_000_000_000
  const MILLISECOND: nat := 1_000_000
  const NTP_UNIX_EPOCH_DIFF: nat := 2_208_988_800
  const TWO32: nat := 0x1_0000_0000

  /** The last second a date can represent, the end of year 262142. */
  const MAX_SECONDS: nat := 8_210_266_876_799

  function Seconds(t: Time): int {
    t / SECOND
  }

  function SubsecNanos(t: Time): (n: nat)
    ensures n < SECOND
  {
    t % SECOND
  }

  function Millis(t: Time): int {
    t / MILLISECOND
  }

  /** A date in NTP format: seconds since 1900 and a binary fraction. */
  function NtpSeconds(t: Time): u32 {
    (Seconds(t) + NTP_UNIX_EPOCH_DIFF) % TWO32
  }

  function NtpFraction(nanos: nat): (f: u32)
    requires nanos < SECOND
  {
    nanos * TWO32 / SECOND
  }

  /** NTP counts from 1900, and dates end with the year 262142. */
  lemma Epochs()
    ensures Calendar.Timestamp(Calendar.Civil(1900, 1, 1, 0, 0, 0)) + NTP_UNIX_EPOCH_DIFF == 0
    ensures NtpToTime(0, 0) == Calendar.Timestamp(Calendar.Civil(1900, 1, 1, 0, 0, 0)) * SECOND
    ensures Calendar.Timestamp(Calendar.Civil(262_142, 12, 31, 23, 59, 59)) == MAX_SECONDS
  {
    Calendar.MonthStarts(262_142, 12);
  }

  function FractionNanos(f: u32): (n: nat)
    ensures n < SECOND
  {
    f * SECOND / TWO32
  }

  function NtpToTime(seconds: u32, fraction: u32): Time {
    (seconds - NTP_UNIX_EPOCH_DIFF) * SECOND + FractionNanos(fraction)
  }

  /** Nanoseconds that are a whole number of 2^-32 seconds: 5^9 divides them. */
  predicate ExactInNtp(nanos: nat) {
    nanos % 1_953_125 == 0
  }

  /** Through NTP and back loses at most a nanosecond, and none exactly when 5^9 divides it. */
  lemma FractionRoundTrip(nanos: nat)
    requires nanos < SECOND
    ensures var back := FractionNanos(NtpFraction(nanos));
            nanos - 1 <= back <= nanos && (back == nanos <==> ExactInNtp(nanos))
  {
    // 2^32 / 10^9 == 2^23 / 5^9
    var f := NtpFraction(nanos);
    var q, r := nanos / 1_953_125, nanos % 1_953_125;
    if f * SECOND == nanos * TWO32 {
      assert (f - q * 0x80_0000) * 1_953_125 == r * 0x80_0000;
      Coprime(r, f - q * 0x80_0000);
    }
  }

  /** 2^23 and 5^9 are coprime. */
  lemma Coprime(r: nat, k: int)
    requires r < 1_953_125 && k * 1_953_125 == r * 0x80_0000
    ensures r == 0
  {
    // 2^23 * 1241897 == 1 + 5333907 * 5^9
    assert r == 1_953_125 * (k * 1_241_897 - r * 5_333_907);
  }

  // Uptimes

  /** Milliseconds since boot, modulo 2^32. */
  function Wrapped(trueMillis: int): u32 {
    trueMillis % TWO32
  }

  /** `wrapping_sub`, read as an i32. */
  function WrappingDifference(a: u32, b: u32): i32 {
    var d := (a - b) % TWO32;
    if d >= 0x8000_0000 then d - TWO32 else d
  }

  function UptimeToAbsolute(exportTime: Time, sysUptime: u32, uptime: u32): Time {
    exportTime - WrappingDifference(sysUptime, uptime) * MILLISECOND
  }

  /** In IPFIX the header has no uptime; it is computed from when the exporter booted. */
  function IpfixUptimeToAbsolute(exportTime: Time, bootMillis: int, uptime: u32): Time {
    UptimeToAbsolute(exportTime, Wrapped(Millis(exportTime) - bootMillis), uptime)
  }

  /** The wrapped difference is the true one exactly when that fits an i32. */
  lemma WrappingDifferenceIsTrue(a: int, b: int)
    ensures WrappingDifference(Wrapped(a), Wrapped(b)) == a - b <==> -0x8000_0000 <= a - b < 0x8000_0000
  {
    var qa, qb := a / TWO32, b / TWO32;
    var d := Wrapped(a) - Wrapped(b);
    assert a - b == TWO32 * (qa - qb) + d;
    if d < 0 {
      assert d % TWO32 == d + TWO32;
    } else {
      assert d % TWO32 == d;
    }
  }

  /** The stamp is the export time less the true difference, exactly when that difference fits an i32. */
  lemma UptimeIsExact(exportTime: Time, sysUptime: int, uptime: int)
    ensures UptimeToAbsolute(exportTime, Wrapped(sysUptime), Wrapped(uptime))
            == exportTime - (sysUptime - uptime) * MILLISECOND
            <==> -0x8000_0000 <= sysUptime - uptime < 0x8000_0000
  {
    WrappingDifferenceIsTrue(sysUptime, uptime);
  }

  /** Boot time plus uptime, keeping the export time's part below a millisecond. */
  lemma IpfixUptimeIsExact(exportTime: Time, bootMillis: int, uptime: int)
    ensures IpfixUptimeToAbsolute(exportTime, bootMillis, Wrapped(uptime))
            == (bootMillis + uptime) * MILLISECOND + exportTime % MILLISECOND
            <==> -0x8000_0000 <= Millis(exportTime) - bootMillis - uptime < 0x8000_0000
  {
    UptimeIsExact(exportTime, Millis(exportTime) - bootMillis, uptime);
  }
}
