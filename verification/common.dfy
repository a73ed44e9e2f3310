/**
 * Integer widths, return codes, monotonic timestamps and C-string helpers that
 * every other module uses (include/CommonInc.h).
 */
module Common {

  // The C integer types the source stores values in.
  type u8 = x: int | 0 <= x < 0x100
  type u16 = x: int | 0 <= x < 0x1_0000
  type u32 = x: int | 0 <= x < 0x1_0000_0000
  type s32 = x: int | -0x8000_0000 <= x < 0x8000_0000

  const U32Modulus: int := 0x1_0000_0000

  datatype Option<T> = None | Some(value: T)

  /** SUCCESS (0) and FAILURE (-1). */
  datatype Status = Success | Failure {
    function Code(): int {
      if Success? then 0 else -1
    }
  }

  /** TIME_EQUAL (0), TIME_EXPIRED (1) and TIME_NOT_EXPIRED (2). */
  datatype TimeCmp = TimeEqual | TimeExpired | TimeNotExpired {
    function Code(): u32 {
      match this
      case TimeEqual => 0
      case TimeExpired => 1
      case TimeNotExpired => 2
    }
  }

  /** TIMESTAMP: whole seconds and a microsecond field, both U32. */
  datatype TimeStamp = TimeStamp(seconds: u32, micros: u32)

  const ZeroTime := TimeStamp(0, 0)

  /** a is strictly earlier than b: seconds first, then microseconds. */
  predicate Before(a: TimeStamp, b: TimeStamp) {
    a.seconds < b.seconds || (a.seconds == b.seconds && a.micros < b.micros)
  }

  /**
   * SCompareTimeStamp(now, cmp): EXPIRED when cmp lies before now, EQUAL when
   * both fields agree, NOT_EXPIRED when cmp lies after now. The source's final
   * `return TIME_EXPIRED` cannot be reached and has no branch here.
   */
  function CompareTimeStamp(now: TimeStamp, cmp: TimeStamp): (r: TimeCmp)
    ensures r == TimeExpired <==> Before(cmp, now)
    ensures r == TimeEqual <==> cmp == now
    ensures r == TimeNotExpired <==> Before(now, cmp)
  {
    if cmp.seconds < now.seconds then TimeExpired
    else if cmp.seconds > now.seconds then TimeNotExpired
    else if cmp.micros == now.micros then TimeEqual
    else if cmp.micros < now.micros then TimeExpired
    else TimeNotExpired
  }

  /** Swapping the arguments swaps EXPIRED with NOT_EXPIRED and keeps EQUAL. */
  lemma CompareSwapped(a: TimeStamp, b: TimeStamp)
    ensures CompareTimeStamp(a, b) == TimeExpired <==> CompareTimeStamp(b, a) == TimeNotExpired
    ensures CompareTimeStamp(a, b) == TimeNotExpired <==> CompareTimeStamp(b, a) == TimeExpired
    ensures CompareTimeStamp(a, b) == TimeEqual <==> CompareTimeStamp(b, a) == TimeEqual
  {
  }

  /**
   * SAddMsToTimeStamp, in U32 arithmetic: the seconds field grows by
   * (ms + 500) / 1000 (whole seconds rounded half-up) and the microsecond
   * field by ms % 1000; nothing is carried from microseconds into seconds.
   */
  function AddMsToTimeStamp(ts: TimeStamp, ms: u32): (r: TimeStamp)
    ensures (r.seconds - ts.seconds) % U32Modulus == ((ms + 500) % U32Modulus) / 1000
    ensures (r.micros - ts.micros) % U32Modulus == ms % 1000
  {
    var wholeSeconds := ((ms + 500) % U32Modulus) / 1000;
    WrappedAdvance(ts.seconds, wholeSeconds);
    WrappedAdvance(ts.micros, ms % 1000);
    TimeStamp((ts.seconds + wholeSeconds) % U32Modulus, (ts.micros + ms % 1000) % U32Modulus)
  }

  /** A U32 field that grows by k with wrap-around has advanced by k modulo 2^32. */
  lemma WrappedAdvance(a: u32, k: u32)
    ensures ((a + k) % U32Modulus - a) % U32Modulus == k
  {
    if a + k < U32Modulus {
      assert (a + k) % U32Modulus == a + k;
    } else {
      assert (a + k) % U32Modulus == a + k - U32Modulus;
      assert (k - U32Modulus) % U32Modulus == k;
    }
  }

  /** Adding 0 ms leaves a timestamp as it is. */
  lemma AddZeroMs(ts: TimeStamp)
    ensures AddMsToTimeStamp(ts, 0) == ts
  {
  }

  /**
   * When ms + 500 does not wrap, the seconds added are ms / 1000 rounded
   * half-up: the multiple k of 1000 with 1000k - 500 <= ms < 1000k + 500.
   */
  lemma AddMsRoundsHalfUp(ts: TimeStamp, ms: u32)
    requires ms + 500 < U32Modulus
    requires ts.seconds + (ms + 500) / 1000 < U32Modulus
    requires ts.micros + ms % 1000 < U32Modulus
    ensures var r := AddMsToTimeStamp(ts, ms);
      && ts.seconds <= r.seconds
      && 1000 * (r.seconds - ts.seconds) - 500 <= ms < 1000 * (r.seconds - ts.seconds) + 500
      && r.micros == ts.micros + ms % 1000
  {
    var k := (ms + 500) / 1000;
    assert (ms + 500) % U32Modulus == ms + 500;
    assert AddMsToTimeStamp(ts, ms).seconds == ts.seconds + k;
    assert 1000 * k <= ms + 500 < 1000 * k + 1000;
  }

  /**
   * A whole number of seconds moves only the seconds field, by ms / 1000
   * (modulo 2^32), as long as ms + 500 does not wrap.
   */
  lemma AddWholeSeconds(ts: TimeStamp, ms: u32)
    requires ms % 1000 == 0
    requires ms + 500 < U32Modulus
    ensures AddMsToTimeStamp(ts, ms) == TimeStamp((ts.seconds + ms / 1000) % U32Modulus, ts.micros)
  {
    assert (ms + 500) / 1000 == ms / 1000;
  }

  /**
   * The millisecond remainder lands in the microsecond field: 1500 ms moves
   * a timestamp by 2 s and 500 us.
   */
  lemma AddFifteenHundredMs(ts: TimeStamp)
    requires ts.seconds + 2 < U32Modulus && ts.micros + 500 < U32Modulus
    ensures AddMsToTimeStamp(ts, 1500) == TimeStamp(ts.seconds + 2, ts.micros + 500)
  {
  }

  /** A successful clock_gettime(CLOCK_MONOTONIC) result. */
  datatype ClockReading = ClockReading(tvSec: nat, tvNsec: int)

  /**
   * SGetMonotonicTime: all-zero when the clock cannot be read, otherwise
   * tv_sec truncated to U32 and tv_nsec / 1000.
   */
  function GetMonotonicTime(reading: Option<ClockReading>): (ts: TimeStamp)
    requires reading.Some? ==> 0 <= reading.value.tvNsec < 1_000_000_000
    ensures reading.None? ==> ts == ZeroTime
    ensures ts.micros < 1_000_000
    ensures reading.Some? ==>
      && ts.seconds == reading.value.tvSec % U32Modulus
      && ts.micros * 1000 <= reading.value.tvNsec < ts.micros * 1000 + 1000
  {
    match reading
    case None => ZeroTime
    case Some(clock) => TimeStamp(clock.tvSec % U32Modulus, clock.tvNsec / 1000)
  }

  /**
   * The contents of a NUL-terminated buffer: every character before the first
   * NUL, or the whole buffer when it holds none.
   */
  function CStr(s: seq<char>): (r: seq<char>)
    ensures |r| <= |s| && r == s[..|r|]
    ensures '\0' !in r
    ensures |r| < |s| ==> s[|r|] == '\0'
  {
    if s == [] || s[0] == '\0' then [] else [s[0]] + CStr(s[1..])
  }

  /** A C string ends at the first NUL, whatever follows it. */
  lemma {:induction false} CStrStopsAtNul(t: seq<char>, rest: seq<char>)
    requires '\0' !in t
    ensures CStr(t + ['\0'] + rest) == t
    decreases |t|
  {
    if t != [] {
      assert (t + ['\0'] + rest)[1..] == t[1..] + ['\0'] + rest;
      CStrStopsAtNul(t[1..], rest);
    }
  }

  /** A buffer without a NUL is its own C string. */
  lemma {:induction false} CStrWithoutNul(t: seq<char>)
    requires '\0' !in t
    ensures CStr(t) == t
    decreases |t|
  {
    if t != [] {
      CStrWithoutNul(t[1..]);
    }
  }

  /** strlen */
  function StrLen(s: seq<char>): nat {
    |CStr(s)|
  }

  /** The first n characters of s, or all of s when it is shorter. */
  function Truncate(s: seq<char>, n: nat): (r: seq<char>)
    ensures |r| == if |s| <= n then |s| else n
    ensures r == s[..|r|]
  {
    if |s| <= n then s else s[..n]
  }

  /** chr occurs in the C string str. */
  predicate Included(chr: char, str: seq<char>) {
    chr in CStr(str)
  }

  /** SCharIncluded: SUCCESS iff chr is one of the first strlen(str) characters. */
  method CharIncluded(chr: char, str: seq<char>) returns (r: Status)
    ensures r == Success <==> exists i :: 0 <= i < StrLen(str) && str[i] == chr
    ensures r == Success <==> Included(chr, str)
  {
    var iLen := StrLen(str);
    var i := 0;
    while i < iLen
      invariant 0 <= i <= iLen
      invariant forall k :: 0 <= k < i ==> str[k] != chr
    {
      if chr == str[i] {
        return Success;
      }
      i := i + 1;
    }
    return Failure;
  }

  /** The terminating NUL is never part of a C string. */
  lemma NulNeverIncluded(str: seq<char>)
    ensures !Included('\0', str)
  {
  }
}
