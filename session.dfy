/** The deterministic session settings: the target address a session dials and
    the timeout it applies to every request. */
module Session {
  import opened Types

  /** The SNMP port appended to a target that names none. */
  const DefaultPort: nat := 161

  /** `time.Second`, in nanoseconds. */
  const Second: int := 1_000_000_000

  /** The timeout `SetTimeout` falls back to, in seconds. */
  const DefaultTimeoutSeconds: int64 := 5

  /** The largest whole number of seconds whose duration fits in an `int64`. */
  const MaxWholeSeconds: int64 := 9_223_372_036

  const TwoTo63: int := 0x8000_0000_0000_0000
  const TwoTo64: int := 0x1_0000_0000_0000_0000

  /** Two's-complement wrap-around of a mathematical integer into an `int64`,
      as Go's signed arithmetic does on overflow. */
  function Wrap64(x: int): (r: int64)
    ensures (r as int - x) % TwoTo64 == 0
    ensures -TwoTo63 <= x < TwoTo63 ==> r as int == x
  {
    var m := x % TwoTo64;
    if m >= TwoTo63 then (m - TwoTo64) as int64 else m as int64
  }

  /** `time.Duration(seconds) * time.Second`. */
  function Seconds(seconds: int64): (d: Duration)
    ensures 0 <= seconds <= MaxWholeSeconds ==> d as int == seconds as int * Second
    ensures (d as int - seconds as int * Second) % TwoTo64 == 0
  {
    Wrap64(seconds as int * Second)
  }

  /** The timeout `SetTimeout(seconds)` installs: non-positive requests fall
      back to five seconds. */
  function TimeoutFor(seconds: int64): (d: Duration)
    ensures seconds <= 0 ==> d as int == 5 * Second
    ensures 0 < seconds <= MaxWholeSeconds ==> d as int == seconds as int * Second && d > 0
  {
    Seconds(if seconds <= 0 then DefaultTimeoutSeconds else seconds)
  }

  /** Beyond `MaxWholeSeconds` the multiplication wraps: one second more
      yields a negative timeout, a deadline already in the past. */
  lemma TimeoutOverflows()
    ensures TimeoutFor(MaxWholeSeconds + 1) < 0
  {
    assert (MaxWholeSeconds as int + 1) * Second % TwoTo64 == 9_223_372_037_000_000_000;
  }

  predicate IsDigits(s: string)
  {
    forall i :: 0 <= i < |s| ==> '0' <= s[i] <= '9'
  }

  /** The number a string of decimal digits denotes. */
  function DigitsValue(s: string): nat
    requires IsDigits(s)
  {
    if s == [] then 0 else 10 * DigitsValue(s[..|s| - 1]) + (s[|s| - 1] - '0') as nat
  }

  /** The decimal digits of `n`, as `%d` prints them: they denote `n`, with no
      leading zero. */
  function Decimal(n: nat): (s: string)
    ensures |s| >= 1 && IsDigits(s)
    ensures DigitsValue(s) == n
    ensures |s| > 1 ==> s[0] != '0'
  {
    var digit := ['0' + (n % 10) as char];
    if n < 10 then digit
    else
      var high := Decimal(n / 10);
      assert (high + digit)[..|high + digit| - 1] == high;
      high + digit
  }

  /** The address `Connect` dials: a target without a ':' gets ":161" appended. */
  function NormalizeTarget(target: string): (r: string)
    ensures target <= r
    ensures ':' in r
    ensures r == target <==> ':' in target
    ensures r != target ==> r[|target|..] == ":161"
  {
    if ':' in target then target
    else
      assert Decimal(DefaultPort) == "161";
      target + ":" + Decimal(DefaultPort)
  }

  /** Normalising twice changes nothing more. */
  lemma NormalizeIdempotent(target: string)
    ensures NormalizeTarget(NormalizeTarget(target)) == NormalizeTarget(target)
  {
  }
}
