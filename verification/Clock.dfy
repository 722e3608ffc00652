/** Waiting on a millisecond counter that wraps (interval and recalc_timeout in
    mdns/mdns.c, the sleep time of do_querier in mdns/mdns_query.c). */
module Clock {
  import opened Bytes

  const WRAP := 0x1_0000_0000

  /** What the counter shows at time t. */
  function Shown(t: nat): u32 {
    t % WRAP
  }

  function Interval(start: u32, stop: u32): u32 {
    if stop >= start then stop - start else U32_MAX - start + stop
  }

  /** The time to wait again after an interruption. */
  function Recalc(start: u32, stop: u32, target: u32): u32 {
    var waited := Interval(start, stop);
    if target <= waited then 0 else target - waited
  }

  /** The saturating sum of the querier. */
  function Add(a: u32, b: u32): u32 {
    if a > U32_MAX - b then U32_MAX else a + b
  }

  function Subtract(a: u32, b: u32): u32 {
    if a > b then a - b else 0
  }

  /** Across any number of wraps the interval is never longer than the time that
      went by; below one wrap it is short by at most one. */
  lemma IntervalBound(t: nat, e: nat)
    ensures Interval(Shown(t), Shown(t + e)) <= e
    ensures e < WRAP ==> e - 1 <= Interval(Shown(t), Shown(t + e))
    ensures e < WRAP && Shown(t) + e < WRAP ==> Interval(Shown(t), Shown(t + e)) == e
  {
    var q, r := t / WRAP, t % WRAP;
    assert t == q * WRAP + r;
    var k, s := (r + e) / WRAP, (r + e) % WRAP;
    assert t + e == (q + k) * WRAP + s;
    ModIs(t + e, q + k, s);
  }

  lemma ModIs(x: int, q: int, r: int)
    requires x == q * WRAP + r && 0 <= r < WRAP
    ensures x % WRAP == r
  {
  }

  /** An interrupted wait never ends early. */
  lemma RecalcEnough(t: nat, e: nat, target: u32)
    ensures e + Recalc(Shown(t), Shown(t + e), target) >= target
  {
    IntervalBound(t, e);
  }

  /** The time by which the querier ages its records, for any sleep shorter than
      one wrap: at least the time slept, and at most one more. */
  lemma SleepTime(t: nat, e: nat)
    requires e < WRAP
    ensures e <= Add(Interval(Shown(t), Shown(t + e)), 1) <= e + 1
  {
    IntervalBound(t, e);
  }
}
