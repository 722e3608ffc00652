/** Refreshing cached records (apply_elapsed and update_arec in
    mdns/mdns_query.c): how often a record is asked for again, when, and when it
    is given up, as long as nothing is heard, in the time the querier charges. */
module Refresh {
  import opened Bytes
  import opened Clock
  import opened Cache
  import Packet

  // ----- shares of a lifetime -----

  /** The share is what it says exactly as long as the product fits 32 bits. */
  lemma ShareExact(ttl: u32, percent: nat)
    requires percent > 0
    ensures Share(ttl, percent) == ttl * percent / 100 <==> ttl <= U32_MAX / percent
  {
    var x := ttl * percent;
    ProductFits(ttl, percent);
    if x >= WRAP {
      assert x % WRAP <= x - WRAP by {
        assert x / WRAP >= 1;
      }
      assert (x - WRAP) / 100 < x / 100;
      assert x % WRAP / 100 <= (x - WRAP) / 100;
    }
  }

  lemma ProductFits(ttl: u32, percent: nat)
    requires percent > 0
    ensures ttl * percent < WRAP <==> ttl <= U32_MAX / percent
  {
    var q, r := U32_MAX / percent, U32_MAX % percent;
    assert U32_MAX == q * percent + r;
    if ttl <= q {
      assert ttl * percent <= q * percent;
    } else {
      assert ttl * percent >= (q + 1) * percent == q * percent + percent;
    }
  }

  // ----- instances -----

  /** The clockwork of an instance: its lifetime, the share it is at, and the
      time left to the next refresh. */
  datatype Timer = Timer(ttl: u32, percent: nat, next: u32)

  function TimerOf(s: Instance): Timer {
    Timer(s.srvTtl0, s.percent, s.nextRefresh)
  }

  /** Some time goes by: nothing, another attempt, or the end. */
  function Tick(t: Timer, elapsed: u32): Option<Timer> {
    var left := Subtract(t.next, elapsed);
    if left != 0 then Some(t.(next := left))
    else if t.percent < 5 then None
    else Some(Timer(t.ttl, t.percent / 2, Share(t.ttl, if t.percent == 20 then 80 else t.percent)))
  }

  /** An instance is aged by its clockwork, and asked for in the query with every
      attempt for which there is room. */
  lemma AgeInstanceTicks(w: Walk, i: nat, elapsed: u32)
    requires Slot(w.c, i)
    ensures var s, d := w.c.sinsts[i], AgeInstance(w, i, elapsed);
            var t := Tick(TimerOf(s), elapsed);
            var attempt := t.Some? && t.value.percent != s.percent;
            var (q, fits) := Ask(w.q, w.c.fqsn[i], Packet.T_ANY);
            && (t.None? ==> d.c.sinsts[i].nextRefresh == U32_MAX && d.c.g == Pools.Free(w.c.g, i))
            && (t.Some? ==> TimerOf(d.c.sinsts[i]) == t.value && d.c.g == w.c.g)
            && (d.sends == w.sends + 1 <==> attempt && fits) && d.q == if attempt then q else w.q
  {
  }

  /** The attempts and the time still to come. */
  function AttemptsLeft(percent: nat): nat {
    if percent < 5 then 0 else 1 + AttemptsLeft(percent / 2)
  }

  function WaitLeft(ttl: u32, percent: nat): nat {
    if percent < 5 then 0 else Share(ttl, if percent == 20 then 80 else percent) + WaitLeft(ttl, percent / 2)
  }

  function Sum(es: seq<u32>): nat {
    if es == [] then 0 else es[0] + Sum(es[1..])
  }

  /** The attempts made while some time goes by, and whether the end came. */
  function Life(t: Timer, es: seq<u32>): (r: (nat, bool))
    decreases |es|
  {
    if es == [] then (0, false)
    else
      var u := Tick(t, es[0]);
      if u.None? then (0, true)
      else
        var (n, gone) := Life(u.value, es[1..]);
        (n + if u.value.percent == t.percent then 0 else 1, gone)
  }

  /** An instance is given up after exactly the attempts left, and not before the
      waits scheduled for them are over. */
  lemma {:induction false} LifeExact(t: Timer, es: seq<u32>)
    ensures Life(t, es).1 ==> Life(t, es).0 == AttemptsLeft(t.percent)
    ensures Life(t, es).1 ==> Sum(es) >= t.next + WaitLeft(t.ttl, t.percent)
    ensures Life(t, es).0 <= AttemptsLeft(t.percent)
    decreases |es|
  {
    if es != [] {
      var u := Tick(t, es[0]);
      if u.Some? {
        LifeExact(u.value, es[1..]);
      }
    }
  }

  /** A bound on the passes an instance can live through. */
  function Rank(t: Timer): nat {
    t.next + 1 + Ahead(t.ttl, t.percent)
  }

  function Ahead(ttl: u32, percent: nat): nat {
    if percent < 5 then 0 else Share(ttl, if percent == 20 then 80 else percent) + 1 + Ahead(ttl, percent / 2)
  }

  /** Every pass brings the end nearer. */
  lemma TickLowers(t: Timer, elapsed: u32)
    requires elapsed >= 1 && Tick(t, elapsed).Some?
    ensures var u := Tick(t, elapsed).value;
            && Rank(u) < Rank(t)
            && (u.percent < t.percent || (u.percent == t.percent && u.next < t.next))
  {
  }

  lemma {:induction false} LifeEnds(t: Timer, es: seq<u32>)
    requires |es| >= Rank(t) && forall j :: 0 <= j < |es| ==> es[j] >= 1
    ensures Life(t, es).1
    decreases |es|
  {
    var u := Tick(t, es[0]);
    if u.Some? {
      TickLowers(t, es[0]);
      LifeEnds(u.value, es[1..]);
    }
  }

  /** From the receipt of an SRV: three attempts, and no end before 80, 80, 10
      and 5 percent of the lifetime have been charged. */
  lemma InstanceLife(s: Instance, port: u16, ttl: u32, es: seq<u32>)
    requires Millis(ttl) <= U32_MAX / 80
    ensures var t, life := TimerOf(Renewed(s, port, ttl, 0)), Millis(ttl);
            Life(t, es).1 ==>
              && Life(t, es).0 == 3
              && Sum(es) >= life * 80 / 100 + life * 80 / 100 + life * 10 / 100 + life * 5 / 100
  {
    var t, life := TimerOf(Renewed(s, port, ttl, 0)), Millis(ttl);
    LifeExact(t, es);
    ShareExact(life, 80);
    ShareExact(life, 10);
    ShareExact(life, 5);
    assert AttemptsLeft(20) == 1 + AttemptsLeft(10) == 2 + AttemptsLeft(5) == 3 + AttemptsLeft(2);
    assert WaitLeft(life, 20) == Share(life, 80) + WaitLeft(life, 10);
    assert WaitLeft(life, 10) == Share(life, 10) + WaitLeft(life, 5);
    assert WaitLeft(life, 5) == Share(life, 5) + WaitLeft(life, 2);
  }

  // ----- address records -----

  function RecordTick(s: Record, elapsed: u32): Option<Record> {
    var left := Subtract(s.nextRefresh, elapsed);
    match s.state
    case ArecInit => Some(s.(state := ArecQuerying, ttl := 1000, nextRefresh := 800, percent := 10))
    case ArecQuerying =>
      if left != 0 then Some(s.(nextRefresh := left))
      else if s.percent < 5 then None
      else Some(s.(percent := s.percent / 2, nextRefresh := Share(s.ttl, s.percent / 2)))
    case ArecResolved =>
      if left != 0 then Some(s.(nextRefresh := left))
      else Some(s.(state := ArecQuerying, percent := 10, nextRefresh := Share(s.ttl, 10)))
  }

  /** A record is aged by its clockwork, which asks as it says. */
  lemma AgeRecordTicks(w: Walk, a: nat, elapsed: u32)
    requires Slot(w.c, a)
    ensures var s, d := RecordTick(w.c.arecs[a], elapsed), AgeRecord(w, a, elapsed);
            && (s.Some? ==> d.c == SetRecord(w.c, a, s.value))
            && (s.None? ==> d.c == Evict(SetRecord(w.c, a, w.c.arecs[a].(nextRefresh := 0)), a))
            && (d.sends == w.sends + 1 <==> s.Some? && Asks(w.c.arecs[a], s.value))
            && d.q == if s.Some? && Asks(w.c.arecs[a], s.value) then Ask(w.q, w.c.fqdn[a], Packet.T_A).0 else w.q
  {
    hide Evict;
  }

  /** A step that is an attempt. */
  predicate Asks(s: Record, u: Record) {
    s.state != u.state || s.percent != u.percent
  }

  function RecordAttemptsLeft(s: Record): nat {
    match s.state
    case ArecInit => 1 + AttemptsLeft(10)
    case ArecQuerying => AttemptsLeft(s.percent)
    case ArecResolved => 1 + AttemptsLeft(10)
  }

  function RecordWait(ttl: u32, percent: nat): nat {
    if percent < 5 then 0 else Share(ttl, percent / 2) + RecordWait(ttl, percent / 2)
  }

  function RecordWaitLeft(s: Record): nat {
    match s.state
    case ArecInit => 800 + RecordWait(1000, 10)
    case ArecQuerying => s.nextRefresh + RecordWait(s.ttl, s.percent)
    case ArecResolved => s.nextRefresh + Share(s.ttl, 10) + RecordWait(s.ttl, 10)
  }

  function RecordLife(s: Record, es: seq<u32>): (r: (nat, bool))
    decreases |es|
  {
    if es == [] then (0, false)
    else
      var u := RecordTick(s, es[0]);
      if u.None? then (0, true)
      else
        var (n, gone) := RecordLife(u.value, es[1..]);
        (n + if Asks(s, u.value) then 1 else 0, gone)
  }

  lemma {:induction false} RecordLifeExact(s: Record, es: seq<u32>)
    ensures RecordLife(s, es).1 ==> RecordLife(s, es).0 == RecordAttemptsLeft(s)
    ensures RecordLife(s, es).1 ==> Sum(es) >= RecordWaitLeft(s)
    ensures RecordLife(s, es).0 <= RecordAttemptsLeft(s)
    decreases |es|
  {
    if es != [] {
      var u := RecordTick(s, es[0]);
      if u.Some? {
        RecordLifeExact(u.value, es[1..]);
      }
    }
  }

  function RecordAhead(ttl: u32, percent: nat): nat {
    if percent < 5 then 0 else Share(ttl, percent / 2) + 1 + RecordAhead(ttl, percent / 2)
  }

  function RecordRank(s: Record): nat {
    match s.state
    case ArecInit => 802 + RecordAhead(1000, 10)
    case ArecQuerying => s.nextRefresh + 1 + RecordAhead(s.ttl, s.percent)
    case ArecResolved => s.nextRefresh + 2 + Share(s.ttl, 10) + RecordAhead(s.ttl, 10)
  }

  lemma RecordTickLowers(s: Record, elapsed: u32)
    requires elapsed >= 1 && RecordTick(s, elapsed).Some?
    ensures RecordRank(RecordTick(s, elapsed).value) < RecordRank(s)
  {
  }

  lemma {:induction false} RecordLifeEnds(s: Record, es: seq<u32>)
    requires |es| >= RecordRank(s) && forall j :: 0 <= j < |es| ==> es[j] >= 1
    ensures RecordLife(s, es).1
    decreases |es|
  {
    var u := RecordTick(s, es[0]);
    if u.Some? {
      RecordTickLowers(s, es[0]);
      RecordLifeEnds(u.value, es[1..]);
    }
  }

  /** The record that an A record of some lifetime leaves. */
  function Resolved(ip: u32, ttl: u32): Record {
    Record(ip, Millis(ttl), ArecResolved, Share(Millis(ttl), 80), 10)
  }

  /** The record as it leaves the turn in which its A record was received.  The
      pass of that turn takes the time slept before the receipt off its wait, and
      asks for it again at once exactly if that was 80 percent of its lifetime. */
  lemma LeavesTurn(ip: u32, ttl: u32, elapsed: u32)
    ensures var s, first := Resolved(ip, ttl), Share(Millis(ttl), 80);
            RecordTick(s, elapsed) ==
            Some(if first <= elapsed then s.(state := ArecQuerying, nextRefresh := Share(Millis(ttl), 10))
                 else s.(nextRefresh := first - elapsed))
    ensures Asks(Resolved(ip, ttl), RecordTick(Resolved(ip, ttl), elapsed).value) <==> Share(Millis(ttl), 80) <= elapsed
  {
  }

  /** What is then left of the lifetime's first 80 percent. */
  function FirstWait(ttl: u32, elapsed: u32): u32 {
    Subtract(Share(Millis(ttl), 80), elapsed)
  }

  /** From the turn of its receipt on, a record is given up after three attempts in
      all, and not before what is left of the first 80 percent, and 10, 5 and 2
      percent of the lifetime have been charged. */
  lemma AddressLife(ip: u32, ttl: u32, elapsed: u32, es: seq<u32>)
    requires Millis(ttl) <= U32_MAX / 80
    ensures var life, s := Millis(ttl), RecordTick(Resolved(ip, ttl), elapsed).value;
            RecordLife(s, es).1 ==>
              && RecordLife(s, es).0 + (if Asks(Resolved(ip, ttl), s) then 1 else 0) == 3
              && Sum(es) >= FirstWait(ttl, elapsed) + life * 10 / 100 + life * 5 / 100 + life * 2 / 100
  {
    var life, s := Millis(ttl), RecordTick(Resolved(ip, ttl), elapsed).value;
    LeavesTurn(ip, ttl, elapsed);
    RecordLifeExact(s, es);
    ShareExact(life, 10);
    ShareExact(life, 5);
    ShareExact(life, 2);
    assert AttemptsLeft(10) == 1 + AttemptsLeft(5) == 2 + AttemptsLeft(2);
    assert RecordWait(life, 10) == Share(life, 5) + RecordWait(life, 5);
    assert RecordWait(life, 5) == Share(life, 2) + RecordWait(life, 2);
  }

  /** Without an answer to the first query a record lives through three queries,
      and a charge of at least 80, 5 and 2 percent of a second. */
  lemma UnansweredLife(s: Record, es: seq<u32>)
    requires s.state == ArecInit && RecordLife(s, es).1
    ensures RecordLife(s, es).0 == 3 && Sum(es) >= 870
  {
    RecordLifeExact(s, es);
    assert AttemptsLeft(10) == 1 + AttemptsLeft(5) == 2 + AttemptsLeft(2);
    assert RecordWait(1000, 10) == Share(1000, 5) + RecordWait(1000, 5);
    assert RecordWait(1000, 5) == Share(1000, 2) + RecordWait(1000, 2);
  }

  /** Above the bound the share wraps: an instance with a lifetime of 53687092
      milliseconds is asked for again at once. */
  lemma ShareWraps()
    ensures Share(53687092, 80) == 0 && 53687092 > U32_MAX / 80
  {
  }

  // ----- a packet and the pass behind it -----

  /** Adding the time that went by before a pass takes it off again leaves the
      lifetime whole exactly if the sum fits. */
  lemma ElapsedCancels(x: u32, elapsed: u32)
    ensures Subtract(Add(x, elapsed), elapsed) == x <==> x + elapsed <= U32_MAX
  {
  }

  /** An SRV or a PTR received in the same turn as a pass starts with its full
      lifetime. */
  lemma ReceivedBeforePass(s: Instance, port: u16, ttl: u32, elapsed: u32)
    requires Millis(ttl) + elapsed <= U32_MAX
    ensures var srv := Aged(Renewed(s, port, ttl, elapsed), elapsed);
            srv.srvTtl == Millis(ttl) && TimerOf(srv) == Timer(Millis(ttl), 20, Share(Millis(ttl), 80))
    ensures Aged(s.(ptrTtl := Add(Millis(ttl), elapsed)), elapsed).ptrTtl == Millis(ttl)
  {
    ElapsedCancels(Millis(ttl), elapsed);
    assert Share(Millis(ttl), 80) <= Millis(ttl) by {
      ShareAtMost(Millis(ttl), 80);
    }
    ElapsedCancels(Share(Millis(ttl), 80), elapsed);
  }

  lemma ShareAtMost(ttl: u32, percent: nat)
    requires percent <= 100
    ensures Share(ttl, percent) <= ttl
  {
    var x: nat := ttl * percent;
    assert x <= ttl * 100;
    assert x % WRAP <= x;
    assert x % WRAP / 100 <= ttl;
  }
}
