/** How long cached records live by the clock (do_querier in mdns/mdns_query.c).
    The querier rounds every sleep up by a millisecond, and sleeps once for every
    packet it hears, so that its records age faster than time goes by. */
module Lifetimes {
  import opened Bytes
  import opened Clock
  import opened Cache
  import opened Refresh

  // ----- sleeps -----

  /** A call of select, from the time it was entered to the time it came back. */
  datatype Sleep = Sleep(start: nat, stop: nat)

  /** What the querier takes it for. */
  function Charge(s: Sleep): (e: u32)
    ensures e >= 1
  {
    Add(Interval(Shown(s.start), Shown(s.stop)), 1)
  }

  function Charges(ss: seq<Sleep>): (es: seq<u32>)
    ensures |es| == |ss| && forall j :: 0 <= j < |es| ==> es[j] == Charge(ss[j])
    ensures AtLeastOne(es)
  {
    seq(|ss|, j requires 0 <= j < |ss| => Charge(ss[j]))
  }

  predicate AtLeastOne(es: seq<u32>) {
    forall j :: 0 <= j < |es| ==> es[j] >= 1
  }

  /** The sleeps follow one another from some time on, however much time is spent
      between them. */
  predicate Following(ss: seq<Sleep>, from: nat) {
    ss == [] || (from <= ss[0].start <= ss[0].stop && Following(ss[1..], ss[0].stop))
  }

  /** The time when the last of them is over. */
  function End(ss: seq<Sleep>, from: nat): nat {
    if ss == [] then from else End(ss[1..], ss[0].stop)
  }

  /** The querier never counts more than the time that went by and a millisecond for
      every sleep. */
  lemma {:induction false} ChargedAtMost(ss: seq<Sleep>, from: nat)
    requires Following(ss, from)
    ensures from + Sum(Charges(ss)) <= End(ss, from) + |ss|
  {
    hide Charge;
    if ss != [] {
      var s := ss[0];
      ChargedAtMost(ss[1..], s.stop);
      assert Charges(ss)[1..] == Charges(ss[1..]);
      ChargeBound(s);
    }
  }

  lemma ChargeBound(s: Sleep)
    requires s.start <= s.stop
    ensures Charge(s) <= s.stop - s.start + 1
    ensures s.stop < WRAP ==> Charge(s) as int == if s.stop - s.start == U32_MAX then U32_MAX else s.stop - s.start + 1
  {
    IntervalBound(s.start, s.stop - s.start);
  }

  /** Sleeps that are charged as given, without a pause between them. */
  function Sleeps(es: seq<u32>, from: nat): seq<Sleep>
    requires AtLeastOne(es)
  {
    if es == [] then []
    else
      assert forall j :: 0 <= j < |es[1..]| ==> es[1..][j] == es[j + 1];
      [Sleep(from, from + es[0] - 1)] + Sleeps(es[1..], from + es[0] - 1)
  }

  lemma {:induction false} SleepsAre(es: seq<u32>, from: nat)
    requires AtLeastOne(es) && from + Sum(es) < WRAP
    ensures var ss := Sleeps(es, from);
            Following(ss, from) && Charges(ss) == es && End(ss, from) + |es| == from + Sum(es)
  {
    hide Charge, Charges, Following, End, Sleeps, Sum;
    if es == [] {
      NoSleeps(from);
    } else {
      var s, rest := Sleep(from, from + es[0] - 1), es[1..];
      FirstSleep(es, from);
      SleepsAre(rest, s.stop);
      SleepFirst(s, Sleeps(rest, s.stop), from);
      ChargeBound(s);
      assert es == [es[0]] + rest;
    }
  }

  lemma NoSleeps(from: nat)
    ensures Sleeps([], from) == [] && Following([], from) && Charges([]) == [] && End([], from) == from && Sum([]) == 0
  {
  }

  lemma FirstSleep(es: seq<u32>, from: nat)
    requires AtLeastOne(es) && es != []
    ensures AtLeastOne(es[1..]) && Sum(es) == es[0] + Sum(es[1..])
    ensures Sleeps(es, from) == [Sleep(from, from + es[0] - 1)] + Sleeps(es[1..], from + es[0] - 1)
  {
    assert forall j :: 0 <= j < |es[1..]| ==> es[1..][j] == es[j + 1];
  }

  lemma SleepFirst(s: Sleep, ss: seq<Sleep>, from: nat)
    ensures Following([s] + ss, from) <==> from <= s.start <= s.stop && Following(ss, s.stop)
    ensures End([s] + ss, from) == End(ss, s.stop) && Charges([s] + ss) == [Charge(s)] + Charges(ss)
  {
    hide Charge;
    assert ([s] + ss)[1..] == ss;
  }

  // ----- waits -----

  /** One wait after the other; a pass takes the time charged off the first, and ends
      it when nothing is left. */
  function Passed(ws: seq<u32>, e: u32): seq<u32>
    requires ws != []
  {
    var left := Subtract(ws[0], e);
    if left != 0 then [left] + ws[1..] else ws[1..]
  }

  predicate Over(ws: seq<u32>, es: seq<u32>)
    decreases |es|
  {
    ws == [] || (es != [] && Over(Passed(ws, es[0]), es[1..]))
  }

  /** The least that must be charged: every wait, and a millisecond for one of
      none. */
  function Least(ws: seq<u32>): nat {
    if ws == [] then 0 else (if ws[0] == 0 then 1 else ws[0]) + Least(ws[1..])
  }

  lemma LeastPassed(ws: seq<u32>, e: u32)
    requires ws != [] && e >= 1
    ensures Least(ws) <= e + Least(Passed(ws, e))
    ensures |Passed(ws, e)| >= |ws| - 1
    ensures e <= ws[0] || e == 1 ==> Least(ws) == e + Least(Passed(ws, e))
  {
    var left := Subtract(ws[0], e);
    assert ([left] + ws[1..])[1..] == ws[1..];
  }

  lemma {:induction false} OverNeeds(ws: seq<u32>, es: seq<u32>)
    requires AtLeastOne(es) && Over(ws, es)
    ensures Sum(es) >= Least(ws) && |es| >= |ws|
    decreases |es|
  {
    hide Passed;
    if ws != [] {
      LeastPassed(ws, es[0]);
      assert forall j :: 0 <= j < |es[1..]| ==> es[1..][j] == es[j + 1];
      OverNeeds(Passed(ws, es[0]), es[1..]);
    }
  }

  lemma {:induction false} LeastCount(ws: seq<u32>)
    ensures Least(ws) >= |ws|
  {
    if ws != [] {
      LeastCount(ws[1..]);
    }
  }

  /** With any number of passes from one for every wait to one for every millisecond,
      no more than the least need be charged. */
  lemma {:induction false} OverInLeast(ws: seq<u32>, n: nat) returns (es: seq<u32>)
    requires |ws| <= n <= Least(ws)
    ensures |es| == n && AtLeastOne(es) && Over(ws, es) && Sum(es) == Least(ws)
    decreases Least(ws), |ws|
  {
    hide Passed;
    if ws == [] {
      return [];
    }
    var one := Passed(ws, 1);
    LeastPassed(ws, 1);
    LeastCount(one);
    var e: u32 := 1;
    if n - 1 > Least(one) || |one| > n - 1 {
      e := ws[0];
      Shorter(ws);
    }
    LeastPassed(ws, e);
    LeastCount(ws[1..]);
    var rest := OverInLeast(Passed(ws, e), n - 1);
    es := [e] + rest;
    assert es[1..] == rest;
  }

  /** A wait of more than a millisecond can be ended at once or by and by. */
  lemma Shorter(ws: seq<u32>)
    requires ws != []
    ensures ws[0] > 1 ==> |Passed(ws, 1)| == |ws|
    ensures ws[0] <= 1 ==> Passed(ws, 1) == ws[1..]
    ensures Passed(ws, ws[0]) == ws[1..]
  {
  }

  function Ones(n: nat): (es: seq<u32>)
    ensures |es| == n && AtLeastOne(es)
  {
    seq(n, _ => 1)
  }

  /** A pass for every millisecond is enough. */
  lemma {:induction false} OnesOver(ws: seq<u32>, n: nat)
    ensures Over(ws, Ones(n)) <==> n >= Least(ws)
    decreases n
  {
    hide Passed;
    LeastCount(ws);
    if ws != [] && n > 0 {
      LeastPassed(ws, 1);
      OnesOver(Passed(ws, 1), n - 1);
      assert Ones(n)[1..] == Ones(n - 1);
    }
  }

  // ----- how long at least -----

  /** Whatever n sleeps, if the waits are over then x milliseconds have gone by. */
  ghost predicate Lasts(ws: seq<u32>, from: nat, n: nat, x: nat) {
    forall ss: seq<Sleep> {:trigger Following(ss, from)} ::
      |ss| == n && Following(ss, from) && Over(ws, Charges(ss)) ==> End(ss, from) - from >= x
  }

  lemma LastsAtLeast(ws: seq<u32>, ss: seq<Sleep>, from: nat)
    requires Following(ss, from) && Over(ws, Charges(ss))
    ensures End(ss, from) - from + |ss| >= Least(ws) && |ss| >= |ws| && End(ss, from) >= from
  {
    hide Following, Over, End, Least, Charge, Sum;
    ChargedAtMost(ss, from);
    OverNeeds(ws, Charges(ss));
    EndsLater(ss, from);
  }

  lemma {:induction false} EndsLater(ss: seq<Sleep>, from: nat)
    requires Following(ss, from)
    ensures End(ss, from) >= from
  {
    if ss != [] {
      EndsLater(ss[1..], ss[0].stop);
    }
  }

  /** Exactly how long that is: the waits, less a millisecond for every sleep. */
  lemma LastsIff(ws: seq<u32>, from: nat, n: nat, x: nat)
    requires from + Least(ws) < WRAP
    ensures Lasts(ws, from, n, x) <==> x == 0 || n < |ws| || x + n <= Least(ws)
  {
    hide Following, Over, End, Least, Charges;
    if x == 0 || n < |ws| || x + n <= Least(ws) {
      forall ss: seq<Sleep> {:trigger Following(ss, from)} | |ss| == n && Following(ss, from) && Over(ws, Charges(ss))
        ensures End(ss, from) - from >= x
      {
        LastsAtLeast(ws, ss, from);
      }
    } else {
      var ss := Shortest(ws, from, n);
      assert Following(ss, from) && End(ss, from) - from < x;
    }
  }

  /** A run of sleeps that meets the bound: interrupted at will, or all of no
      time. */
  lemma Shortest(ws: seq<u32>, from: nat, n: nat) returns (ss: seq<Sleep>)
    requires from + Least(ws) < WRAP && n >= |ws|
    ensures |ss| == n && Following(ss, from) && Over(ws, Charges(ss))
    ensures End(ss, from) - from == if n <= Least(ws) then Least(ws) - n else 0
  {
    if n <= Least(ws) {
      var es := OverInLeast(ws, n);
      SleepsAre(es, from);
      ss := Sleeps(es, from);
    } else {
      OnesOver(ws, n);
      ss := Naps(n, from);
    }
  }

  /** Sleeps of no time, each interrupted by a packet that was there already. */
  lemma {:induction false} Naps(n: nat, from: nat) returns (ss: seq<Sleep>)
    ensures |ss| == n && Following(ss, from) && End(ss, from) == from && Charges(ss) == Ones(n)
  {
    ss := [];
    if n > 0 {
      var rest := Naps(n - 1, from);
      ss := [Sleep(from, from)] + rest;
      assert ss[1..] == rest;
      IntervalBound(from, 0);
      assert Charge(Sleep(from, from)) == 1;
      assert Charges(ss) == [1] + Charges(rest) == Ones(n);
    }
  }

  // ----- instances -----

  function SharesAhead(ttl: u32, percent: nat): seq<u32> {
    if percent < 5 then [] else [Share(ttl, if percent == 20 then 80 else percent)] + SharesAhead(ttl, percent / 2)
  }

  /** The waits of an instance. */
  function InstanceWaits(t: Timer): seq<u32> {
    [t.next] + SharesAhead(t.ttl, t.percent)
  }

  lemma TickIsPass(t: Timer, e: u32)
    ensures var u, ws := Tick(t, e), Passed(InstanceWaits(t), e);
            if u.Some? then ws == InstanceWaits(u.value) else ws == []
  {
    hide Share;
    var ws := InstanceWaits(t);
    assert ws[1..] == SharesAhead(t.ttl, t.percent);
  }

  lemma {:induction false} LifeIsOver(t: Timer, es: seq<u32>)
    ensures Life(t, es).1 <==> Over(InstanceWaits(t), es)
    decreases |es|
  {
    hide Share, Tick, Passed;
    if es != [] {
      TickIsPass(t, es[0]);
      var u := Tick(t, es[0]);
      if u.Some? {
        LifeIsOver(u.value, es[1..]);
      } else {
        assert Over([], es[1..]);
      }
    }
  }

  lemma FreshWaits(life: u32)
    requires life <= U32_MAX / 80
    ensures InstanceWaits(Timer(life, 20, Share(life, 80))) ==
            [life * 80 / 100, life * 80 / 100, life * 10 / 100, life * 5 / 100]
  {
    ShareExact(life, 80);
    ShareExact(life, 10);
    ShareExact(life, 5);
    hide Share;
    assert SharesAhead(life, 2) == [];
    assert SharesAhead(life, 5) == [Share(life, 5)];
    assert SharesAhead(life, 10) == [Share(life, 10), Share(life, 5)];
    assert SharesAhead(life, 20) == [Share(life, 80), Share(life, 10), Share(life, 5)];
  }

  lemma LeastFour(ws: seq<u32>)
    requires |ws| == 4 && ws[0] > 0 && ws[1] > 0 && ws[2] > 0 && ws[3] > 0
    ensures Least(ws) == ws[0] as int + ws[1] as int + ws[2] as int + ws[3] as int
  {
    assert ws[1..][1..] == ws[2..] && ws[2..][1..] == ws[3..] && ws[3..][1..] == [];
    assert Least(ws[3..]) == ws[3] && Least(ws[2..]) == ws[2] as int + ws[3] as int;
    assert Least(ws[1..]) == ws[1] + Least(ws[2..]);
  }

  /** Whatever n sleeps, an instance that is given up has lived for x
      milliseconds. */
  ghost predicate InstanceLasts(t: Timer, from: nat, n: nat, x: nat) {
    forall ss: seq<Sleep> {:trigger Following(ss, from)} ::
      |ss| == n && Following(ss, from) && Life(t, Charges(ss)).1 ==> End(ss, from) - from >= x
  }

  lemma InstanceLastsWaits(t: Timer, from: nat, n: nat, x: nat)
    ensures InstanceLasts(t, from, n, x) <==> Lasts(InstanceWaits(t), from, n, x)
  {
    hide Charges, Following, End, Over, Life, InstanceWaits;
    var ws := InstanceWaits(t);
    forall ss: seq<Sleep> ensures Life(t, Charges(ss)).1 <==> Over(ws, Charges(ss)) {
      LifeIsOver(t, Charges(ss));
    }
  }

  /** An SRV received with a lifetime of some seconds, and nothing heard after it:
      its instance is kept for x milliseconds of time through any n sleeps exactly if
      x and n together make no more than 80, 80, 10 and 5 percent of the lifetime.
      Fewer than four sleeps never end it. */
  lemma InstanceLastsIff(s: Instance, port: u16, ttl: u32, from: nat, n: nat, x: nat)
    requires 0 < ttl && Millis(ttl) <= U32_MAX / 80 && from < U32_MAX / 2
    ensures var life := Millis(ttl);
            InstanceLasts(TimerOf(Renewed(s, port, ttl, 0)), from, n, x) <==>
            x == 0 || n < 4 || x + n <= life * 80 / 100 + life * 80 / 100 + life * 10 / 100 + life * 5 / 100
  {
    hide InstanceLasts, Lasts, InstanceWaits, Least, Share;
    var t, life := TimerOf(Renewed(s, port, ttl, 0)), Millis(ttl);
    assert t == Timer(life, 20, Share(life, 80));
    FreshWaits(life);
    LeastFour(InstanceWaits(t));
    InstanceLastsWaits(t, from, n, x);
    LastsIff(InstanceWaits(t), from, n, x);
  }

  /** As many packets as its waits have milliseconds end an instance of any kind, in
      no time. */
  lemma BurstEnds(t: Timer, from: nat) returns (ss: seq<Sleep>)
    ensures |ss| == Least(InstanceWaits(t)) && Following(ss, from) && End(ss, from) == from && Life(t, Charges(ss)).1
  {
    var n := Least(InstanceWaits(t));
    OnesOver(InstanceWaits(t), n);
    ss := Naps(n, from);
    LifeIsOver(t, Charges(ss));
  }

  // ----- address records -----

  function HalvesAhead(ttl: u32, percent: nat): seq<u32> {
    if percent < 5 then [] else [Share(ttl, percent / 2)] + HalvesAhead(ttl, percent / 2)
  }

  function RecordWaits(s: Record): seq<u32> {
    match s.state
    case ArecInit => [0, 800] + HalvesAhead(1000, 10)
    case ArecQuerying => [s.nextRefresh] + HalvesAhead(s.ttl, s.percent)
    case ArecResolved => [s.nextRefresh, Share(s.ttl, 10)] + HalvesAhead(s.ttl, 10)
  }

  lemma RecordTickIsPass(s: Record, e: u32)
    ensures var u, ws := RecordTick(s, e), Passed(RecordWaits(s), e);
            if u.Some? then ws == RecordWaits(u.value) else ws == []
  {
    hide Share, HalvesAhead;
    var ws := RecordWaits(s);
    match s.state
    case ArecInit =>
      assert ws[1..] == [800] + HalvesAhead(1000, 10);
    case ArecQuerying =>
      assert ws[1..] == HalvesAhead(s.ttl, s.percent);
      NextHalf(s.ttl, s.percent);
    case ArecResolved =>
      assert ws[1..] == [Share(s.ttl, 10)] + HalvesAhead(s.ttl, 10);
      assert Subtract(s.nextRefresh, e) != 0 ==>
               [Subtract(s.nextRefresh, e)] + ws[1..] == [Subtract(s.nextRefresh, e), Share(s.ttl, 10)] + HalvesAhead(s.ttl, 10);
  }

  lemma NextHalf(ttl: u32, percent: nat)
    ensures HalvesAhead(ttl, percent) ==
            if percent < 5 then [] else [Share(ttl, percent / 2)] + HalvesAhead(ttl, percent / 2)
  {
  }

  lemma {:induction false} RecordLifeIsOver(s: Record, es: seq<u32>)
    ensures RecordLife(s, es).1 <==> Over(RecordWaits(s), es)
    decreases |es|
  {
    SomeWait(s);
    hide Share, RecordTick, Passed, RecordWaits;
    if es != [] {
      RecordTickIsPass(s, es[0]);
      var u := RecordTick(s, es[0]);
      if u.Some? {
        RecordLifeIsOver(u.value, es[1..]);
      } else {
        assert Over([], es[1..]);
      }
    }
  }

  lemma SomeWait(s: Record)
    ensures RecordWaits(s) != []
  {
  }

  /** The waits of a record as it leaves the turn of its receipt. */
  lemma ReceivedWaits(ip: u32, ttl: u32, elapsed: u32)
    requires Millis(ttl) <= U32_MAX / 80
    ensures var life, first := Millis(ttl), FirstWait(ttl, elapsed);
            RecordWaits(RecordTick(Resolved(ip, ttl), elapsed).value) ==
            (if first > 0 then [first] else []) + [life * 10 / 100, life * 5 / 100, life * 2 / 100]
  {
    var life := Millis(ttl);
    LeavesTurn(ip, ttl, elapsed);
    ShareExact(life, 10);
    ShareExact(life, 5);
    ShareExact(life, 2);
    hide Share;
    assert HalvesAhead(life, 2) == [];
    assert HalvesAhead(life, 5) == [Share(life, 2)];
    assert HalvesAhead(life, 10) == [Share(life, 5), Share(life, 2)];
  }

  lemma LeastReceived(first: u32, a: u32, b: u32, c: u32)
    requires a > 0 && b > 0 && c > 0
    ensures Least((if first > 0 then [first] else []) + [a, b, c]) == first as int + a as int + b as int + c as int
  {
    var ws := [a, b, c];
    assert ws[1..] == [b, c] && [b, c][1..] == [c] && [c][1..] == [];
    assert Least([c]) == c && Least([b, c]) == b as int + c as int && Least(ws) == a as int + b as int + c as int;
    if first > 0 {
      assert ([first] + ws)[1..] == ws;
    } else {
      assert [] + ws == ws;
    }
  }

  ghost predicate RecordLasts(s: Record, from: nat, n: nat, x: nat) {
    forall ss: seq<Sleep> {:trigger Following(ss, from)} ::
      |ss| == n && Following(ss, from) && RecordLife(s, Charges(ss)).1 ==> End(ss, from) - from >= x
  }

  lemma RecordLastsWaits(s: Record, from: nat, n: nat, x: nat)
    ensures RecordLasts(s, from, n, x) <==> Lasts(RecordWaits(s), from, n, x)
  {
    hide Charges, Following, End, Over, RecordLife, RecordWaits;
    var ws := RecordWaits(s);
    forall ss: seq<Sleep> ensures RecordLife(s, Charges(ss)).1 <==> Over(ws, Charges(ss)) {
      RecordLifeIsOver(s, Charges(ss));
    }
  }

  /** An A record received with a lifetime of some seconds after a sleep charged with
      elapsed, and nothing heard after it: from the end of that turn it is kept for x
      milliseconds of time through any n sleeps exactly if x and n together make no
      more than what the charge leaves of the first 80 percent, and 10, 5 and 2
      percent of the lifetime. */
  lemma AddressLastsIff(ip: u32, ttl: u32, elapsed: u32, from: nat, n: nat, x: nat)
    requires 0 < ttl && Millis(ttl) <= U32_MAX / 80 && from < U32_MAX / 2
    ensures var life, first := Millis(ttl), FirstWait(ttl, elapsed);
            RecordLasts(RecordTick(Resolved(ip, ttl), elapsed).value, from, n, x) <==>
            x == 0 || n < (if first > 0 then 4 else 3) || x + n <= first + life * 10 / 100 + life * 5 / 100 + life * 2 / 100
  {
    ShareAtMost(Millis(ttl), 80);
    hide RecordLasts, Lasts, RecordTick, RecordWaits, Least, Share, Resolved;
    var s, life, first := RecordTick(Resolved(ip, ttl), elapsed).value, Millis(ttl), FirstWait(ttl, elapsed);
    ReceivedWaits(ip, ttl, elapsed);
    LeastReceived(first, life * 10 / 100, life * 5 / 100, life * 2 / 100);
    RecordLastsWaits(s, from, n, x);
    LastsIff(RecordWaits(s), from, n, x);
  }

  /** So the 80, 10, 5 and 2 percent that its refreshing is meant to take are not
      kept by any address that can be given up at all: every turn charges at least a
      millisecond, the one of the receipt too. */
  lemma AddressPromiseIff(ip: u32, ttl: u32, elapsed: u32, from: nat, n: nat)
    requires 0 < ttl && Millis(ttl) <= U32_MAX / 80 && elapsed >= 1 && from < U32_MAX / 2
    ensures var life, s := Millis(ttl), RecordTick(Resolved(ip, ttl), elapsed).value;
            RecordLasts(s, from, n, life * 80 / 100 + life * 10 / 100 + life * 5 / 100 + life * 2 / 100) <==>
            n < (if FirstWait(ttl, elapsed) > 0 then 4 else 3)
  {
    var life := Millis(ttl);
    ShareExact(life, 80);
    hide RecordLasts, RecordTick, Resolved, Share;
    AddressLastsIff(ip, ttl, elapsed, from, n, life * 80 / 100 + life * 10 / 100 + life * 5 / 100 + life * 2 / 100);
  }

  /** A record with a lifetime of ten seconds, received at the end of a sleep charged
      with eight, can be gone 1697 milliseconds later without a packet in between. */
  lemma GoneEarly(ip: u32, from: nat) returns (ss: seq<Sleep>)
    requires from < U32_MAX / 2
    ensures Following(ss, from) && End(ss, from) == from + 1697 && |ss| == 3
    ensures RecordLife(RecordTick(Resolved(ip, 10), 8000).value, Charges(ss)) == (2, true)
  {
    var s := RecordTick(Resolved(ip, 10), 8000).value;
    ReceivedWaits(ip, 10, 8000);
    LeastReceived(0, 1000, 500, 200);
    assert RecordWaits(s) == [1000, 500, 200];
    LeavesTurn(ip, 10, 8000);
    hide RecordWaits, RecordTick, Resolved, Share, RecordLife, Following, Over;
    ss := Shortest(RecordWaits(s), from, 3);
    RecordLifeIsOver(s, Charges(ss));
    AddressLife(ip, 10, 8000, Charges(ss));
  }

  /** A record never resolved is asked for three times, and n sleeps see it through
      at least 871 milliseconds less one for each of them. */
  lemma UnansweredTime(s: Record, ss: seq<Sleep>, from: nat)
    requires s.state == ArecInit && Following(ss, from) && RecordLife(s, Charges(ss)).1
    ensures RecordLife(s, Charges(ss)).0 == 3 && End(ss, from) - from + |ss| >= 871
  {
    hide RecordLife, Following, End, Over, Charges, RecordWaits, Least, Sum;
    UnansweredLife(s, Charges(ss));
    RecordLifeIsOver(s, Charges(ss));
    UnansweredWaits(s);
    LeastUnanswered();
    LastsAtLeast(RecordWaits(s), ss, from);
  }

  lemma UnansweredWaits(s: Record)
    requires s.state == ArecInit
    ensures RecordWaits(s) == [0, 800, 50, 20]
  {
    assert HalvesAhead(1000, 2) == [] && HalvesAhead(1000, 5) == [20];
    assert HalvesAhead(1000, 10) == [50] + [20];
  }

  lemma LeastUnanswered()
    ensures Least([0, 800, 50, 20]) == 871
  {
    var ws: seq<u32> := [0, 800, 50, 20];
    assert ws[1..] == [800, 50, 20] && [800, 50, 20][1..] == [50, 20] && [50, 20][1..] == [20] && [20][1..] == [];
    assert Least([20]) == 20 && Least([50, 20]) == 70 && Least([800, 50, 20]) == 870;
  }
}
