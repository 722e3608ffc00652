/** How long the querier sleeps (prepare_query and do_querier in
    mdns/mdns_query.c): never more than a minute while something is monitored,
    unless a pass stops at a question that does not fit. */
module Pacing {
  import opened Bytes
  import opened Names
  import opened Slist
  import opened Pools
  import opened Cache
  import opened CacheInv
  import opened CacheSteps
  import opened CacheRun
  import opened CacheNames
  import opened Refresh
  import opened Wakeup
  import opened Silence
  import Packet

  const MINUTE: u32 := 60000

  /** No monitor waits for more than a minute. */
  predicate Paced(c: Cache) {
    forall k :: 0 <= k < |c.smons| ==> c.smons[k].period <= MINUTE && c.smons[k].nextRefresh <= MINUTE
  }

  /** The wire form of a type is two octets longer than its string, of which 255 are
      let through. */
  const MAX_TYPE := MAX_NAME + 2

  predicate Brief(c: Cache) {
    forall k :: 0 <= k < |c.fqst| ==> WireSize(c.fqst[k]) <= MAX_TYPE
  }

  // ----- every run -----

  lemma AgeMonitorPaced(w: Walk, k: nat, elapsed: u32)
    requires Fits(w.c) && k < |w.c.g.held| && Paced(w.c)
    ensures Paced(AgeMonitor(w, k, elapsed).c) && AgeMonitor(w, k, elapsed).c.fqst == w.c.fqst
  {
    hide Ask;
  }

  lemma {:induction false} AgeMonitorsPaced(w: Walk, ks: seq<nat>, elapsed: u32)
    requires Fits(w.c) && Below(ks, |w.c.g.held|) && Paced(w.c)
    ensures Paced(AgeMonitors(w, ks, elapsed).c) && AgeMonitors(w, ks, elapsed).c.fqst == w.c.fqst
    decreases |ks|
  {
    hide AgeMonitor, AgeInstances;
    if ks != [] {
      AgeMonitorPaced(w, ks[0], elapsed);
      var w1 := AgeMonitor(w, ks[0], elapsed);
      if !w1.failed {
        AgeMonitorsPaced(AgeInstances(w1, w1.c.g.held[ks[0]], elapsed), ks[1..], elapsed);
      }
    }
  }

  lemma {:induction false} RearmPaced(w: Walk, ks: seq<nat>)
    requires Fits(w.c) && Below(ks, |w.c.g.held|) && Paced(w.c)
    ensures Paced(Rearm(w, ks).c) && Rearm(w, ks).c.fqst == w.c.fqst
    decreases |ks|
  {
    if ks != [] {
      var s := w.c.smons[ks[0]];
      RearmPaced(if s.nextRefresh == 0 then
                   w.(c := SetMonitor(w.c, ks[0], s.(nextRefresh := s.period)), next := Min(w.next, s.period))
                 else w, ks[1..]);
    }
  }

  lemma PreparePaced(c: Cache, elapsed: u32)
    requires Fits(c) && Paced(c)
    ensures Paced(Prepare(c, elapsed).c) && Prepare(c, elapsed).c.fqst == c.fqst
  {
    hide AgeRecords, AgeMonitors, Rearm, Paced;
    var w1 := AgeRecords(Walk(c, Query([], Packet.HEADER_SIZE), 0, U32_MAX, false), c.g.live, elapsed);
    SamePace(c, w1.c);
    AgeMonitorsPaced(w1, w1.c.g.watched, elapsed);
    var w2 := AgeMonitors(w1, w1.c.g.watched, elapsed);
    RearmPaced(w2, w2.c.g.watched);
  }

  lemma SamePace(c: Cache, d: Cache)
    requires Paced(c) && MonitorsSame(d, c)
    ensures Paced(d)
  {
  }

  /** The types that come in with a turn. */
  predicate BriefTurn(t: Turn) {
    t.control.Some? && t.control.value.Start? ==> WireSize(t.control.value.fqst) <= MAX_TYPE
  }

  lemma TurnPaced(c: Cache, t: Turn)
    requires Fits(c) && Paced(c) && Brief(c) && BriefTurn(t)
    ensures Paced(TakeTurn(c, t)) && Brief(TakeTurn(c, t))
  {
    hide UpdateCache, Prepare, RemoveService, FindMonitor, WireSize;
    var d := Controlled(c, t.control);
    assert Paced(d) && Brief(d);
    if t.rx.Received? {
      d := UpdateCache(d, t.rx.answers, t.elapsed);
    }
    PreparePaced(d, t.elapsed);
  }

  lemma {:induction false} RunPaced(c: Cache, ts: seq<Turn>)
    requires Fits(c) && Paced(c) && Brief(c) && forall j :: 0 <= j < |ts| ==> BriefTurn(ts[j])
    ensures Paced(Run(c, ts)) && Brief(Run(c, ts))
    decreases |ts|
  {
    hide Paced, Brief, TakeTurn, BriefTurn;
    if ts != [] {
      TurnPaced(c, ts[0]);
      RunPaced(TakeTurn(c, ts[0]), ts[1..]);
    }
  }

  lemma LaunchPaced(n: nat, m: nat)
    requires m > 0
    ensures Paced(Launch(n, m)) && Brief(Launch(n, m))
  {
  }

  // ----- five monitors -----

  lemma {:induction false} FiveFit(fqst: seq<Name>, ks: seq<nat>)
    requires Below(ks, |fqst|) && |ks| <= 5 && forall k :: 0 <= k < |fqst| ==> WireSize(fqst[k]) <= MAX_TYPE
    ensures TypesSize(fqst, ks) <= 261 * |ks| && Packet.HEADER_SIZE + TypesSize(fqst, ks) <= Packet.DATA_MAX
    decreases |ks|
  {
    hide WireSize;
    if ks != [] {
      FiveFit(fqst, ks[1..]);
    }
  }

  lemma WatchedCount(c: Cache)
    requires Good(c)
    ensures |c.g.watched| <= |c.g.held|
  {
    ElementCount(c.g.watched);
    Subset(Elements(c.g.watched), Range(|c.g.held|));
  }

  /** With at most five monitors, one more than there are by default, silence empties
      the cache after every run. */
  lemma FiveAlwaysEmpty(n: nat, m: nat, ts: seq<Turn>)
    requires 0 < m <= 5 && StableRun(Launch(n, m), ts) && forall j :: 0 <= j < |ts| ==> BriefTurn(ts[j])
    ensures Good(Run(Launch(n, m), ts)) && Empties(Run(Launch(n, m), ts))
  {
    hide Good, Run, Launch, StableRun, FitCount, TypesSize, Empties, WireSize, Paced, BriefTurn;
    var c := Run(Launch(n, m), ts);
    LaunchGood(n, m);
    LaunchPaced(n, m);
    RunGood(Launch(n, m), ts);
    RunPaced(Launch(n, m), ts);
    GoodFits(c);
    WatchedCount(c);
    FiveFit(c.fqst, c.g.watched);
    AllFit(c.fqst, c.g.watched, Packet.HEADER_SIZE);
    EmptiesIff(c);
  }

  lemma GoodFits(c: Cache)
    requires Good(c)
    ensures Fits(c) && Below(c.g.watched, |c.fqst|)
  {
  }

  // ----- the next event -----

  /** A pass that does not fail lets the querier sleep for no more than a minute if
      something is monitored, and without limit if not. */
  lemma SleepIff(c: Cache, elapsed: u32)
    requires Good(c) && Paced(c) && !Prepare(c, elapsed).failed
    ensures if c.g.watched != [] then Prepare(c, elapsed).next <= MINUTE else Prepare(c, elapsed).next == U32_MAX
  {
    if c.g.watched != [] {
      PreparePass(c, elapsed);
      PreparePaced(c, elapsed);
      hide Prepare, Linked, Keys, Coherent, Logged, SafeLog, NoOrphans, RecordTick, Ticked, Live;
      var k := c.g.watched[0];
      assert k in Prepare(c, elapsed).c.g.watched;
    } else {
      Conserved(c.g);
    }
  }

  // ----- a pass that fails -----

  lemma TickBelow(t: Timer, s: Record, elapsed: u32)
    requires elapsed >= 1
    ensures Tick(t, elapsed).Some? ==> Tick(t, elapsed).value.next < U32_MAX
    ensures RecordTick(s, elapsed).Some? ==> RecordTick(s, elapsed).value.nextRefresh < U32_MAX
  {
  }

  /** An aged record has nothing more to wait for exactly if it is given up. */
  lemma RecordNext(w: Walk, a: nat, elapsed: u32)
    requires Slot(w.c, a) && elapsed >= 1
    ensures AgeRecord(w, a, elapsed).c.arecs[a].nextRefresh == U32_MAX <==> RecordTick(w.c.arecs[a], elapsed).None?
  {
    AgeRecordTicks(w, a, elapsed);
    TickBelow(Timer(0, 0, 0), w.c.arecs[a], elapsed);
    hide AgeRecord, RecordTick, LoseAll;
  }

  lemma {:induction false} RecordsNext(w: Walk, list: seq<nat>, elapsed: u32)
    requires Good(w.c) && NoDup(list) && Below(list, |w.c.g.owner|) && elapsed >= 1
    ensures AgeRecords(w, list, elapsed).next == U32_MAX <==>
            w.next == U32_MAX && forall a {:trigger a in list} :: a in list ==> RecordTick(w.c.arecs[a], elapsed).None?
    decreases |list|
  {
    if list != [] {
      hide Good, AgeRecord, RecordTick, OnlyLoses;
      var a := list[0];
      TailNoDup(list);
      GoodFits(w.c);
      RecordNext(w, a, elapsed);
      AgeRecordPass(w, a, elapsed);
      var w1 := AgeRecord(w, a, elapsed);
      var w2 := w1.(next := Min(w1.next, w1.c.arecs[a].nextRefresh));
      RecordsNext(w2, list[1..], elapsed);
      assert forall b :: b in list <==> b == a || b in list[1..];
      assert forall b {:trigger b in list[1..]} :: b in list[1..] ==> w2.c.arecs[b] == w.c.arecs[b];
    }
  }

  lemma {:induction false} InstancesNext(w: Walk, list: seq<nat>, elapsed: u32)
    requires Good(w.c) && NoDup(list) && Below(list, |w.c.g.owner|) && elapsed >= 1
    requires forall i :: i in list ==> Live(w.c.g, i)
    ensures AgeInstances(w, list, elapsed).next == U32_MAX <==>
            w.next == U32_MAX && forall i {:trigger i in list} :: i in list ==> Tick(TimerOf(w.c.sinsts[i]), elapsed).None?
    decreases |list|
  {
    if list != [] {
      var i := list[0];
      TailNoDup(list);
      GoodFits(w.c);
      AgeInstanceTicks(w, i, elapsed);
      TickBelow(TimerOf(w.c.sinsts[i]), Record(0, 0, ArecInit, 0, 0), elapsed);
      hide Good, AgeInstance, Tick, Live, InstancesTicked, Share;
      OthersAlone(w, i, elapsed);
      AgeInstancePass(w, i, elapsed);
      var w1 := AgeInstance(w, i, elapsed);
      var w2 := w1.(next := Min(w1.next, w1.c.sinsts[i].nextRefresh));
      InstancesNext(w2, list[1..], elapsed);
      assert forall j :: j in list <==> j == i || j in list[1..];
    }
  }

  lemma OthersAlone(w: Walk, i: nat, elapsed: u32)
    requires Slot(w.c, i)
    ensures forall j: nat :: j < |w.c.sinsts| && j != i ==> AgeInstance(w, i, elapsed).c.sinsts[j] == w.c.sinsts[j]
  {
    hide Free, Ask;
  }

  /** Nothing of a monitor is left to wait for: it asks, and its instances are given
      up. */
  predicate NothingAhead(c: Cache, k: nat, elapsed: u32)
    requires Fits(c) && k < |c.g.held|
  {
    && c.smons[k].nextRefresh <= elapsed
    && forall i {:trigger i in c.g.held[k]} :: i in c.g.held[k] ==> Tick(TimerOf(c.sinsts[i]), elapsed).None?
  }

  lemma MonitorNext(w: Walk, k: nat, elapsed: u32)
    requires Fits(w.c) && k < |w.c.g.held| && elapsed >= 1 && !w.failed
    ensures var r := AgeMonitor(w, k, elapsed);
            && (r.failed ==> r.next == w.next)
            && (!r.failed ==> (r.next == U32_MAX <==> w.next == U32_MAX && w.c.smons[k].nextRefresh <= elapsed))
            && r.c == w.c.(smons := w.c.smons[k := r.c.smons[k]])
  {
    hide Ask;
  }

  lemma MonitorThenNext(w: Walk, w1: Walk, w2: Walk, k: nat, elapsed: u32)
    requires Good(w.c) && k < |w.c.g.held| && elapsed >= 1 && !w.failed
    requires w1 == AgeMonitor(w, k, elapsed) && !w1.failed && Below(w1.c.g.held[k], |w1.c.g.owner|)
    requires w2 == AgeInstances(w1, w1.c.g.held[k], elapsed)
    ensures Good(w2.c) && !w2.failed && (w2.next == U32_MAX <==> w.next == U32_MAX && NothingAhead(w.c, k, elapsed))
    ensures forall j: nat {:trigger NothingAhead(w2.c, j, elapsed)} :: j < |w.c.g.held| && j != k ==>
              NothingAhead(w2.c, j, elapsed) == NothingAhead(w.c, j, elapsed)
  {
    hide AgeMonitor, AgeInstances, Tick, Coherent, Logged, SafeLog, NoOrphans, InstancesTicked, Spares, Keeps, Live;
    MonitorNext(w, k, elapsed);
    AgeMonitorPass(w, k, elapsed);
    assert w1.c.g == w.c.g && w1.c.sinsts == w.c.sinsts;
    AllHeldLive(w1.c, k);
    InstancesNext(w1, w1.c.g.held[k], elapsed);
    AgeInstancesPass(w1, w1.c.g.held[k], elapsed);
    AgeInstancesSpare(w1, w1.c.g.held[k], elapsed);
    AgeInstancesKeeps(w1, w1.c.g.held[k], elapsed);
    forall j: nat {:trigger NothingAhead(w2.c, j, elapsed)} | j < |w.c.g.held| && j != k
      ensures NothingAhead(w2.c, j, elapsed) == NothingAhead(w.c, j, elapsed)
    {
      SameAhead(w1.c, w2, k, j, elapsed);
      assert w1.c.g.held[j] == w.c.g.held[j] && w1.c.smons[j] == w.c.smons[j];
    }
  }

  lemma SameAhead(c: Cache, r: Walk, k: nat, j: nat, elapsed: u32)
    requires Good(c) && Good(r.c) && SameSize(c, r.c) && k < |c.g.held| && j < |c.g.held| && j != k
    requires InstancesTicked(c, r, c.g.held[k], elapsed) && Spares(c.g, r.c.g, c.g.held[k]) && Keeps(c, r.c)
    ensures NothingAhead(r.c, j, elapsed) == NothingAhead(c, j, elapsed)
  {
    forall i {:trigger i in c.g.held[j]} | i in c.g.held[j] ensures i in r.c.g.held[j] && r.c.sinsts[i] == c.sinsts[i] {
      HeldIsLive(c.g, j, i);
      assert i !in c.g.held[k];
      HeldIsLive(r.c.g, j, i);
    }
    hide Tick, Linked, Coherent, Keys, Logged, SafeLog, NoOrphans, Live;
  }

  /** The monitor at whose question a walk stops. */
  predicate StopsAt(w: Walk, ks: seq<nat>, f: nat, elapsed: u32)
    requires Fits(w.c) && Below(ks, |w.c.g.held|)
    decreases |ks|
  {
    && f < |ks|
    && var w1 := AgeMonitor(w, ks[0], elapsed);
       if f == 0 then w1.failed
       else !w1.failed && StopsAt(AgeInstances(w1, w1.c.g.held[ks[0]], elapsed), ks[1..], f - 1, elapsed)
  }

  lemma {:induction false} MonitorsNext(w: Walk, ks: seq<nat>, elapsed: u32) returns (f: nat)
    requires Good(w.c) && NoDup(ks) && Below(ks, |w.c.g.held|) && elapsed >= 1 && !w.failed
    requires AgeMonitors(w, ks, elapsed).failed
    ensures StopsAt(w, ks, f, elapsed)
    ensures AgeMonitors(w, ks, elapsed).next == U32_MAX <==>
            w.next == U32_MAX && forall t {:trigger ks[t]} :: 0 <= t < f ==> NothingAhead(w.c, ks[t], elapsed)
    decreases |ks|
  {
    hide AgeMonitor, AgeInstances, Linked, Coherent, Keys, Logged, SafeLog, NoOrphans, NothingAhead;
    MonitorNext(w, ks[0], elapsed);
    var w1 := AgeMonitor(w, ks[0], elapsed);
    if w1.failed {
      return 0;
    }
    TailNoDup(ks);
    var w2 := AgeInstances(w1, w1.c.g.held[ks[0]], elapsed);
    MonitorThenNext(w, w1, w2, ks[0], elapsed);
    var g := MonitorsNext(w2, ks[1..], elapsed);
    f := g + 1;
    forall t | 0 <= t < g ensures NothingAhead(w2.c, ks[1..][t], elapsed) == NothingAhead(w.c, ks[t + 1], elapsed) {
      assert ks[1..][t] == ks[t + 1] != ks[0];
    }
    if forall t {:trigger ks[t]} :: 0 <= t < f ==> NothingAhead(w.c, ks[t], elapsed) {
      assert forall t :: 0 <= t < g ==> ks[1..][t] == ks[t + 1];
    } else if NothingAhead(w.c, ks[0], elapsed) {
      var t :| 0 <= t < f && !NothingAhead(w.c, ks[t], elapsed);
      assert ks[1..][t - 1] == ks[t];
    }
  }

  /** Exactly when a pass that stops at the f-th monitor lets the querier sleep without
      limit: every record is given up, and of the monitors before that one nothing is
      left to wait for. */
  lemma UnlimitedIff(c: Cache, elapsed: u32) returns (w: Walk, f: nat)
    requires Good(c) && elapsed >= 1 && Prepare(c, elapsed).failed
    ensures w == AgeRecords(Walk(c, Query([], Packet.HEADER_SIZE), 0, U32_MAX, false), c.g.live, elapsed)
    ensures StopsAt(w, w.c.g.watched, f, elapsed)
    ensures Prepare(c, elapsed).next == U32_MAX <==>
            && (forall a {:trigger a in c.g.live} :: a in c.g.live ==> RecordTick(c.arecs[a], elapsed).None?)
            && (forall t {:trigger w.c.g.watched[t]} :: 0 <= t < f ==> NothingAhead(w.c, w.c.g.watched[t], elapsed))
  {
    hide AgeRecords, AgeMonitors, Good, NothingAhead, RecordTick, StopsAt, OnlyLoses, RecordsTicked, Rearm, Below, NoDup;
    WatchedNoDup(c);
    var w0 := Walk(c, Query([], Packet.HEADER_SIZE), 0, U32_MAX, false);
    AgeRecordsPass(w0, c.g.live, elapsed);
    RecordsNext(w0, c.g.live, elapsed);
    w := AgeRecords(w0, c.g.live, elapsed);
    WatchedNoDup(w.c);
    WatchedBelow(AgeMonitors(w, w.c.g.watched, elapsed).c);
    RearmRest(AgeMonitors(w, w.c.g.watched, elapsed), AgeMonitors(w, w.c.g.watched, elapsed).c.g.watched);
    f := MonitorsNext(w, w.c.g.watched, elapsed);
  }

  lemma WatchedNoDup(c: Cache)
    requires Good(c)
    ensures Fits(c) && NoDup(c.g.watched) && Below(c.g.watched, |c.g.held|) && NoDup(c.g.live) && Below(c.g.live, |c.g.owner|)
  {
  }

  // ----- packets that cannot be read -----

  /** A turn whose packet cannot be read makes no pass, and the time slept before it
      is not charged to anything: through turns like that the cache stays as it is,
      whatever time goes by. */
  lemma {:induction false} UnreadUncharged(c: Cache, ts: seq<Turn>)
    requires Fits(c) && forall j :: 0 <= j < |ts| ==> ts[j].control == None && ts[j].rx == Failed
    ensures Run(c, ts) == c
    decreases |ts|
  {
    if ts != [] {
      assert TakeTurn(c, ts[0]) == c;
      UnreadUncharged(c, ts[1..]);
    }
  }
}
