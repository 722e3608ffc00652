/** The querier with nothing heard (prepare_query in mdns/mdns_query.c): exactly
    when the cache runs empty, although passes stop at a question that does not
    fit. */
module Silence {
  import opened Bytes
  import opened Names
  import opened Slist
  import opened Pools
  import opened Cache
  import opened CacheInv
  import opened CacheSteps
  import opened CacheNames
  import opened Refresh
  import opened Wakeup
  import Packet

  // ----- room for the monitors -----

  /** Octets of the questions about some types. */
  function TypesSize(fqst: seq<Name>, ks: seq<nat>): nat
    requires Below(ks, |fqst|)
  {
    if ks == [] then 0 else WireSize(fqst[ks[0]]) + 4 + TypesSize(fqst, ks[1..])
  }

  /** The questions of all monitors fit into a packet by themselves. */
  predicate RoomForTypes(c: Cache)
    requires Fits(c)
  {
    Packet.HEADER_SIZE + TypesSize(c.fqst, c.g.watched) <= Packet.DATA_MAX
  }

  /** How many monitors, from the first on, have room for their questions behind
      some octets. */
  function FitCount(fqst: seq<Name>, ks: seq<nat>, used: nat): (n: nat)
    requires Below(ks, |fqst|)
    ensures n <= |ks|
  {
    if ks == [] || used + WireSize(fqst[ks[0]]) + 4 > Packet.DATA_MAX then 0
    else 1 + FitCount(fqst, ks[1..], used + WireSize(fqst[ks[0]]) + 4)
  }

  /** The monitors that a pass is sure to get to, one question at most being asked for
      each before. */
  function Bound(c: Cache): (n: nat)
    requires Fits(c)
    ensures n <= |c.g.watched|
  {
    FitCount(c.fqst, c.g.watched, Packet.HEADER_SIZE)
  }

  /** Every instance of the other monitors has an address record. */
  predicate Homed(c: Cache)
    requires Fits(c)
  {
    forall t, i {:trigger i in c.g.held[c.g.watched[t]]} ::
      Bound(c) <= t < |c.g.watched| && i in c.g.held[c.g.watched[t]] ==> c.g.home[i].Some?
  }

  lemma {:induction false} PrefixFits(fqst: seq<Name>, ks: seq<nat>, j: nat, used: nat)
    requires Below(ks, |fqst|) && j <= |ks|
    ensures Below(ks[..j], |fqst|)
    ensures j <= FitCount(fqst, ks, used) && used <= Packet.DATA_MAX ==> used + TypesSize(fqst, ks[..j]) <= Packet.DATA_MAX
    decreases |ks|
  {
    hide WireSize;
    if j > 0 {
      PrefixFits(fqst, ks[1..], j - 1, used + WireSize(fqst[ks[0]]) + 4);
      assert ks[..j][1..] == ks[1..][..j - 1];
    }
  }

  lemma {:induction false} AllFit(fqst: seq<Name>, ks: seq<nat>, used: nat)
    requires Below(ks, |fqst|) && used <= Packet.DATA_MAX
    ensures FitCount(fqst, ks, used) == |ks| <==> used + TypesSize(fqst, ks) <= Packet.DATA_MAX
    decreases |ks|
  {
    hide WireSize;
    if ks != [] {
      var next := used + WireSize(fqst[ks[0]]) + 4;
      if next <= Packet.DATA_MAX {
        AllFit(fqst, ks[1..], next);
      }
    }
  }

  lemma {:induction false} FewerFit(fqst: seq<Name>, ks: seq<nat>, used: nat, more: nat)
    requires Below(ks, |fqst|) && used <= more
    ensures FitCount(fqst, ks, more) <= FitCount(fqst, ks, used)
    decreases |ks|
  {
    hide WireSize;
    if ks != [] {
      FewerFit(fqst, ks[1..], used + WireSize(fqst[ks[0]]) + 4, more + WireSize(fqst[ks[0]]) + 4);
    }
  }

  // ----- who is released -----

  /** No instance but those on a list is released, and none changes its record. */
  predicate Spares(g: Graph, h: Graph, list: seq<nat>) {
    && h.home == g.home && |h.held| == |g.held| && |h.owner| == |g.owner| == |g.home|
    && forall k, i {:trigger i in g.held[k]} :: 0 <= k < |g.held| && i in g.held[k] && i !in list ==> i in h.held[k]
  }

  lemma FreeSpares(g: Graph, i: nat)
    requires Sized(g) && i < |g.owner|
    ensures Spares(g, Free(g, i), [i])
  {
  }

  lemma SparesTrans(g: Graph, h: Graph, h': Graph, s: seq<nat>, t: seq<nat>, all: seq<nat>)
    requires Spares(g, h, s) && Spares(h, h', t)
    requires (forall i :: i in s ==> i in all) && (forall i :: i in t ==> i in all)
    ensures Spares(g, h', all)
  {
  }

  lemma {:induction false} LoseAllSpares(c: Cache, list: seq<nat>)
    requires Fits(c) && Below(list, |c.g.owner|)
    ensures Spares(c.g, LoseAll(c, list).g, list)
    decreases |list|
  {
    if list != [] {
      hide Free, Spares;
      FreeSpares(c.g, list[0]);
      LoseAllSpares(LostArec(c, list[0]), list[1..]);
      SparesTrans(c.g, LostArec(c, list[0]).g, LoseAll(c, list).g, [list[0]], list[1..], list);
    }
  }

  lemma AgeRecordSpares(w: Walk, a: nat, elapsed: u32)
    requires Slot(w.c, a)
    ensures Spares(w.c.g, AgeRecord(w, a, elapsed).c.g, w.c.g.xref[a])
  {
    hide LoseAll;
    LoseAllSpares(SetRecord(w.c, a, w.c.arecs[a].(nextRefresh := 0)), w.c.g.xref[a]);
  }

  lemma AgeInstanceSpares(w: Walk, i: nat, elapsed: u32)
    requires Slot(w.c, i)
    ensures Spares(w.c.g, AgeInstance(w, i, elapsed).c.g, [i])
  {
    hide Free;
    FreeSpares(w.c.g, i);
  }

  lemma {:induction false} AgeInstancesSpare(w: Walk, list: seq<nat>, elapsed: u32)
    requires Fits(w.c) && Below(list, |w.c.g.owner|)
    ensures Spares(w.c.g, AgeInstances(w, list, elapsed).c.g, list)
    ensures AgeInstances(w, list, elapsed).q.used >= w.q.used
    decreases |list|
  {
    if list != [] {
      AgeInstanceUsed(w, list[0], elapsed);
      hide AgeInstance, Spares;
      AgeInstanceSpares(w, list[0], elapsed);
      var w1 := AgeInstance(w, list[0], elapsed);
      var w2 := w1.(next := Min(w1.next, w1.c.sinsts[list[0]].nextRefresh));
      AgeInstancesSpare(w2, list[1..], elapsed);
      SparesTrans(w.c.g, w2.c.g, AgeInstances(w2, list[1..], elapsed).c.g, [list[0]], list[1..], list);
    }
  }

  lemma AgeInstanceUsed(w: Walk, i: nat, elapsed: u32)
    requires Slot(w.c, i)
    ensures AgeInstance(w, i, elapsed).q.used >= w.q.used
  {
    hide WireSize;
  }

  lemma AgeRecordUsed(w: Walk, a: nat, elapsed: u32)
    requires Slot(w.c, a)
    ensures AgeRecord(w, a, elapsed).q.used >= w.q.used
  {
    hide WireSize, Evict;
  }

  /** No instance without an address record is released. */
  predicate SparesHomeless(g: Graph, h: Graph) {
    && h.home == g.home && |h.held| == |g.held| && |h.owner| == |g.owner| == |g.home|
    && forall k, i {:trigger i in g.held[k]} ::
         0 <= k < |g.held| && i in g.held[k] && i < |g.home| && g.home[i].None? ==> i in h.held[k]
  }

  lemma RecordSparesHomeless(g: Graph, h: Graph, a: nat)
    requires Linked(g) && a < |g.owner| && Spares(g, h, g.xref[a])
    ensures SparesHomeless(g, h)
  {
  }

  lemma HomelessTrans(g: Graph, h: Graph, h': Graph)
    requires SparesHomeless(g, h) && SparesHomeless(h, h')
    ensures SparesHomeless(g, h')
  {
  }

  lemma {:induction false} AgeRecordsSpare(w: Walk, list: seq<nat>, elapsed: u32)
    requires Good(w.c) && Below(list, |w.c.g.owner|)
    ensures SparesHomeless(w.c.g, AgeRecords(w, list, elapsed).c.g)
    ensures AgeRecords(w, list, elapsed).q.used >= w.q.used
    decreases |list|
  {
    if list != [] {
      var a := list[0];
      AgeRecordUsed(w, a, elapsed);
      hide AgeRecord, Spares, SparesHomeless, Keys, Coherent, Logged, SafeLog, NoOrphans, Placed, Crossed, Halves;
      AgeRecordSpares(w, a, elapsed);
      RecordSparesHomeless(w.c.g, AgeRecord(w, a, elapsed).c.g, a);
      AgeRecordSound(w, a, elapsed);
      var w1 := AgeRecord(w, a, elapsed);
      var w2 := w1.(next := Min(w1.next, w1.c.arecs[a].nextRefresh));
      AgeRecordsSpare(w2, list[1..], elapsed);
      HomelessTrans(w.c.g, w2.c.g, AgeRecords(w2, list[1..], elapsed).c.g);
    } else {
      assert SparesHomeless(w.c.g, w.c.g);
    }
  }

  // ----- growing older -----

  /** Nothing comes to life, and no instance has longer to live. */
  predicate Older(c: Cache, d: Cache)
    requires Fits(c) && Fits(d)
  {
    && SameSize(c, d) && d.g.watched == c.g.watched && d.g.owner == c.g.owner && d.fqst == c.fqst && d.g.home == c.g.home
    && (forall a {:trigger a in d.g.live} :: a in d.g.live ==> a in c.g.live)
    && (forall i {:trigger Live(d.g, i)} :: 0 <= i < |c.g.owner| && Live(d.g, i) ==>
          Live(c.g, i) && Rank(TimerOf(d.sinsts[i])) <= Rank(TimerOf(c.sinsts[i])))
  }

  /** The instances of a monitor have less to live. */
  predicate OlderOf(c: Cache, d: Cache, k: nat)
    requires Fits(c) && Fits(d) && SameSize(c, d)
  {
    forall i {:trigger Live(d.g, i)} :: 0 <= i < |c.g.owner| && Live(d.g, i) && c.g.owner[i] == k ==>
      Rank(TimerOf(d.sinsts[i])) < Rank(TimerOf(c.sinsts[i]))
  }

  lemma OlderTrans(c: Cache, d: Cache, e: Cache)
    requires Fits(c) && Fits(d) && Fits(e) && Older(c, d) && Older(d, e)
    ensures Older(c, e)
    ensures forall k :: OlderOf(c, d, k) || OlderOf(d, e, k) ==> OlderOf(c, e, k)
  {
    hide Live, Rank;
  }

  lemma InstancesOlder(w: Walk, k: nat, elapsed: u32)
    requires Good(w.c) && k < |w.c.g.held| && elapsed >= 1
    ensures var r := AgeInstances(w, w.c.g.held[k], elapsed);
            Good(r.c) && Older(w.c, r.c) && OlderOf(w.c, r.c, k) && r.failed == w.failed && r.c.arecs == w.c.arecs
  {
    AllHeldLive(w.c, k);
    hide AgeInstances, Linked, Keys, Coherent, Logged, SafeLog, NoOrphans, Tick, Rank, Live, Keeps, InstancesTicked;
    AgeInstancesPass(w, w.c.g.held[k], elapsed);
    AgeInstancesKeeps(w, w.c.g.held[k], elapsed);
    AgeInstancesSpare(w, w.c.g.held[k], elapsed);
    var r := AgeInstances(w, w.c.g.held[k], elapsed);
    TickedOlder(w.c, r, k, elapsed);
    SameFqst(w.c, r.c);
  }

  lemma SameFqst(c: Cache, d: Cache)
    requires Fits(c) && Fits(d) && Keeps(c, d)
    ensures d.fqst == c.fqst
  {
  }

  lemma TickedOlder(c: Cache, r: Walk, k: nat, elapsed: u32)
    requires Good(c) && Fits(r.c) && SameSize(c, r.c) && k < |c.g.held| && elapsed >= 1
    requires InstancesTicked(c, r, c.g.held[k], elapsed) && r.c.fqst == c.fqst && r.c.g.home == c.g.home
    ensures Older(c, r.c) && OlderOf(c, r.c, k) && r.c.arecs == c.arecs
  {
    hide Linked, Keys, Coherent, Logged, SafeLog, NoOrphans, Tick, Rank, Live;
    forall i {:trigger Live(r.c.g, i)} | 0 <= i < |c.g.owner| && Live(r.c.g, i)
      ensures Live(c.g, i) && Rank(TimerOf(r.c.sinsts[i])) <= Rank(TimerOf(c.sinsts[i]))
      ensures c.g.owner[i] == k ==> Rank(TimerOf(r.c.sinsts[i])) < Rank(TimerOf(c.sinsts[i]))
    {
      HeldByOwner(c, k, i);
      if i in c.g.held[k] {
        assert Ticked(c, r, i, elapsed);
        TickLowers(TimerOf(c.sinsts[i]), elapsed);
      }
    }
  }

  lemma HeldByOwner(c: Cache, k: nat, i: nat)
    requires Good(c) && k < |c.g.held| && Slot(c, i) && Live(c.g, i)
    ensures c.g.owner[i] == k <==> i in c.g.held[k]
  {
  }

  lemma MonitorOlder(w: Walk, k: nat, elapsed: u32)
    requires Good(w.c) && k < |w.c.g.held|
    ensures var r := AgeMonitor(w, k, elapsed);
            && Good(r.c) && Older(w.c, r.c) && r.c.g == w.c.g && r.c.arecs == w.c.arecs && r.c.sinsts == w.c.sinsts
            && (w.q.used + WireSize(w.c.fqst[k]) + 4 <= Packet.DATA_MAX && !w.failed ==>
                  !r.failed && r.q.used <= w.q.used + WireSize(w.c.fqst[k]) + 4)
  {
    hide Linked, Keys, Coherent, Logged, SafeLog, NoOrphans, Rank, Live, WireSize;
    AgeMonitorSound(w, k, elapsed);
  }

  lemma {:induction false} MonitorsOlder(w: Walk, ks: seq<nat>, elapsed: u32)
    requires Good(w.c) && Below(ks, |w.c.g.held|) && elapsed >= 1
    ensures var r := AgeMonitors(w, ks, elapsed); Good(r.c) && Older(w.c, r.c) && r.c.arecs == w.c.arecs
    decreases |ks|
  {
    if ks != [] {
      hide AgeMonitor, AgeInstances, Linked, Keys, Coherent, Logged, SafeLog, NoOrphans, Older, OlderOf;
      MonitorOlder(w, ks[0], elapsed);
      var w1 := AgeMonitor(w, ks[0], elapsed);
      if !w1.failed {
        InstancesOlder(w1, ks[0], elapsed);
        var w2 := AgeInstances(w1, w1.c.g.held[ks[0]], elapsed);
        MonitorsOlder(w2, ks[1..], elapsed);
        OlderTrans(w.c, w1.c, w2.c);
        OlderTrans(w.c, w2.c, AgeMonitors(w2, ks[1..], elapsed).c);
      }
    } else {
      Same(w.c);
    }
  }

  lemma Same(c: Cache)
    requires Fits(c)
    ensures Older(c, c)
  {
    hide Rank, Live;
  }

  /** The first monitor with instances is reached, and they age. */
  lemma {:induction false} Reached(w: Walk, ks: seq<nat>, j: nat, elapsed: u32)
    requires Good(w.c) && Below(ks, |w.c.g.held|) && !w.failed && j < |ks| && elapsed >= 1
    requires forall t :: 0 <= t < j ==> w.c.g.held[ks[t]] == []
    requires Below(ks[..j + 1], |w.c.fqst|) && w.q.used + TypesSize(w.c.fqst, ks[..j + 1]) <= Packet.DATA_MAX
    ensures OlderOf(w.c, AgeMonitors(w, ks, elapsed).c, ks[j])
    decreases |ks|
  {
    hide AgeMonitor, AgeInstances, Linked, Keys, Coherent, Logged, SafeLog, NoOrphans, WireSize, Live, Rank;
    var k := ks[0];
    MonitorOlder(w, k, elapsed);
    var w1 := AgeMonitor(w, k, elapsed);
    assert ks[..j + 1][0] == k;
    InstancesOlder(w1, k, elapsed);
    var w2 := AgeInstances(w1, w1.c.g.held[k], elapsed);
    if j == 0 {
      MonitorsOlder(w2, ks[1..], elapsed);
      OlderTrans(w1.c, w2.c, AgeMonitors(w2, ks[1..], elapsed).c);
    } else {
      NoInstances(w1, elapsed);
      assert w1.c.g.held[k] == [] && w2 == w1;
      assert ks[..j + 1][1..] == ks[1..][..j];
      Reached(w1, ks[1..], j - 1, elapsed);
    }
  }

  lemma NoInstances(w: Walk, elapsed: u32)
    requires Fits(w.c)
    ensures AgeInstances(w, [], elapsed) == w
  {
  }

  // ----- a pass -----

  /** The walks of a pass, failed or not. */
  lemma Walks(c: Cache, elapsed: u32) returns (w1: Walk, w2: Walk)
    requires Good(c) && elapsed >= 1
    ensures w1 == AgeRecords(Walk(c, Query([], Packet.HEADER_SIZE), 0, U32_MAX, false), c.g.live, elapsed)
    ensures Below(w1.c.g.watched, |w1.c.g.held|) && w2 == AgeMonitors(w1, w1.c.g.watched, elapsed)
    ensures Good(w1.c) && Older(c, w1.c) && RecordsTicked(c, w1, c.g.live, elapsed) && !w1.failed
    ensures Good(w2.c) && Older(w1.c, w2.c) && w2.c.arecs == w1.c.arecs
    ensures Good(Prepare(c, elapsed).c) && Prepare(c, elapsed).c == w2.c.(smons := Prepare(c, elapsed).c.smons)
  {
    assert NoDup(c.g.live);
    hide AgeRecords, AgeMonitors, Rearm, Linked, Keys, Coherent, Logged, SafeLog, NoOrphans, Older, Keeps, RecordsTicked, OnlyLoses;
    var w0 := Walk(c, Query([], Packet.HEADER_SIZE), 0, U32_MAX, false);
    AgeRecordsPass(w0, c.g.live, elapsed);
    AgeRecordsKeeps(w0, c.g.live, elapsed);
    AgeRecordsSpare(w0, c.g.live, elapsed);
    w1 := AgeRecords(w0, c.g.live, elapsed);
    LosesOlder(c, w1.c);
    WatchedBelow(w1.c);
    MonitorsOlder(w1, w1.c.g.watched, elapsed);
    w2 := AgeMonitors(w1, w1.c.g.watched, elapsed);
    WatchedBelow(w2.c);
    RearmRest(w2, w2.c.g.watched);
    PrepareSound(c, elapsed);
  }

  lemma WatchedBelow(c: Cache)
    requires Fits(c)
    ensures Below(c.g.watched, |c.g.held|)
  {
  }

  lemma LosesOlder(c: Cache, d: Cache)
    requires Fits(c) && Fits(d) && OnlyLoses(c, d) && Keeps(c, d) && d.g.home == c.g.home
    ensures Older(c, d)
  {
    hide Live, Rank;
  }

  /** Every active record has less to live after a pass. */
  predicate RecordsOlder(c: Cache, d: Cache)
    requires Fits(c) && Fits(d) && SameSize(c, d)
  {
    forall a {:trigger a in d.g.live} :: a in d.g.live && a < |c.arecs| ==> RecordRank(d.arecs[a]) < RecordRank(c.arecs[a])
  }

  lemma PassOlder(c: Cache, elapsed: u32)
    requires Good(c) && elapsed >= 1
    ensures var d := Prepare(c, elapsed).c; Good(d) && Older(c, d) && RecordsOlder(c, d)
  {
    hide Prepare, AgeRecords, AgeMonitors, Linked, Keys, Coherent, Logged, SafeLog, NoOrphans, Rank, RecordRank, RecordTick, Live;
    var w1, w2 := Walks(c, elapsed);
    OlderTrans(c, w1.c, w2.c);
    var d := Prepare(c, elapsed).c;
    forall a {:trigger a in d.g.live} | a in d.g.live && a < |c.arecs| ensures RecordRank(d.arecs[a]) < RecordRank(c.arecs[a]) {
      assert a in w2.c.g.live && a in w1.c.g.live && a in c.g.live;
      RecordTickLowers(c.arecs[a], elapsed);
    }
  }

  /** With no record active, the first monitor with instances is always reached. */
  lemma PassReaches(c: Cache, j: nat, elapsed: u32)
    requires Good(c) && elapsed >= 1 && c.g.live == [] && j < Bound(c)
    requires forall t :: 0 <= t < j ==> c.g.held[c.g.watched[t]] == []
    ensures OlderOf(c, Prepare(c, elapsed).c, c.g.watched[j])
  {
    hide Prepare, AgeMonitors, Linked, Keys, Coherent, Logged, SafeLog, NoOrphans, Rank, RecordTick, Live, WireSize;
    var w1, w2 := Walks(c, elapsed);
    assert w1.c == c && w1.q.used == Packet.HEADER_SIZE;
    PrefixFits(c.fqst, c.g.watched, j + 1, Packet.HEADER_SIZE);
    Reached(w1, c.g.watched, j, elapsed);
  }

  // ----- stages -----

  /** No instance cached and no record active. */
  predicate Gone(c: Cache) {
    c.g.live == [] && forall i: nat {:trigger Live(c.g, i)} :: i < |c.g.owner| ==> !Live(c.g, i)
  }

  /** The monitors before the j-th have no instances and neither have those that a
      pass may not get to, those of the j-th live for at most n more passes, and all
      for at most m. */
  predicate Stage(c: Cache, j: nat, n: nat, m: nat) {
    && Good(c) && c.g.live == [] && j <= Bound(c)
    && (forall t :: 0 <= t < |c.g.watched| && (t < j || Bound(c) <= t) ==> c.g.held[c.g.watched[t]] == [])
    && (forall i {:trigger Live(c.g, i)} :: 0 <= i < |c.g.owner| && Live(c.g, i) ==> Rank(TimerOf(c.sinsts[i])) <= m)
    && (forall i {:trigger Live(c.g, i)} :: 0 <= i < |c.g.owner| && Live(c.g, i) && j < Bound(c) && c.g.owner[i] == c.g.watched[j] ==>
          Rank(TimerOf(c.sinsts[i])) <= n)
  }

  lemma StaysEmpty(c: Cache, d: Cache, k: nat)
    requires Good(c) && Good(d) && Older(c, d) && k < |c.g.held| && c.g.held[k] == []
    ensures d.g.held[k] == []
  {
    if d.g.held[k] != [] {
      var i := d.g.held[k][0];
      assert i in d.g.held[k];
      HeldIsLive(d.g, k, i);
      HeldByOwner(c, k, i);
      assert false;
    }
  }

  lemma StagePass(c: Cache, j: nat, n: nat, m: nat, elapsed: u32)
    requires Stage(c, j, n, m) && elapsed >= 1 && (j < Bound(c) ==> n > 0)
    ensures Stage(Prepare(c, elapsed).c, j, if n > 0 then n - 1 else 0, m)
    ensures Bound(Prepare(c, elapsed).c) == Bound(c)
  {
    hide Prepare, Linked, Keys, Coherent, Logged, SafeLog, NoOrphans, Rank, RecordRank, Live, FitCount;
    PassOlder(c, elapsed);
    var d := Prepare(c, elapsed).c;
    HeadIn(d.g.live);
    forall t | 0 <= t < |c.g.watched| && (t < j || Bound(c) <= t) ensures d.g.held[d.g.watched[t]] == [] {
      StaysEmpty(c, d, c.g.watched[t]);
    }
    if j < Bound(c) {
      PassReaches(c, j, elapsed);
    }
  }

  lemma StageNext(c: Cache, j: nat, m: nat)
    requires Stage(c, j, 0, m) && j < Bound(c)
    ensures Stage(c, j + 1, m, m)
  {
    var k := c.g.watched[j];
    if c.g.held[k] != [] {
      var i := c.g.held[k][0];
      assert i in c.g.held[k];
      HeldIsLive(c.g, k, i);
      assert false;
    }
    hide Linked, Keys, Coherent, Logged, SafeLog, NoOrphans, Rank, Live, TypesSize;
  }

  function Times(n: nat, k: nat): nat {
    if k == 0 then 0 else n + Times(n, k - 1)
  }

  lemma {:induction false} StagesEnd(c: Cache, es: seq<u32>, j: nat, n: nat, m: nat)
    requires Fits(c) && Stage(c, j, n, m) && Ticking(es)
    requires j < Bound(c) ==> |es| >= n + Times(m, Bound(c) - j - 1)
    ensures Gone(Passes(c, es))
    decreases |es|, Bound(c) - j
  {
    hide Stage, Prepare, Live, Gone, Bound;
    if j < Bound(c) && n == 0 {
      StageNext(c, j, m);
      StagesEnd(c, es, j + 1, m, m);
    } else if es != [] {
      StagePass(c, j, n, m, es[0]);
      TickingRest(es);
      StagesEnd(Prepare(c, es[0]).c, es[1..], j, if n > 0 then n - 1 else 0, m);
    } else {
      LastStage(c, j, n, m);
    }
  }

  lemma TickingRest(es: seq<u32>)
    requires es != [] && Ticking(es)
    ensures es[0] >= 1 && Ticking(es[1..])
  {
  }

  lemma LastStage(c: Cache, j: nat, n: nat, m: nat)
    requires Stage(c, j, n, m) && j >= Bound(c)
    ensures Gone(c)
  {
    OwnersWatched(c.g);
    forall i: nat {:trigger Live(c.g, i)} | i < |c.g.owner| ensures !Live(c.g, i) {
      if Live(c.g, i) {
        assert false;
      }
    }
  }

  // ----- silence -----

  /** No record outlives n more passes, no instance m, and every instance that a pass
      may not get to has a record. */
  predicate Fading(c: Cache, n: nat, m: nat) {
    && Good(c) && Homed(c)
    && (forall i {:trigger Live(c.g, i)} :: 0 <= i < |c.g.owner| && Live(c.g, i) ==> Rank(TimerOf(c.sinsts[i])) <= m)
    && (forall a {:trigger a in c.g.live} :: a in c.g.live && a < |c.arecs| ==> RecordRank(c.arecs[a]) <= n)
  }

  lemma FadingPass(c: Cache, n: nat, m: nat, elapsed: u32)
    requires Fading(c, n, m) && n > 0 && elapsed >= 1
    ensures Fading(Prepare(c, elapsed).c, n - 1, m) && Bound(Prepare(c, elapsed).c) == Bound(c)
  {
    hide Prepare, Linked, Keys, Coherent, Logged, SafeLog, NoOrphans, Rank, RecordRank, Live, FitCount, Homed;
    PassOlder(c, elapsed);
    HomedStays(c, Prepare(c, elapsed).c);
  }

  lemma HomedStays(c: Cache, d: Cache)
    requires Good(c) && Good(d) && Older(c, d) && Homed(c)
    ensures Homed(d)
  {
    forall t, i {:trigger i in d.g.held[d.g.watched[t]]} |
      Bound(d) <= t < |d.g.watched| && i in d.g.held[d.g.watched[t]] ensures d.g.home[i].Some?
    {
      HeldIsLive(d.g, d.g.watched[t], i);
      HeldByOwner(c, c.g.watched[t], i);
      assert i in c.g.held[c.g.watched[t]];
    }
  }

  lemma Faded(c: Cache, m: nat)
    requires Fading(c, 0, m)
    ensures Stage(c, 0, m, m)
  {
    HeadIn(c.g.live);
    forall t | Bound(c) <= t < |c.g.watched| ensures c.g.held[c.g.watched[t]] == [] {
      NoneHomed(c, t);
    }
    hide Linked, Keys, Coherent, Logged, SafeLog, NoOrphans, Rank, RecordRank, Live, FitCount;
  }

  lemma NoneHomed(c: Cache, t: nat)
    requires Good(c) && Homed(c) && c.g.live == [] && Bound(c) <= t < |c.g.watched|
    ensures c.g.held[c.g.watched[t]] == []
  {
    HeadIn(c.g.held[c.g.watched[t]]);
  }

  lemma {:induction false} FadesAway(c: Cache, es: seq<u32>, n: nat, m: nat)
    requires Fits(c) && Fading(c, n, m) && Ticking(es) && |es| >= n + Times(m, Bound(c))
    ensures Gone(Passes(c, es))
    decreases |es|
  {
    hide Fading, Stage, Prepare, Live, Gone, Bound;
    if n == 0 {
      Faded(c, m);
      StagesEnd(c, es, 0, m, m);
    } else {
      FadingPass(c, n, m, es[0]);
      TickingRest(es);
      FadesAway(Prepare(c, es[0]).c, es[1..], n - 1, m);
    }
  }

  lemma {:induction false} TimesGrows(n: nat, j: nat, k: nat)
    requires j <= k
    ensures Times(n, j) <= Times(n, k)
  {
    if j < k {
      TimesGrows(n, j, k - 1);
    }
  }

  /** With nothing heard, and room in a packet for the questions of the monitors, the
      cache is empty after as many passes as the longest timer allows, once for the
      records and once for each monitor. */
  lemma AlwaysEmpties(c: Cache, es: seq<u32>, n: nat)
    requires Good(c) && Within(c, n) && RoomForTypes(c) && Ticking(es) && |es| >= n + Times(n, |c.g.watched|)
    ensures Gone(Passes(c, es))
  {
    hide Rank, RecordRank, Live, Linked, Keys, Coherent, Logged, SafeLog, NoOrphans, TypesSize, FitCount, Gone;
    AllFit(c.fqst, c.g.watched, Packet.HEADER_SIZE);
    TimesGrows(n, Bound(c), |c.g.watched|);
    FadesAway(c, es, n, n);
  }

  // ----- without room -----

  /** Every monitor up to the j-th is to ask, the ones before have no instances, and
      the questions do not fit. */
  predicate Stuck(c: Cache, j: nat) {
    && Fits(c) && c.g.live == [] && j < |c.g.watched|
    && (forall t :: 0 <= t < j ==> c.g.held[c.g.watched[t]] == [])
    && (forall t :: 0 <= t <= j ==> c.smons[c.g.watched[t]].nextRefresh == 0)
    && Below(c.g.watched[..j + 1], |c.fqst|)
    && Packet.HEADER_SIZE + TypesSize(c.fqst, c.g.watched[..j + 1]) > Packet.DATA_MAX
  }

  lemma MonitorDue(w: Walk, k: nat, elapsed: u32)
    requires Fits(w.c) && k < |w.c.g.held| && w.c.smons[k].nextRefresh <= elapsed && !w.failed
    ensures var r, size := AgeMonitor(w, k, elapsed), WireSize(w.c.fqst[k]) + 4;
            && r.c == w.c.(smons := w.c.smons[k := r.c.smons[k]]) && r.c.smons[k].nextRefresh == 0 && r.next == w.next
            && (r.failed <==> w.q.used + size > Packet.DATA_MAX) && (!r.failed ==> r.q.used == w.q.used + size)
  {
    hide WireSize;
  }

  /** A monitor that is to ask stays so. */
  predicate StayDue(a: seq<Monitor>, b: seq<Monitor>) {
    |a| == |b| && forall k :: 0 <= k < |a| ==> b[k] == a[k] || b[k].nextRefresh == 0
  }

  lemma {:induction false} NotReached(w: Walk, ks: seq<nat>, j: nat, elapsed: u32)
    requires Fits(w.c) && Below(ks, |w.c.g.held|) && !w.failed && j < |ks|
    requires forall t :: 0 <= t < j ==> w.c.g.held[ks[t]] == []
    requires forall t :: 0 <= t <= j ==> w.c.smons[ks[t]].nextRefresh <= elapsed
    requires Below(ks[..j + 1], |w.c.fqst|) && w.q.used + TypesSize(w.c.fqst, ks[..j + 1]) > Packet.DATA_MAX
    ensures var r := AgeMonitors(w, ks, elapsed);
            && r.failed && r.next == w.next && r.c == w.c.(smons := r.c.smons) && StayDue(w.c.smons, r.c.smons)
            && (Below(ks[..j], |w.c.fqst|) && w.q.used + TypesSize(w.c.fqst, ks[..j]) <= Packet.DATA_MAX ==>
                  forall t :: 0 <= t <= j ==> r.c.smons[ks[t]].nextRefresh == 0)
    decreases |ks|
  {
    hide AgeMonitor, AgeInstances, WireSize;
    MonitorDue(w, ks[0], elapsed);
    var w1 := AgeMonitor(w, ks[0], elapsed);
    assert ks[..j + 1][0] == ks[0] && ks[..j + 1][1..] == ks[1..][..j];
    assert j == 0 ==> ks[1..][..j] == [];
    assert j > 0 ==> ks[..j][0] == ks[0] && ks[..j][1..] == ks[1..][..j - 1];
    if j > 0 && !w1.failed {
      NoInstances(w1, elapsed);
      assert w1.c.g.held[ks[0]] == [];
      NotReached(w1, ks[1..], j - 1, elapsed);
      assert forall t :: 0 < t <= j ==> ks[1..][t - 1] == ks[t];
    }
  }

  /** The pass fails, ages nothing, and schedules no other. */
  lemma StuckPass(c: Cache, j: nat, elapsed: u32)
    requires Stuck(c, j)
    ensures var r := Prepare(c, elapsed); Stuck(r.c, j) && r.c.g == c.g && r.failed && r.next == U32_MAX
  {
    hide AgeMonitors, WireSize, TypesSize;
    NotReached(Walk(c, Query([], Packet.HEADER_SIZE), 0, U32_MAX, false), c.g.watched, j, elapsed);
  }

  /** Without room for the questions nothing behind them grows older, however many
      passes are made. */
  lemma {:induction false} NeverEmpties(c: Cache, j: nat, es: seq<u32>)
    requires Fits(c) && Stuck(c, j)
    ensures Passes(c, es).g == c.g && Stuck(Passes(c, es), j)
    decreases |es|
  {
    hide Stuck, Prepare;
    if es != [] {
      StuckPass(c, j, es[0]);
      NeverEmpties(Prepare(c, es[0]).c, j, es[1..]);
    }
  }

  /** Some number of passes is always enough. */
  ghost predicate Empties(c: Cache)
    requires Fits(c)
  {
    exists n: nat {:trigger EmptyAfter(c, n)} :: EmptyAfter(c, n)
  }

  ghost predicate EmptyAfter(c: Cache, n: nat)
    requires Fits(c)
  {
    forall es: seq<u32> {:trigger Passes(c, es)} :: Ticking(es) && |es| >= n ==> Gone(Passes(c, es))
  }

  /** An instance that no pass gets to when every monitor asks: it has no record, and
      its monitor is behind those whose questions fit. */
  predicate Stranded(c: Cache, t: nat, i: nat) {
    && Good(c) && Bound(c) <= t < |c.g.watched| && i in c.g.held[c.g.watched[t]] && c.g.home[i].None?
  }

  /** With every monitor due, a walk ends before one whose question does not fit. */
  lemma {:induction false} Blocked(w: Walk, ks: seq<nat>, t: nat, i: nat)
    requires Good(w.c) && NoDup(ks) && Below(ks, |w.c.g.held|) && !w.failed
    requires FitCount(w.c.fqst, ks, w.q.used) <= t < |ks| && i in w.c.g.held[ks[t]]
    ensures var r := AgeMonitors(w, ks, U32_MAX);
            && r.failed && |r.c.g.held| == |w.c.g.held| && i in r.c.g.held[ks[t]]
            && r.c.g.home == w.c.g.home && r.c.g.watched == w.c.g.watched && r.c.fqst == w.c.fqst
    decreases |ks|
  {
    hide AgeMonitor, AgeInstances, Linked, Keys, Coherent, Logged, SafeLog, NoOrphans, WireSize, Spares, Rank, Live, NoDup;
    var k := ks[0];
    MonitorAsks(w, k);
    var w1 := AgeMonitor(w, k, U32_MAX);
    if !w1.failed {
      TailNoDup(ks);
      HeldOnce(w.c, ks, t, i);
      MonitorOlder(w, k, U32_MAX);
      InstancesOlder(w1, k, U32_MAX);
      AgeInstancesSpare(w1, w1.c.g.held[k], U32_MAX);
      var w2 := AgeInstances(w1, w1.c.g.held[k], U32_MAX);
      SparedOne(w1.c.g, w2.c.g, w1.c.g.held[k], ks[t], i);
      FewerFit(w.c.fqst, ks[1..], w.q.used + WireSize(w.c.fqst[k]) + 4, w2.q.used);
      Blocked(w2, ks[1..], t - 1, i);
    }
  }

  lemma MonitorAsks(w: Walk, k: nat)
    requires Fits(w.c) && k < |w.c.g.held| && !w.failed
    ensures var r, size := AgeMonitor(w, k, U32_MAX), WireSize(w.c.fqst[k]) + 4;
            && r.c.g == w.c.g && r.c.fqst == w.c.fqst
            && (r.failed <==> w.q.used + size > Packet.DATA_MAX) && (!r.failed ==> r.q.used == w.q.used + size)
  {
    hide WireSize;
  }

  lemma HeldOnce(c: Cache, ks: seq<nat>, t: nat, i: nat)
    requires Good(c) && NoDup(ks) && Below(ks, |c.g.held|) && t < |ks| && i in c.g.held[ks[t]]
    ensures t > 0 ==> i !in c.g.held[ks[0]]
  {
    assert t > 0 ==> ks[0] != ks[t];
  }

  lemma SparedOne(g: Graph, h: Graph, list: seq<nat>, k: nat, i: nat)
    requires Spares(g, h, list) && k < |g.held| && i in g.held[k] && i !in list
    ensures h.home == g.home && |h.held| == |g.held| && i in h.held[k]
  {
  }

  lemma StrandedPass(c: Cache, t: nat, i: nat)
    requires Stranded(c, t, i)
    ensures Stranded(Prepare(c, U32_MAX).c, t, i)
  {
    hide AgeRecords, AgeMonitors, Prepare, Keys, Coherent, Logged, SafeLog, NoOrphans, Placed, Crossed, Older, FitCount,
         SparesHomeless, RecordsTicked;
    var w1, w2 := Walks(c, U32_MAX);
    AgeRecordsSpare(Walk(c, Query([], Packet.HEADER_SIZE), 0, U32_MAX, false), c.g.live, U32_MAX);
    SparedHomeless(c.g, w1.c.g, c.g.watched[t], i);
    SameMonitors(c, w1.c);
    FewerFit(c.fqst, c.g.watched, Packet.HEADER_SIZE, w1.q.used);
    Blocked(w1, c.g.watched, t, i);
    assert Prepare(c, U32_MAX).c.g == w2.c.g;
  }

  lemma SparedHomeless(g: Graph, h: Graph, k: nat, i: nat)
    requires SparesHomeless(g, h) && k < |g.held| && i in g.held[k] && i < |g.home| && g.home[i].None?
    ensures |h.held| == |g.held| && i in h.held[k] && h.home == g.home
  {
  }

  lemma SameMonitors(c: Cache, d: Cache)
    requires Fits(c) && Fits(d) && Older(c, d)
    ensures d.g.watched == c.g.watched && d.fqst == c.fqst && SameSize(c, d)
  {
  }

  lemma {:induction false} StrandedStays(c: Cache, t: nat, i: nat, es: seq<u32>)
    requires Fits(c) && Stranded(c, t, i) && forall j :: 0 <= j < |es| ==> es[j] == U32_MAX
    ensures Stranded(Passes(c, es), t, i)
    decreases |es|
  {
    hide Stranded, Prepare;
    if es != [] {
      StrandedPass(c, t, i);
      StrandedStays(Prepare(c, U32_MAX).c, t, i, es[1..]);
    }
  }

  /** Exactly when silence is sure to empty a cache after some number of passes: every
      instance without an address record belongs to a monitor that a pass gets to
      even if all of them ask. */
  lemma EmptiesIff(c: Cache)
    requires Good(c)
    ensures Empties(c) <==> Homed(c)
  {
    hide Passes, Gone, Linked, Keys, Coherent, Logged, SafeLog, NoOrphans, Bound, Live, Rank, RecordRank, Stranded;
    if Homed(c) {
      var m := SomeBound(c);
      var n := m + Times(m, Bound(c));
      forall es: seq<u32> {:trigger Passes(c, es)} | Ticking(es) && |es| >= n ensures Gone(Passes(c, es)) {
        FadesAway(c, es, m, m);
      }
      assert EmptyAfter(c, n);
    } else {
      var t, i := SomeStranded(c);
      forall n: nat ensures !EmptyAfter(c, n) {
        var es: seq<u32> := seq(n, _ => U32_MAX);
        StrandedStays(c, t, i, es);
        StrandedThere(Passes(c, es), t, i);
      }
    }
  }

  lemma SomeStranded(c: Cache) returns (t: nat, i: nat)
    requires Good(c) && !Homed(c)
    ensures Stranded(c, t, i)
  {
    t, i :| Bound(c) <= t < |c.g.watched| && i in c.g.held[c.g.watched[t]] && c.g.home[i].None?;
  }

  lemma StrandedThere(c: Cache, t: nat, i: nat)
    requires Stranded(c, t, i)
    ensures !Gone(c)
  {
    HeldIsLive(c.g, c.g.watched[t], i);
    assert Live(c.g, i);
  }

  /** The lives of the first k slots, added up. */
  function Lives(c: Cache, k: nat): nat
    requires Fits(c) && k <= |c.g.owner|
  {
    if k == 0 then 0 else Lives(c, k - 1) + Rank(TimerOf(c.sinsts[k - 1])) + RecordRank(c.arecs[k - 1])
  }

  lemma {:induction false} LivesBound(c: Cache, k: nat, i: nat)
    requires Fits(c) && i < k <= |c.g.owner|
    ensures Rank(TimerOf(c.sinsts[i])) <= Lives(c, k) && RecordRank(c.arecs[i]) <= Lives(c, k)
  {
    hide Rank, RecordRank;
    if i < k - 1 {
      LivesBound(c, k - 1, i);
    }
  }

  lemma SomeBound(c: Cache) returns (n: nat)
    requires Fits(c)
    ensures Within(c, n)
  {
    hide Rank, RecordRank, Live, Lives;
    n := Lives(c, |c.g.owner|);
    forall i: nat | i < |c.g.owner| ensures Rank(TimerOf(c.sinsts[i])) <= n && RecordRank(c.arecs[i]) <= n {
      LivesBound(c, |c.g.owner|, i);
    }
  }
}
