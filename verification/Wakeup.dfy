/** A timer pass of the querier (prepare_query in mdns/mdns_query.c): every
    record is aged once, the next event is never set too late, and with nothing
    heard the cache runs empty. */
module Wakeup {
  import opened Bytes
  import opened Slist
  import opened Pools
  import opened Cache
  import opened CacheInv
  import opened CacheSteps
  import opened Refresh
  import Packet

  // ----- a received address -----

  /** An A record with a lifetime leaves its record resolved and its wait at 80
      percent, whatever was there before. */
  lemma AddressReceived(c: Cache, a: nat, ip: u32, ttl: u32)
    requires Sound(c, {}) && a in c.g.live && a < |c.g.owner| && ttl != 0
    ensures GotAddr(c, a, ip, ttl).arecs[a] == Resolved(ip, ttl)
  {
    hide TellAll, Linked, Keys, Coherent, Logged, SafeLog, Share;
    var d := SetRecord(c, a, c.arecs[a].(state := ArecResolved));
    SetRecordSound(c, a, c.arecs[a].(state := ArecResolved), {});
    if d.arecs[a].ip != ip {
      NewIpSound(d, a, ip);
      var e := SetRecord(d, a, d.arecs[a].(ip := ip));
      assert [] + e.g.xref[a] == e.g.xref[a];
      TellAllSound(e, a, [], e.g.xref[a]);
    }
  }

  // ----- the walk over the address records -----

  /** What a walk keeps: nothing comes to life, surviving instances are left
      alone, and so are the monitors. */
  predicate OnlyLoses(c: Cache, d: Cache)
    requires Fits(c) && Fits(d)
  {
    && SameSize(c, d) && d.g.watched == c.g.watched && d.g.owner == c.g.owner && d.smons == c.smons
    && (forall a {:trigger a in d.g.live} :: a in d.g.live ==> a in c.g.live)
    && (forall i {:trigger Live(d.g, i)} :: 0 <= i < |c.sinsts| && Live(d.g, i) ==> Live(c.g, i) && d.sinsts[i] == c.sinsts[i])
  }

  lemma AgeRecordPass(w: Walk, a: nat, elapsed: u32)
    requires Good(w.c) && a < |w.c.g.owner|
    ensures var r, t := AgeRecord(w, a, elapsed), RecordTick(w.c.arecs[a], elapsed);
            && Good(r.c) && OnlyLoses(w.c, r.c)
            && (t.Some? ==> r.c.arecs == w.c.arecs[a := t.value])
            && (t.None? ==> r.c.arecs == w.c.arecs[a := r.c.arecs[a]] && a !in r.c.g.live)
            && r.next == w.next && r.failed == w.failed && r.sends >= w.sends
  {
    assert Slot(w.c, a);
    AgeRecordTicks(w, a, elapsed);
    AgeRecordSound(w, a, elapsed);
    AgeRecordRest(w, a, elapsed);
    var t := RecordTick(w.c.arecs[a], elapsed);
    hide AgeRecord, Evict, RecordTick, Sound, NoOrphans;
    if t.None? {
      var d := SetRecord(w.c, a, w.c.arecs[a].(nextRefresh := 0));
      SetRecordSound(w.c, a, w.c.arecs[a].(nextRefresh := 0), {});
      EvictSound(d, a);
      assert OnlyLoses(w.c, Evict(d, a));
    }
  }

  lemma AgeRecordRest(w: Walk, a: nat, elapsed: u32)
    requires Slot(w.c, a)
    ensures var r := AgeRecord(w, a, elapsed); r.next == w.next && r.failed == w.failed && r.sends >= w.sends
  {
    hide Evict;
  }

  lemma OnlyLosesTrans(c: Cache, d: Cache, e: Cache)
    requires Fits(c) && Fits(d) && Fits(e) && OnlyLoses(c, d) && OnlyLoses(d, e)
    ensures OnlyLoses(c, e)
  {
    hide Live;
  }

  /** The records on the list that are still active have ticked once, and the next
      event is no later than any of them. */
  predicate RecordsTicked(c: Cache, r: Walk, list: seq<nat>, elapsed: u32)
    requires Fits(c) && Fits(r.c) && SameSize(c, r.c) && Below(list, |c.g.owner|)
  {
    && (forall a {:trigger a in list} :: a in list && a in r.c.g.live ==>
          RecordTick(c.arecs[a], elapsed) == Some(r.c.arecs[a]) && r.next <= r.c.arecs[a].nextRefresh)
    && (forall a {:trigger c.arecs[a]} :: 0 <= a < |c.arecs| && a !in list ==> r.c.arecs[a] == c.arecs[a])
  }

  lemma {:induction false} AgeRecordsPass(w: Walk, list: seq<nat>, elapsed: u32)
    requires Good(w.c) && NoDup(list) && Below(list, |w.c.g.owner|)
    ensures var r := AgeRecords(w, list, elapsed);
            && Good(r.c) && OnlyLoses(w.c, r.c) && RecordsTicked(w.c, r, list, elapsed)
            && r.next <= w.next && r.failed == w.failed && r.sends >= w.sends
    decreases |list|
  {
    if list != [] {
      var a := list[0];
      TailNoDup(list);
      assert Fits(w.c);
      hide Good, Live, AgeRecord, RecordTick, OnlyLoses;
      AgeRecordPass(w, a, elapsed);
      var w1 := AgeRecord(w, a, elapsed);
      var w2 := w1.(next := Min(w1.next, w1.c.arecs[a].nextRefresh));
      AgeRecordsPass(w2, list[1..], elapsed);
      var r := AgeRecords(w2, list[1..], elapsed);
      OnlyLosesTrans(w.c, w2.c, r.c);
      FirstTicked(w, w2, r, list, elapsed);
    } else {
      assert OnlyLoses(w.c, w.c);
    }
  }

  lemma FirstTicked(w: Walk, w2: Walk, r: Walk, list: seq<nat>, elapsed: u32)
    requires Fits(w.c) && Fits(w2.c) && Fits(r.c) && SameSize(w.c, w2.c) && SameSize(w.c, r.c) && OnlyLoses(w2.c, r.c)
    requires list != [] && NoDup(list) && Below(list, |w.c.g.owner|) && RecordsTicked(w2.c, r, list[1..], elapsed)
    requires var a, t := list[0], RecordTick(w.c.arecs[list[0]], elapsed);
             && w2.c.arecs == w.c.arecs[a := w2.c.arecs[a]] && r.next <= w2.next <= w2.c.arecs[a].nextRefresh
             && (if t.Some? then w2.c.arecs[a] == t.value else a !in w2.c.g.live)
    ensures RecordsTicked(w.c, r, list, elapsed)
  {
    TailNoDup(list);
    hide RecordTick, Live;
    forall a {:trigger w.c.arecs[a]} | 0 <= a < |w.c.arecs| && a !in list ensures r.c.arecs[a] == w.c.arecs[a] {
      assert w2.c.arecs[a] == w.c.arecs[a];
    }
    assert r.c.arecs[list[0]] == w2.c.arecs[list[0]];
  }

  // ----- the walk over the monitors and their instances -----

  predicate Ticked(c: Cache, r: Walk, i: nat, elapsed: u32)
    requires Slot(c, i) && Slot(r.c, i)
  {
    Tick(TimerOf(c.sinsts[i]), elapsed) == Some(TimerOf(r.c.sinsts[i])) && r.next <= r.c.sinsts[i].nextRefresh
  }

  /** The instances on the list that are still cached have ticked once; the others
      are left alone. */
  predicate InstancesTicked(c: Cache, r: Walk, list: seq<nat>, elapsed: u32)
    requires Fits(c) && Fits(r.c) && SameSize(c, r.c)
  {
    && (forall i {:trigger Live(r.c.g, i)} :: 0 <= i < |c.g.owner| && Live(r.c.g, i) ==>
          Live(c.g, i) && if i in list then Ticked(c, r, i, elapsed) else r.c.sinsts[i] == c.sinsts[i])
    && r.c.g.watched == c.g.watched && r.c.g.owner == c.g.owner && r.c.smons == c.smons && r.c.arecs == c.arecs
    && (forall a {:trigger a in r.c.g.live} :: a in r.c.g.live ==> a in c.g.live)
  }

  lemma AgeInstancePass(w: Walk, i: nat, elapsed: u32)
    requires Good(w.c) && i < |w.c.g.owner| && Live(w.c.g, i)
    ensures var r := AgeInstance(w, i, elapsed);
            && Good(r.c)
            && InstancesTicked(w.c, r.(next := Min(r.next, r.c.sinsts[i].nextRefresh)), [i], elapsed)
            && (forall j: nat :: j != i ==> (Live(r.c.g, j) <==> Live(w.c.g, j)))
            && r.next == w.next && r.failed == w.failed && r.sends >= w.sends
  {
    assert Slot(w.c, i);
    AgeInstanceTicks(w, i, elapsed);
    AgeInstanceSound(w, i, elapsed);
    AgeInstanceRest(w, i, elapsed);
    if Tick(TimerOf(w.c.sinsts[i]), elapsed).None? {
      FreeLinked(w.c.g, i);
    }
    hide AgeInstance, Tick, Sound, NoOrphans, Live;
  }

  lemma AgeInstanceRest(w: Walk, i: nat, elapsed: u32)
    requires Slot(w.c, i)
    ensures var r := AgeInstance(w, i, elapsed); r.next == w.next && r.failed == w.failed && r.sends >= w.sends
  {
    hide Free;
  }

  lemma TickedTrans(c: Cache, w: Walk, r: Walk, i: nat, list: seq<nat>, elapsed: u32)
    requires Fits(c) && Fits(w.c) && Fits(r.c) && SameSize(c, w.c) && SameSize(c, r.c)
    requires InstancesTicked(c, w, [i], elapsed) && InstancesTicked(w.c, r, list, elapsed)
    requires i !in list && r.next <= w.next
    ensures InstancesTicked(c, r, [i] + list, elapsed)
  {
    hide Tick, Live;
  }

  lemma {:induction false} AgeInstancesPass(w: Walk, list: seq<nat>, elapsed: u32)
    requires Good(w.c) && NoDup(list) && Below(list, |w.c.g.owner|) && forall i :: i in list ==> Live(w.c.g, i)
    ensures var r := AgeInstances(w, list, elapsed);
            && Good(r.c) && InstancesTicked(w.c, r, list, elapsed)
            && r.next <= w.next && r.failed == w.failed && r.sends >= w.sends
    decreases |list|
  {
    if list != [] {
      var i := list[0];
      TailNoDup(list);
      hide Good, Live, AgeInstance, Tick, InstancesTicked;
      AgeInstancePass(w, i, elapsed);
      var w1 := AgeInstance(w, i, elapsed);
      var w2 := w1.(next := Min(w1.next, w1.c.sinsts[i].nextRefresh));
      AgeInstancesPass(w2, list[1..], elapsed);
      TickedTrans(w.c, w2, AgeInstances(w2, list[1..], elapsed), i, list[1..], elapsed);
      assert [i] + list[1..] == list;
    }
  }

  /** A monitor that has just asked, or whose time is not before the next event. */
  predicate Armed(r: Walk, k: nat)
    requires k < |r.c.smons|
  {
    if r.c.smons[k].nextRefresh == 0 then r.sends > 0 else r.next <= r.c.smons[k].nextRefresh
  }

  /** The period after one more query. */
  function Doubled(period: u32): u32 {
    if period > 30000 then 60000 else period * 2
  }

  /** A monitor whose time has come is due at once, with a longer period. */
  function AgedMonitor(s: Monitor, elapsed: u32, offset: nat): Monitor {
    if s.nextRefresh <= elapsed then Monitor(Doubled(s.period), 0, offset) else s.(nextRefresh := s.nextRefresh - elapsed)
  }

  /** The walk has passed the monitors on the list. */
  predicate MonitorsTicked(c: Cache, r: Walk, list: seq<nat>, elapsed: u32)
    requires Fits(c) && Fits(r.c) && SameSize(c, r.c)
  {
    && (forall i {:trigger Live(r.c.g, i)} :: 0 <= i < |c.g.owner| && Live(r.c.g, i) ==>
          Live(c.g, i) && if c.g.owner[i] in list then Ticked(c, r, i, elapsed) else r.c.sinsts[i] == c.sinsts[i])
    && (forall k {:trigger r.c.smons[k]} :: 0 <= k < |c.smons| ==>
          if k in list then Armed(r, k) && r.c.smons[k] == AgedMonitor(c.smons[k], elapsed, r.c.smons[k].offset) else r.c.smons[k] == c.smons[k])
    && r.c.g.watched == c.g.watched && r.c.g.owner == c.g.owner && r.c.arecs == c.arecs
    && (forall a {:trigger a in r.c.g.live} :: a in r.c.g.live ==> a in c.g.live)
  }

  lemma MonitorThenInstances(w: Walk, w1: Walk, w2: Walk, k: nat, elapsed: u32)
    requires Good(w.c) && k < |w.c.g.held| && Fits(w1.c) && SameSize(w.c, w1.c)
    requires w1.c == SetMonitor(w.c, k, AgedMonitor(w.c.smons[k], elapsed, w.q.used)) && Armed(w1, k)
    requires Fits(w2.c) && SameSize(w1.c, w2.c) && InstancesTicked(w1.c, w2, w1.c.g.held[k], elapsed)
    requires w2.next <= w1.next && w2.sends >= w1.sends
    ensures MonitorsTicked(w.c, w2, [k], elapsed)
  {
    forall i {:trigger Live(w2.c.g, i)} | 0 <= i < |w.c.g.owner| && Live(w2.c.g, i)
      ensures Live(w.c.g, i) && if w.c.g.owner[i] in [k] then Ticked(w.c, w2, i, elapsed) else w2.c.sinsts[i] == w.c.sinsts[i]
    {
      if i in w.c.g.held[k] {
        HeldIsLive(w.c.g, k, i);
      }
      assert w.c.g.owner[i] == k <==> i in w.c.g.held[k];
      hide Tick, Linked, NoOrphans, Keys, Coherent, Logged, SafeLog;
    }
    hide Tick, Linked, NoOrphans, Keys, Coherent, Logged, SafeLog, Live;
  }

  lemma MonitorsTrans(c: Cache, w: Walk, r: Walk, k: nat, list: seq<nat>, elapsed: u32)
    requires Fits(c) && Fits(w.c) && Fits(r.c) && SameSize(c, w.c) && SameSize(c, r.c)
    requires MonitorsTicked(c, w, [k], elapsed) && MonitorsTicked(w.c, r, list, elapsed)
    requires k !in list && r.next <= w.next && r.sends >= w.sends
    ensures MonitorsTicked(c, r, [k] + list, elapsed)
  {
    hide Tick, Live;
    forall i {:trigger Live(r.c.g, i)} | 0 <= i < |c.g.owner| && Live(r.c.g, i)
      ensures Live(c.g, i)
      ensures if c.g.owner[i] in [k] + list then Ticked(c, r, i, elapsed) else r.c.sinsts[i] == c.sinsts[i]
    {
      assert Live(w.c.g, i);
      assert c.g.owner[i] in [k] + list <==> c.g.owner[i] == k || c.g.owner[i] in list;
    }
    forall j {:trigger r.c.smons[j]} | 0 <= j < |c.smons|
      ensures if j in [k] + list then Armed(r, j) && r.c.smons[j] == AgedMonitor(c.smons[j], elapsed, r.c.smons[j].offset)
              else r.c.smons[j] == c.smons[j]
    {
      assert j in [k] + list <==> j == k || j in list;
      assert if j in [k] then Armed(w, j) && w.c.smons[j] == AgedMonitor(c.smons[j], elapsed, w.c.smons[j].offset)
             else w.c.smons[j] == c.smons[j];
      assert if j in list then Armed(r, j) && r.c.smons[j] == AgedMonitor(w.c.smons[j], elapsed, r.c.smons[j].offset)
             else r.c.smons[j] == w.c.smons[j];
    }
    forall a {:trigger a in r.c.g.live} | a in r.c.g.live ensures a in c.g.live {
      assert a in w.c.g.live;
    }
  }

  lemma AgeMonitorPass(w: Walk, k: nat, elapsed: u32)
    requires Good(w.c) && k < |w.c.g.held|
    ensures var r := AgeMonitor(w, k, elapsed);
            && Good(r.c) && r.c == SetMonitor(w.c, k, AgedMonitor(w.c.smons[k], elapsed, w.q.used))
            && r.next <= w.next && r.sends >= w.sends && (!r.failed ==> Armed(r, k))
  {
    AgeMonitorSound(w, k, elapsed);
    hide Sound, NoOrphans;
  }

  lemma {:induction false} AgeMonitorsPass(w: Walk, list: seq<nat>, elapsed: u32)
    requires Good(w.c) && NoDup(list) && Below(list, |w.c.g.held|) && !AgeMonitors(w, list, elapsed).failed
    ensures var r := AgeMonitors(w, list, elapsed);
            Good(r.c) && MonitorsTicked(w.c, r, list, elapsed) && r.next <= w.next && r.sends >= w.sends
    decreases |list|
  {
    if list != [] {
      var k := list[0];
      TailNoDup(list);
      assert Fits(w.c);
      AgeMonitorPass(w, k, elapsed);
      var w1 := AgeMonitor(w, k, elapsed);
      AllHeldLive(w1.c, k);
      hide Good, Sound, Live, AgeMonitor, AgeInstances, Tick, MonitorsTicked, InstancesTicked, Armed;
      AgeInstancesPass(w1, w1.c.g.held[k], elapsed);
      var w2 := AgeInstances(w1, w1.c.g.held[k], elapsed);
      MonitorThenInstances(w, w1, w2, k, elapsed);
      AgeMonitorsPass(w2, list[1..], elapsed);
      MonitorsTrans(w.c, w2, AgeMonitors(w2, list[1..], elapsed), k, list[1..], elapsed);
      assert [k] + list[1..] == list;
    }
  }

  // ----- the whole pass -----

  lemma {:induction false} RearmPass(w: Walk, list: seq<nat>)
    requires Fits(w.c) && NoDup(list) && Below(list, |w.c.smons|) && forall k :: k in list ==> Armed(w, k)
    ensures var r := Rearm(w, list);
            && r.c == w.c.(smons := r.c.smons) && r.next <= w.next && r.failed == w.failed
            && (forall k {:trigger k in list} :: k in list ==>
                  && r.next <= r.c.smons[k].nextRefresh
                  && r.c.smons[k] == var s := w.c.smons[k]; if s.nextRefresh == 0 then s.(nextRefresh := s.period) else s)
            && (forall k {:trigger r.c.smons[k]} :: 0 <= k < |w.c.smons| && k !in list ==> r.c.smons[k] == w.c.smons[k])
    decreases |list|
  {
    if list != [] {
      var k, s := list[0], w.c.smons[list[0]];
      TailNoDup(list);
      var w1 :=
        if s.nextRefresh == 0 then w.(c := SetMonitor(w.c, k, s.(nextRefresh := s.period)), next := Min(w.next, s.period))
        else w;
      RearmPass(w1, list[1..]);
      assert Rearm(w1, list[1..]).c.smons[k] == w1.c.smons[k];
    }
  }

  /** What a pass makes of a monitor: one whose time has come waits for its longer
      period, any other for what is left of its own. */
  function Rearmed(s: Monitor, elapsed: u32, offset: nat): Monitor {
    if s.nextRefresh <= elapsed then Monitor(Doubled(s.period), Doubled(s.period), offset)
    else s.(nextRefresh := s.nextRefresh - elapsed)
  }

  /** The three walks of a pass, one after the other. */
  lemma PrepareWalks(c: Cache, elapsed: u32) returns (w1: Walk, w2: Walk)
    requires Good(c) && !Prepare(c, elapsed).failed
    ensures Good(w1.c) && Good(w2.c) && SameSize(c, w1.c) && SameSize(c, w2.c)
    ensures OnlyLoses(c, w1.c) && RecordsTicked(c, w1, c.g.live, elapsed)
    ensures MonitorsTicked(w1.c, w2, w1.c.g.watched, elapsed) && w2.next <= w1.next && !w2.failed
    ensures Prepare(c, elapsed) == if w2.sends == 0 then w2 else Rearm(w2, w2.c.g.watched)
    ensures NoDup(w2.c.g.watched) && Below(w2.c.g.watched, |w2.c.g.held|)
  {
    assert NoDup(c.g.live) && NoDup(c.g.watched);
    hide AgeRecords, AgeMonitors, Sound, NoOrphans, Tick, RecordTick, Rearm, MonitorsTicked, RecordsTicked;
    var w0 := Walk(c, Query([], Packet.HEADER_SIZE), 0, U32_MAX, false);
    AgeRecordsPass(w0, c.g.live, elapsed);
    w1 := AgeRecords(w0, c.g.live, elapsed);
    AgeMonitorsPass(w1, w1.c.g.watched, elapsed);
    w2 := AgeMonitors(w1, w1.c.g.watched, elapsed);
    SameWatched(c, w1, w2, elapsed);
  }

  lemma SameWatched(c: Cache, w1: Walk, w2: Walk, elapsed: u32)
    requires Fits(c) && Fits(w1.c) && Fits(w2.c) && SameSize(c, w1.c) && SameSize(c, w2.c)
    requires OnlyLoses(c, w1.c) && MonitorsTicked(w1.c, w2, w1.c.g.watched, elapsed)
    ensures w2.c.g.watched == w1.c.g.watched == c.g.watched && w1.c.smons == c.smons
  {
    hide Live, Tick;
  }

  lemma MonitorsArmed(c: Cache, w1: Walk, w2: Walk, elapsed: u32)
    requires Fits(c) && Fits(w1.c) && Fits(w2.c) && SameSize(c, w1.c) && SameSize(c, w2.c)
    requires w1.c.smons == c.smons && MonitorsTicked(w1.c, w2, w1.c.g.watched, elapsed)
    ensures forall k {:trigger k in w1.c.g.watched} :: k in w1.c.g.watched ==>
              Armed(w2, k) && w2.c.smons[k] == AgedMonitor(c.smons[k], elapsed, w2.c.smons[k].offset)
  {
    hide Live, Tick, Armed, AgedMonitor;
    forall k {:trigger k in w1.c.g.watched} | k in w1.c.g.watched
      ensures Armed(w2, k) && w2.c.smons[k] == AgedMonitor(c.smons[k], elapsed, w2.c.smons[k].offset)
    {
      assert w2.c.smons[k] == w2.c.smons[k];
    }
  }

  /** After a pass that does not fail, every active record and every cached
      instance has ticked once, every active monitor has waited on or asked, and
      the next event is no later than the next refresh of any of them. */
  lemma PreparePass(c: Cache, elapsed: u32)
    requires Good(c) && !Prepare(c, elapsed).failed
    ensures var r := Prepare(c, elapsed);
            && Good(r.c) && r.c.g.watched == c.g.watched
            && (forall a {:trigger a in r.c.g.live} :: a in r.c.g.live ==>
                  && a in c.g.live && a < |c.arecs|
                  && RecordTick(c.arecs[a], elapsed) == Some(r.c.arecs[a]) && r.next <= r.c.arecs[a].nextRefresh)
            && (forall i {:trigger Live(r.c.g, i)} :: 0 <= i < |c.g.owner| && Live(r.c.g, i) ==>
                  Live(c.g, i) && Ticked(c, r, i, elapsed))
            && (forall k {:trigger k in r.c.g.watched} :: k in r.c.g.watched && k < |c.smons| ==>
                  r.next <= r.c.smons[k].nextRefresh && r.c.smons[k] == Rearmed(c.smons[k], elapsed, r.c.smons[k].offset))
  {
    PrepareSound(c, elapsed);
    var w1, w2 := PrepareWalks(c, elapsed);
    OwnersWatched(w2.c.g);
    hide Prepare, Rearm, Sound, NoOrphans, Tick, RecordTick, MonitorsTicked, RecordsTicked, OnlyLoses, Live;
    SameWatched(c, w1, w2, elapsed);
    MonitorsArmed(c, w1, w2, elapsed);
    var r := Prepare(c, elapsed);
    if w2.sends != 0 {
      RearmPass(w2, w2.c.g.watched);
    }
    WalksCombine(c, w1, w2, r, elapsed);
  }

  /** From one second on, the period of a monitor doubles with every query up to a
      minute, where it stays. */
  function Period(queries: nat): u32 {
    if queries == 0 then 1000 else Doubled(Period(queries - 1))
  }

  function Power(k: nat): nat {
    if k == 0 then 1 else 2 * Power(k - 1)
  }

  lemma {:induction false} PeriodDoubles(queries: nat)
    ensures Period(queries) as int == if 1000 * Power(queries) <= 60000 then 1000 * Power(queries) else 60000
  {
    if queries > 0 {
      PeriodDoubles(queries - 1);
    }
  }

  lemma OwnersWatched(g: Graph)
    requires Linked(g)
    ensures forall i {:trigger Live(g, i)} :: 0 <= i < |g.owner| && Live(g, i) ==> g.owner[i] in g.watched
  {
    forall i {:trigger Live(g, i)} | 0 <= i < |g.owner| && Live(g, i) ensures g.owner[i] in g.watched {
      HeldIsLive(g, g.owner[i], i);
    }
  }

  lemma WalksCombine(c: Cache, w1: Walk, w2: Walk, r: Walk, elapsed: u32)
    requires Fits(c) && Fits(w1.c) && Fits(w2.c) && Fits(r.c) && SameSize(c, w1.c) && SameSize(c, w2.c) && SameSize(c, r.c)
    requires OnlyLoses(c, w1.c) && RecordsTicked(c, w1, c.g.live, elapsed)
    requires MonitorsTicked(w1.c, w2, w1.c.g.watched, elapsed) && w2.next <= w1.next
    requires forall i {:trigger Live(w2.c.g, i)} :: 0 <= i < |c.g.owner| && Live(w2.c.g, i) ==> w2.c.g.owner[i] in w2.c.g.watched
    requires r.c == w2.c.(smons := r.c.smons) && r.next <= w2.next
    ensures forall a {:trigger a in r.c.g.live} :: a in r.c.g.live ==>
              && a in c.g.live && a < |c.arecs|
              && RecordTick(c.arecs[a], elapsed) == Some(r.c.arecs[a]) && r.next <= r.c.arecs[a].nextRefresh
    ensures forall i {:trigger Live(r.c.g, i)} :: 0 <= i < |c.g.owner| && Live(r.c.g, i) ==>
              Live(c.g, i) && Ticked(c, r, i, elapsed)
  {
    hide Tick, RecordTick, Live, Armed;
    forall a {:trigger a in r.c.g.live} | a in r.c.g.live
      ensures && a in c.g.live && a < |c.arecs|
              && RecordTick(c.arecs[a], elapsed) == Some(r.c.arecs[a]) && r.next <= r.c.arecs[a].nextRefresh
    {
      assert a in w2.c.g.live && a in w1.c.g.live && a in c.g.live;
    }
    forall i {:trigger Live(r.c.g, i)} | 0 <= i < |c.g.owner| && Live(r.c.g, i)
      ensures Live(c.g, i) && Ticked(c, r, i, elapsed)
    {
      assert Live(w2.c.g, i) && Live(w1.c.g, i);
    }
  }

  // ----- silence -----

  /** Nothing in the cache outlives n more passes. */
  predicate Within(c: Cache, n: nat)
    requires Fits(c)
  {
    && (forall i {:trigger Live(c.g, i)} :: 0 <= i < |c.g.owner| && Live(c.g, i) ==> Rank(TimerOf(c.sinsts[i])) <= n)
    && (forall a {:trigger a in c.g.live} :: a in c.g.live && a < |c.arecs| ==> RecordRank(c.arecs[a]) <= n)
  }

  lemma PassLowers(c: Cache, elapsed: u32, n: nat)
    requires Good(c) && elapsed >= 1 && !Prepare(c, elapsed).failed && n > 0 && Within(c, n)
    ensures Good(Prepare(c, elapsed).c) && Within(Prepare(c, elapsed).c, n - 1)
  {
    PreparePass(c, elapsed);
    var r := Prepare(c, elapsed);
    hide Prepare, Good, Tick, RecordTick, Rank, RecordRank, Live;
    forall i {:trigger Live(r.c.g, i)} | 0 <= i < |r.c.g.owner| && Live(r.c.g, i)
      ensures Rank(TimerOf(r.c.sinsts[i])) <= n - 1
    {
      assert Ticked(c, r, i, elapsed);
      TickLowers(TimerOf(c.sinsts[i]), elapsed);
    }
    forall a {:trigger a in r.c.g.live} | a in r.c.g.live && a < |r.c.arecs| ensures RecordRank(r.c.arecs[a]) <= n - 1 {
      RecordTickLowers(c.arecs[a], elapsed);
    }
  }

  function Passes(c: Cache, es: seq<u32>): (r: Cache)
    requires Fits(c)
    ensures Fits(r) && SameSize(r, c)
    decreases |es|
  {
    if es == [] then c else Passes(Prepare(c, es[0]).c, es[1..])
  }

  /** No pass runs out of room for the questions of the monitors. */
  predicate NoneFails(c: Cache, es: seq<u32>)
    requires Fits(c)
    decreases |es|
  {
    es == [] || (!Prepare(c, es[0]).failed && NoneFails(Prepare(c, es[0]).c, es[1..]))
  }

  /** Time goes by in every pass. */
  predicate Ticking(es: seq<u32>) {
    forall j :: 0 <= j < |es| ==> es[j] >= 1
  }

  lemma FirstPass(c: Cache, es: seq<u32>)
    requires Fits(c) && es != [] && NoneFails(c, es) && Ticking(es)
    ensures es[0] >= 1 && Ticking(es[1..])
    ensures !Prepare(c, es[0]).failed && NoneFails(Prepare(c, es[0]).c, es[1..])
    ensures Passes(c, es) == Passes(Prepare(c, es[0]).c, es[1..])
  {
    hide Prepare, Fits;
  }

  lemma {:induction false} SilenceLowers(c: Cache, es: seq<u32>, n: nat)
    requires Good(c) && NoneFails(c, es) && n >= |es| && Within(c, n)
    requires Ticking(es)
    ensures Good(Passes(c, es)) && Within(Passes(c, es), n - |es|)
    decreases |es|
  {
    if es != [] {
      hide *;
      FirstPass(c, es);
      PassLowers(c, es[0], n);
      SilenceLowers(Prepare(c, es[0]).c, es[1..], n - 1);
    }
  }

  /** With nothing heard, as many passes as the longest timer allows leave no
      instance cached and no record active. */
  lemma SilenceEmpties(c: Cache, es: seq<u32>)
    requires Good(c) && NoneFails(c, es) && Within(c, |es|)
    requires Ticking(es)
    ensures Passes(c, es).g.live == [] && forall i: nat :: !Live(Passes(c, es).g, i)
  {
    SilenceLowers(c, es, |es|);
    var g := Passes(c, es).g;
    hide Passes, NoneFails;
    HeadIn(g.live);
  }
}
