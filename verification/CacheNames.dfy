/** The names in the querier's cache (fqst, fqsn and fqdn in mdns/mdns_query.c):
    what they are like in every state that is reached. */
module CacheNames {
  import opened Bytes
  import opened Names
  import opened Slist
  import opened Pools
  import opened Cache
  import opened CacheInv
  import opened CacheSteps
  import opened CacheRun
  import Packet

  /** A name as packets carry it: labels of 1 to 63 octets, and no longer than 16
      bits can tell. */
  predicate Carried(n: Name) {
    ValidName(n) && WireSize(n) < 0x1_0000
  }

  predicate AllCarried(ns: seq<Name>) {
    forall i :: 0 <= i < |ns| ==> Carried(ns[i])
  }

  /** The instances of the monitors have names that could be taken apart. */
  predicate Titled(g: Graph, fqsn: seq<Name>)
    requires Sized(g) && |fqsn| == |g.owner|
  {
    forall k, i {:trigger i in g.held[k]} :: 0 <= k < |g.held| && i in g.held[k] ==> ServInfo(fqsn[i])
  }

  predicate Named(c: Cache)
    requires Fits(c)
  {
    AllCarried(c.fqsn) && AllCarried(c.fqdn) && AllCarried(c.fqst) && Titled(c.g, c.fqsn)
  }

  /** The names the querier takes from a packet. */
  predicate CarriedAnswers(p: Answers) {
    && (forall j :: 0 <= j < |p.ptrs| ==> Carried(p.ptrs[j].target))
    && (forall j :: 0 <= j < |p.srvs| ==> Carried(p.srvs[j].target))
  }

  // ----- steps that take no names -----

  predicate Fewer(g: Graph, h: Graph) {
    && |g.owner| == |h.owner| && |g.held| == |h.held|
    && forall k, i {:trigger i in h.held[k]} :: 0 <= k < |h.held| && i in h.held[k] ==> i in g.held[k]
  }

  /** The same names, and no instance more. */
  predicate Keeps(c: Cache, d: Cache)
    requires Fits(c) && Fits(d)
  {
    d.fqsn == c.fqsn && d.fqdn == c.fqdn && d.fqst == c.fqst && Fewer(c.g, d.g)
  }

  lemma KeepsNamed(c: Cache, d: Cache)
    requires Fits(c) && Fits(d) && Keeps(c, d) && Named(c)
    ensures Named(d)
  {
    hide ServInfo, Carried;
  }

  lemma KeepsTrans(c: Cache, d: Cache, e: Cache)
    requires Fits(c) && Fits(d) && Fits(e) && Keeps(c, d) && Keeps(d, e)
    ensures Keeps(c, e)
  {
  }

  lemma FreeFewer(g: Graph, i: nat)
    requires Sized(g) && i < |g.owner|
    ensures Fewer(g, Free(g, i))
  {
  }

  lemma CleanupKeeps(c: Cache, i: nat, unmonitored: bool)
    requires Slot(c, i)
    ensures Keeps(c, CleanupInstance(c, i, unmonitored))
  {
    hide Free;
    FreeFewer(c.g, i);
  }

  lemma ReactKeeps(c: Cache, i: nat, changes: int)
    requires Slot(c, i)
    ensures Keeps(c, React(c, i, changes))
  {
  }

  lemma GotArecKeeps(c: Cache, i: nat, a: nat)
    requires Slot(c, i) && a < |c.g.owner|
    ensures Keeps(c, GotArec(c, i, a))
  {
    hide React, Adopt, ArecChanges;
    var d := SetArec(c, i, a);
    assert Keeps(c, d);
    ReactKeeps(d, i, if ArecChanges(c, i, a) then 1 else 0);
  }

  lemma LostKeeps(c: Cache, i: nat)
    requires Slot(c, i)
    ensures Keeps(c, LostArec(c, i))
  {
    CleanupKeeps(c, i, false);
    hide CleanupInstance;
  }

  lemma {:induction false} TellAllKeeps(c: Cache, a: nat, list: seq<nat>)
    requires Slot(c, a) && Below(list, |c.g.owner|)
    ensures Keeps(c, TellAll(c, a, list))
    decreases |list|
  {
    if list != [] {
      hide GotArec, Keeps;
      GotArecKeeps(c, list[0], a);
      TellAllKeeps(GotArec(c, list[0], a), a, list[1..]);
      KeepsTrans(c, GotArec(c, list[0], a), TellAll(c, a, list));
    }
  }

  lemma {:induction false} LoseAllKeeps(c: Cache, list: seq<nat>)
    requires Fits(c) && Below(list, |c.g.owner|)
    ensures Keeps(c, LoseAll(c, list))
    decreases |list|
  {
    if list != [] {
      hide LostArec, Keeps;
      LostKeeps(c, list[0]);
      LoseAllKeeps(LostArec(c, list[0]), list[1..]);
      KeepsTrans(c, LostArec(c, list[0]), LoseAll(c, list));
    }
  }

  lemma EvictKeeps(c: Cache, a: nat)
    requires Slot(c, a)
    ensures Keeps(c, Evict(c, a))
  {
    hide LoseAll;
    LoseAllKeeps(c, c.g.xref[a]);
  }

  lemma GotAddrKeeps(c: Cache, a: nat, ip: u32, ttl: u32)
    requires Slot(c, a)
    ensures Keeps(c, GotAddr(c, a, ip, ttl))
  {
    hide TellAll, Evict;
    EvictKeeps(c, a);
    var d := SetRecord(c, a, c.arecs[a].(state := ArecResolved));
    var e := SetRecord(d, a, d.arecs[a].(ip := ip));
    TellAllKeeps(e, a, d.g.xref[a]);
  }

  lemma GotTxtKeeps(c: Cache, i: nat, rdata: seq<byte>)
    requires Slot(c, i)
    ensures Keeps(c, GotTxt(c, i, rdata))
  {
    hide React, UpdateTxt, TxtChanges;
    var s := c.sinsts[i];
    ReactKeeps(SetInstance(c, i, s.(service := UpdateTxt(s.service, rdata))), i, if TxtChanges(s.service.raw, rdata) then 1 else 0);
  }

  lemma KnownPtrKeeps(c: Cache, i: nat, ttl: u32, elapsed: u32)
    requires Slot(c, i)
    ensures Keeps(c, KnownPtr(c, i, ttl, elapsed))
  {
    hide CleanupInstance;
    CleanupKeeps(if c.sinsts[i].state == SinstInit then c else Tell(c, i, Disappeared), i, false);
  }

  // ----- a timer pass -----

  lemma AgeRecordKeeps(w: Walk, a: nat, elapsed: u32)
    requires Slot(w.c, a)
    ensures Keeps(w.c, AgeRecord(w, a, elapsed).c)
  {
    hide Evict;
    EvictKeeps(SetRecord(w.c, a, w.c.arecs[a].(nextRefresh := 0)), a);
  }

  lemma AgeInstanceKeeps(w: Walk, i: nat, elapsed: u32)
    requires Slot(w.c, i)
    ensures Keeps(w.c, AgeInstance(w, i, elapsed).c)
  {
    hide CleanupInstance;
    CleanupKeeps(SetInstance(w.c, i, Aged(w.c.sinsts[i], elapsed)), i, false);
  }

  lemma {:induction false} AgeRecordsKeeps(w: Walk, list: seq<nat>, elapsed: u32)
    requires Fits(w.c) && Below(list, |w.c.g.owner|)
    ensures Keeps(w.c, AgeRecords(w, list, elapsed).c)
    decreases |list|
  {
    if list != [] {
      hide AgeRecord, Keeps;
      AgeRecordKeeps(w, list[0], elapsed);
      var w1 := AgeRecord(w, list[0], elapsed);
      var w2 := w1.(next := Min(w1.next, w1.c.arecs[list[0]].nextRefresh));
      AgeRecordsKeeps(w2, list[1..], elapsed);
      KeepsTrans(w.c, w2.c, AgeRecords(w2, list[1..], elapsed).c);
    } else {
      assert Keeps(w.c, w.c);
    }
  }

  lemma {:induction false} AgeInstancesKeeps(w: Walk, list: seq<nat>, elapsed: u32)
    requires Fits(w.c) && Below(list, |w.c.g.owner|)
    ensures Keeps(w.c, AgeInstances(w, list, elapsed).c)
    decreases |list|
  {
    if list != [] {
      hide AgeInstance, Keeps;
      AgeInstanceKeeps(w, list[0], elapsed);
      var w1 := AgeInstance(w, list[0], elapsed);
      var w2 := w1.(next := Min(w1.next, w1.c.sinsts[list[0]].nextRefresh));
      AgeInstancesKeeps(w2, list[1..], elapsed);
      KeepsTrans(w.c, w2.c, AgeInstances(w2, list[1..], elapsed).c);
    } else {
      assert Keeps(w.c, w.c);
    }
  }

  lemma AgeMonitorKeeps(w: Walk, k: nat, elapsed: u32)
    requires Fits(w.c) && k < |w.c.g.held|
    ensures Keeps(w.c, AgeMonitor(w, k, elapsed).c)
  {
    hide Ask;
  }

  lemma {:induction false} AgeMonitorsKeeps(w: Walk, ks: seq<nat>, elapsed: u32)
    requires Fits(w.c) && Below(ks, |w.c.g.held|)
    ensures Keeps(w.c, AgeMonitors(w, ks, elapsed).c)
    decreases |ks|
  {
    if ks != [] {
      hide AgeMonitor, AgeInstances, Keeps;
      AgeMonitorKeeps(w, ks[0], elapsed);
      var w1 := AgeMonitor(w, ks[0], elapsed);
      if !w1.failed {
        AgeInstancesKeeps(w1, w1.c.g.held[ks[0]], elapsed);
        var w2 := AgeInstances(w1, w1.c.g.held[ks[0]], elapsed);
        AgeMonitorsKeeps(w2, ks[1..], elapsed);
        KeepsTrans(w.c, w1.c, w2.c);
        KeepsTrans(w.c, w2.c, AgeMonitors(w2, ks[1..], elapsed).c);
      }
    } else {
      assert Keeps(w.c, w.c);
    }
  }

  lemma {:induction false} RearmKeeps(w: Walk, ks: seq<nat>)
    requires Fits(w.c) && Below(ks, |w.c.g.held|)
    ensures Keeps(w.c, Rearm(w, ks).c)
    decreases |ks|
  {
    if ks != [] {
      var s := w.c.smons[ks[0]];
      var w1 :=
        if s.nextRefresh == 0 then w.(c := SetMonitor(w.c, ks[0], s.(nextRefresh := s.period)), next := Min(w.next, s.period)) else w;
      assert Keeps(w.c, w1.c);
      hide Keeps;
      RearmKeeps(w1, ks[1..]);
      KeepsTrans(w.c, w1.c, Rearm(w1, ks[1..]).c);
    }
  }

  lemma PrepareKeeps(c: Cache, elapsed: u32)
    requires Fits(c)
    ensures Keeps(c, Prepare(c, elapsed).c)
  {
    hide AgeRecords, AgeMonitors, Rearm, Keeps;
    var w0 := Walk(c, Query([], Packet.HEADER_SIZE), 0, U32_MAX, false);
    AgeRecordsKeeps(w0, c.g.live, elapsed);
    var w1 := AgeRecords(w0, c.g.live, elapsed);
    AgeMonitorsKeeps(w1, w1.c.g.watched, elapsed);
    var w2 := AgeMonitors(w1, w1.c.g.watched, elapsed);
    KeepsTrans(c, w1.c, w2.c);
    RearmKeeps(w2, w2.c.g.watched);
    KeepsTrans(c, w2.c, Rearm(w2, w2.c.g.watched).c);
  }

  // ----- unmonitoring -----

  lemma {:induction false} CleanupAllKeeps(c: Cache, list: seq<nat>)
    requires Fits(c) && Below(list, |c.g.owner|)
    ensures Keeps(c, CleanupAll(c, list))
    decreases |list|
  {
    if list != [] {
      hide CleanupInstance, Keeps;
      CleanupKeeps(c, list[0], true);
      CleanupAllKeeps(CleanupInstance(c, list[0], true), list[1..]);
      KeepsTrans(c, CleanupInstance(c, list[0], true), CleanupAll(c, list));
    }
  }

  lemma RemoveMonitorKeeps(c: Cache, k: nat)
    requires Fits(c) && k < |c.g.held|
    ensures Keeps(c, RemoveMonitor(c, k))
  {
    hide CleanupAll;
    CleanupAllKeeps(c, c.g.held[k]);
  }

  lemma {:induction false} RemoveAllKeeps(c: Cache, ks: seq<nat>)
    requires Fits(c) && Below(ks, |c.g.held|)
    ensures Keeps(c, RemoveAll(c, ks))
    decreases |ks|
  {
    if ks != [] {
      hide RemoveMonitor, Keeps;
      RemoveMonitorKeeps(c, ks[0]);
      RemoveAllKeeps(RemoveMonitor(c, ks[0]), ks[1..]);
      KeepsTrans(c, RemoveMonitor(c, ks[0]), RemoveAll(c, ks));
    }
  }

  lemma RemoveServiceKeeps(c: Cache, fqst: Name)
    requires Fits(c)
    ensures Keeps(c, RemoveService(c, fqst))
  {
    hide RemoveMonitor, RemoveAll, FindMonitor;
    RemoveAllKeeps(c, c.g.watched);
    var k := FindMonitor(c, fqst);
    if k.Some? {
      RemoveMonitorKeeps(c, k.value);
    }
  }

  // ----- steps that take a name -----

  lemma AddServiceNamed(c: Cache, fqst: Name)
    requires Fits(c) && Named(c) && Carried(fqst)
    ensures Named(AddService(c, fqst))
  {
    hide Carried, ServInfo, FindMonitor;
  }

  lemma NewInstanceNamed(c: Cache, k: nat, n: Name, ttl: u32, elapsed: u32)
    requires Fits(c) && Linked(c.g) && Named(c) && Carried(n) && k < |c.g.held| && c.g.spare != []
    ensures Named(NewInstance(c, k, n, ttl, elapsed))
  {
    hide Carried, ServInfo, Crossed, Halves;
    var i := c.g.spare[0];
    assert i in c.g.spare;
    var g := Alloc(c.g, k);
    if !ServInfo(n) {
      assert ([i] + c.g.held[k])[1..] == c.g.held[k];
      assert Free(g, i).held == g.held[k := c.g.held[k]] == c.g.held;
    }
  }

  lemma RecordForNamed(c: Cache, target: Name)
    requires Fits(c) && Named(c) && Carried(target)
    ensures Named(RecordFor(c, target).0)
  {
    hide Carried, ServInfo, FindRecord;
  }

  lemma TakeSrvNamed(c: Cache, i: nat, srv: SrvRec, elapsed: u32)
    requires Slot(c, i) && Named(c) && Carried(srv.target)
    ensures Named(TakeSrv(c, i, srv, elapsed))
  {
    hide Carried, ServInfo, RecordFor, Renewed, Adopt;
    RecordForNamed(c, srv.target);
  }

  lemma GotSrvNamed(c: Cache, i: nat, srv: SrvRec, elapsed: u32)
    requires Slot(c, i) && Named(c) && Carried(srv.target)
    ensures Named(GotSrv(c, i, srv, elapsed))
  {
    hide Named, React, TakeSrv, CleanupInstance, Keeps, SrvChanges;
    if srv.ttl == 0 {
      var d := CleanupInstance(c, i, false);
      CleanupKeeps(c, i, false);
      ReactKeeps(d, i, -1);
      KeepsNamed(c, d);
      KeepsNamed(d, React(d, i, -1));
    } else {
      var d, changes := TakeSrv(c, i, srv, elapsed), if SrvChanges(c, i, srv) then 1 else 0;
      TakeSrvNamed(c, i, srv, elapsed);
      ReactKeeps(d, i, changes);
      KeepsNamed(d, React(d, i, changes));
    }
  }

  // ----- a packet -----

  lemma TakePtrNamed(c: Cache, p: Answers, ptr: PtrRec, elapsed: u32)
    requires Good(c) && Named(c) && Carried(ptr.target) && CarriedAnswers(p)
    ensures var (c', p') := TakePtr(c, p, ptr, elapsed); Named(c') && CarriedAnswers(p')
  {
    hide Named, NewInstance, KnownPtr, ServInfo, Carried, FindMonitor, FindInstance, OverflowService, Linked, Coherent, Keys, Logged;
    var k := FindMonitor(c, ptr.name);
    if k.Some? {
      var i := FindInstance(c, k.value, ptr.target);
      if i.Some? {
        KnownPtrKeeps(c, i.value, ptr.ttl, elapsed);
        KeepsNamed(c, KnownPtr(c, i.value, ptr.ttl, elapsed));
      } else if c.g.spare != [] {
        NewInstanceNamed(c, k.value, ptr.target, ptr.ttl, elapsed);
      } else {
        KeptCarried(p.srvs, ptr.target);
        KeepsNamed(c, TakePtr(c, p, ptr, elapsed).0);
      }
    }
  }

  lemma {:induction false} KeptCarried(rs: seq<SrvRec>, n: Name)
    requires forall j :: 0 <= j < |rs| ==> Carried(rs[j].target)
    ensures forall j :: 0 <= j < |KeptSrvs(rs, n)| ==> Carried(KeptSrvs(rs, n)[j].target)
  {
    hide Carried;
    if rs != [] {
      KeptCarried(rs[1..], n);
    }
  }

  lemma {:induction false} TakePtrsNamed(c: Cache, p: Answers, ptrs: seq<PtrRec>, elapsed: u32)
    requires Good(c) && Named(c) && CarriedAnswers(p) && forall j :: 0 <= j < |ptrs| ==> Carried(ptrs[j].target)
    ensures var (c', p') := TakePtrs(c, p, ptrs, elapsed); Named(c') && CarriedAnswers(p')
    decreases |ptrs|
  {
    if ptrs != [] {
      hide TakePtr, Good, Named, CarriedAnswers, Carried;
      TakePtrSound(c, p, ptrs[0], elapsed);
      TakePtrNamed(c, p, ptrs[0], elapsed);
      var (c1, p1) := TakePtr(c, p, ptrs[0], elapsed);
      TakePtrsNamed(c1, p1, ptrs[1..], elapsed);
    }
  }

  lemma {:induction false} TakeTxtsNamed(c: Cache, rs: seq<TxtRec>)
    requires Fits(c) && Named(c)
    ensures Named(TakeTxts(c, rs))
    decreases |rs|
  {
    if rs != [] {
      hide Named, GotTxt, Belongs, Keeps;
      var i := Belongs(c, rs[0].name);
      if i.Some? {
        GotTxtKeeps(c, i.value, rs[0].rdata);
        KeepsNamed(c, GotTxt(c, i.value, rs[0].rdata));
      }
      TakeTxtsNamed(if i.Some? then GotTxt(c, i.value, rs[0].rdata) else c, rs[1..]);
    }
  }

  lemma {:induction false} TakeSrvsNamed(c: Cache, rs: seq<SrvRec>, elapsed: u32)
    requires Fits(c) && Named(c) && forall j :: 0 <= j < |rs| ==> Carried(rs[j].target)
    ensures Named(TakeSrvs(c, rs, elapsed))
    decreases |rs|
  {
    if rs != [] {
      hide Named, GotSrv, Belongs, Carried;
      var i := Belongs(c, rs[0].name);
      if i.Some? {
        GotSrvNamed(c, i.value, rs[0], elapsed);
      }
      TakeSrvsNamed(if i.Some? then GotSrv(c, i.value, rs[0], elapsed) else c, rs[1..], elapsed);
    }
  }

  lemma {:induction false} TakeAddrsNamed(c: Cache, rs: seq<AddrRec>)
    requires Fits(c) && Named(c)
    ensures Named(TakeAddrs(c, rs))
    decreases |rs|
  {
    if rs != [] {
      hide Named, GotAddr, FindRecord, Keeps;
      var a := FindRecord(c, rs[0].name);
      if a.Some? {
        GotAddrKeeps(c, a.value, rs[0].ip, rs[0].ttl);
        KeepsNamed(c, GotAddr(c, a.value, rs[0].ip, rs[0].ttl));
      }
      TakeAddrsNamed(if a.Some? then GotAddr(c, a.value, rs[0].ip, rs[0].ttl) else c, rs[1..]);
    }
  }

  lemma UpdateCacheNamed(c: Cache, p: Answers, elapsed: u32)
    requires Good(c) && Named(c) && CarriedAnswers(p)
    ensures Named(UpdateCache(c, p, elapsed))
  {
    hide Named, TakePtrs, TakeTxts, TakeSrvs, TakeAddrs, Linked, Keys, Coherent, Logged, SafeLog, NoOrphans, Carried;
    if p.response {
      TakePtrsNamed(c, p, p.ptrs, elapsed);
      var (c1, p1) := TakePtrs(c, p, p.ptrs, elapsed);
      TakeTxtsNamed(c1, p1.txts);
      TakeSrvsNamed(TakeTxts(c1, p1.txts), p1.srvs, elapsed);
      TakeAddrsNamed(TakeSrvs(TakeTxts(c1, p1.txts), p1.srvs, elapsed), p1.addrs);
    }
  }

  // ----- runs -----

  /** The names that come in with a turn. */
  predicate CarriedTurn(t: Turn) {
    && (t.control.Some? && t.control.value.Start? ==> Carried(t.control.value.fqst))
    && (t.rx.Received? ==> CarriedAnswers(t.rx.answers))
  }

  lemma ControlledNamed(c: Cache, t: Option<Control>)
    requires Fits(c) && Named(c) && (t.Some? && t.value.Start? ==> Carried(t.value.fqst))
    ensures Named(Controlled(c, t))
  {
    hide Named, AddService, RemoveService, Keeps, Carried;
    if t.Some? && t.value.Start? {
      AddServiceNamed(c, t.value.fqst);
    } else if t.Some? && t.value.Stop? {
      RemoveServiceKeeps(c, t.value.fqst);
      KeepsNamed(c, RemoveService(c, t.value.fqst));
    }
  }

  lemma TurnNamed(c: Cache, t: Turn)
    requires Good(c) && Named(c) && CarriedTurn(t)
    ensures Named(TakeTurn(c, t))
  {
    hide Named, Controlled, UpdateCache, Prepare, Keeps, Linked, Keys, Coherent, Logged, SafeLog, NoOrphans, Carried, CarriedAnswers;
    ControlledGood(c, t.control);
    ControlledNamed(c, t.control);
    var d := Controlled(c, t.control);
    if t.rx.Received? {
      UpdateCacheNamed(d, t.rx.answers, t.elapsed);
      d := UpdateCache(d, t.rx.answers, t.elapsed);
    }
    PrepareKeeps(d, t.elapsed);
    KeepsNamed(d, Prepare(d, t.elapsed).c);
  }

  /** Whatever packets carry, in every state that is reached every name in the cache
      has proper labels, and every cached instance one of at least four. */
  lemma {:induction false} RunNamed(c: Cache, ts: seq<Turn>)
    requires Good(c) && Named(c) && StableRun(c, ts) && forall j :: 0 <= j < |ts| ==> CarriedTurn(ts[j])
    ensures Named(Run(c, ts))
    decreases |ts|
  {
    if ts != [] {
      hide Good, Named, TakeTurn, StableTurn, CarriedTurn;
      TurnGood(c, ts[0]);
      TurnNamed(c, ts[0]);
      RunNamed(TakeTurn(c, ts[0]), ts[1..]);
    }
  }

  lemma LaunchNamed(n: nat, m: nat)
    requires m > 0
    ensures Named(Launch(n, m))
  {
  }

  /** In particular from launch on. */
  lemma AlwaysNamed(n: nat, m: nat, ts: seq<Turn>)
    requires m > 0 && StableRun(Launch(n, m), ts) && forall j :: 0 <= j < |ts| ==> CarriedTurn(ts[j])
    ensures Named(Run(Launch(n, m), ts))
  {
    hide Good, Named, Run, Launch, StableRun, CarriedTurn;
    LaunchGood(n, m);
    LaunchNamed(n, m);
    RunNamed(Launch(n, m), ts);
  }
}
