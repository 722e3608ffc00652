/** The walks of the querier (mdns/mdns_query.c) keep the invariant, though they
    unlink and relink what they walk over. */
module CacheSteps {
  import opened Bytes
  import opened Names
  import opened Slist
  import opened Pools
  import opened Cache
  import opened CacheInv
  import Clock
  import Packet

  // ----- a new address reaches every instance of a record -----

  function Rev(s: seq<nat>): (r: seq<nat>)
    ensures |r| == |s|
  {
    if s == [] then [] else Rev(s[1..]) + [s[0]]
  }

  /** A reversed list holds the same elements. */
  lemma {:induction false} RevSame(s: seq<nat>)
    ensures multiset(Rev(s)) == multiset(s)
  {
    if s != [] {
      RevSame(s[1..]);
      assert s == [s[0]] + s[1..];
    }
  }

  lemma SetRecordSound(c: Cache, a: nat, r: Record, pending: set<nat>)
    requires Sound(c, pending) && a < |c.g.owner| && r.ip == c.arecs[a].ip
    ensures Sound(SetRecord(c, a, r), pending)
  {
    hide Linked, Keys, PhaseOf, SafeLog, Live;
  }

  /** A new address leaves the instances of the record to be told. */
  lemma NewIpSound(c: Cache, a: nat, ip: u32)
    requires Sound(c, {}) && a < |c.g.owner|
    ensures Sound(SetRecord(c, a, c.arecs[a].(ip := ip)), Elements(c.g.xref[a]))
  {
    HomesAreLive(c.g);
    hide Linked, Keys, PhaseOf, SafeLog, Live;
  }

  lemma GotArecSound(c: Cache, a: nat, i: nat, pending: set<nat>)
    requires Sound(c, pending) && a in c.g.live && i < |c.g.owner| && Live(c.g, i)
    ensures a < |c.g.owner| && Sound(GotArec(c, i, a), pending - {i})
    ensures GotArec(c, i, a).g == Attach(c.g, i, a) && GotArec(c, i, a).arecs == c.arecs
  {
    SetArecSound(c, i, a, pending);
    hide Sound, Live, Attach;
    ReactSound(SetArec(c, i, a), i, if ArecChanges(c, i, a) then 1 else 0, pending - {i});
  }

  /** The walk moves each instance to the front of the list it walks, and still
      visits each once. */
  lemma {:induction false} TellAllSound(c: Cache, a: nat, done: seq<nat>, list: seq<nat>)
    requires a in c.g.live && Sound(c, Elements(list)) && a < |c.g.owner| && c.g.xref[a] == done + list
    ensures Below(list, |c.g.owner|) && Sound(TellAll(c, a, list), {})
    ensures TellAll(c, a, list).g == c.g.(xref := c.g.xref[a := Rev(list) + done])
    ensures TellAll(c, a, list).arecs == c.arecs
    decreases |list|
  {
    if list == [] {
      assert Elements(list) == {} && Rev(list) + done == done + list == c.g.xref[a];
      assert c.g.xref[a := c.g.xref[a]] == c.g.xref;
    } else {
      var i := list[0];
      assert Linked(c.g);
      hide Sound, Live, Linked, Attach, GotArec;
      WalkedElement(c.g, a, done, list);
      GotArecSound(c, a, i, Elements(list));
      var d := GotArec(c, i, a);
      assert i !in list[1..] && Elements(list) - {i} == Elements(list[1..]);
      assert [i] + done + list[1..] == ([i] + done) + list[1..];
      TellAllSound(d, a, [i] + done, list[1..]);
      assert Rev(list[1..]) + ([i] + done) == Rev(list) + done;
    }
  }

  lemma WalkedElement(g: Graph, a: nat, done: seq<nat>, list: seq<nat>)
    requires Linked(g) && a < |g.owner| && a in g.live && list != [] && g.xref[a] == done + list
    ensures list[0] < |g.owner| && Live(g, list[0]) && Below(list, |g.owner|) && NoDup(list)
    ensures Attach(g, list[0], a) == g.(xref := g.xref[a := [list[0]] + done + list[1..]])
    ensures list[0] !in list[1..] && forall x :: x in list <==> x == list[0] || x in list[1..]
  {
    var i, x := list[0], g.xref[a];
    forall j | 0 <= j < |list| ensures list[j] < |g.owner| {
      assert x[|done| + j] == list[j];
    }
    assert x[|done|] == i && i in x;
    assert NoDup(list) by {
      forall j, k | 0 <= j < k < |list| ensures list[j] != list[k] {
        assert x[|done| + j] != x[|done| + k];
      }
    }
    TailNoDup(list);
    assert x[..|done|] == done;
    assert i !in done by {
      forall j | 0 <= j < |done| ensures done[j] != i {
        assert x[j] != x[|done|];
      }
    }
    WithoutAt(x, |done|);
    assert x[|done| + 1..] == list[1..];
    assert Attach(g, i, a).home == g.home;
    assert [i] + (done + list[1..]) == [i] + done + list[1..];
  }

  lemma SetIpSound(c: Cache, a: nat, ip: u32, ttl: u32)
    requires Sound(c, {}) && a in c.g.live
    ensures a < |c.g.owner| && Sound(SetIp(c, a, ip, ttl), {})
    ensures SetIp(c, a, ip, ttl).g == c.g.(xref := c.g.xref[a := if c.arecs[a].ip == ip then c.g.xref[a] else Rev(c.g.xref[a])])
  {
    assert a < |c.g.owner|;
    hide Linked, Keys, PhaseOf, SafeLog, Live, Coherent, Logged, TellAll;
    if c.arecs[a].ip == ip {
      SetRecordSound(c, a, SetIp(c, a, ip, ttl).arecs[a], {});
      assert c.g.xref[a := c.g.xref[a]] == c.g.xref;
    } else {
      var d := SetRecord(c, a, c.arecs[a].(ip := ip));
      NewIpSound(c, a, ip);
      assert [] + c.g.xref[a] == c.g.xref[a];
      TellAllSound(d, a, [], c.g.xref[a]);
      assert Rev(c.g.xref[a]) + [] == Rev(c.g.xref[a]);
      var e := TellAll(d, a, c.g.xref[a]);
      SetRecordSound(e, a, SetIp(c, a, ip, ttl).arecs[a], {});
    }
  }

  lemma RevKeepsOrphans(g: Graph, a: nat)
    requires a < |g.xref| && NoOrphans(g)
    ensures NoOrphans(g.(xref := g.xref[a := Rev(g.xref[a])]))
    ensures NoOrphans(g.(xref := g.xref[a := g.xref[a]]))
  {
  }

  // ----- the instances of a record are lost -----

  lemma LostFrame(c: Cache, i: nat)
    requires Sound(c, {}) && i < |c.g.owner| && Live(c.g, i)
    ensures Sound(LostArec(c, i), {})
    ensures forall j: nat :: Live(LostArec(c, i).g, j) <==> Live(c.g, j) && j != i
    ensures LostArec(c, i).g.home == c.g.home && LostArec(c, i).g.owner == c.g.owner && LostArec(c, i).g.watched == c.g.watched
    ensures NoOrphans(c.g) ==> NoOrphans(LostArec(c, i).g)
    ensures LostArec(c, i).arecs == c.arecs && LostArec(c, i).smons == c.smons
    ensures forall j: nat :: j < |c.sinsts| && j != i ==> LostArec(c, i).sinsts[j] == c.sinsts[j]
    ensures LostArec(c, i).sinsts[i].nextRefresh == U32_MAX
    ensures forall a :: a in LostArec(c, i).g.live ==> a in c.g.live
  {
    LostSound(c, i, {});
    FreedSound(c, LostArec(c, i), i, {});
    FreeHome(c.g, i);
  }

  /** All of a list is released, and nothing else. */
  lemma {:induction false} LoseAllSound(c: Cache, list: seq<nat>)
    requires Sound(c, {}) && NoDup(list) && Below(list, |c.g.owner|)
    requires forall i :: i in list ==> Live(c.g, i)
    ensures Sound(LoseAll(c, list), {})
    ensures forall j: nat :: Live(LoseAll(c, list).g, j) <==> Live(c.g, j) && j !in list
    ensures LoseAll(c, list).g.home == c.g.home && LoseAll(c, list).g.owner == c.g.owner
    ensures LoseAll(c, list).arecs == c.arecs && LoseAll(c, list).smons == c.smons
    ensures LoseAll(c, list).g.watched == c.g.watched
    ensures forall j: nat :: j < |c.sinsts| && j !in list ==> LoseAll(c, list).sinsts[j] == c.sinsts[j]
    ensures forall a :: a in LoseAll(c, list).g.live ==> a in c.g.live
    ensures NoOrphans(c.g) ==> NoOrphans(LoseAll(c, list).g)
    decreases |list|
  {
    if list != [] {
      TailNoDup(list);
      LostFrame(c, list[0]);
      hide Sound, Live, NoOrphans, LostArec;
      LoseAllSound(LostArec(c, list[0]), list[1..]);
    }
  }

  /** Evicting a record empties its list, so that it is free again. */
  lemma EvictSound(c: Cache, a: nat)
    requires Sound(c, {}) && a < |c.g.owner|
    ensures Sound(Evict(c, a), {}) && Evict(c, a).g.xref[a] == []
    ensures forall j: nat :: Live(Evict(c, a).g, j) <==> Live(c.g, j) && j !in c.g.xref[a]
    ensures NoOrphans(c.g) ==> NoOrphans(Evict(c, a).g) && a !in Evict(c, a).g.live
    ensures Evict(c, a).arecs == c.arecs[a := c.arecs[a].(nextRefresh := U32_MAX)] && Evict(c, a).smons == c.smons
    ensures Evict(c, a).g.owner == c.g.owner && Evict(c, a).g.watched == c.g.watched
    ensures forall j: nat :: Live(Evict(c, a).g, j) ==> j < |c.sinsts| && Evict(c, a).sinsts[j] == c.sinsts[j]
    ensures forall b :: b in Evict(c, a).g.live ==> b in c.g.live
  {
    assert NoDup(c.g.xref[a]) && Below(c.g.xref[a], |c.g.owner|);
    LoseAllSound(c, c.g.xref[a]);
    var d := LoseAll(c, c.g.xref[a]);
    hide LoseAll, Keys, Coherent, Logged, SafeLog, Placed, Halves;
    SetRecordSound(d, a, d.arecs[a].(nextRefresh := U32_MAX), {});
    EmptyAfter(c.g, d.g, a);
  }

  lemma EmptyAfter(g: Graph, h: Graph, a: nat)
    requires Linked(g) && Linked(h) && a < |g.owner| && |h.owner| == |g.owner| && h.home == g.home
    requires forall j: nat :: Live(h, j) <==> Live(g, j) && j !in g.xref[a]
    ensures h.xref[a] == []
    ensures NoOrphans(h) ==> a !in h.live
  {
    hide Placed, Halves, Live;
    HeadIn(h.xref[a]);
  }

  lemma GotAddrSound(c: Cache, a: nat, ip: u32, ttl: u32)
    requires Sound(c, {}) && a in c.g.live
    ensures a < |c.g.owner| && Sound(GotAddr(c, a, ip, ttl), {})
    ensures NoOrphans(c.g) ==> NoOrphans(GotAddr(c, a, ip, ttl).g)
  {
    assert a < |c.g.owner|;
    hide Linked, Keys, PhaseOf, SafeLog, Live, Coherent, Logged, SetIp, Evict, NoOrphans;
    if ttl == 0 {
      EvictSound(c, a);
    } else {
      var d := SetRecord(c, a, c.arecs[a].(state := ArecResolved));
      SetRecordSound(c, a, c.arecs[a].(state := ArecResolved), {});
      SetIpSound(d, a, ip, ttl);
      if NoOrphans(c.g) { RevKeepsOrphans(d.g, a); }
    }
  }

  // ----- a received packet -----

  lemma BelongsLive(c: Cache, n: Name)
    requires Sound(c, {}) && Belongs(c, n).Some?
    ensures Belongs(c, n).value < |c.g.owner| && Live(c.g, Belongs(c, n).value)
  {
    var k := FindMonitor(c, Rest(n)).value;
    HeldIsLive(c.g, k, Belongs(c, n).value);
  }

  lemma OverflowSound(c: Cache, e: Event)
    requires Sound(c, {}) && e.Overflow?
    ensures Sound(c.(log := c.log + [e]), {})
  {
    hide Linked, Keys, Live, PhaseOf;
    SafeSnoc(c.log, e);
    var d := c.(log := c.log + [e]);
    forall i | 0 <= i < |d.g.owner| ensures PhaseOf(d.log, i) == Expected(d, i) {
      PhaseSnoc(c.log, e, i);
      assert PhaseOf(c.log, i) == Expected(c, i);
    }
  }

  lemma TakePtrSound(c: Cache, p: Answers, ptr: PtrRec, elapsed: u32)
    requires Sound(c, {})
    ensures Sound(TakePtr(c, p, ptr, elapsed).0, {})
    ensures NoOrphans(c.g) ==> NoOrphans(TakePtr(c, p, ptr, elapsed).0.g)
  {
    var k := FindMonitor(c, ptr.name);
    if k.Some? {
      var i := FindInstance(c, k.value, ptr.target);
      if i.Some? {
        HeldIsLive(c.g, k.value, i.value);
        hide Sound, Live, NoOrphans, KnownPtr;
        KnownPtrSound(c, i.value, ptr.ttl, elapsed);
      } else if c.g.spare != [] {
        hide Sound, Live, NoOrphans, NewInstance, FindInstance;
        NewInstanceSound(c, k.value, ptr.target, ptr.ttl, elapsed);
      } else if ptr.ttl != 0 && ServInfo(ptr.target) {
        hide Sound, Live, NoOrphans, OverflowService;
        OverflowSound(c, Overflow(k.value, ptr.target, OverflowService(p, ptr.target)));
      }
    }
  }

  lemma {:induction false} TakePtrsSound(c: Cache, p: Answers, ptrs: seq<PtrRec>, elapsed: u32)
    requires Sound(c, {})
    ensures Sound(TakePtrs(c, p, ptrs, elapsed).0, {})
    ensures NoOrphans(c.g) ==> NoOrphans(TakePtrs(c, p, ptrs, elapsed).0.g)
    decreases |ptrs|
  {
    if ptrs != [] {
      TakePtrSound(c, p, ptrs[0], elapsed);
      hide Sound, NoOrphans, TakePtr;
      var (c1, p1) := TakePtr(c, p, ptrs[0], elapsed);
      TakePtrsSound(c1, p1, ptrs[1..], elapsed);
    }
  }

  lemma GotTxtSound(c: Cache, i: nat, rdata: seq<byte>)
    requires Sound(c, {}) && i < |c.g.owner| && Live(c.g, i)
    ensures Sound(GotTxt(c, i, rdata), {})
  {
    var s := c.sinsts[i];
    var s1 := s.(service := UpdateTxt(s.service, rdata));
    SetInstanceSound(c, i, s1, {});
    hide Sound, Live;
    ReactSound(SetInstance(c, i, s1), i, if TxtChanges(s.service.raw, rdata) then 1 else 0, {});
  }

  lemma {:induction false} TakeTxtsSound(c: Cache, rs: seq<TxtRec>)
    requires Sound(c, {})
    ensures Sound(TakeTxts(c, rs), {}) && TakeTxts(c, rs).g == c.g
    decreases |rs|
  {
    if rs != [] {
      var i := Belongs(c, rs[0].name);
      if i.Some? {
        BelongsLive(c, rs[0].name);
        GotTxtSound(c, i.value, rs[0].rdata);
      }
      hide Sound, Live, Belongs, GotTxt;
      TakeTxtsSound(if i.Some? then GotTxt(c, i.value, rs[0].rdata) else c, rs[1..]);
    }
  }

  /** No SRV of the packet moves the last instance of a host to another one. */
  predicate StableSrvs(c: Cache, rs: seq<SrvRec>, elapsed: u32)
    requires Fits(c)
    decreases |rs|
  {
    rs == [] ||
    (var i := Belongs(c, rs[0].name);
     && (i.Some? ==> Settled(c, i.value, rs[0]))
     && StableSrvs(if i.Some? then GotSrv(c, i.value, rs[0], elapsed) else c, rs[1..], elapsed))
  }

  lemma GotSrvGood(c: Cache, i: nat, srv: SrvRec, elapsed: u32)
    requires Good(c) && i < |c.g.owner| && Live(c.g, i) && Settled(c, i, srv)
    ensures Good(GotSrv(c, i, srv, elapsed))
  {
    hide Good, Live, Settled;
    SrvKeepsGood(c, i, srv, elapsed);
  }

  lemma {:induction false} TakeSrvsGood(c: Cache, rs: seq<SrvRec>, elapsed: u32)
    requires Good(c) && StableSrvs(c, rs, elapsed)
    ensures Good(TakeSrvs(c, rs, elapsed))
    decreases |rs|
  {
    if rs != [] {
      var i := Belongs(c, rs[0].name);
      if i.Some? {
        BelongsLive(c, rs[0].name);
        GotSrvGood(c, i.value, rs[0], elapsed);
      }
      hide Good, Sound, Live, Belongs, GotSrv, Settled;
      TakeSrvsGood(if i.Some? then GotSrv(c, i.value, rs[0], elapsed) else c, rs[1..], elapsed);
    }
  }

  lemma {:induction false} TakeAddrsSound(c: Cache, rs: seq<AddrRec>)
    requires Sound(c, {})
    ensures Sound(TakeAddrs(c, rs), {})
    ensures NoOrphans(c.g) ==> NoOrphans(TakeAddrs(c, rs).g)
    decreases |rs|
  {
    if rs != [] {
      var a := FindRecord(c, rs[0].name);
      if a.Some? {
        GotAddrSound(c, a.value, rs[0].ip, rs[0].ttl);
      }
      hide Sound, NoOrphans, FindRecord, GotAddr;
      TakeAddrsSound(if a.Some? then GotAddr(c, a.value, rs[0].ip, rs[0].ttl) else c, rs[1..]);
    }
  }

  predicate Stable(c: Cache, p: Answers, elapsed: u32)
    requires Fits(c)
  {
    var (c1, p1) := TakePtrs(c, p, p.ptrs, elapsed);
    p.response ==> StableSrvs(TakeTxts(c1, p1.txts), p1.srvs, elapsed)
  }

  lemma UpdateCacheGood(c: Cache, p: Answers, elapsed: u32)
    requires Good(c) && Stable(c, p, elapsed)
    ensures Good(UpdateCache(c, p, elapsed))
  {
    if p.response {
      TakePtrsSound(c, p, p.ptrs, elapsed);
      hide Sound, NoOrphans, TakePtrs, TakeTxts, TakeSrvs, TakeAddrs, StableSrvs;
      var (c1, p1) := TakePtrs(c, p, p.ptrs, elapsed);
      TakeTxtsSound(c1, p1.txts);
      var c2 := TakeTxts(c1, p1.txts);
      TakeSrvsGood(c2, p1.srvs, elapsed);
      TakeAddrsSound(TakeSrvs(c2, p1.srvs, elapsed), p1.addrs);
    }
  }

  // ----- a timer pass -----

  lemma AgeRecordSound(w: Walk, a: nat, elapsed: u32)
    requires Sound(w.c, {}) && a < |w.c.g.owner|
    ensures Sound(AgeRecord(w, a, elapsed).c, {})
    ensures NoOrphans(w.c.g) ==> NoOrphans(AgeRecord(w, a, elapsed).c.g)
  {
    var s := w.c.arecs[a];
    assert Slot(w.c, a);
    hide Sound, NoOrphans, Evict;
    var left := Clock.Subtract(s.nextRefresh, elapsed);
    if s.state == ArecQuerying && left == 0 && s.percent < 5 {
      SetRecordSound(w.c, a, s.(nextRefresh := 0), {});
      EvictSound(SetRecord(w.c, a, s.(nextRefresh := 0)), a);
    } else {
      SetRecordSound(w.c, a, AgeRecord(w, a, elapsed).c.arecs[a], {});
    }
  }

  lemma {:induction false} AgeRecordsSound(w: Walk, list: seq<nat>, elapsed: u32)
    requires Sound(w.c, {}) && Below(list, |w.c.g.owner|)
    ensures Sound(AgeRecords(w, list, elapsed).c, {})
    ensures NoOrphans(w.c.g) ==> NoOrphans(AgeRecords(w, list, elapsed).c.g)
    decreases |list|
  {
    if list != [] {
      AgeRecordSound(w, list[0], elapsed);
      hide Sound, NoOrphans, AgeRecord;
      var w1 := AgeRecord(w, list[0], elapsed);
      AgeRecordsSound(w1.(next := Min(w1.next, w1.c.arecs[list[0]].nextRefresh)), list[1..], elapsed);
    }
  }

  lemma AgeInstanceCases(w: Walk, i: nat, elapsed: u32)
    requires Slot(w.c, i)
    ensures var s, d := Aged(w.c.sinsts[i], elapsed), AgeInstance(w, i, elapsed).c;
            if s.nextRefresh == 0 && s.percent < 5 then d == LostArec(SetInstance(w.c, i, s), i)
            else
              && d == SetInstance(w.c, i, d.sinsts[i])
              && d.sinsts[i].service.hasA == s.service.hasA && d.sinsts[i].service.ip == s.service.ip
              && (d.sinsts[i].state == SinstInit <==> s.state == SinstInit)
  {
    hide Free, Sized;
  }

  /** Aging an instance leaves all others alone. */
  lemma AgeInstanceSound(w: Walk, i: nat, elapsed: u32)
    requires Sound(w.c, {}) && i < |w.c.g.owner| && Live(w.c.g, i)
    ensures Sound(AgeInstance(w, i, elapsed).c, {})
    ensures NoOrphans(w.c.g) ==> NoOrphans(AgeInstance(w, i, elapsed).c.g)
    ensures forall j: nat :: j != i ==> (Live(AgeInstance(w, i, elapsed).c.g, j) <==> Live(w.c.g, j))
    ensures AgeInstance(w, i, elapsed).c.g.watched == w.c.g.watched && AgeInstance(w, i, elapsed).c.g.owner == w.c.g.owner
    ensures forall a :: a in AgeInstance(w, i, elapsed).c.g.live ==> a in w.c.g.live
    ensures forall j: nat :: j < |w.c.sinsts| && j != i ==> AgeInstance(w, i, elapsed).c.sinsts[j] == w.c.sinsts[j]
    ensures AgeInstance(w, i, elapsed).c.arecs == w.c.arecs && AgeInstance(w, i, elapsed).c.smons == w.c.smons
  {
    AgeInstanceCases(w, i, elapsed);
    assert Slot(w.c, i);
    hide Sound, NoOrphans, Live, AgeInstance, LostArec;
    var s := Aged(w.c.sinsts[i], elapsed);
    if s.nextRefresh == 0 && s.percent < 5 {
      SetInstanceSound(w.c, i, s, {});
      LostFrame(SetInstance(w.c, i, s), i);
    } else {
      SetInstanceSound(w.c, i, AgeInstance(w, i, elapsed).c.sinsts[i], {});
    }
  }

  lemma {:induction false} AgeInstancesSound(w: Walk, list: seq<nat>, elapsed: u32)
    requires Sound(w.c, {}) && Below(list, |w.c.g.owner|) && NoDup(list)
    requires forall i :: i in list ==> Live(w.c.g, i)
    ensures Sound(AgeInstances(w, list, elapsed).c, {})
    ensures NoOrphans(w.c.g) ==> NoOrphans(AgeInstances(w, list, elapsed).c.g)
    ensures AgeInstances(w, list, elapsed).c.g.watched == w.c.g.watched
    decreases |list|
  {
    if list != [] {
      TailNoDup(list);
      AgeInstanceSound(w, list[0], elapsed);
      hide Sound, NoOrphans, AgeInstance, Live;
      var w1 := AgeInstance(w, list[0], elapsed);
      AgeInstancesSound(w1.(next := Min(w1.next, w1.c.sinsts[list[0]].nextRefresh)), list[1..], elapsed);
    }
  }

  lemma SetMonitorSound(c: Cache, k: nat, s: Monitor)
    requires Sound(c, {}) && k < |c.g.held|
    ensures Sound(SetMonitor(c, k, s), {})
  {
    hide Linked, Keys, PhaseOf, SafeLog, Live;
  }

  lemma AllHeldLive(c: Cache, k: nat)
    requires Sound(c, {}) && k < |c.g.held|
    ensures Below(c.g.held[k], |c.g.owner|) && NoDup(c.g.held[k]) && forall i :: i in c.g.held[k] ==> Live(c.g, i)
  {
  }

  lemma AgeMonitorSound(w: Walk, k: nat, elapsed: u32)
    requires Sound(w.c, {}) && k < |w.c.g.held|
    ensures Sound(AgeMonitor(w, k, elapsed).c, {}) && AgeMonitor(w, k, elapsed).c.g == w.c.g
  {
    assert Fits(w.c);
    hide Sound;
    SetMonitorSound(w.c, k, AgeMonitor(w, k, elapsed).c.smons[k]);
  }

  lemma {:induction false} AgeMonitorsSound(w: Walk, list: seq<nat>, elapsed: u32)
    requires Sound(w.c, {}) && Below(list, |w.c.g.held|)
    ensures Sound(AgeMonitors(w, list, elapsed).c, {})
    ensures NoOrphans(w.c.g) ==> NoOrphans(AgeMonitors(w, list, elapsed).c.g)
    ensures AgeMonitors(w, list, elapsed).c.g.watched == w.c.g.watched
    decreases |list|
  {
    if list != [] {
      AgeMonitorSound(w, list[0], elapsed);
      hide Sound, NoOrphans, AgeMonitor, Live, AgeInstances;
      var w1 := AgeMonitor(w, list[0], elapsed);
      if !w1.failed {
        AllHeldLive(w1.c, list[0]);
        AgeInstancesSound(w1, w1.c.g.held[list[0]], elapsed);
        AgeMonitorsSound(AgeInstances(w1, w1.c.g.held[list[0]], elapsed), list[1..], elapsed);
      }
    }
  }

  lemma {:induction false} RearmSound(w: Walk, list: seq<nat>)
    requires Sound(w.c, {}) && Below(list, |w.c.g.held|)
    ensures Sound(Rearm(w, list).c, {}) && Rearm(w, list).c.g == w.c.g
    decreases |list|
  {
    if list != [] {
      var s := w.c.smons[list[0]];
      if s.nextRefresh == 0 {
        SetMonitorSound(w.c, list[0], s.(nextRefresh := s.period));
        hide Sound;
        RearmSound(w.(c := SetMonitor(w.c, list[0], s.(nextRefresh := s.period)), next := Min(w.next, s.period)), list[1..]);
      } else {
        RearmSound(w, list[1..]);
      }
    }
  }

  lemma {:induction false} RearmRest(w: Walk, list: seq<nat>)
    requires Fits(w.c) && Below(list, |w.c.g.held|)
    ensures Rearm(w, list).c == w.c.(smons := Rearm(w, list).c.smons) && Rearm(w, list).failed == w.failed
    decreases |list|
  {
    if list != [] {
      var s := w.c.smons[list[0]];
      RearmRest(if s.nextRefresh == 0 then
                  w.(c := SetMonitor(w.c, list[0], s.(nextRefresh := s.period)), next := Min(w.next, s.period))
                else w, list[1..]);
    }
  }

  lemma PrepareSound(c: Cache, elapsed: u32)
    requires Sound(c, {})
    ensures Sound(Prepare(c, elapsed).c, {})
    ensures NoOrphans(c.g) ==> NoOrphans(Prepare(c, elapsed).c.g)
  {
    var w0 := Walk(c, Query([], Packet.HEADER_SIZE), 0, U32_MAX, false);
    AgeRecordsSound(w0, c.g.live, elapsed);
    hide Sound, NoOrphans, AgeRecords, AgeMonitors, Rearm;
    var w1 := AgeRecords(w0, c.g.live, elapsed);
    AgeMonitorsSound(w1, w1.c.g.watched, elapsed);
    var w2 := AgeMonitors(w1, w1.c.g.watched, elapsed);
    if !w2.failed && w2.sends != 0 {
      RearmSound(w2, w2.c.g.watched);
    }
  }

  // ----- control -----

  lemma AddServiceSound(c: Cache, fqst: Name)
    requires Sound(c, {})
    ensures Sound(AddService(c, fqst), {})
    ensures NoOrphans(c.g) ==> NoOrphans(AddService(c, fqst).g)
  {
    if FindMonitor(c, fqst).None? && c.g.unwatched != [] {
      WatchLinked(c.g);
      var k, d := c.g.unwatched[0], AddService(c, fqst);
      assert k in c.g.unwatched;
      DistinctCons(c.fqst, c.g.watched, k, fqst);
      assert Keys(d.g, d.fqsn, d.fqdn, d.fqst);
      hide Linked, Keys, PhaseOf, SafeLog, Live, NoOrphans, FindMonitor;
      assert Coherent(d, {});
      assert Logged(d);
    }
  }

  lemma UnmonitoredFrame(c: Cache, i: nat)
    requires Sound(c, {}) && i < |c.g.owner| && Live(c.g, i)
    ensures Sound(CleanupInstance(c, i, true), {})
    ensures forall j: nat :: Live(CleanupInstance(c, i, true).g, j) <==> Live(c.g, j) && j != i
    ensures CleanupInstance(c, i, true).g.owner == c.g.owner && CleanupInstance(c, i, true).g.watched == c.g.watched
    ensures NoOrphans(c.g) ==> NoOrphans(CleanupInstance(c, i, true).g)
  {
    UnmonitoredSound(c, i);
    FreedSound(c, CleanupInstance(c, i, true), i, {});
    FreeHome(c.g, i);
  }

  lemma {:induction false} CleanupAllSound(c: Cache, list: seq<nat>)
    requires Sound(c, {}) && NoDup(list) && Below(list, |c.g.owner|)
    requires forall i :: i in list ==> Live(c.g, i)
    ensures Sound(CleanupAll(c, list), {})
    ensures forall j: nat :: Live(CleanupAll(c, list).g, j) <==> Live(c.g, j) && j !in list
    ensures CleanupAll(c, list).g.owner == c.g.owner && CleanupAll(c, list).g.watched == c.g.watched
    ensures NoOrphans(c.g) ==> NoOrphans(CleanupAll(c, list).g)
    decreases |list|
  {
    if list != [] {
      TailNoDup(list);
      UnmonitoredFrame(c, list[0]);
      hide Sound, Live, NoOrphans, CleanupInstance;
      CleanupAllSound(CleanupInstance(c, list[0], true), list[1..]);
    }
  }

  lemma NoneHeld(g: Graph, h: Graph, k: nat)
    requires Linked(g) && Linked(h) && k < |g.held| && |h.held| == |g.held| && h.owner == g.owner
    requires forall j: nat :: Live(h, j) <==> Live(g, j) && j !in g.held[k]
    ensures h.held[k] == []
  {
    HeadIn(h.held[k]);
  }

  lemma UnwatchSound(c: Cache, k: nat)
    requires Sound(c, {}) && k in c.g.watched && k < |c.g.held| && c.g.held[k] == []
    ensures Sound(c.(g := Unwatch(c.g, k)), {})
    ensures NoOrphans(c.g) ==> NoOrphans(Unwatch(c.g, k))
  {
    UnwatchLinked(c.g, k);
    var d := c.(g := Unwatch(c.g, k));
    DistinctSub(c.fqst, c.g.watched, d.g.watched);
    assert Keys(d.g, d.fqsn, d.fqdn, d.fqst);
    hide Linked, Keys, PhaseOf, SafeLog, Live, NoOrphans;
    assert Coherent(d, {});
    assert Logged(d);
  }

  lemma RemoveMonitorSound(c: Cache, k: nat)
    requires Sound(c, {}) && k in c.g.watched && k < |c.g.held|
    ensures Sound(RemoveMonitor(c, k), {}) && RemoveMonitor(c, k).g.watched == Without(c.g.watched, k)
    ensures NoOrphans(c.g) ==> NoOrphans(RemoveMonitor(c, k).g)
  {
    AllHeldLive(c, k);
    CleanupAllSound(c, c.g.held[k]);
    var d := CleanupAll(c, c.g.held[k]);
    NoneHeld(c.g, d.g, k);
    hide Sound, Live, NoOrphans, CleanupAll;
    UnwatchSound(d, k);
  }

  /** Unmonitoring everything takes the monitors from the front, one by one. */
  lemma {:induction false} RemoveAllSound(c: Cache, list: seq<nat>)
    requires Sound(c, {}) && list == c.g.watched && Below(list, |c.g.held|)
    ensures Sound(RemoveAll(c, list), {}) && RemoveAll(c, list).g.watched == []
    ensures NoOrphans(c.g) ==> NoOrphans(RemoveAll(c, list).g)
    decreases |list|
  {
    if list != [] {
      var k := list[0];
      assert k in list;
      RemoveMonitorSound(c, k);
      hide Sound, NoOrphans, RemoveMonitor;
      RemoveAllSound(RemoveMonitor(c, k), list[1..]);
    }
  }

  lemma RemoveServiceSound(c: Cache, fqst: Name)
    requires Sound(c, {})
    ensures Sound(RemoveService(c, fqst), {})
    ensures NoOrphans(c.g) ==> NoOrphans(RemoveService(c, fqst).g)
  {
    if fqst == [] {
      RemoveAllSound(c, c.g.watched);
    } else {
      var k := FindMonitor(c, fqst);
      if k.Some? { RemoveMonitorSound(c, k.value); }
    }
  }

  // ----- one step of each walk -----

  /** The walk that evicts a record meets its instances one by one. */
  lemma EvictStep(c: Cache, a: nat, rest: seq<nat>)
    requires Sound(c, {}) && a < |c.g.owner| && c.g.xref[a] == rest && rest != []
    ensures rest[0] < |c.g.owner| && Live(c.g, rest[0]) && Below(rest, |c.g.owner|)
    ensures var d := LostArec(c, rest[0]);
            Sound(d, {}) && d.g.xref[a] == rest[1..] && LoseAll(c, rest) == LoseAll(d, rest[1..])
    ensures var d := LostArec(c, rest[0]); d.g.live == c.g.live || d.g.live == Without(c.g.live, a)
  {
    var i := rest[0];
    assert i in c.g.xref[a];
    LostSound(c, i, {});
    assert rest[0] !in rest[..0];
    WithoutAt(rest, 0);
    assert rest[..0] + rest[1..] == rest[1..];
    hide Sound, Linked, Live;
  }

  /** The records stay in order; at most the evicted one goes. */
  lemma {:induction false} LoseAllLive(c: Cache, a: nat, rest: seq<nat>)
    requires Sound(c, {}) && a < |c.g.owner| && c.g.xref[a] == rest
    ensures Below(rest, |c.g.owner|)
    ensures LoseAll(c, rest).g.live == c.g.live || LoseAll(c, rest).g.live == Without(c.g.live, a)
    decreases |rest|
  {
    if rest != [] {
      EvictStep(c, a, rest);
      WithoutTwice(c, a);
      hide Sound, Live, LostArec;
      LoseAllLive(LostArec(c, rest[0]), a, rest[1..]);
    }
  }

  lemma WithoutTwice(c: Cache, a: nat)
    requires Sound(c, {})
    ensures Without(Without(c.g.live, a), a) == Without(c.g.live, a)
  {
    WithoutNoDup(c.g.live, a);
    WithoutNoDup(Without(c.g.live, a), a);
  }

  lemma AgeRecordLive(w: Walk, a: nat, elapsed: u32)
    requires Sound(w.c, {}) && a < |w.c.g.owner|
    ensures var live := AgeRecord(w, a, elapsed).c.g.live; live == w.c.g.live || live == Without(w.c.g.live, a)
  {
    assert Slot(w.c, a);
    hide Sound, LoseAll;
    var d := SetRecord(w.c, a, w.c.arecs[a].(nextRefresh := 0));
    SetRecordSound(w.c, a, w.c.arecs[a].(nextRefresh := 0), {});
    LoseAllLive(d, a, d.g.xref[a]);
  }

  lemma AgeInstanceHeld(w: Walk, i: nat, elapsed: u32)
    requires Slot(w.c, i)
    ensures var g := AgeInstance(w, i, elapsed).c.g; g == w.c.g || g == Free(w.c.g, i)
  {
    hide Free;
  }

  /** A walk over a list that loses at most the element just passed. */
  lemma SuffixKept(list: seq<nat>, list': seq<nat>, front: seq<nat>, rest: seq<nat>) returns (front': seq<nat>)
    requires NoDup(list) && list == front + rest && rest != [] && (list' == list || list' == Without(list, rest[0]))
    ensures list' == front' + rest[1..]
  {
    if list' == list {
      front' := front + [rest[0]];
    } else {
      front' := front;
      assert list[|front|] == rest[0] && list[..|front|] == front;
      assert rest[0] !in front by {
        forall j | 0 <= j < |front| ensures front[j] != rest[0] {
          assert list[j] == front[j];
        }
      }
      WithoutAt(list, |front|);
      assert list[|front| + 1..] == rest[1..];
    }
  }

  lemma TellStep(c: Cache, a: nat, done: seq<nat>, rest: seq<nat>)
    requires a in c.g.live && Sound(c, Elements(rest)) && a < |c.g.owner| && c.g.xref[a] == done + rest && rest != []
    ensures rest[0] < |c.g.owner| && Live(c.g, rest[0]) && Below(rest, |c.g.owner|)
    ensures var d := GotArec(c, rest[0], a);
            && a in d.g.live && Sound(d, Elements(rest[1..])) && d.g.xref[a] == [rest[0]] + done + rest[1..]
            && TellAll(c, a, rest) == TellAll(d, a, rest[1..])
  {
    var i := rest[0];
    assert Linked(c.g);
    hide Sound, Live, Linked, Attach, GotArec;
    WalkedElement(c.g, a, done, rest);
    GotArecSound(c, a, i, Elements(rest));
    assert Elements(rest) - {i} == Elements(rest[1..]);
  }
}
