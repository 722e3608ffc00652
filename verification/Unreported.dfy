/** Short runs of the querier (mdns/mdns_query.c), from launch on, at the end of
    which the user has not been told what the cache holds, or a known answer names
    an instance that is not cached. */
module Unreported {
  import opened Bytes
  import opened Names
  import opened Clock
  import opened Slist
  import opened Pools
  import opened Cache
  import opened CacheInv
  import opened CacheSteps
  import opened CacheRun
  import opened CacheView
  import opened Refresh
  import Packet
  import QueryPacket
  import Wakeup

  // ----- a cache of one instance -----

  /** A type, an instance of it and a host, by their names. */
  datatype Setting = Setting(fqst: Name, fqsn: Name, fqdn: Name)

  predicate Possible(x: Setting) {
    ServInfo(x.fqsn) && Rest(x.fqsn) == x.fqst && x.fqst != [] && WireSize(x.fqst) <= MAX_NAME && WireSize(x.fqdn) <= MAX_NAME
  }

  /** The only slots hold the instance and the record of its host. */
  function One(x: Setting, s: Instance, r: Record, m: Monitor, log: seq<Event>): (c: Cache)
    ensures Fits(c) && |c.g.owner| == 1 && |c.g.held| == 1 && Live(c.g, 0)
  {
    Cache(Graph([0], [Some(0)], [[0]], [], [[0]], [0], [], [0], []), [x.fqsn], [x.fqdn], [x.fqst], [s], [r], [m], log)
  }

  /** The instance is monitored, but has no record yet. */
  function Bare(x: Setting, s: Instance, m: Monitor, log: seq<Event>): (c: Cache)
    ensures Fits(c) && |c.g.owner| == 1 && |c.g.held| == 1 && Live(c.g, 0)
  {
    Cache(Graph([0], [None], [[0]], [], [[]], [], [0], [0], []), [x.fqsn], [[]], [x.fqst], [s],
          [Record(0, 0, ArecInit, 0, 0)], [m], log)
  }

  lemma Finds(x: Setting, s: Instance, r: Record, m: Monitor, log: seq<Event>)
    requires Possible(x)
    ensures Belongs(One(x, s, r, m, log), x.fqsn) == Some(0) && FindRecord(One(x, s, r, m, log), x.fqdn) == Some(0)
    ensures Belongs(Bare(x, s, m, log), x.fqsn) == Some(0)
  {
    hide ServInfo, WireSize;
    var c, b := One(x, s, r, m, log), Bare(x, s, m, log);
    LookupFirst(c.fqst, c.g.watched, x.fqst);
    LookupFirst(c.fqsn, c.g.held[0], x.fqsn);
    LookupFirst(c.fqdn, c.g.live, x.fqdn);
    LookupFirst(b.fqst, b.g.watched, x.fqst);
    LookupFirst(b.fqsn, b.g.held[0], x.fqsn);
  }

  lemma LookupFirst(names: seq<Name>, list: seq<nat>, n: Name)
    requires |list| == 1 && list[0] < |names| && names[list[0]] == n
    ensures Lookup(names, list, n) == Some(list[0])
  {
  }

  // ----- received records -----

  /** What an SRV for the same host makes of the instance. */
  function AfterSrv(s: Instance, r: Record, port: u16, ttl: u32, elapsed: u32): Instance {
    Renewed(s.(service := Adopt(s.service, r)), port, ttl, elapsed)
  }

  /** Moving the only instance to the front of its list changes nothing. */
  lemma SameLinks(x: Setting, s: Instance, r: Record, m: Monitor, log: seq<Event>)
    ensures Attach(One(x, s, r, m, log).g, 0, 0) == One(x, s, r, m, log).g
  {
    var g := One(x, s, r, m, log).g;
    assert Without([0], 0) == [0][1..] == [];
    assert [0] + [] == [0];
    assert g.xref[0 := []] == [[]] && [[]][0 := [0]] == [[0]] == g.xref;
    assert g.home[0 := Some(0)] == g.home;
  }

  lemma OneSrv(x: Setting, s: Instance, r: Record, m: Monitor, log: seq<Event>, port: u16, ttl: u32, elapsed: u32)
    requires Possible(x) && ttl != 0
    ensures var c, srv, t := One(x, s, r, m, log), SrvRec(x.fqsn, port, x.fqdn, ttl), AfterSrv(s, r, port, ttl, elapsed);
            var changes := if s.service.port != port || (r.state == ArecResolved && s.service.ip != r.ip) then 1 else 0;
            GotSrv(c, 0, srv, elapsed) == React(One(x, t, r, m, log), 0, changes)
  {
    Finds(x, s, r, m, log);
    hide Possible, FindRecord, React, Renewed, Lookup;
    var c, srv := One(x, s, r, m, log), SrvRec(x.fqsn, port, x.fqdn, ttl);
    SameLinks(x, s, r, m, log);
    assert TakeSrv(c, 0, srv, elapsed) == One(x, AfterSrv(s, r, port, ttl, elapsed), r, m, log);
  }

  lemma BareSrv(x: Setting, s: Instance, m: Monitor, log: seq<Event>, port: u16, ttl: u32, elapsed: u32)
    requires Possible(x) && ttl != 0 && s.state == SinstInit
    ensures var c, srv, r := Bare(x, s, m, log), SrvRec(x.fqsn, port, x.fqdn, ttl), Record(0, 0, ArecInit, 0, 0);
            GotSrv(c, 0, srv, elapsed) == One(x, AfterSrv(s, r, port, ttl, elapsed), r, m, log)
  {
    hide Possible, Renewed;
    var c, srv, r := Bare(x, s, m, log), SrvRec(x.fqsn, port, x.fqdn, ttl), Record(0, 0, ArecInit, 0, 0);
    assert FindRecord(c, x.fqdn) == None;
    var c1 := NewRecord(c, x.fqdn);
    assert c1.g == Graph([0], [None], [[0]], [], [[]], [0], [], [0], []);
    assert Attach(c1.g, 0, 0) == One(x, s, r, m, log).g;
    assert TakeSrv(c, 0, srv, elapsed) == One(x, AfterSrv(s, r, port, ttl, elapsed), r, m, log);
    StaysInit(x, s, r, m, log, port, ttl, elapsed);
  }

  lemma StaysInit(x: Setting, s: Instance, r: Record, m: Monitor, log: seq<Event>, port: u16, ttl: u32, elapsed: u32)
    requires s.state == SinstInit && r.state == ArecInit
    ensures forall changes: int ::
              React(One(x, AfterSrv(s, r, port, ttl, elapsed), r, m, log), 0, changes) ==
              One(x, AfterSrv(s, r, port, ttl, elapsed), r, m, log)
  {
  }

  lemma OneAddrSame(x: Setting, s: Instance, r: Record, m: Monitor, log: seq<Event>, ttl: u32)
    requires ttl != 0
    ensures GotAddr(One(x, s, r, m, log), 0, r.ip, ttl) == One(x, s, Resolved(r.ip, ttl), m, log)
  {
  }

  lemma OneAddrNew(x: Setting, s: Instance, r: Record, m: Monitor, log: seq<Event>, ip: u32, ttl: u32)
    requires ttl != 0 && ip != r.ip && s.state == SinstInit && s.service.hasSrv && s.service.ip != ip
    ensures var t := s.(service := s.service.(ip := ip, hasA := true), state := SinstClean);
            GotAddr(One(x, s, r, m, log), 0, ip, ttl) ==
            One(x, t, Resolved(ip, ttl), m, log + [Told(0, Discovered, x.fqsn, t.service, Some(ip))])
  {
    hide Share;
    var r1 := r.(state := ArecResolved, ip := ip);
    var c := One(x, s, r1, m, log);
    SameLinks(x, s, r1, m, log);
    var t := s.(service := s.service.(ip := ip, hasA := true));
    assert SetArec(c, 0, 0) == One(x, t, r1, m, log);
    var d := One(x, t.(state := SinstClean), r1, m, log + [Told(0, Discovered, x.fqsn, t.service, Some(ip))]);
    assert GotArec(c, 0, 0) == d;
    assert TellAll(c, 0, [0]) == TellAll(GotArec(c, 0, 0), 0, [0][1..]);
    assert [0][1..] == [];
  }

  // ----- a timer pass -----

  function RetriedClean(s: Instance): Instance {
    var t := Retried(s);
    if t.state == SinstClean then t.(state := SinstUpdating, service := t.service.(hasSrv := false)) else t
  }

  /** What a pass makes of an instance that is not given up. */
  function AfterPass(s: Instance, elapsed: u32): Instance {
    var t := Aged(s, elapsed);
    if t.nextRefresh != 0 then t else RetriedClean(t)
  }

  lemma RoomFor(q: Query, n: Name, t: u16)
    requires WireSize(n) <= MAX_NAME && q.used <= 1000
    ensures Ask(q, n, t).1 && q.used <= Ask(q, n, t).0.used <= q.used + 259
  {
  }

  lemma PassRecord(x: Setting, s: Instance, r: Record, m: Monitor, log: seq<Event>, q: Query, elapsed: u32) returns (w: Walk)
    requires Possible(x) && RecordTick(r, elapsed).Some? && q.used <= 100
    ensures w.c == One(x, s, RecordTick(r, elapsed).value, m, log) && !w.failed && w.q.used <= 400
    ensures AgeRecords(Walk(One(x, s, r, m, log), q, 0, U32_MAX, false), [0], elapsed) == w
  {
    var w0 := Walk(One(x, s, r, m, log), q, 0, U32_MAX, false);
    AgeRecordTicks(w0, 0, elapsed);
    RoomFor(q, x.fqdn, Packet.T_A);
    Wakeup.AgeRecordRest(w0, 0, elapsed);
    hide AgeRecord, RecordTick, Possible, Ask;
    var w1 := AgeRecord(w0, 0, elapsed);
    w := w1.(next := Min(w1.next, w1.c.arecs[0].nextRefresh));
    assert [0][1..] == [];
    assert AgeRecords(w, [], elapsed) == w;
  }

  lemma PassMonitor(x: Setting, s: Instance, r: Record, m: Monitor, log: seq<Event>, w: Walk, elapsed: u32) returns (w': Walk, off: nat)
    requires Possible(x) && w.c == One(x, s, r, m, log) && !w.failed && w.q.used <= 400
    ensures w' == AgeMonitor(w, 0, elapsed) && !w'.failed && w'.q.used <= 700
    ensures w'.c == One(x, s, r, Wakeup.AgedMonitor(m, elapsed, off), log)
    ensures m.nextRefresh <= elapsed ==> w'.sends > 0
  {
    RoomFor(w.q, x.fqst, Packet.T_ANY);
    hide Possible, Ask;
    off := w.q.used;
    w' := AgeMonitor(w, 0, elapsed);
  }

  lemma PassInstance(x: Setting, s: Instance, r: Record, m: Monitor, log: seq<Event>, w: Walk, elapsed: u32) returns (w': Walk)
    requires Possible(x) && w.c == One(x, s, r, m, log) && !w.failed && w.q.used <= 700 && Tick(TimerOf(s), elapsed).Some?
    ensures w' == AgeInstances(w, [0], elapsed) && !w'.failed && w'.sends >= w.sends
    ensures w'.c == One(x, AfterPass(s, elapsed), r, m, log)
  {
    RoomFor(w.q, x.fqsn, Packet.T_ANY);
    hide Possible, Ask, Share;
    var w1 := AgeInstance(w, 0, elapsed);
    assert w1.c == One(x, AfterPass(s, elapsed), r, m, log);
    w' := w1.(next := Min(w1.next, w1.c.sinsts[0].nextRefresh));
    assert [0][1..] == [];
    assert AgeInstances(w', [], elapsed) == w';
  }

  /** A pass in which nothing is given up. */
  lemma OnePass(x: Setting, s: Instance, r: Record, m: Monitor, log: seq<Event>, elapsed: u32) returns (off: nat)
    requires Possible(x) && RecordTick(r, elapsed).Some? && Tick(TimerOf(s), elapsed).Some? && m.period > 0
    ensures Prepare(One(x, s, r, m, log), elapsed).c ==
            One(x, AfterPass(s, elapsed), RecordTick(r, elapsed).value, Wakeup.Rearmed(m, elapsed, off), log)
  {
    hide Possible, AgeRecord, AgeMonitor, AgeInstances, AgeRecords, RecordTick, AfterPass, Tick;
    var w1 := PassRecord(x, s, r, m, log, Query([], Packet.HEADER_SIZE), elapsed);
    var w2: Walk;
    w2, off := PassMonitor(x, s, w1.c.arecs[0], m, log, w1, elapsed);
    var w3 := PassInstance(x, s, w1.c.arecs[0], w2.c.smons[0], log, w2, elapsed);
    OneMonitor(w1, w2, w3, elapsed);
    assert Prepare(One(x, s, r, m, log), elapsed) == if w3.sends == 0 then w3 else Rearm(w3, [0]);
    RearmOne(w3);
  }

  lemma OneMonitor(w: Walk, w1: Walk, w2: Walk, elapsed: u32)
    requires Fits(w.c) && |w.c.g.held| == 1 && w1 == AgeMonitor(w, 0, elapsed) && !w1.failed
    requires w1.c.g.held[0] == [0] && |w1.c.g.owner| == 1 && w2 == AgeInstances(w1, [0], elapsed)
    ensures AgeMonitors(w, [0], elapsed) == w2
  {
    hide AgeMonitor, AgeInstances;
    assert [0][1..] == [];
    assert AgeMonitors(w2, [], elapsed) == w2;
  }

  lemma RearmOne(w: Walk)
    requires Fits(w.c) && |w.c.g.held| == 1
    ensures var m := w.c.smons[0];
            Rearm(w, [0]).c == w.c.(smons := [if m.nextRefresh == 0 then m.(nextRefresh := m.period) else m])
  {
    assert [0][1..] == [];
  }

  // ----- packets of one record of a kind -----

  lemma PtrAlone(c: Cache, p: Answers, ptr: PtrRec, elapsed: u32)
    requires Fits(c)
    ensures TakePtrs(c, p, [ptr], elapsed) == TakePtr(c, p, ptr, elapsed)
  {
    hide TakePtr;
    assert [ptr][1..] == [];
  }

  lemma TxtAlone(c: Cache, i: nat, txt: TxtRec)
    requires Slot(c, i) && Belongs(c, txt.name) == Some(i)
    ensures TakeTxts(c, [txt]) == GotTxt(c, i, txt.rdata)
  {
    hide Belongs, GotTxt;
    assert [txt][1..] == [];
  }

  lemma SrvAlone(c: Cache, i: nat, srv: SrvRec, elapsed: u32)
    requires Slot(c, i) && Belongs(c, srv.name) == Some(i) && Settled(c, i, srv)
    ensures TakeSrvs(c, [srv], elapsed) == GotSrv(c, i, srv, elapsed) && StableSrvs(c, [srv], elapsed)
  {
    hide Belongs, GotSrv, Settled;
    assert [srv][1..] == [];
  }

  lemma AddrAlone(c: Cache, a: nat, addr: AddrRec)
    requires Slot(c, a) && FindRecord(c, addr.name) == Some(a)
    ensures TakeAddrs(c, [addr]) == GotAddr(c, a, addr.ip, addr.ttl)
  {
    hide FindRecord, GotAddr;
    assert [addr][1..] == [];
  }

  /** A packet is its PTRs, TXTs, SRVs and addresses, in turn. */
  lemma InTurn(c: Cache, p: Answers, c1: Cache, c2: Cache, c3: Cache, elapsed: u32)
    requires Fits(c) && Fits(c1) && Fits(c2) && Fits(c3) && p.response
    requires TakePtrs(c, p, p.ptrs, elapsed) == (c1, p) && TakeTxts(c1, p.txts) == c2
    requires TakeSrvs(c2, p.srvs, elapsed) == c3 && StableSrvs(c2, p.srvs, elapsed)
    ensures UpdateCache(c, p, elapsed) == TakeAddrs(c3, p.addrs) && Stable(c, p, elapsed)
  {
    hide TakePtrs, TakeTxts, TakeSrvs, TakeAddrs, StableSrvs;
  }

  // ----- the first turn -----

  const PTR_TTL: u32 := 4500

  /** Everything about the instance, with an A record of some lifetime. */
  function Everything(x: Setting, ttl: u32): Answers {
    Answers(true, [PtrRec(x.fqst, x.fqsn, PTR_TTL)], [], [SrvRec(x.fqsn, 80, x.fqdn, 100)], [AddrRec(x.fqdn, 1, ttl)])
  }

  /** The instance it leaves. */
  function Complete(elapsed: u32): Instance {
    Instance(Service(80, 1, None, true, true), Add(4500000, elapsed), Add(100000, elapsed), 100000, Add(80000, elapsed),
             20, SinstClean)
  }

  function Introduced(x: Setting): seq<Event> {
    [Born(0), Told(0, Discovered, x.fqsn, Service(80, 1, None, true, true), Some(1))]
  }

  /** The only type is monitored. */
  function Watching(x: Setting): (c: Cache)
    ensures Fits(c) && |c.g.owner| == 1 && |c.g.held| == 1
  {
    Cache(Graph([0], [None], [[]], [0], [[]], [], [0], [0], []), [[]], [[]], [x.fqst], [FRESH],
          [Record(0, 0, ArecInit, 0, 0)], [Monitor(1000, 0, 0)], [])
  }

  lemma StartWatching(x: Setting)
    ensures AddService(Launch(1, 1), x.fqst) == Watching(x)
  {
    var l := Launch(1, 1);
    assert Down(0) == [] && Down(1) == [0];
    assert l.g == Graph([0], [None], [[]], [0], [[]], [], [0], [], [0]);
    assert FindMonitor(l, x.fqst) == None;
  }

  lemma FirstPtr(x: Setting, p: Answers, elapsed: u32)
    requires ServInfo(x.fqsn)
    ensures TakePtr(Watching(x), p, PtrRec(x.fqst, x.fqsn, PTR_TTL), elapsed) ==
            (Bare(x, FRESH.(ptrTtl := Add(4500000, elapsed)), Monitor(1000, 0, 0), [Born(0)]), p)
  {
    hide ServInfo, WireSize, Lookup;
    var c := Watching(x);
    LookupFirst(c.fqst, c.g.watched, x.fqst);
    assert c.g.held[0] == [];
    assert FindInstance(c, 0, x.fqsn) == None;
    assert [0] + [] == [0] && [0][1..] == [] && [[]][0 := [0]] == [[0]];
    assert Alloc(c.g, 0) == Graph([0], [None], [[0]], [], [[]], [], [0], [0], []);
    var s := FRESH.(ptrTtl := Add(4500000, elapsed));
    assert [FRESH][0 := s] == [s] && c.fqsn[0 := x.fqsn] == [x.fqsn] && [] + [Born(0)] == [Born(0)];
    assert NewInstance(c, 0, x.fqsn, PTR_TTL, elapsed) == Bare(x, s, Monitor(1000, 0, 0), [Born(0)]);
  }

  lemma FirstSrv(x: Setting, elapsed: u32)
    requires Possible(x)
    ensures var s, r, m := FRESH.(ptrTtl := Add(4500000, elapsed)), Record(0, 0, ArecInit, 0, 0), Monitor(1000, 0, 0);
            var b, srv := Bare(x, s, m, [Born(0)]), SrvRec(x.fqsn, 80, x.fqdn, 100);
            && TakeSrvs(b, [srv], elapsed) == One(x, AfterSrv(s, r, 80, 100, elapsed), r, m, [Born(0)])
            && StableSrvs(b, [srv], elapsed)
  {
    hide Possible, GotSrv, TakeSrvs, StableSrvs, AfterSrv, FindRecord, Belongs;
    var s, r, m := FRESH.(ptrTtl := Add(4500000, elapsed)), Record(0, 0, ArecInit, 0, 0), Monitor(1000, 0, 0);
    Finds(x, s, r, m, [Born(0)]);
    BareSrv(x, s, m, [Born(0)], 80, 100, elapsed);
    SrvAlone(Bare(x, s, m, [Born(0)]), 0, SrvRec(x.fqsn, 80, x.fqdn, 100), elapsed);
  }

  lemma FirstAddr(x: Setting, ttl: u32, elapsed: u32)
    requires Possible(x) && ttl != 0
    ensures var s, r, m := FRESH.(ptrTtl := Add(4500000, elapsed)), Record(0, 0, ArecInit, 0, 0), Monitor(1000, 0, 0);
            TakeAddrs(One(x, AfterSrv(s, r, 80, 100, elapsed), r, m, [Born(0)]), [AddrRec(x.fqdn, 1, ttl)]) ==
            One(x, Complete(elapsed), Resolved(1, ttl), m, Introduced(x))
  {
    hide Possible, GotAddr, TakeAddrs, FindRecord, Belongs, Resolved;
    var s, r, m := FRESH.(ptrTtl := Add(4500000, elapsed)), Record(0, 0, ArecInit, 0, 0), Monitor(1000, 0, 0);
    var t := AfterSrv(s, r, 80, 100, elapsed);
    Finds(x, t, r, m, [Born(0)]);
    OneAddrNew(x, t, r, m, [Born(0)], 1, ttl);
    AddrAlone(One(x, t, r, m, [Born(0)]), 0, AddrRec(x.fqdn, 1, ttl));
  }

  lemma FirstPacket(x: Setting, ttl: u32, elapsed: u32)
    requires Possible(x) && ttl != 0
    ensures UpdateCache(Watching(x), Everything(x, ttl), elapsed) ==
            One(x, Complete(elapsed), Resolved(1, ttl), Monitor(1000, 0, 0), Introduced(x))
    ensures Stable(Watching(x), Everything(x, ttl), elapsed)
  {
    hide ServInfo, WireSize, TakePtr, TakePtrs, TakeSrvs, TakeAddrs, StableSrvs, Stable, UpdateCache, AfterSrv, Complete, Watching;
    var p, r, m := Everything(x, ttl), Record(0, 0, ArecInit, 0, 0), Monitor(1000, 0, 0);
    var s := FRESH.(ptrTtl := Add(4500000, elapsed));
    PtrAlone(Watching(x), p, p.ptrs[0], elapsed);
    FirstPtr(x, p, elapsed);
    FirstSrv(x, elapsed);
    var b := Bare(x, s, m, [Born(0)]);
    InTurn(Watching(x), p, b, b, One(x, AfterSrv(s, r, 80, 100, elapsed), r, m, [Born(0)]), elapsed);
    FirstAddr(x, ttl, elapsed);
  }

  /** Monitor the type and take the packet. */
  function Begin(x: Setting, ttl: u32, elapsed: u32): Turn {
    Turn(Some(Start(x.fqst)), Received(Everything(x, ttl)), elapsed)
  }

  lemma FirstTurn(x: Setting, ttl: u32, elapsed: u32) returns (m: Monitor)
    requires Possible(x) && ttl != 0 && 0 < elapsed <= 8000
    ensures RecordTick(Resolved(1, ttl), elapsed).Some? && m.period > 0
    ensures TakeTurn(Launch(1, 1), Begin(x, ttl, elapsed)) ==
            One(x, Complete(0), RecordTick(Resolved(1, ttl), elapsed).value, m, Introduced(x))
    ensures StableTurn(Launch(1, 1), Begin(x, ttl, elapsed))
  {
    hide Possible, UpdateCache, Prepare, Launch, AddService, Stable, RecordTick, Watching;
    StartWatching(x);
    FirstPacket(x, ttl, elapsed);
    LeavesTurn(1, ttl, elapsed);
    var off := OnePass(x, Complete(elapsed), Resolved(1, ttl), Monitor(1000, 0, 0), Introduced(x), elapsed);
    m := Wakeup.Rearmed(Monitor(1000, 0, 0), elapsed, off);
    assert AfterPass(Complete(elapsed), elapsed) == Complete(0);
  }

  // ----- a new port that is not reported -----

  /** Another port and the address of the host. */
  function NewPort(x: Setting): Turn {
    Turn(None, Received(Answers(true, [], [], [SrvRec(x.fqsn, 81, x.fqdn, 100)], [AddrRec(x.fqdn, 1, 10)])), 1)
  }

  /** The instance waits for an address it will not be given. */
  function Stranded(elapsed: u32): Instance {
    Instance(Service(81, 1, None, false, true), Add(4499999, elapsed), Add(100000, elapsed), 100000, Add(80000, elapsed), 20, SinstUpdating)
  }

  lemma PortPacket(x: Setting, r: Record, m: Monitor, log: seq<Event>)
    requires Possible(x) && r.state == ArecQuerying && r.ip == 1
    ensures var c, p := One(x, Complete(0), r, m, log), NewPort(x).rx.answers;
            UpdateCache(c, p, 1) == One(x, Stranded(1), Resolved(1, 10), m, log) && Stable(c, p, 1)
  {
    hide Possible, TakeSrvs, TakeAddrs, StableSrvs, Stable, UpdateCache, GotSrv, GotAddr, Resolved, FindRecord, Belongs, TakePtrs, TakeTxts;
    var c, p, s := One(x, Complete(0), r, m, log), NewPort(x).rx.answers, Stranded(1);
    Nothing(c, p, 1);
    Finds(x, Complete(0), r, m, log);
    OneSrv(x, Complete(0), r, m, log, 81, 100, 1);
    assert AfterSrv(Complete(0), r, 81, 100, 1) == s.(state := SinstClean);
    assert React(One(x, s.(state := SinstClean), r, m, log), 0, 1) == One(x, s, r, m, log);
    SrvAlone(c, 0, p.srvs[0], 1);
    InTurn(c, p, c, c, One(x, s, r, m, log), 1);
    Finds(x, s, r, m, log);
    OneAddrSame(x, s, r, m, log, 10);
    AddrAlone(One(x, s, r, m, log), 0, p.addrs[0]);
  }

  lemma Nothing(c: Cache, p: Answers, elapsed: u32)
    requires Fits(c)
    ensures TakePtrs(c, p, [], elapsed) == (c, p) && TakeTxts(c, []) == c && TakeAddrs(c, []) == c
  {
  }

  lemma TurnTwo(c: Cache, t: Turn, u: Turn)
    requires Fits(c) && StableTurn(c, t) && StableTurn(TakeTurn(c, t), u)
    ensures Run(c, [t, u]) == TakeTurn(TakeTurn(c, t), u) && StableRun(c, [t, u])
  {
    hide TakeTurn, StableTurn;
    assert [t, u][1..] == [u] && [u][1..] == [];
    var d := TakeTurn(c, t);
    assert Run(d, [u]) == TakeTurn(d, u) && StableRun(d, [u]);
  }

  lemma IntroducedView(x: Setting)
    ensures LastView(Introduced(x), 0) == Some(View(80, 1, None))
  {
  }

  /** Eight seconds are 80 percent of the ten of the first A record. */
  lemma Refreshing()
    ensures RecordTick(Resolved(1, 10), 8000) == Some(Record(1, 10000, ArecQuerying, 1000, 10))
    ensures RecordTick(Resolved(1, 10), 1) == Some(Resolved(1, 10).(nextRefresh := 7999))
  {
  }

  lemma PortTurn(x: Setting, r: Record, m: Monitor, log: seq<Event>)
    requires Possible(x) && r.state == ArecQuerying && r.ip == 1 && m.period > 0
    ensures var c := One(x, Complete(0), r, m, log);
            && StableTurn(c, NewPort(x))
            && exists m' :: TakeTurn(c, NewPort(x)) == One(x, Stranded(0), Resolved(1, 10).(nextRefresh := 7999), m', log)
  {
    hide Possible, UpdateCache, Prepare, Stable, RecordTick, Resolved;
    PortPacket(x, r, m, log);
    Refreshing();
    var off := OnePass(x, Stranded(1), Resolved(1, 10), m, log, 1);
    assert AfterPass(Stranded(1), 1) == Stranded(0);
    assert TakeTurn(One(x, Complete(0), r, m, log), NewPort(x)) ==
           One(x, Stranded(0), Resolved(1, 10).(nextRefresh := 7999), Wakeup.Rearmed(m, 1, off), log);
  }

  /** The port of an instance changes while the address of its host is being
      refreshed.  The address arrives, the same as before, with the new port: the
      record is resolved, but its instance does not claim the address, and the user
      last saw the old port. */
  lemma PortUnreported(x: Setting)
    requires Possible(x)
    ensures var ts := [Begin(x, 10, 8000), NewPort(x)];
            var c := Run(Launch(1, 1), ts);
            && StableRun(Launch(1, 1), ts) && Live(c.g, 0)
            && c.g.home[0] == Some(0) && c.arecs[0].state == ArecResolved && !c.sinsts[0].service.hasA
            && c.sinsts[0].service.port == 81 && LastView(c.log, 0) == Some(View(80, 1, None)) && !CacheView.Shown(c, 0)
  {
    hide Possible, Launch, TakeTurn, StableTurn, Run, StableRun, RecordTick;
    var m := FirstTurn(x, 10, 8000);
    Refreshing();
    PortTurn(x, RecordTick(Resolved(1, 10), 8000).value, m, Introduced(x));
    TurnTwo(Launch(1, 1), Begin(x, 10, 8000), NewPort(x));
    IntroducedView(x);
  }

  // ----- a text that is not reported -----

  /** The SRV is asked for again. */
  const ASK_AGAIN := Turn(None, Silent, 80000)

  /** A text, and the SRV as before. */
  function NewText(x: Setting, text: seq<byte>): Turn {
    Turn(None, Received(Answers(true, [], [TxtRec(x.fqsn, text, 100)], [SrvRec(x.fqsn, 80, x.fqdn, 100)], [])), 1)
  }

  /** The instance while its SRV is asked for. */
  function Renewing(raw: Option<seq<byte>>): Instance {
    Instance(Service(80, 1, raw, true, false), 4420000, 20000, 100000, 80000, 10, SinstUpdating)
  }

  /** The instance with the text and the SRV. */
  function Texted(text: seq<byte>, elapsed: u32): Instance {
    Instance(Service(80, 1, Some(TxtKept(text)), true, true), Add(4419999, elapsed), Add(100000, elapsed), 100000, Add(80000, elapsed),
             20, SinstUpdating)
  }

  /** The record of a host of a thousand seconds, some time later. */
  function Lasting(left: u32): Record {
    Resolved(1, 1000).(nextRefresh := left)
  }

  lemma LastingTicks()
    ensures RecordTick(Resolved(1, 1000), 1) == Some(Lasting(799999))
    ensures RecordTick(Lasting(799999), 80000) == Some(Lasting(719999))
    ensures RecordTick(Lasting(719999), 1) == Some(Lasting(719998))
  {
  }

  lemma AskAgainTurn(x: Setting, m: Monitor, log: seq<Event>)
    requires Possible(x) && m.period > 0
    ensures var c := One(x, Complete(0), Lasting(799999), m, log);
            && StableTurn(c, ASK_AGAIN)
            && exists m': Monitor :: m'.period > 0 && TakeTurn(c, ASK_AGAIN) == One(x, Renewing(None), Lasting(719999), m', log)
  {
    hide Possible, Prepare, RecordTick, Lasting;
    LastingTicks();
    var off := OnePass(x, Complete(0), Lasting(799999), m, log, 80000);
    assert AfterPass(Complete(0), 80000) == Renewing(None);
    assert TakeTurn(One(x, Complete(0), Lasting(799999), m, log), ASK_AGAIN) ==
           One(x, Renewing(None), Lasting(719999), Wakeup.Rearmed(m, 80000, off), log);
  }

  lemma TextPacket(x: Setting, text: seq<byte>, m: Monitor, log: seq<Event>)
    requires Possible(x)
    ensures var c, p := One(x, Renewing(None), Lasting(719999), m, log), NewText(x, text).rx.answers;
            UpdateCache(c, p, 1) == One(x, Texted(text, 1), Lasting(719999), m, log) && Stable(c, p, 1)
  {
    hide Possible, TakeSrvs, TakeAddrs, StableSrvs, Stable, UpdateCache, GotSrv, FindRecord, Belongs, TakePtrs, TakeTxts;
    var r, raw := Lasting(719999), Some(TxtKept(text));
    var c, d, p := One(x, Renewing(None), r, m, log), One(x, Renewing(raw), r, m, log), NewText(x, text).rx.answers;
    Nothing(c, p, 1);
    Finds(x, Renewing(None), r, m, log);
    Finds(x, Renewing(raw), r, m, log);
    TxtAlone(c, 0, p.txts[0]);
    assert GotTxt(c, 0, text) == d;
    OneSrv(x, Renewing(raw), r, m, log, 80, 100, 1);
    assert AfterSrv(Renewing(raw), r, 80, 100, 1) == Texted(text, 1);
    SrvAlone(d, 0, p.srvs[0], 1);
    var e := One(x, Texted(text, 1), r, m, log);
    InTurn(c, p, c, d, e, 1);
    Nothing(e, p, 1);
  }

  lemma TextTurn(x: Setting, text: seq<byte>, m: Monitor, log: seq<Event>)
    requires Possible(x) && m.period > 0
    ensures var c := One(x, Renewing(None), Lasting(719999), m, log);
            && StableTurn(c, NewText(x, text))
            && exists m' :: TakeTurn(c, NewText(x, text)) == One(x, Texted(text, 0), Lasting(719998), m', log)
  {
    hide Possible, UpdateCache, Prepare, Stable, RecordTick, Lasting;
    TextPacket(x, text, m, log);
    LastingTicks();
    var off := OnePass(x, Texted(text, 1), Lasting(719999), m, log, 1);
    assert AfterPass(Texted(text, 1), 1) == Texted(text, 0);
    assert TakeTurn(One(x, Renewing(None), Lasting(719999), m, log), NewText(x, text)) ==
           One(x, Texted(text, 0), Lasting(719998), Wakeup.Rearmed(m, 1, off), log);
  }

  lemma TurnThree(c: Cache, t: Turn, u: Turn, v: Turn)
    requires Fits(c) && StableTurn(c, t) && StableTurn(TakeTurn(c, t), u) && StableTurn(TakeTurn(TakeTurn(c, t), u), v)
    ensures Run(c, [t, u, v]) == TakeTurn(TakeTurn(TakeTurn(c, t), u), v) && StableRun(c, [t, u, v])
  {
    hide TakeTurn, StableTurn;
    assert [t, u, v][1..] == [u, v];
    TurnTwo(TakeTurn(c, t), u, v);
  }

  /** A text arrives while the SRV is asked for again, and so does the SRV,
      unchanged: the instance has all it needs, and the user has not been told of
      the text. */
  lemma TextUnreported(x: Setting, text: seq<byte>)
    requires Possible(x)
    ensures var ts := [Begin(x, 1000, 1), ASK_AGAIN, NewText(x, text)];
            var c := Run(Launch(1, 1), ts);
            && StableRun(Launch(1, 1), ts) && Live(c.g, 0) && Ready(c.sinsts[0].service)
            && c.sinsts[0].service.raw == Some(TxtKept(text)) && LastView(c.log, 0) == Some(View(80, 1, None)) && !CacheView.Shown(c, 0)
  {
    hide Possible, Launch, TakeTurn, StableTurn, Run, StableRun, RecordTick, Lasting, Resolved, TxtKept;
    var m := FirstTurn(x, 1000, 1);
    LastingTicks();
    var log := Introduced(x);
    AskAgainTurn(x, m, log);
    var c1 := One(x, Complete(0), Lasting(799999), m, log);
    var m1: Monitor :| m1.period > 0 && TakeTurn(c1, ASK_AGAIN) == One(x, Renewing(None), Lasting(719999), m1, log);
    TextTurn(x, text, m1, log);
    TurnThree(Launch(1, 1), Begin(x, 1000, 1), ASK_AGAIN, NewText(x, text));
    IntroducedView(x);
  }

  /** There are such names: instance "a" of "_h._tcp.l" on host "a.l". */
  lemma SomeSetting() returns (x: Setting)
    ensures Possible(x)
  {
    x := Setting([[95, 104], UNDERSCORE_TCP, [108]], [[97], [95, 104], UNDERSCORE_TCP, [108]], [[97], [108]]);
    assert x.fqsn[1..] == x.fqst && x.fqst[1..] == [UNDERSCORE_TCP, [108]] && x.fqst[1..][1..] == [[108]];
    assert WireSize([]) == 1 && [[108]][1..] == [];
    assert WireSize([[108]]) == 3 && WireSize(x.fqst[1..]) == 8 && WireSize(x.fqst) == 11 && WireSize(x.fqsn) == 13;
    assert x.fqdn[1..] == [[108]];
  }

  // ----- an answer for another instance -----

  /** A known answer for a cached instance names that instance exactly if its name
      continues with the type of its monitor. */
  lemma AnswerNamesIff(c: Cache, k: nat, i: nat)
    requires Slot(c, i) && k < |c.g.held| && c.fqsn[i] != []
    ensures [QueryPacket.AnswerOf(c, i).servname] + c.fqst[k] == c.fqsn[i] <==> Rest(c.fqsn[i]) == c.fqst[k]
  {
    var n := c.fqsn[i];
    assert n == [n[0]] + n[1..];
    assert ([n[0]] + c.fqst[k])[1..] == c.fqst[k];
  }

  /** A PTR that leads from the monitored type to an instance of another one is
      cached all the same, and answered for under the monitored type. */
  lemma ForeignAnswer(x: Setting, elapsed: u32)
    requires ServInfo(x.fqsn) && Rest(x.fqsn) != x.fqst
    ensures var p := Answers(true, [PtrRec(x.fqst, x.fqsn, PTR_TTL)], [], [], []);
            var c := UpdateCache(AddService(Launch(1, 1), x.fqst), p, elapsed);
            && c.g.held == [[0]] && c.fqst == [x.fqst] && c.fqsn == [x.fqsn] && c.sinsts[0].ptrTtl > 0
            && [QueryPacket.AnswerOf(c, 0).servname] + c.fqst[0] != c.fqsn[0]
  {
    hide ServInfo, TakePtr, TakePtrs, Watching, Rest, QueryPacket.AnswerOf;
    StartWatching(x);
    var p := Answers(true, [PtrRec(x.fqst, x.fqsn, PTR_TTL)], [], [], []);
    PtrAlone(Watching(x), p, p.ptrs[0], elapsed);
    FirstPtr(x, p, elapsed);
    var b := Bare(x, FRESH.(ptrTtl := Add(4500000, elapsed)), Monitor(1000, 0, 0), [Born(0)]);
    Nothing(b, p, elapsed);
    SomeLabel(x);
    AnswerNamesIff(b, 0, 0);
  }

  lemma SomeLabel(x: Setting)
    requires ServInfo(x.fqsn)
    ensures x.fqsn != []
  {
  }
}
