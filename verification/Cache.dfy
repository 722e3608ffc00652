/** The querier's cache (mdns/mdns_query.c): what each step of the instance and
    address record state machines, each received packet, each timer pass and each
    control message makes of it. */
module Cache {
  import opened Bytes
  import opened Names
  import opened Clock
  import Packet
  import opened Slist
  import opened Pools

  const MAX_KEYVAL := 255

  // ----- entities -----

  datatype InstanceState = SinstInit | SinstClean | SinstUpdating

  datatype RecordState = ArecInit | ArecQuerying | ArecResolved

  /** What a callback shows of an instance. */
  datatype Service = Service(port: u16, ip: u32, raw: Option<seq<byte>>, hasA: bool, hasSrv: bool)

  datatype Instance = Instance(
    service: Service, ptrTtl: u32, srvTtl: u32, srvTtl0: u32, nextRefresh: u32, percent: nat, state: InstanceState)

  datatype Record = Record(ip: u32, ttl: u32, state: RecordState, nextRefresh: u32, percent: nat)

  /** offset is where the last question about the type stood in its packet. */
  datatype Monitor = Monitor(period: u32, nextRefresh: u32, offset: nat)

  datatype Code = Discovered | Updated | Disappeared

  /** A slot is taken and given back, and the user is called back: about an
      instance, with the address its record then has, or about one the cache has
      no room for. */
  datatype Event =
    | Born(slot: nat)
    | Told(slot: nat, code: Code, fqsn: Name, service: Service, address: Option<u32>)
    | Died(slot: nat, unmonitored: bool)
    | Overflow(monitor: nat, fqsn: Name, service: Service)

  /** The pools with their names, and everything that happened. */
  datatype Cache = Cache(
    g: Graph, fqsn: seq<Name>, fqdn: seq<Name>, fqst: seq<Name>,
    sinsts: seq<Instance>, arecs: seq<Record>, smons: seq<Monitor>, log: seq<Event>)

  predicate Fits(c: Cache) {
    && Sized(c.g)
    && |c.sinsts| == |c.fqsn| == |c.g.owner| && |c.arecs| == |c.fqdn| == |c.g.owner|
    && |c.smons| == |c.fqst| == |c.g.held|
  }

  predicate SameSize(c: Cache, d: Cache) {
    |c.g.owner| == |d.g.owner| && |c.g.held| == |d.g.held|
  }

  predicate MonitorsSame(c: Cache, d: Cache) {
    c.smons == d.smons && c.fqst == d.fqst
  }

  predicate Slot(c: Cache, i: nat) {
    Fits(c) && i < |c.g.owner|
  }

  /** A received packet, its answers by type in the order they are walked. */
  datatype PtrRec = PtrRec(name: Name, target: Name, ttl: u32)
  datatype TxtRec = TxtRec(name: Name, rdata: seq<byte>, ttl: u32)
  datatype SrvRec = SrvRec(name: Name, port: u16, target: Name, ttl: u32)
  datatype AddrRec = AddrRec(name: Name, ip: u32, ttl: u32)
  datatype Answers = Answers(
    response: bool, ptrs: seq<PtrRec>, txts: seq<TxtRec>, srvs: seq<SrvRec>, addrs: seq<AddrRec>)

  /** The query under construction. */
  datatype Query = Query(questions: seq<Packet.Question>, used: nat)

  // ----- times -----

  function Millis(ttl: u32): u32 {
    if ttl > U32_MAX / 1000 then U32_MAX else ttl * 1000
  }

  /** A share of a lifetime, in 32-bit arithmetic. */
  function Share(ttl: u32, percent: nat): u32 {
    ttl * percent % WRAP / 100
  }

  function Min(a: u32, b: u32): u32 {
    if a < b then a else b
  }

  // ----- look-up -----

  /** The first on a list with the name. */
  function Lookup(names: seq<Name>, list: seq<nat>, n: Name): (r: Option<nat>)
    requires Below(list, |names|)
    ensures r.Some? ==> r.value in list && r.value < |names| && names[r.value] == n
    ensures r.None? ==> forall i :: i in list ==> names[i] != n
  {
    if list == [] then None
    else if names[list[0]] == n then Some(list[0])
    else
      assert forall i :: i in list ==> i == list[0] || i in list[1..];
      Lookup(names, list[1..], n)
  }

  function FindMonitor(c: Cache, n: Name): (r: Option<nat>)
    requires Fits(c)
    ensures r.Some? ==> r.value in c.g.watched && r.value < |c.g.held| && c.fqst[r.value] == n
  {
    Lookup(c.fqst, c.g.watched, n)
  }

  function FindInstance(c: Cache, k: nat, n: Name): (r: Option<nat>)
    requires Fits(c) && k < |c.g.held|
    ensures r.Some? ==> r.value in c.g.held[k] && r.value < |c.g.owner| && c.fqsn[r.value] == n
  {
    Lookup(c.fqsn, c.g.held[k], n)
  }

  function FindRecord(c: Cache, n: Name): (r: Option<nat>)
    requires Fits(c)
    ensures r.Some? ==> r.value in c.g.live && r.value < |c.g.owner| && c.fqdn[r.value] == n
  {
    Lookup(c.fqdn, c.g.live, n)
  }

  /** The type part of an owner name. */
  function Rest(n: Name): Name {
    if n == [] then [] else n[1..]
  }

  // ----- small steps -----

  function SetInstance(c: Cache, i: nat, s: Instance): (r: Cache)
    requires Slot(c, i)
    ensures Fits(r) && SameSize(r, c) && MonitorsSame(r, c)
  {
    c.(sinsts := c.sinsts[i := s])
  }

  function SetRecord(c: Cache, a: nat, s: Record): (r: Cache)
    requires Slot(c, a)
    ensures Fits(r) && SameSize(r, c) && MonitorsSame(r, c)
  {
    c.(arecs := c.arecs[a := s])
  }

  function SetMonitor(c: Cache, k: nat, s: Monitor): (r: Cache)
    requires Fits(c) && k < |c.g.held|
    ensures Fits(r) && SameSize(r, c)
  {
    c.(smons := c.smons[k := s])
  }

  /** The address in the record of an instance. */
  function Address(c: Cache, i: nat): Option<u32>
    requires Slot(c, i)
  {
    if c.g.home[i].Some? then Some(c.arecs[c.g.home[i].value].ip) else None
  }

  function Tell(c: Cache, i: nat, code: Code): (r: Cache)
    requires Slot(c, i)
    ensures Fits(r) && SameSize(r, c) && MonitorsSame(r, c)
  {
    c.(log := c.log + [Told(i, code, c.fqsn[i], c.sinsts[i].service, Address(c, i))])
  }

  function CleanupInstance(c: Cache, i: nat, unmonitored: bool): (r: Cache)
    requires Slot(c, i)
    ensures Fits(r) && SameSize(r, c) && MonitorsSame(r, c)
  {
    c.(g := Free(c.g, i), sinsts := c.sinsts[i := c.sinsts[i].(nextRefresh := U32_MAX)],
       log := c.log + [Died(i, unmonitored)])
  }

  predicate Ready(s: Service) {
    s.hasA && s.hasSrv
  }

  // ----- the instance state machine -----

  /** What follows an update that changed something, nothing or everything. */
  function React(c: Cache, i: nat, changes: int): (r: Cache)
    requires Slot(c, i)
    ensures Fits(r) && SameSize(r, c) && MonitorsSame(r, c) && r.g == c.g
  {
    var s := c.sinsts[i];
    match s.state
    case SinstInit =>
      if changes > 0 && Ready(s.service) then SetInstance(Tell(c, i, Discovered), i, s.(state := SinstClean)) else c
    case SinstClean =>
      if changes == 0 then c
      else if changes == -1 then Tell(c, i, Disappeared)
      else if Ready(s.service) then Tell(c, i, Updated)
      else SetInstance(c, i, s.(state := SinstUpdating))
    case SinstUpdating =>
      if changes == 0 then c
      else if changes == -1 then Tell(c, i, Disappeared)
      else if Ready(s.service) then SetInstance(Tell(c, i, Updated), i, s.(state := SinstClean))
      else c
  }

  /** Whether a TXT counts as new, and what is kept of it. */
  predicate TxtChanges(raw: Option<seq<byte>>, rdata: seq<byte>) {
    raw.None? ||
    (|rdata| != |raw.value| && |rdata| < MAX_KEYVAL + 1) ||
    (var n := if |rdata| < |raw.value| then |rdata| else |raw.value|; rdata[..n] != raw.value[..n])
  }

  function TxtKept(rdata: seq<byte>): seq<byte> {
    if |rdata| < MAX_KEYVAL + 1 then rdata else rdata[..MAX_KEYVAL + 1]
  }

  function UpdateTxt(s: Service, rdata: seq<byte>): Service {
    if TxtChanges(s.raw, rdata) then s.(raw := Some(TxtKept(rdata))) else s
  }

  function GotTxt(c: Cache, i: nat, rdata: seq<byte>): (r: Cache)
    requires Slot(c, i)
    ensures Fits(r) && SameSize(r, c) && MonitorsSame(r, c) && r.g == c.g
  {
    var s := c.sinsts[i];
    React(SetInstance(c, i, s.(service := UpdateTxt(s.service, rdata))), i,
          if TxtChanges(s.service.raw, rdata) then 1 else 0)
  }

  /** The instance takes the record's address if there is one. */
  function Adopt(s: Service, a: Record): Service {
    if a.state == ArecResolved then s.(ip := a.ip, hasA := true) else s.(hasA := false)
  }

  function SetArec(c: Cache, i: nat, a: nat): (r: Cache)
    requires Slot(c, i) && a < |c.g.owner|
    ensures Fits(r) && SameSize(r, c) && MonitorsSame(r, c)
  {
    c.(g := Attach(c.g, i, a),
       sinsts := c.sinsts[i := c.sinsts[i].(service := Adopt(c.sinsts[i].service, c.arecs[a]))])
  }

  predicate ArecChanges(c: Cache, i: nat, a: nat)
    requires Slot(c, i) && a < |c.g.owner|
  {
    || (c.g.home[i].Some? && c.g.home[i] != Some(a))
    || (c.arecs[a].state == ArecResolved && c.sinsts[i].service.ip != c.arecs[a].ip)
  }

  function GotArec(c: Cache, i: nat, a: nat): (r: Cache)
    requires Slot(c, i) && a < |c.g.owner|
    ensures Fits(r) && SameSize(r, c) && MonitorsSame(r, c)
  {
    React(SetArec(c, i, a), i, if ArecChanges(c, i, a) then 1 else 0)
  }

  /** A zeroed record for a new target. */
  function NewRecord(c: Cache, target: Name): (r: Cache)
    requires Fits(c) && c.g.idle != []
    ensures Fits(r) && SameSize(r, c) && MonitorsSame(r, c)
  {
    var a := c.g.idle[0];
    c.(g := Grab(c.g), arecs := c.arecs[a := Record(0, 0, ArecInit, 0, 0)], fqdn := c.fqdn[a := target])
  }

  /** The record for an SRV target: the one there is, a new one, or none. */
  function RecordFor(c: Cache, target: Name): (r: (Cache, Option<nat>))
    requires Fits(c)
    ensures Fits(r.0) && SameSize(r.0, c) && MonitorsSame(r.0, c) && (r.1.Some? ==> r.1.value < |c.g.owner|)
  {
    var found := FindRecord(c, target);
    if found.Some? then (c, found)
    else if c.g.idle == [] then (c, None)
    else (NewRecord(c, target), Some(c.g.idle[0]))
  }

  /** The lifetime a new SRV starts. */
  function Renewed(s: Instance, port: u16, ttl: u32, elapsed: u32): Instance {
    s.(service := s.service.(port := port, hasSrv := true),
       srvTtl := Add(Millis(ttl), elapsed), srvTtl0 := Millis(ttl),
       percent := 20, nextRefresh := Add(Share(Millis(ttl), 80), elapsed))
  }

  /** An SRV with a lifetime, up to the reaction. */
  function TakeSrv(c: Cache, i: nat, srv: SrvRec, elapsed: u32): (r: Cache)
    requires Slot(c, i)
    ensures Fits(r) && SameSize(r, c) && MonitorsSame(r, c)
  {
    var (c1, a) := RecordFor(c, srv.target);
    var c2 := if a.Some? then SetArec(c1, i, a.value) else c1.(g := Forget(c1.g, i));
    SetInstance(c2, i, Renewed(c2.sinsts[i], srv.port, srv.ttl, elapsed))
  }

  predicate SrvChanges(c: Cache, i: nat, srv: SrvRec)
    requires Slot(c, i)
  {
    var (c1, a) := RecordFor(c, srv.target);
    c.sinsts[i].service.port != srv.port || (a.Some? && ArecChanges(c1, i, a.value))
  }

  function GotSrv(c: Cache, i: nat, srv: SrvRec, elapsed: u32): (r: Cache)
    requires Slot(c, i)
    ensures Fits(r) && SameSize(r, c) && MonitorsSame(r, c)
  {
    if srv.ttl == 0 then React(CleanupInstance(c, i, false), i, -1)
    else React(TakeSrv(c, i, srv, elapsed), i, if SrvChanges(c, i, srv) then 1 else 0)
  }

  function LostArec(c: Cache, i: nat): (r: Cache)
    requires Slot(c, i)
    ensures Fits(r) && SameSize(r, c) && MonitorsSame(r, c)
  {
    var c1 := CleanupInstance(c, i, false);
    if c.sinsts[i].state == SinstInit then c1 else Tell(c1, i, Disappeared)
  }

  // ----- the address record state machine -----

  function TellAll(c: Cache, a: nat, list: seq<nat>): (r: Cache)
    requires Slot(c, a) && Below(list, |c.g.owner|)
    ensures Fits(r) && SameSize(r, c) && MonitorsSame(r, c)
    decreases |list|
  {
    if list == [] then c else TellAll(GotArec(c, list[0], a), a, list[1..])
  }

  function LoseAll(c: Cache, list: seq<nat>): (r: Cache)
    requires Fits(c) && Below(list, |c.g.owner|)
    ensures Fits(r) && SameSize(r, c) && MonitorsSame(r, c)
    decreases |list|
  {
    if list == [] then c else LoseAll(LostArec(c, list[0]), list[1..])
  }

  function SetIp(c: Cache, a: nat, ip: u32, ttl: u32): (r: Cache)
    requires Slot(c, a)
    ensures Fits(r) && SameSize(r, c) && MonitorsSame(r, c)
  {
    var c1 :=
      if c.arecs[a].ip == ip then c
      else TellAll(SetRecord(c, a, c.arecs[a].(ip := ip)), a, c.g.xref[a]);
    SetRecord(c1, a, c1.arecs[a].(ttl := Millis(ttl), nextRefresh := Share(Millis(ttl), 80), percent := 10))
  }

  function Evict(c: Cache, a: nat): (r: Cache)
    requires Slot(c, a)
    ensures Fits(r) && SameSize(r, c) && MonitorsSame(r, c)
  {
    var c1 := LoseAll(c, c.g.xref[a]);
    SetRecord(c1, a, c1.arecs[a].(nextRefresh := U32_MAX))
  }

  function GotAddr(c: Cache, a: nat, ip: u32, ttl: u32): (r: Cache)
    requires Slot(c, a)
    ensures Fits(r) && SameSize(r, c) && MonitorsSame(r, c)
  {
    if ttl == 0 then Evict(c, a)
    else SetIp(SetRecord(c, a, c.arecs[a].(state := ArecResolved)), a, ip, ttl)
  }

  // ----- a received packet -----

  const UNDERSCORE_TCP: Label := [95, 116, 99, 112]
  const UNDERSCORE_UDP: Label := [95, 117, 100, 112]

  function WireSize(n: Name): nat {
    if n == [] then 1 else |n[0]| + 1 + WireSize(n[1..])
  }

  /** Whether an instance name can be taken apart and kept. */
  predicate ServInfo(n: Name) {
    && WireSize(n) <= MAX_NAME
    && |n| >= 4 && |n[0]| < MAX_LABEL && |n[1]| < MAX_LABEL && |n[3]| < MAX_LABEL
    && (n[2] == UNDERSCORE_TCP || n[2] == UNDERSCORE_UDP)
  }

  const FRESH := Instance(Service(0, 0, None, false, false), 0, 1000, 1000, 0, 20, SinstInit)

  /** A slot for a new instance, released at once if the name cannot be kept. */
  function NewInstance(c: Cache, k: nat, n: Name, ttl: u32, elapsed: u32): (r: Cache)
    requires Fits(c) && k < |c.g.held| && c.g.spare != []
    ensures Fits(r) && SameSize(r, c) && MonitorsSame(r, c)
  {
    var i := c.g.spare[0];
    var c1 := c.(g := Alloc(c.g, k), sinsts := c.sinsts[i := FRESH], fqsn := c.fqsn[i := n], log := c.log + [Born(i)]);
    if ServInfo(n) then SetInstance(c1, i, FRESH.(ptrTtl := Add(Millis(ttl), elapsed)))
    else c1.(g := Free(c1.g, i), log := c1.log + [Died(i, false)])
  }

  /** The PTR of a cached instance: a goodbye or a new lifetime. */
  function KnownPtr(c: Cache, i: nat, ttl: u32, elapsed: u32): (r: Cache)
    requires Slot(c, i)
    ensures Fits(r) && SameSize(r, c) && MonitorsSame(r, c)
  {
    if ttl == 0 then
      CleanupInstance(if c.sinsts[i].state == SinstInit then c else Tell(c, i, Disappeared), i, false)
    else SetInstance(c, i, c.sinsts[i].(ptrTtl := Add(Millis(ttl), elapsed)))
  }

  function KeptTxts(rs: seq<TxtRec>, n: Name): seq<TxtRec> {
    if rs == [] then []
    else (if rs[0].name == n && rs[0].ttl != 0 then [] else [rs[0]]) + KeptTxts(rs[1..], n)
  }

  function KeptSrvs(rs: seq<SrvRec>, n: Name): seq<SrvRec> {
    if rs == [] then []
    else (if rs[0].name == n && rs[0].ttl != 0 then [] else [rs[0]]) + KeptSrvs(rs[1..], n)
  }

  /** What can be told of an instance without a slot: its texts... */
  function FromTxts(s: Service, rs: seq<TxtRec>, n: Name): Service
    decreases |rs|
  {
    if rs == [] then s
    else FromTxts(if rs[0].name == n && rs[0].ttl != 0 then UpdateTxt(s, rs[0].rdata) else s, rs[1..], n)
  }

  /** ...its port and target... */
  function FromSrvs(s: Service, target: Option<Name>, rs: seq<SrvRec>, n: Name): (Service, Option<Name>)
    decreases |rs|
  {
    if rs == [] then (s, target)
    else if rs[0].name == n && rs[0].ttl != 0 then FromSrvs(s.(port := rs[0].port), Some(rs[0].target), rs[1..], n)
    else FromSrvs(s, target, rs[1..], n)
  }

  /** ...and its address. */
  function FromAddrs(s: Service, rs: seq<AddrRec>, n: Name): Service {
    if rs == [] then s
    else if rs[0].name == n && rs[0].ttl != 0 then s.(ip := rs[0].ip)
    else FromAddrs(s, rs[1..], n)
  }

  function OverflowService(p: Answers, n: Name): Service {
    var (s, target) := FromSrvs(FromTxts(FRESH.service, p.txts, n), None, p.srvs, n);
    if target.Some? then FromAddrs(s, p.addrs, target.value) else s
  }

  function TakePtr(c: Cache, p: Answers, ptr: PtrRec, elapsed: u32): (r: (Cache, Answers))
    requires Fits(c)
    ensures Fits(r.0) && SameSize(r.0, c) && MonitorsSame(r.0, c)
  {
    var k := FindMonitor(c, ptr.name);
    if k.None? then (c, p)
    else
      var i := FindInstance(c, k.value, ptr.target);
      if i.Some? then (KnownPtr(c, i.value, ptr.ttl, elapsed), p)
      else if c.g.spare != [] then (NewInstance(c, k.value, ptr.target, ptr.ttl, elapsed), p)
      else if ptr.ttl == 0 || !ServInfo(ptr.target) then (c, p)
      else
        (c.(log := c.log + [Overflow(k.value, ptr.target, OverflowService(p, ptr.target))]),
         p.(txts := KeptTxts(p.txts, ptr.target), srvs := KeptSrvs(p.srvs, ptr.target)))
  }

  function TakePtrs(c: Cache, p: Answers, ptrs: seq<PtrRec>, elapsed: u32): (r: (Cache, Answers))
    requires Fits(c)
    ensures Fits(r.0) && SameSize(r.0, c) && MonitorsSame(r.0, c)
    decreases |ptrs|
  {
    if ptrs == [] then (c, p)
    else
      var (c1, p1) := TakePtr(c, p, ptrs[0], elapsed);
      TakePtrs(c1, p1, ptrs[1..], elapsed)
  }

  /** The cached instance a TXT or SRV belongs to. */
  function Belongs(c: Cache, n: Name): (r: Option<nat>)
    requires Fits(c)
    ensures r.Some? ==> r.value < |c.g.owner| && c.fqsn[r.value] == n
    ensures r.Some? ==> exists k: nat :: k < |c.g.held| && r.value in c.g.held[k]
  {
    var k := FindMonitor(c, Rest(n));
    if k.Some? then FindInstance(c, k.value, n) else None
  }

  function TakeTxts(c: Cache, rs: seq<TxtRec>): (r: Cache)
    requires Fits(c)
    ensures Fits(r) && SameSize(r, c) && MonitorsSame(r, c)
    decreases |rs|
  {
    if rs == [] then c
    else
      var i := Belongs(c, rs[0].name);
      TakeTxts(if i.Some? then GotTxt(c, i.value, rs[0].rdata) else c, rs[1..])
  }

  function TakeSrvs(c: Cache, rs: seq<SrvRec>, elapsed: u32): (r: Cache)
    requires Fits(c)
    ensures Fits(r) && SameSize(r, c) && MonitorsSame(r, c)
    decreases |rs|
  {
    if rs == [] then c
    else
      var i := Belongs(c, rs[0].name);
      TakeSrvs(if i.Some? then GotSrv(c, i.value, rs[0], elapsed) else c, rs[1..], elapsed)
  }

  function TakeAddrs(c: Cache, rs: seq<AddrRec>): (r: Cache)
    requires Fits(c)
    ensures Fits(r) && SameSize(r, c) && MonitorsSame(r, c)
    decreases |rs|
  {
    if rs == [] then c
    else
      var a := FindRecord(c, rs[0].name);
      TakeAddrs(if a.Some? then GotAddr(c, a.value, rs[0].ip, rs[0].ttl) else c, rs[1..])
  }

  function UpdateCache(c: Cache, p: Answers, elapsed: u32): (r: Cache)
    requires Fits(c)
    ensures Fits(r) && SameSize(r, c) && MonitorsSame(r, c)
  {
    if !p.response then c
    else
      var (c1, p1) := TakePtrs(c, p, p.ptrs, elapsed);
      TakeAddrs(TakeSrvs(TakeTxts(c1, p1.txts), p1.srvs, elapsed), p1.addrs)
  }

  // ----- a timer pass -----

  function Ask(q: Query, n: Name, t: u16): (Query, bool) {
    if q.used + WireSize(n) + 4 <= Packet.DATA_MAX then
      (Query(q.questions + [Packet.Question(n, t, Packet.C_IN)], q.used + WireSize(n) + 4), true)
    else (q, false)
  }

  lemma {:induction false} WireSizeIs(n: Name)
    requires ValidName(n)
    ensures WireSize(n) == |Encode(n)|
  {
    if n != [] {
      WireSizeIs(n[1..]);
    }
  }

  /** A question is taken exactly when the writer has room for its octets, and
      counts for as many. */
  lemma AskFits(q: Query, n: Name, t: u16)
    requires ValidName(n)
    ensures var size := |Packet.QuestionBytes(Packet.Question(n, t, Packet.C_IN))|;
            && (Ask(q, n, t).1 <==> q.used + size <= Packet.DATA_MAX)
            && (Ask(q, n, t).1 ==> Ask(q, n, t).0.used == q.used + size)
            && (!Ask(q, n, t).1 ==> Ask(q, n, t).0 == q)
  {
    WireSizeIs(n);
  }

  /** A pass under way: the cache, the query, how much there is to send, and the
      time to the next event. */
  datatype Walk = Walk(c: Cache, q: Query, sends: nat, next: u32, failed: bool)

  function Asked(w: Walk, n: Name, t: u16): Walk {
    w.(q := Ask(w.q, n, t).0, sends := w.sends + 1)
  }

  function AgeRecord(w: Walk, a: nat, elapsed: u32): (r: Walk)
    requires Slot(w.c, a)
    ensures Fits(r.c) && SameSize(r.c, w.c) && MonitorsSame(r.c, w.c)
  {
    var s, n := w.c.arecs[a], w.c.fqdn[a];
    match s.state
    case ArecInit =>
      Asked(w.(c := SetRecord(w.c, a, s.(state := ArecQuerying, ttl := 1000, nextRefresh := Share(1000, 80), percent := 10))), n, Packet.T_A)
    case ArecQuerying =>
      var left := Subtract(s.nextRefresh, elapsed);
      if left == 0 && s.percent < 5 then w.(c := Evict(SetRecord(w.c, a, s.(nextRefresh := 0)), a))
      else if left == 0 then
        Asked(w.(c := SetRecord(w.c, a, s.(percent := s.percent / 2, nextRefresh := Share(s.ttl, s.percent / 2)))), n, Packet.T_A)
      else w.(c := SetRecord(w.c, a, s.(nextRefresh := left)))
    case ArecResolved =>
      var left := Subtract(s.nextRefresh, elapsed);
      if left == 0 then
        Asked(w.(c := SetRecord(w.c, a, s.(percent := 10, nextRefresh := Share(s.ttl, 10), state := ArecQuerying))), n, Packet.T_A)
      else w.(c := SetRecord(w.c, a, s.(nextRefresh := left)))
  }

  function AgeRecords(w: Walk, list: seq<nat>, elapsed: u32): (r: Walk)
    requires Fits(w.c) && Below(list, |w.c.g.owner|)
    ensures Fits(r.c) && SameSize(r.c, w.c) && MonitorsSame(r.c, w.c)
    decreases |list|
  {
    if list == [] then w
    else
      var w1 := AgeRecord(w, list[0], elapsed);
      AgeRecords(w1.(next := Min(w1.next, w1.c.arecs[list[0]].nextRefresh)), list[1..], elapsed)
  }

  /** The lifetimes of an instance after some time. */
  function Aged(s: Instance, elapsed: u32): Instance {
    s.(ptrTtl := Subtract(s.ptrTtl, elapsed), srvTtl := Subtract(s.srvTtl, elapsed),
       nextRefresh := Subtract(s.nextRefresh, elapsed))
  }

  /** One more attempt to refresh an instance. */
  function Retried(s: Instance): Instance {
    s.(nextRefresh := Share(s.srvTtl0, if s.percent == 20 then 80 else s.percent), percent := s.percent / 2)
  }

  function AgeInstance(w: Walk, i: nat, elapsed: u32): (r: Walk)
    requires Slot(w.c, i)
    ensures Fits(r.c) && SameSize(r.c, w.c) && MonitorsSame(r.c, w.c)
  {
    var s := Aged(w.c.sinsts[i], elapsed);
    if s.nextRefresh != 0 then w.(c := SetInstance(w.c, i, s))
    else if s.percent < 5 then
      var c1 := CleanupInstance(SetInstance(w.c, i, s), i, false);
      w.(c := if s.state == SinstInit then c1 else Tell(c1, i, Disappeared))
    else
      var (q, ok) := Ask(w.q, w.c.fqsn[i], Packet.T_ANY);
      var s1 := Retried(s);
      if !ok then w.(c := SetInstance(w.c, i, s1))
      else
        var s2 := if s1.state == SinstClean then s1.(state := SinstUpdating, service := s1.service.(hasSrv := false)) else s1;
        w.(c := SetInstance(w.c, i, s2), q := q, sends := w.sends + 1)
  }

  function AgeInstances(w: Walk, list: seq<nat>, elapsed: u32): (r: Walk)
    requires Fits(w.c) && Below(list, |w.c.g.owner|)
    ensures Fits(r.c) && SameSize(r.c, w.c) && MonitorsSame(r.c, w.c)
    decreases |list|
  {
    if list == [] then w
    else
      var w1 := AgeInstance(w, list[0], elapsed);
      AgeInstances(w1.(next := Min(w1.next, w1.c.sinsts[list[0]].nextRefresh)), list[1..], elapsed)
  }

  /** A monitor asks for its type when its time has come, or waits on. */
  function AgeMonitor(w: Walk, k: nat, elapsed: u32): (r: Walk)
    requires Fits(w.c) && k < |w.c.g.held|
    ensures Fits(r.c) && SameSize(r.c, w.c)
  {
    var s := w.c.smons[k];
    if s.nextRefresh <= elapsed then
      var (q, ok) := Ask(w.q, w.c.fqst[k], Packet.T_ANY);
      var c1 := SetMonitor(w.c, k, Monitor(if s.period > 30000 then 60000 else s.period * 2, 0, w.q.used));
      if !ok then w.(c := c1, failed := true) else w.(c := c1, q := q, sends := w.sends + 1)
    else
      var left := Subtract(s.nextRefresh, elapsed);
      w.(c := SetMonitor(w.c, k, s.(nextRefresh := left)), next := Min(w.next, left))
  }

  function AgeMonitors(w: Walk, ks: seq<nat>, elapsed: u32): (r: Walk)
    requires Fits(w.c) && Below(ks, |w.c.g.held|)
    ensures Fits(r.c) && SameSize(r.c, w.c)
    decreases |ks|
  {
    if ks == [] then w
    else
      var w1 := AgeMonitor(w, ks[0], elapsed);
      if w1.failed then w1
      else AgeMonitors(AgeInstances(w1, w1.c.g.held[ks[0]], elapsed), ks[1..], elapsed)
  }

  /** The monitors that asked are armed again. */
  function Rearm(w: Walk, ks: seq<nat>): (r: Walk)
    requires Fits(w.c) && Below(ks, |w.c.g.held|)
    ensures Fits(r.c) && SameSize(r.c, w.c)
    decreases |ks|
  {
    if ks == [] then w
    else
      var s := w.c.smons[ks[0]];
      if s.nextRefresh == 0 then
        Rearm(w.(c := SetMonitor(w.c, ks[0], s.(nextRefresh := s.period)), next := Min(w.next, s.period)), ks[1..])
      else Rearm(w, ks[1..])
  }

  function Prepare(c: Cache, elapsed: u32): (r: Walk)
    requires Fits(c)
    ensures Fits(r.c) && SameSize(r.c, c)
  {
    var w0 := Walk(c, Query([], Packet.HEADER_SIZE), 0, U32_MAX, false);
    var w1 := AgeRecords(w0, c.g.live, elapsed);
    var w2 := AgeMonitors(w1, w1.c.g.watched, elapsed);
    if w2.failed || w2.sends == 0 then w2 else Rearm(w2, w2.c.g.watched)
  }

  // ----- control -----

  /** A type to monitor, unless it is monitored already or there is no slot. */
  function AddService(c: Cache, fqst: Name): (r: Cache)
    requires Fits(c)
    ensures Fits(r) && SameSize(r, c)
  {
    if FindMonitor(c, fqst).Some? || c.g.unwatched == [] then c
    else
      var k := c.g.unwatched[0];
      c.(g := Watch(c.g), fqst := c.fqst[k := fqst], smons := c.smons[k := Monitor(1000, 0, 0)])
  }

  function CleanupAll(c: Cache, list: seq<nat>): (r: Cache)
    requires Fits(c) && Below(list, |c.g.owner|)
    ensures Fits(r) && SameSize(r, c) && MonitorsSame(r, c)
    decreases |list|
  {
    if list == [] then c else CleanupAll(CleanupInstance(c, list[0], true), list[1..])
  }

  function RemoveMonitor(c: Cache, k: nat): (r: Cache)
    requires Fits(c) && k < |c.g.held|
    ensures Fits(r) && SameSize(r, c) && MonitorsSame(r, c)
  {
    var c1 := CleanupAll(c, c.g.held[k]);
    c1.(g := Unwatch(c1.g, k))
  }

  function RemoveAll(c: Cache, ks: seq<nat>): (r: Cache)
    requires Fits(c) && Below(ks, |c.g.held|)
    ensures Fits(r) && SameSize(r, c) && MonitorsSame(r, c)
    decreases |ks|
  {
    if ks == [] then c else RemoveAll(RemoveMonitor(c, ks[0]), ks[1..])
  }

  /** One type, or with the empty name all of them. */
  function RemoveService(c: Cache, fqst: Name): (r: Cache)
    requires Fits(c)
    ensures Fits(r) && SameSize(r, c) && MonitorsSame(r, c)
  {
    if fqst == [] then RemoveAll(c, c.g.watched)
    else
      var k := FindMonitor(c, fqst);
      if k.None? then c else RemoveMonitor(c, k.value)
  }
}
