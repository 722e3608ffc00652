/** Whole runs of the querier (query_launch and do_querier in
    mdns/mdns_query.c). */
module CacheRun {
  import opened Bytes
  import opened Names
  import opened Slist
  import opened Pools
  import opened Cache
  import opened CacheInv
  import opened CacheSteps

  // ----- launch -----

  /** The slots as the launch loop leaves them on a free list. */
  function Down(n: nat): (r: seq<nat>)
    ensures |r| == n && Below(r, n) && NoDup(r)
    ensures forall x :: 0 <= x < n ==> x in r
  {
    if n == 0 then []
    else
      var r := [n - 1] + Down(n - 1);
      assert n - 1 in r;
      r
  }

  /** n instances and as many address records, m monitors, all free. */
  function Launch(n: nat, m: nat): (c: Cache)
    requires m > 0
    ensures Fits(c) && |c.g.owner| == n && |c.g.held| == m
  {
    Cache(Graph(seq(n, i => 0), seq(n, i => None), seq(m, k => []), Down(n), seq(n, a => []), [], Down(n), [], Down(m)),
          seq(n, i => []), seq(n, a => []), seq(m, k => []),
          seq(n, i => FRESH), seq(n, a => Record(0, 0, ArecInit, 0, 0)), seq(m, k => Monitor(0, 0, 0)), [])
  }

  lemma LaunchGood(n: nat, m: nat)
    requires m > 0
    ensures Good(Launch(n, m))
  {
    var c := Launch(n, m);
    assert Placed(c.g);
    assert Crossed(c.g);
    assert Linked(c.g);
  }

  // ----- one turn of the loop -----

  datatype Control = Start(fqst: Name) | Stop(fqst: Name) | Other

  datatype Reception = Silent | Failed | Received(answers: Answers)

  /** What select reports, and the time that went by. A packet that does not
      parse counts as silence; a failed read ends the turn. */
  datatype Turn = Turn(control: Option<Control>, rx: Reception, elapsed: u32)

  function Controlled(c: Cache, t: Option<Control>): (r: Cache)
    requires Fits(c)
    ensures Fits(r) && SameSize(r, c)
  {
    match t
    case Some(Start(n)) => AddService(c, n)
    case Some(Stop(n)) => RemoveService(c, n)
    case _ => c
  }

  function TakeTurn(c: Cache, t: Turn): (r: Cache)
    requires Fits(c)
    ensures Fits(r) && SameSize(r, c)
  {
    var c1 := Controlled(c, t.control);
    match t.rx
    case Failed => c1
    case Silent => Prepare(c1, t.elapsed).c
    case Received(p) => Prepare(UpdateCache(c1, p, t.elapsed), t.elapsed).c
  }

  predicate StableTurn(c: Cache, t: Turn)
    requires Fits(c)
  {
    t.rx.Received? ==> Stable(Controlled(c, t.control), t.rx.answers, t.elapsed)
  }

  lemma ControlledGood(c: Cache, t: Option<Control>)
    requires Good(c)
    ensures Good(Controlled(c, t))
  {
    if t.Some? && t.value.Start? {
      AddServiceSound(c, t.value.fqst);
    } else if t.Some? && t.value.Stop? {
      RemoveServiceSound(c, t.value.fqst);
    }
  }

  lemma TurnGood(c: Cache, t: Turn)
    requires Good(c) && StableTurn(c, t)
    ensures Good(TakeTurn(c, t))
  {
    var c1 := Controlled(c, t.control);
    ControlledGood(c, t.control);
    hide Sound, NoOrphans, Controlled, Prepare, UpdateCache, Stable;
    match t.rx
    case Failed =>
    case Silent => PrepareSound(c1, t.elapsed);
    case Received(p) =>
      UpdateCacheGood(c1, p, t.elapsed);
      PrepareSound(UpdateCache(c1, p, t.elapsed), t.elapsed);
  }

  // ----- runs -----

  function Run(c: Cache, ts: seq<Turn>): (r: Cache)
    requires Fits(c)
    ensures Fits(r) && SameSize(r, c)
    decreases |ts|
  {
    if ts == [] then c else Run(TakeTurn(c, ts[0]), ts[1..])
  }

  /** No SRV in the run moves the last instance of a host to another one. */
  predicate StableRun(c: Cache, ts: seq<Turn>)
    requires Fits(c)
    decreases |ts|
  {
    ts == [] || (StableTurn(c, ts[0]) && StableRun(TakeTurn(c, ts[0]), ts[1..]))
  }

  lemma {:induction false} RunGood(c: Cache, ts: seq<Turn>)
    requires Good(c) && StableRun(c, ts)
    ensures Good(Run(c, ts))
    decreases |ts|
  {
    if ts != [] {
      TurnGood(c, ts[0]);
      hide Good, TakeTurn, StableTurn;
      RunGood(TakeTurn(c, ts[0]), ts[1..]);
    }
  }

  // ----- pools and cross-references -----

  /** After any stable run each instance is on exactly one of the free list and
      the lists of the active monitors, each record on exactly one of the active
      and the free list, an instance is on the list of a record exactly if it is
      cached and refers to it, and no record is active for nothing. */
  lemma PoolsKept(n: nat, m: nat, ts: seq<Turn>, i: nat, a: nat, k: nat)
    requires m > 0 && StableRun(Launch(n, m), ts) && i < n && a < n && k < m
    ensures var g := Run(Launch(n, m), ts).g;
            && (i in g.spare <==> !Live(g, i))
            && (i in g.held[k] <==> Live(g, i) && g.owner[i] == k)
            && (i in g.held[k] ==> k in g.watched)
            && (a in g.live <==> a !in g.idle) && (k in g.watched <==> k !in g.unwatched)
            && (i in g.xref[a] <==> Live(g, i) && g.home[i] == Some(a))
            && (a in g.live <==> g.xref[a] != [])
            && NoDup(g.spare) && NoDup(g.held[k]) && NoDup(g.xref[a]) && NoDup(g.live) && NoDup(g.idle)
  {
    LaunchGood(n, m);
    RunGood(Launch(n, m), ts);
    var c := Run(Launch(n, m), ts);
    hide Run, Keys, Coherent, Logged, SafeLog, StableRun;
    if a !in c.g.live { Unreferenced(c.g, a); }
  }

  /** An instance that gets an SRV always gets a record for it. */
  lemma RecordAlways(c: Cache, i: nat, srv: SrvRec)
    requires Good(c) && i < |c.g.owner| && Live(c.g, i) && srv.ttl != 0 && Settled(c, i, srv)
    ensures RecordFor(c, srv.target).1.Some?
  {
    if c.g.home[i].None? {
      Pigeonhole(c.g, i);
    } else {
      FindOwnRecord(c, i, srv.target);
      if |c.g.xref[c.g.home[i].value]| >= 2 { SharedPigeonhole(c.g, c.g.home[i].value); }
    }
  }

  /** Unmonitoring everything frees every slot of the three pools, whatever went
      before. */
  lemma Conservation(n: nat, m: nat, ts: seq<Turn>)
    requires m > 0 && StableRun(Launch(n, m), ts)
    ensures var g := RemoveService(Run(Launch(n, m), ts), []).g;
            Whole(g.spare, n) && Whole(g.idle, n) && Whole(g.unwatched, m) && g.live == [] && g.watched == []
  {
    LaunchGood(n, m);
    RunGood(Launch(n, m), ts);
    var c := Run(Launch(n, m), ts);
    hide Run, StableRun;
    RemoveAllSound(c, c.g.watched);
    Conserved(RemoveService(c, []).g);
  }

  // ----- callbacks -----

  /** The codes told about a slot since it was last taken. */
  function Codes(log: seq<Event>, i: nat): seq<Code> {
    if log == [] then []
    else
      var before, e := Codes(log[..|log| - 1], i), log[|log| - 1];
      if e == Born(i) then [] else if e.Told? && e.slot == i then before + [e.code] else before
  }

  /** Why a slot was last given back. */
  function LastDeath(log: seq<Event>, i: nat): Option<bool> {
    if log == [] then None
    else if log[|log| - 1].Died? && log[|log| - 1].slot == i then Some(log[|log| - 1].unmonitored)
    else LastDeath(log[..|log| - 1], i)
  }

  /** DISCOVERED UPDATED* */
  predicate Shows(codes: seq<Code>) {
    |codes| >= 1 && codes[0] == Discovered && forall j :: 1 <= j < |codes| ==> codes[j] == Updated
  }

  /** DISCOVERED UPDATED* DISAPPEARED */
  predicate Ends(codes: seq<Code>) {
    |codes| >= 2 && Shows(codes[..|codes| - 1]) && codes[|codes| - 1] == Disappeared
  }

  /** What each phase says of the callbacks so far. */
  predicate InLanguage(p: Phase, codes: seq<Code>, death: Option<bool>) {
    match p
    case Fresh => codes == []
    case Shown => Shows(codes)
    case Leaving => Ends(codes)
    case Lost => Shows(codes) && death == Some(false)
    case Idle => codes == [] || (Shows(codes) && death == Some(true)) || (Ends(codes) && death == Some(false))
    case Wrong => true
  }

  lemma MoreCodes(codes: seq<Code>)
    ensures Shows([Discovered])
    ensures Shows(codes) ==> Shows(codes + [Updated]) && Ends(codes + [Disappeared])
  {
    assert (codes + [Disappeared])[..|codes|] == codes;
  }

  lemma ToldStep(p: Phase, codes: seq<Code>, death: Option<bool>, e: Event)
    requires InLanguage(p, codes, death) && e.Told?
    ensures InLanguage(NextPhase(p, e, e.slot), codes + [e.code], death)
  {
    MoreCodes(codes);
    hide Shows, Ends;
    assert codes == [] ==> codes + [e.code] == [e.code];
  }

  lemma {:induction false} PhaseLanguage(log: seq<Event>, i: nat)
    ensures InLanguage(PhaseOf(log, i), Codes(log, i), LastDeath(log, i))
  {
    if log != [] {
      var before, e := log[..|log| - 1], log[|log| - 1];
      PhaseLanguage(before, i);
      if e.Told? && e.slot == i {
        ToldStep(PhaseOf(before, i), Codes(before, i), LastDeath(before, i), e);
      }
      hide Shows, Ends;
    }
  }

  lemma {:induction false} NeverWrongBefore(log: seq<Event>, i: nat, n: nat)
    requires n <= |log| && PhaseOf(log, i) != Wrong
    ensures PhaseOf(log[..n], i) != Wrong
    decreases |log|
  {
    if n == |log| {
      assert log[..n] == log;
    } else {
      NeverWrongBefore(log[..|log| - 1], i, n);
      assert log[..|log| - 1][..n] == log[..n];
    }
  }

  /** After any stable run, and at every moment of it, the callbacks of each
      tenure of a slot are a prefix of DISCOVERED UPDATED* DISAPPEARED. */
  lemma CallbackLanguage(n: nat, m: nat, ts: seq<Turn>, i: nat, moment: nat)
    requires m > 0 && StableRun(Launch(n, m), ts) && i < n && moment <= |Run(Launch(n, m), ts).log|
    ensures var log := Run(Launch(n, m), ts).log[..moment];
            var codes := Codes(log, i);
            && PhaseOf(log, i) != Wrong
            && (codes == [] || Shows(codes) || Ends(codes))
  {
    LaunchGood(n, m);
    RunGood(Launch(n, m), ts);
    var c := Run(Launch(n, m), ts);
    hide Run, StableRun;
    assert PhaseOf(c.log, i) == Expected(c, i);
    NeverWrongBefore(c.log, i, moment);
    PhaseLanguage(c.log[..moment], i);
  }

  /** Between turns, a tenure that is over ended with DISAPPEARED exactly if it
      had begun with DISCOVERED and the slot was freed by anything but
      unmonitoring; one that goes on has not been told DISAPPEARED. */
  lemma Farewells(n: nat, m: nat, ts: seq<Turn>, i: nat)
    requires m > 0 && StableRun(Launch(n, m), ts) && i < n
    ensures var c := Run(Launch(n, m), ts);
            var codes := Codes(c.log, i);
            && (Live(c.g, i) && c.sinsts[i].state == SinstInit ==> codes == [])
            && (Live(c.g, i) && c.sinsts[i].state != SinstInit ==> Shows(codes))
            && (!Live(c.g, i) && codes != [] ==> (Ends(codes) <==> LastDeath(c.log, i) == Some(false)))
  {
    LaunchGood(n, m);
    RunGood(Launch(n, m), ts);
    var c := Run(Launch(n, m), ts);
    hide Run, StableRun;
    assert PhaseOf(c.log, i) == Expected(c, i);
    PhaseLanguage(c.log, i);
  }

  /** The user is told that the cache is full only when every slot holds an
      instance. */
  lemma FullMeansFull(c: Cache, p: Answers, ptr: PtrRec, elapsed: u32, i: nat)
    requires Good(c) && i < |c.g.owner|
    requires var d := TakePtr(c, p, ptr, elapsed).0; |d.log| > |c.log| && d.log[|d.log| - 1].Overflow?
    ensures Live(c.g, i)
  {
    hide Coherent, Keys, Logged, SafeLog, NoOrphans, Crossed, ServInfo, OverflowService, FindMonitor, FindInstance, Free, Alloc;
  }

  // ----- addresses -----

  /** After any stable run an instance that claims an address has that of its
      record, and every DISCOVERED or UPDATED so far was given with both records
      known and the address the record then had. */
  lemma AddressesCoherent(n: nat, m: nat, ts: seq<Turn>, i: nat, j: nat)
    requires m > 0 && StableRun(Launch(n, m), ts) && i < n && j < |Run(Launch(n, m), ts).log|
    ensures var c := Run(Launch(n, m), ts);
            && (Live(c.g, i) && c.sinsts[i].service.hasA ==>
                  c.g.home[i].Some? && c.arecs[c.g.home[i].value].ip == c.sinsts[i].service.ip)
            && (c.log[j].Told? && c.log[j].code != Disappeared ==>
                  c.log[j].service.hasA && c.log[j].service.hasSrv && c.log[j].address == Some(c.log[j].service.ip))
  {
    LaunchGood(n, m);
    RunGood(Launch(n, m), ts);
    var c := Run(Launch(n, m), ts);
    hide Run, StableRun;
    assert SafeEvent(c.log[j]);
  }

  // ----- where the code falls short -----

  /** After an A record with a lifetime, an instance of that host claims an
      address exactly if it did before or the address is new: one whose claim was
      withdrawn while the record was being refreshed does not get it back from the
      same address. */
  lemma AddressReaches(c: Cache, a: nat, ip: u32, ttl: u32, i: nat)
    requires Sound(c, {}) && a in c.g.live && a < |c.g.owner| && i in c.g.xref[a] && i < |c.g.owner| && ttl != 0
    ensures var d := GotAddr(c, a, ip, ttl);
            && d.arecs[a].state == ArecResolved && d.arecs[a].ip == ip
            && (d.sinsts[i].service.hasA <==> c.sinsts[i].service.hasA || c.arecs[a].ip != ip)
  {
    var c1 := SetRecord(c, a, c.arecs[a].(state := ArecResolved));
    if c.arecs[a].ip != ip {
      var c2 := SetRecord(c1, a, c1.arecs[a].(ip := ip));
      SetRecordSound(c, a, c.arecs[a].(state := ArecResolved), {});
      NewIpSound(c1, a, ip);
      assert [] + c2.g.xref[a] == c2.g.xref[a];
      hide Sound, Live;
      ToldAll(c2, a, [], c2.g.xref[a], i);
    }
  }

  lemma {:induction false} ToldAll(c: Cache, a: nat, done: seq<nat>, rest: seq<nat>, i: nat)
    requires a in c.g.live && Sound(c, Elements(rest)) && a < |c.g.owner| && c.g.xref[a] == done + rest
    requires c.arecs[a].state == ArecResolved && i < |c.g.owner| && (i in rest || c.sinsts[i].service.hasA)
    ensures Below(rest, |c.g.owner|) && TellAll(c, a, rest).sinsts[i].service.hasA
    ensures TellAll(c, a, rest).arecs == c.arecs
    decreases |rest|
  {
    if rest != [] {
      TellStep(c, a, done, rest);
      OneTold(c, a, rest[0], i);
      hide Sound, Live, GotArec;
      assert [rest[0]] + done + rest[1..] == ([rest[0]] + done) + rest[1..];
      ToldAll(GotArec(c, rest[0], a), a, [rest[0]] + done, rest[1..], i);
    }
  }

  lemma OneTold(c: Cache, a: nat, j: nat, i: nat)
    requires Slot(c, a) && j < |c.g.owner| && i < |c.g.owner| && c.arecs[a].state == ArecResolved
    ensures var d := GotArec(c, j, a);
            d.arecs == c.arecs && d.sinsts[j].service.hasA && (i != j ==> d.sinsts[i] == c.sinsts[i])
  {
    hide Attach, Sized;
  }

  /** A TXT counts as a change exactly if what is kept of it differs from what was
      kept before, except that one of 256 octets or more that goes on where a
      shorter one stopped is not noticed. */
  lemma TxtNoticed(raw: seq<byte>, rdata: seq<byte>)
    requires |raw| <= MAX_KEYVAL + 1
    ensures (TxtChanges(Some(raw), rdata) <==> TxtKept(rdata) != raw) <==>
            !(|rdata| > MAX_KEYVAL && |raw| <= MAX_KEYVAL && raw <= rdata)
  {
    if |rdata| > MAX_KEYVAL && |raw| <= MAX_KEYVAL {
      assert raw[..|raw|] == raw;
      assert raw <= rdata <==> rdata[..|raw|] == raw;
    } else if |rdata| == |raw| {
      assert rdata[..|rdata|] == rdata && raw[..|raw|] == raw;
    } else if |rdata| > MAX_KEYVAL {
      assert raw[..|raw|] == raw;
    }
  }

  /** A text of 256 octets that goes on where one of a single octet stopped. */
  lemma TxtWitness()
    ensures var raw: seq<byte>, rdata: seq<byte> := [0], seq(256, j => 0);
            TxtKept(rdata) != raw && !TxtChanges(Some(raw), rdata)
  {
    var raw: seq<byte>, rdata: seq<byte> := [0], seq(256, j => 0);
    TxtNoticed(raw, rdata);
    assert rdata[..1] == raw;
    assert |TxtKept(rdata)| == 256;
  }

  /** A launched cache that monitors a type and has found an instance of it. */
  function OneFound(n: nat, fqst: Name, fqsn: Name): (c: Cache)
    requires n > 0
    ensures Fits(c) && |c.g.owner| == n
  {
    var c := AddService(Launch(n, 1), fqst);
    NewInstance(c, 0, fqsn, 1, 0)
  }

  lemma OneFoundIs(n: nat, fqst: Name, fqsn: Name)
    requires n > 0 && ServInfo(fqsn)
    ensures var c := OneFound(n, fqst, fqsn);
            Good(c) && Live(c.g, n - 1) && c.g.home[n - 1] == None && c.g.live == [] && c.g.idle == Down(n)
  {
    LaunchGood(n, 1);
    var c0 := Launch(n, 1);
    assert Down(1) == [0];
    AddServiceSound(c0, fqst);
    var c := AddService(c0, fqst);
    assert c.g.watched == [0] && c.g.held[0] == [] && c.g.spare == Down(n) && Down(n)[0] == n - 1;
    hide Sound, NoOrphans, ServInfo;
    NewInstanceSound(c, 0, fqsn, 1, 0);
  }

  lemma FirstSrv(c: Cache, i: nat, srv: SrvRec, elapsed: u32)
    requires Good(c) && i < |c.g.owner| && Live(c.g, i) && c.g.home[i] == None && c.g.live == [] && c.g.idle != []
    requires srv.ttl != 0
    ensures var d := GotSrv(c, i, srv, elapsed);
            && Good(d) && Live(d.g, i) && d.g.home[i] == Some(c.g.idle[0]) && d.fqdn[c.g.idle[0]] == srv.target
            && d.g.xref[c.g.idle[0]] == [i]
  {
    SrvKeepsGood(c, i, srv, elapsed);
    TakeSrvSound(c, i, srv, elapsed);
    assert FindRecord(c, srv.target) == None;
    Unreferenced(c.g, c.g.idle[0]);
    var d := TakeSrv(c, i, srv, elapsed);
    assert d.g == Attach(Grab(c.g), i, c.g.idle[0]);
    hide Good, Sound, Live;
    assert GotSrv(c, i, srv, elapsed).g == d.g && GotSrv(c, i, srv, elapsed).fqdn == d.fqdn;
  }

  /** An SRV that moves the only instance of a host breaks the invariant, whatever
      the size of the pools: the old record stays active for nothing or, with no
      record to spare, keeps an instance that no longer names it. */
  lemma MovedTargetBreaks(n: nat, fqst: Name, fqsn: Name, srv: SrvRec, moved: SrvRec, elapsed: u32)
    requires n > 0 && ServInfo(fqsn) && srv.ttl != 0 && moved.ttl != 0 && moved.target != srv.target
    ensures var c := GotSrv(OneFound(n, fqst, fqsn), n - 1, srv, elapsed);
            Good(c) && !Good(GotSrv(c, n - 1, moved, elapsed))
  {
    hide Good, Sound, Live, OneFound, GotSrv, ServInfo;
    OneFoundIs(n, fqst, fqsn);
    FirstSrv(OneFound(n, fqst, fqsn), n - 1, srv, elapsed);
    SrvKeepsGood(GotSrv(OneFound(n, fqst, fqsn), n - 1, srv, elapsed), n - 1, moved, elapsed);
  }
}
