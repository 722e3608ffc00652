/** What every step on the querier's cache keeps (mdns/mdns_query.c). */
module CacheInv {
  import opened Bytes
  import opened Names
  import opened Slist
  import opened Pools
  import opened Cache
  import Clock

  // ----- the invariant -----

  predicate Distinct(names: seq<Name>, list: seq<nat>)
    requires Below(list, |names|)
  {
    forall i, j {:trigger i in list, j in list} :: i in list && j in list && i != j ==> names[i] != names[j]
  }

  /** No type is monitored twice, no host has two records, and no monitor has an
      instance twice. */
  predicate Keys(g: Graph, fqsn: seq<Name>, fqdn: seq<Name>, fqst: seq<Name>)
    requires Sized(g) && |fqsn| == |fqdn| == |g.owner| && |fqst| == |g.held|
  {
    && Distinct(fqst, g.watched) && Distinct(fqdn, g.live)
    && (forall k :: 0 <= k < |g.held| ==> Distinct(fqsn, g.held[k]))
  }

  /** An instance that says it has an address has that of its record, except
      those about to hear of a new one. */
  predicate Coherent(c: Cache, pending: set<nat>)
    requires Fits(c)
  {
    forall i {:trigger Live(c.g, i)} ::
      0 <= i < |c.g.owner| && Live(c.g, i) && i !in pending && c.sinsts[i].service.hasA ==> Address(c, i) == Some(c.sinsts[i].service.ip)
  }

  /** Where a slot is in the language of its callbacks. */
  datatype Phase = Idle | Fresh | Shown | Leaving | Lost | Wrong

  function NextPhase(p: Phase, e: Event, i: nat): Phase {
    match e
    case Born(j) => if j != i then p else if p == Idle then Fresh else Wrong
    case Told(j, code, _, _, _) =>
      if j != i then p
      else if code == Discovered && p == Fresh then Shown
      else if code == Updated && p == Shown then Shown
      else if code == Disappeared && p == Shown then Leaving
      else if code == Disappeared && p == Lost then Idle
      else Wrong
    case Died(j, unmonitored) =>
      if j != i then p
      else if p == Fresh then Idle
      else if p == Shown then (if unmonitored then Idle else Lost)
      else if p == Leaving && !unmonitored then Idle
      else Wrong
    case Overflow(_, _, _) => p
  }

  function PhaseOf(log: seq<Event>, i: nat): Phase {
    if log == [] then Idle else NextPhase(PhaseOf(log[..|log| - 1], i), log[|log| - 1], i)
  }

  function Expected(c: Cache, i: nat): Phase
    requires Slot(c, i)
  {
    if !Live(c.g, i) then Idle else if c.sinsts[i].state == SinstInit then Fresh else Shown
  }

  /** Every slot is where its callbacks so far have brought it. */
  predicate Logged(c: Cache)
    requires Fits(c)
  {
    forall i {:trigger PhaseOf(c.log, i)} :: 0 <= i < |c.g.owner| ==> PhaseOf(c.log, i) == Expected(c, i)
  }

  /** An instance is shown only when complete, with the address its record then
      has. */
  predicate SafeEvent(e: Event) {
    e.Told? && e.code != Disappeared ==> Ready(e.service) && e.address == Some(e.service.ip)
  }

  predicate SafeLog(log: seq<Event>) {
    forall j :: 0 <= j < |log| ==> SafeEvent(log[j])
  }

  predicate Sound(c: Cache, pending: set<nat>) {
    Fits(c) && Linked(c.g) && Keys(c.g, c.fqsn, c.fqdn, c.fqst) && Coherent(c, pending) && Logged(c) && SafeLog(c.log)
  }

  predicate Good(c: Cache) {
    Sound(c, {}) && NoOrphans(c.g)
  }

  // ----- the log -----

  lemma PhaseSnoc(log: seq<Event>, e: Event, i: nat)
    ensures PhaseOf(log + [e], i) == NextPhase(PhaseOf(log, i), e, i)
  {
    assert (log + [e])[..|log|] == log;
  }

  lemma SafeSnoc(log: seq<Event>, e: Event)
    requires SafeLog(log) && SafeEvent(e)
    ensures SafeLog(log + [e])
  {
  }

  /** A step that changes one slot and logs one event about it. */
  lemma LoggedStep(c: Cache, d: Cache, i: nat, e: Event)
    requires Fits(c) && Logged(c) && Fits(d) && SameSize(c, d) && i < |c.g.owner|
    requires d.log == c.log + [e] && !e.Overflow? && e.slot == i && SafeLog(c.log) && SafeEvent(e)
    requires forall j: nat :: j < |c.g.owner| && j != i ==> Expected(d, j) == Expected(c, j)
    requires Expected(d, i) == NextPhase(Expected(c, i), e, i)
    ensures Logged(d) && SafeLog(d.log)
  {
    hide Expected, PhaseOf, Fits;
    SafeSnoc(c.log, e);
    forall j | 0 <= j < |d.g.owner| ensures PhaseOf(d.log, j) == Expected(d, j) {
      PhaseSnoc(c.log, e, j);
      assert PhaseOf(c.log, j) == Expected(c, j);
    }
  }

  // ----- changes to one instance -----

  lemma SetInstanceSound(c: Cache, i: nat, s: Instance, pending: set<nat>)
    requires Sound(c, pending) && i < |c.g.owner|
    requires s.service.hasA ==> c.sinsts[i].service.hasA && s.service.ip == c.sinsts[i].service.ip
    requires s.state == SinstInit <==> c.sinsts[i].state == SinstInit
    ensures Sound(SetInstance(c, i, s), pending)
  {
    hide Linked, Keys, PhaseOf, SafeLog, Live;
  }

  lemma TellSound(c: Cache, i: nat, pending: set<nat>)
    requires Sound(c, pending) && i < |c.g.owner| && Live(c.g, i) && c.sinsts[i].state != SinstInit
    requires i !in pending && Ready(c.sinsts[i].service)
    ensures Sound(Tell(c, i, Updated), pending)
  {
    hide Linked, Keys, PhaseOf, SafeLog, Live;
    var d := Tell(c, i, Updated);
    assert Live(c.g, i);
    LoggedStep(c, d, i, d.log[|c.log|]);
  }

  lemma DiscoverSound(c: Cache, i: nat, pending: set<nat>)
    requires Sound(c, pending) && i < |c.g.owner| && Live(c.g, i) && c.sinsts[i].state == SinstInit
    requires i !in pending && Ready(c.sinsts[i].service)
    ensures Sound(SetInstance(Tell(c, i, Discovered), i, c.sinsts[i].(state := SinstClean)), pending)
  {
    hide Linked, Keys, PhaseOf, SafeLog, Live;
    var d := SetInstance(Tell(c, i, Discovered), i, c.sinsts[i].(state := SinstClean));
    assert Live(c.g, i);
    LoggedStep(c, d, i, d.log[|c.log|]);
  }

  lemma ReactSound(c: Cache, i: nat, changes: int, pending: set<nat>)
    requires Sound(c, pending) && i < |c.g.owner| && Live(c.g, i) && i !in pending && 0 <= changes
    ensures Sound(React(c, i, changes), pending)
  {
    assert Slot(c, i);
    hide Sound, Live;
    var s := c.sinsts[i];
    if changes > 0 && Ready(s.service) {
      if s.state == SinstInit {
        DiscoverSound(c, i, pending);
      } else {
        TellSound(c, i, pending);
        if s.state == SinstUpdating {
          SetInstanceSound(Tell(c, i, Updated), i, s.(state := SinstClean), pending);
        }
      }
    } else if changes > 0 && s.state == SinstClean {
      SetInstanceSound(c, i, s.(state := SinstUpdating), pending);
    }
  }

  // ----- an instance is released -----

  lemma DistinctSub(names: seq<Name>, s: seq<nat>, t: seq<nat>)
    requires Below(s, |names|) && Below(t, |names|) && Distinct(names, s) && forall x :: x in t ==> x in s
    ensures Distinct(names, t)
  {
  }

  lemma FreeKeys(g: Graph, i: nat, fqsn: seq<Name>, fqdn: seq<Name>, fqst: seq<Name>)
    requires Sized(g) && |fqsn| == |fqdn| == |g.owner| && |fqst| == |g.held| && i < |g.owner|
    requires Keys(g, fqsn, fqdn, fqst)
    ensures Keys(Free(g, i), fqsn, fqdn, fqst)
  {
    hide Distinct;
    var r := Free(g, i);
    DistinctSub(fqdn, g.live, r.live);
    forall k | 0 <= k < |g.held| ensures Distinct(fqsn, r.held[k]) {
      DistinctSub(fqsn, g.held[k], r.held[k]);
    }
  }

  lemma FreedSound(c: Cache, d: Cache, i: nat, pending: set<nat>)
    requires Sound(c, pending) && i < |c.g.owner| && Live(c.g, i)
    requires d.g == Free(c.g, i) && d.fqsn == c.fqsn && d.fqdn == c.fqdn && d.fqst == c.fqst
    requires |d.sinsts| == |c.sinsts| && d.arecs == c.arecs && d.smons == c.smons
    requires forall j :: 0 <= j < |c.sinsts| && j != i ==> d.sinsts[j] == c.sinsts[j]
    ensures Fits(d) && SameSize(c, d) && Linked(d.g) && Keys(d.g, d.fqsn, d.fqdn, d.fqst) && Coherent(d, pending)
    ensures forall j: nat :: Live(d.g, j) <==> Live(c.g, j) && j != i
    ensures NoOrphans(c.g) ==> NoOrphans(d.g)
    ensures Expected(d, i) == Idle && Expected(c, i) == if c.sinsts[i].state == SinstInit then Fresh else Shown
    ensures forall j: nat :: j < |c.g.owner| && j != i ==> Expected(d, j) == Expected(c, j)
  {
    hide PhaseOf, SafeLog, Keys, Linked, NoOrphans, Logged, Live;
    FreeLinked(c.g, i);
    FreeKeys(c.g, i, c.fqsn, c.fqdn, c.fqst);
    FreeHome(c.g, i);
  }

  lemma FreeHome(g: Graph, i: nat)
    requires Sized(g) && i < |g.owner|
    ensures Free(g, i).home == g.home && Free(g, i).owner == g.owner && Free(g, i).watched == g.watched
  {
  }

  /** Two events about one slot. */
  lemma LoggedPair(c: Cache, d: Cache, i: nat, e1: Event, e2: Event)
    requires Fits(c) && Logged(c) && Fits(d) && SameSize(c, d) && i < |c.g.owner|
    requires d.log == c.log + [e1] + [e2] && SafeLog(c.log) && SafeEvent(e1) && SafeEvent(e2)
    requires !e1.Overflow? && e1.slot == i && !e2.Overflow? && e2.slot == i
    requires forall j: nat :: j < |c.g.owner| && j != i ==> Expected(d, j) == Expected(c, j)
    requires Expected(d, i) == NextPhase(NextPhase(Expected(c, i), e1, i), e2, i)
    ensures Logged(d) && SafeLog(d.log)
  {
    hide Expected, PhaseOf, Fits;
    SafeSnoc(c.log, e1);
    SafeSnoc(c.log + [e1], e2);
    forall j | 0 <= j < |d.g.owner| ensures PhaseOf(d.log, j) == Expected(d, j) {
      PhaseSnoc(c.log, e1, j);
      PhaseSnoc(c.log + [e1], e2, j);
      assert PhaseOf(c.log, j) == Expected(c, j);
    }
  }

  lemma LostSound(c: Cache, i: nat, pending: set<nat>)
    requires Sound(c, pending) && i < |c.g.owner| && Live(c.g, i)
    ensures Sound(LostArec(c, i), pending)
    ensures NoOrphans(c.g) ==> NoOrphans(LostArec(c, i).g)
  {
    var d := LostArec(c, i);
    FreedSound(c, d, i, pending);
    hide PhaseOf, SafeLog, Keys, Linked, NoOrphans, Logged, Live, Free, Expected, Coherent;
    if c.sinsts[i].state == SinstInit {
      LoggedStep(c, d, i, Died(i, false));
    } else {
      LoggedPair(c, d, i, Died(i, false), d.log[|c.log| + 1]);
    }
  }

  lemma UnmonitoredSound(c: Cache, i: nat)
    requires Sound(c, {}) && i < |c.g.owner| && Live(c.g, i)
    ensures Sound(CleanupInstance(c, i, true), {})
    ensures NoOrphans(c.g) ==> NoOrphans(CleanupInstance(c, i, true).g)
  {
    var d := CleanupInstance(c, i, true);
    FreedSound(c, d, i, {});
    hide PhaseOf, SafeLog, Keys, Linked, NoOrphans, Logged, Live, Free, Expected, Coherent;
    LoggedStep(c, d, i, Died(i, true));
  }

  lemma KnownPtrSound(c: Cache, i: nat, ttl: u32, elapsed: u32)
    requires Sound(c, {}) && i < |c.g.owner| && Live(c.g, i)
    ensures Sound(KnownPtr(c, i, ttl, elapsed), {})
    ensures NoOrphans(c.g) ==> NoOrphans(KnownPtr(c, i, ttl, elapsed).g)
  {
    var d := KnownPtr(c, i, ttl, elapsed);
    if ttl == 0 {
      FreedSound(c, d, i, {});
      hide PhaseOf, SafeLog, Keys, Linked, NoOrphans, Logged, Live, Free, Expected, Coherent;
      if c.sinsts[i].state == SinstInit {
        LoggedStep(c, d, i, Died(i, false));
      } else {
        LoggedPair(c, d, i, d.log[|c.log|], Died(i, false));
      }
    } else {
      SetInstanceSound(c, i, d.sinsts[i], {});
    }
  }

  // ----- an instance is taken -----

  lemma DistinctCons(names: seq<Name>, s: seq<nat>, x: nat, n: Name)
    requires Below(s, |names|) && Distinct(names, s) && x < |names| && x !in s
    requires forall i :: i in s ==> names[i] != n
    ensures Below([x] + s, |names|) && Distinct(names[x := n], [x] + s)
  {
  }

  lemma DistinctElsewhere(names: seq<Name>, s: seq<nat>, x: nat, n: Name)
    requires Below(s, |names|) && Distinct(names, s) && x < |names| && x !in s
    ensures Distinct(names[x := n], s)
  {
  }

  lemma AllocKeys(g: Graph, k: nat, n: Name, fqsn: seq<Name>, fqdn: seq<Name>, fqst: seq<Name>)
    requires Linked(g) && |fqsn| == |fqdn| == |g.owner| && |fqst| == |g.held|
    requires g.spare != [] && k < |g.held| && Keys(g, fqsn, fqdn, fqst)
    requires forall i :: i in g.held[k] ==> fqsn[i] != n
    ensures g.spare[0] < |fqsn| && Keys(Alloc(g, k), fqsn[g.spare[0] := n], fqdn, fqst)
  {
    var r, x := Alloc(g, k), g.spare[0];
    assert x in g.spare;
    hide Distinct;
    forall b | 0 <= b < |g.held| ensures Distinct(fqsn[x := n], r.held[b]) {
      if b == k {
        DistinctCons(fqsn, g.held[k], x, n);
      } else {
        DistinctElsewhere(fqsn, g.held[b], x, n);
      }
    }
  }

  /** A fresh slot on the list of a monitor. */
  function Taken(c: Cache, k: nat, n: Name): (r: Cache)
    requires Fits(c) && k < |c.g.held| && c.g.spare != []
    ensures Fits(r) && SameSize(r, c) && c.g.spare[0] < |c.g.owner|
  {
    var i := c.g.spare[0];
    c.(g := Alloc(c.g, k), sinsts := c.sinsts[i := FRESH], fqsn := c.fqsn[i := n], log := c.log + [Born(i)])
  }

  lemma TakenSound(c: Cache, k: nat, n: Name)
    requires Sound(c, {}) && c.g.spare != [] && k in c.g.watched && k < |c.g.held| && FindInstance(c, k, n).None?
    ensures Sound(Taken(c, k, n), {}) && Live(Taken(c, k, n).g, c.g.spare[0])
    ensures NoOrphans(c.g) ==> NoOrphans(Taken(c, k, n).g)
  {
    var i, d := c.g.spare[0], Taken(c, k, n);
    AllocLinked(c.g, k);
    AllocKeys(c.g, k, n, c.fqsn, c.fqdn, c.fqst);
    hide PhaseOf, SafeLog, Keys, Linked, NoOrphans, Live, FindInstance;
    assert Coherent(d, {});
    LoggedStep(c, d, i, Born(i));
  }

  lemma SoundFits(c: Cache)
    requires Sound(c, {})
    ensures Fits(c)
  {
  }

  lemma NewInstanceSound(c: Cache, k: nat, n: Name, ttl: u32, elapsed: u32)
    requires Sound(c, {}) && c.g.spare != [] && k in c.g.watched && k < |c.g.held| && FindInstance(c, k, n).None?
    ensures Sound(NewInstance(c, k, n, ttl, elapsed), {})
    ensures NoOrphans(c.g) ==> NoOrphans(NewInstance(c, k, n, ttl, elapsed).g)
  {
    hide Sound, Live, Alloc, Free, NoOrphans, ServInfo, FindInstance, Sized;
    SoundFits(c);
    var i, d := c.g.spare[0], Taken(c, k, n);
    TakenSound(c, k, n);
    if ServInfo(n) {
      SetInstanceSound(d, i, FRESH.(ptrTtl := Clock.Add(Millis(ttl), elapsed)), {});
    } else {
      LostSound(d, i, {});
      AnyRefresh(LostArec(d, i), i, FRESH);
      assert d.sinsts[i] == FRESH && LostArec(d, i) == CleanupInstance(d, i, false);
      assert SetInstance(LostArec(d, i), i, FRESH).sinsts == d.sinsts;
      assert NewInstance(c, k, n, ttl, elapsed) == SetInstance(LostArec(d, i), i, FRESH);
    }
  }

  /** The data of a free slot do not matter. */
  lemma AnyRefresh(c: Cache, i: nat, s: Instance)
    requires Sound(c, {}) && i < |c.g.owner| && s.service == c.sinsts[i].service && s.state == c.sinsts[i].state
    ensures Sound(SetInstance(c, i, s), {})
  {
    SetInstanceSound(c, i, s, {});
  }

  // ----- an instance takes a record -----

  lemma AttachFrame(g: Graph, i: nat, a: nat)
    requires Sized(g) && i < |g.owner| && a < |g.owner|
    ensures var r := Attach(g, i, a);
            && r.owner == g.owner && r.held == g.held && r.spare == g.spare && r.live == g.live && r.idle == g.idle
            && r.watched == g.watched && r.unwatched == g.unwatched && r.home == g.home[i := Some(a)]
  {
  }

  lemma SetArecSound(c: Cache, i: nat, a: nat, pending: set<nat>)
    requires Sound(c, pending) && i < |c.g.owner| && Live(c.g, i) && a in c.g.live
    ensures a < |c.g.owner| && Sound(SetArec(c, i, a), pending - {i}) && Live(SetArec(c, i, a).g, i)
  {
    AttachLinked(c.g, i, a);
    AttachFrame(c.g, i, a);
    var d := SetArec(c, i, a);
    assert Keys(d.g, d.fqsn, d.fqdn, d.fqst);
    hide PhaseOf, SafeLog, Keys, Linked, Live, Attach;
    assert Coherent(d, pending - {i});
    assert Logged(d);
  }

  lemma NewRecordSound(c: Cache, target: Name, pending: set<nat>)
    requires Sound(c, pending) && c.g.idle != [] && FindRecord(c, target).None?
    ensures Sound(NewRecord(c, target), pending) && c.g.idle[0] in NewRecord(c, target).g.live
    ensures c.g.idle[0] !in c.g.live && NewRecord(c, target).g.xref == c.g.xref
    ensures forall j: nat :: Live(NewRecord(c, target).g, j) <==> Live(c.g, j)
  {
    GrabLinked(c.g);
    var a, d := c.g.idle[0], NewRecord(c, target);
    DistinctCons(c.fqdn, c.g.live, a, target);
    assert Keys(d.g, d.fqsn, d.fqdn, d.fqst);
    HomesAreLive(c.g);
    hide PhaseOf, SafeLog, Keys, Linked, Live, FindRecord;
    assert Coherent(d, pending);
    assert Logged(d);
  }

  lemma HomesAreLive(g: Graph)
    requires Linked(g)
    ensures forall i {:trigger Live(g, i)} :: 0 <= i < |g.owner| && Live(g, i) && g.home[i].Some? ==>
              g.home[i].value < |g.xref| && i in g.xref[g.home[i].value] && g.home[i].value in g.live
  {
  }

  /** No record is left for the target, while the instance has another. */
  predicate Dropped(c: Cache, i: nat, target: Name)
    requires Slot(c, i)
  {
    c.g.home[i].Some? && FindRecord(c, target).None? && c.g.idle == []
  }

  lemma TakeSrvSound(c: Cache, i: nat, srv: SrvRec, elapsed: u32)
    requires Sound(c, {}) && i < |c.g.owner| && Live(c.g, i) && !Dropped(c, i, srv.target)
    ensures Sound(TakeSrv(c, i, srv, elapsed), {}) && Live(TakeSrv(c, i, srv, elapsed).g, i)
  {
    assert Slot(c, i);
    hide Sound, Live, Linked, FindRecord, Fits;
    var (c1, a) := RecordFor(c, srv.target);
    if a.None? {
      assert Forget(c1.g, i) == c1.g;
      SetInstanceSound(c1, i, Renewed(c1.sinsts[i], srv.port, srv.ttl, elapsed), {});
    } else {
      if FindRecord(c, srv.target).None? {
        NewRecordSound(c, srv.target, {});
      } else {
        Found(c, srv.target);
      }
      SetArecSound(c1, i, a.value, {});
      var c2 := SetArec(c1, i, a.value);
      assert {} - {i} == {};
      SetInstanceSound(c2, i, Renewed(c2.sinsts[i], srv.port, srv.ttl, elapsed), {});
    }
  }

  lemma Found(c: Cache, n: Name)
    requires Fits(c) && FindRecord(c, n).Some?
    ensures FindRecord(c, n).value in c.g.live && FindRecord(c, n).value < |c.g.owner| && c.fqdn[FindRecord(c, n).value] == n
  {
  }

  lemma GotSrvSound(c: Cache, i: nat, srv: SrvRec, elapsed: u32)
    requires Sound(c, {}) && i < |c.g.owner| && Live(c.g, i) && (srv.ttl == 0 || !Dropped(c, i, srv.target))
    ensures Sound(GotSrv(c, i, srv, elapsed), {})
  {
    assert Slot(c, i);
    hide Sound, Live, FindRecord, Fits, TakeSrv;
    if srv.ttl == 0 {
      LostSound(c, i, {});
      GoodbyeIsLoss(c, i, srv, elapsed);
    } else {
      TakeSrvSound(c, i, srv, elapsed);
      ReactSound(TakeSrv(c, i, srv, elapsed), i, if SrvChanges(c, i, srv) then 1 else 0, {});
    }
  }

  /** An SRV goodbye ends an instance like a lost record. */
  lemma GoodbyeIsLoss(c: Cache, i: nat, srv: SrvRec, elapsed: u32)
    requires Slot(c, i) && srv.ttl == 0
    ensures GotSrv(c, i, srv, elapsed) == LostArec(c, i)
  {
    hide Free;
  }

  /** A drop leaves the instance on the list of a record it no longer names. */
  lemma DropBreaks(c: Cache, i: nat, srv: SrvRec, elapsed: u32)
    requires Sound(c, {}) && i < |c.g.owner| && Live(c.g, i) && srv.ttl != 0 && Dropped(c, i, srv.target)
    ensures !Sound(GotSrv(c, i, srv, elapsed), {})
  {
    HomesAreLive(c.g);
    assert TakeSrv(c, i, srv, elapsed).g == Forget(c.g, i);
    var g, a := GotSrv(c, i, srv, elapsed).g, c.g.home[i].value;
    assert g == Forget(c.g, i);
    assert i in g.xref[a];
  }

  /** Exactly when a received SRV keeps the cross-references right. */
  lemma SrvKeepsSound(c: Cache, i: nat, srv: SrvRec, elapsed: u32)
    requires Sound(c, {}) && i < |c.g.owner| && Live(c.g, i)
    ensures Sound(GotSrv(c, i, srv, elapsed), {}) <==> srv.ttl == 0 || !Dropped(c, i, srv.target)
  {
    if srv.ttl == 0 || !Dropped(c, i, srv.target) {
      GotSrvSound(c, i, srv, elapsed);
    } else {
      DropBreaks(c, i, srv, elapsed);
    }
  }

  /** An SRV that names the host the instance is already on. */
  predicate SameTarget(c: Cache, i: nat, srv: SrvRec)
    requires Slot(c, i)
  {
    srv.ttl == 0 || c.g.home[i].None? || c.fqdn[c.g.home[i].value] == srv.target
  }

  /** An SRV that leaves no record without instances: the host is the same, or
      another instance stays with it. */
  predicate Settled(c: Cache, i: nat, srv: SrvRec)
    requires Slot(c, i)
  {
    SameTarget(c, i, srv) || |c.g.xref[c.g.home[i].value]| >= 2
  }

  lemma FindOwnRecord(c: Cache, i: nat, n: Name)
    requires Sound(c, {}) && i < |c.g.owner| && Live(c.g, i) && c.g.home[i].Some?
    ensures c.fqdn[c.g.home[i].value] == n <==> FindRecord(c, n) == c.g.home[i]
  {
    HomesAreLive(c.g);
  }

  /** Exactly when it also leaves no record active without an instance: the host
      is the same, or another instance stays with the old one. */
  lemma SrvKeepsGood(c: Cache, i: nat, srv: SrvRec, elapsed: u32)
    requires Good(c) && i < |c.g.owner| && Live(c.g, i)
    ensures Good(GotSrv(c, i, srv, elapsed)) <==> Settled(c, i, srv)
  {
    HomesAreLive(c.g);
    if srv.ttl == 0 {
      LostSound(c, i, {});
      GoodbyeIsLoss(c, i, srv, elapsed);
    } else {
      hide Live, Keys, Coherent, Logged, SafeLog, NoOrphans, Linked;
      SrvKeepsSound(c, i, srv, elapsed);
      RecordsAfterSrv(c, i, srv, elapsed);
    }
  }

  lemma RecordsAfterSrv(c: Cache, i: nat, srv: SrvRec, elapsed: u32)
    requires Good(c) && i < |c.g.owner| && Live(c.g, i) && srv.ttl != 0
    ensures Dropped(c, i, srv.target) ==>
              !Settled(c, i, srv)
    ensures !Dropped(c, i, srv.target) ==>
              (NoOrphans(GotSrv(c, i, srv, elapsed).g) <==>
               Settled(c, i, srv))
  {
    HomesAreLive(c.g);
    if c.g.home[i].Some? {
      FindOwnRecord(c, i, srv.target);
      if |c.g.xref[c.g.home[i].value]| >= 2 { SharedPigeonhole(c.g, c.g.home[i].value); }
    } else {
      Pigeonhole(c.g, i);
    }
    hide Keys, Coherent, Logged, SafeLog, Linked, Live, NoOrphans, FindRecord, GotSrv;
    if FindRecord(c, srv.target).Some? {
      OrphansAfterMove(c, i, srv, elapsed);
    } else if c.g.idle != [] {
      OrphansAfterNew(c, i, srv, elapsed);
    }
  }

  lemma OrphansAfterMove(c: Cache, i: nat, srv: SrvRec, elapsed: u32)
    requires Good(c) && i < |c.g.owner| && Live(c.g, i) && srv.ttl != 0 && FindRecord(c, srv.target).Some?
    ensures NoOrphans(GotSrv(c, i, srv, elapsed).g) <==>
            c.g.home[i].None? || c.g.home[i] == FindRecord(c, srv.target) || |c.g.xref[c.g.home[i].value]| >= 2
  {
    hide Keys, Coherent, Logged, SafeLog, Linked, Live;
    var a := FindRecord(c, srv.target).value;
    AttachOrphans(c.g, i, a);
    hide NoOrphans, FindRecord, Attach;
    assert GotSrv(c, i, srv, elapsed).g == Attach(c.g, i, a);
  }

  lemma OrphansAfterNew(c: Cache, i: nat, srv: SrvRec, elapsed: u32)
    requires Good(c) && i < |c.g.owner| && Live(c.g, i) && srv.ttl != 0
    requires FindRecord(c, srv.target).None? && c.g.idle != []
    ensures NoOrphans(GotSrv(c, i, srv, elapsed).g) <==>
            c.g.home[i].None? || |c.g.xref[c.g.home[i].value]| >= 2
  {
    HomesAreLive(c.g);
    hide Keys, Coherent, Logged, SafeLog, Linked, Live, FindRecord;
    var c1, a := NewRecord(c, srv.target), c.g.idle[0];
    NewRecordSound(c, srv.target, {});
    AttachOrphans(c1.g, i, a);
    hide NoOrphans, Attach;
    assert GotSrv(c, i, srv, elapsed).g == Attach(c1.g, i, a);
  }
}
