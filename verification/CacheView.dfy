/** What the user has been told (the callbacks of update_sinst in
    mdns/mdns_query.c) against what the cache holds. */
module CacheView {
  import opened Bytes
  import opened Names
  import opened Slist
  import opened Pools
  import opened Cache
  import opened CacheInv
  import opened CacheSteps
  import opened CacheRun
  import Packet
  import Clock

  // ----- the invariant -----

  /** What the user sees of a service. */
  datatype View = View(port: u16, ip: u32, raw: Option<seq<byte>>)

  function ViewOf(s: Service): View {
    View(s.port, s.ip, s.raw)
  }

  /** What the user last saw of a slot since it was taken. */
  function LastView(log: seq<Event>, i: nat): Option<View> {
    if log == [] then None
    else
      var e := log[|log| - 1];
      if e == Born(i) then None
      else if e.Told? && e.slot == i && e.code != Disappeared then Some(ViewOf(e.service))
      else LastView(log[..|log| - 1], i)
  }

  /** The user last saw the instance as it is. */
  predicate Shown(c: Cache, i: nat)
    requires Slot(c, i)
  {
    LastView(c.log, i) == Some(ViewOf(c.sinsts[i].service))
  }

  /** An instance not shown yet has no address; one that is clean was last shown as
      it is; and one that is being updated has been shown, in the strict sense as it
      is too. */
  predicate UpToDate(c: Cache, i: nat, strict: bool)
    requires Slot(c, i)
  {
    var s := c.sinsts[i];
    && (s.service.raw.Some? ==> |s.service.raw.value| <= MAX_KEYVAL + 1)
    && match s.state
       case SinstInit => s.service.ip == 0 && (c.g.home[i].Some? ==> s.service.hasSrv)
       case SinstClean => Shown(c, i)
       case SinstUpdating => LastView(c.log, i).Some? && (strict ==> Shown(c, i))
  }

  predicate Current(c: Cache, strict: bool)
    requires Fits(c)
  {
    forall i {:trigger Live(c.g, i)} :: 0 <= i < |c.g.owner| && Live(c.g, i) ==> UpToDate(c, i, strict)
  }

  lemma ViewSnoc(log: seq<Event>, e: Event, i: nat)
    ensures LastView(log + [e], i) ==
            if e == Born(i) then None
            else if e.Told? && e.slot == i && e.code != Disappeared then Some(ViewOf(e.service))
            else LastView(log, i)
  {
    assert (log + [e])[..|log|] == log;
  }

  /** A step about one slot. */
  predicate About(c: Cache, d: Cache, i: nat)
    requires Fits(c) && Fits(d)
  {
    && SameSize(c, d) && i < |c.g.owner|
    && (forall j {:trigger Live(d.g, j)} :: 0 <= j < |c.g.owner| && j != i && Live(d.g, j) ==>
          && Live(c.g, j) && d.sinsts[j] == c.sinsts[j] && d.g.home[j] == c.g.home[j]
          && LastView(d.log, j) == LastView(c.log, j))
  }

  lemma CurrentStep(c: Cache, d: Cache, i: nat, strict: bool)
    requires Fits(c) && Fits(d) && Current(c, strict) && About(c, d, i) && (Live(d.g, i) ==> UpToDate(d, i, strict))
    ensures Current(d, strict)
  {
    hide Live, LastView;
  }

  // ----- the instance state machine -----

  /** After the reaction the instance is up to date, if whatever changed was
      counted as a change. */
  lemma ReactUpToDate(c: Cache, d: Cache, i: nat, changes: int, strict: bool)
    requires Slot(c, i) && Slot(d, i) && UpToDate(c, i, strict) && d.log == c.log && d.sinsts[i].state == c.sinsts[i].state
    requires 0 <= changes <= 1 && (d.sinsts[i].service.raw.Some? ==> |d.sinsts[i].service.raw.value| <= MAX_KEYVAL + 1)
    requires changes == 0 ==> ViewOf(d.sinsts[i].service) == ViewOf(c.sinsts[i].service)
    requires strict && d.sinsts[i].state != SinstInit ==>
               ViewOf(d.sinsts[i].service) == ViewOf(c.sinsts[i].service) || Ready(d.sinsts[i].service)
    requires d.sinsts[i].state == SinstInit ==>
               && (d.g.home[i].Some? ==> d.sinsts[i].service.hasSrv)
               && (d.sinsts[i].service.ip == 0 || (changes > 0 && Ready(d.sinsts[i].service)))
    ensures UpToDate(React(d, i, changes), i, strict)
  {
    hide Sized, LastView;
    ViewSnoc(d.log, Told(i, Discovered, d.fqsn[i], d.sinsts[i].service, Address(d, i)), i);
    ViewSnoc(d.log, Told(i, Updated, d.fqsn[i], d.sinsts[i].service, Address(d, i)), i);
  }

  lemma ReactAbout(c: Cache, d: Cache, i: nat, changes: int)
    requires Slot(c, i) && Slot(d, i) && About(c, d, i)
    ensures About(c, React(d, i, changes), i)
  {
    hide Sized, LastView, Live;
    forall j, code | 0 <= j < |c.g.owner| && j != i ensures LastView(Tell(d, i, code).log, j) == LastView(d.log, j) {
      ViewSnoc(d.log, Told(i, code, d.fqsn[i], d.sinsts[i].service, Address(d, i)), j);
    }
  }

  // ----- what each record reports -----

  /** A changed TXT is reported if the instance is complete. */
  predicate TxtTold(c: Cache, i: nat, rdata: seq<byte>)
    requires Slot(c, i)
  {
    var s := c.sinsts[i];
    s.state == SinstInit || !TxtChanges(s.service.raw, rdata) || Ready(s.service)
  }

  predicate TargetResolved(c: Cache, target: Name)
    requires Fits(c)
  {
    FindRecord(c, target).Some? && c.arecs[FindRecord(c, target).value].state == ArecResolved
  }

  /** A changed port is reported if the address of the host is known. */
  predicate SrvTold(c: Cache, i: nat, srv: SrvRec)
    requires Slot(c, i)
  {
    var s := c.sinsts[i];
    srv.ttl == 0 || s.state == SinstInit || srv.port == s.service.port || TargetResolved(c, srv.target)
  }

  /** A changed address is reported if the SRV of the instance is known. */
  predicate ArecTold(c: Cache, i: nat, a: nat, ip: u32)
    requires Slot(c, i) && a < |c.g.owner|
  {
    var s := c.sinsts[i];
    s.state == SinstInit || c.arecs[a].ip == ip || s.service.ip == ip || s.service.hasSrv
  }

  /** What is kept of a TXT that counts as changed differs from what was kept. */
  lemma ChangedTxtDiffers(raw: Option<seq<byte>>, rdata: seq<byte>)
    requires raw.Some? ==> |raw.value| <= MAX_KEYVAL + 1
    ensures TxtChanges(raw, rdata) ==> Some(TxtKept(rdata)) != raw
  {
    if raw.Some? {
      var n := if |rdata| < |raw.value| then |rdata| else |raw.value|;
      assert n <= |TxtKept(rdata)| && TxtKept(rdata)[..n] == rdata[..n];
    }
  }

  /** Exactly when a TXT leaves the user up to date about an instance of which they
      were. */
  lemma TxtToldIff(c: Cache, i: nat, rdata: seq<byte>)
    requires Sound(c, {}) && Current(c, false) && i < |c.g.owner| && Live(c.g, i)
    requires c.sinsts[i].state != SinstInit && Shown(c, i)
    ensures Shown(GotTxt(c, i, rdata), i) <==> TxtTold(c, i, rdata)
  {
    var s := c.sinsts[i];
    assert UpToDate(c, i, false);
    hide Sound, Live, Sized, LastView, TxtChanges;
    var d := SetInstance(c, i, s.(service := UpdateTxt(s.service, rdata)));
    ChangedTxtDiffers(s.service.raw, rdata);
    ReactShows(d, i, if TxtChanges(s.service.raw, rdata) then 1 else 0);
  }

  /** The reaction to a change shows a complete instance, and changes nothing else
      that the user sees. */
  lemma ReactShows(c: Cache, i: nat, changes: int)
    requires Slot(c, i) && 0 <= changes <= 1 && c.sinsts[i].state != SinstInit
    ensures var d := React(c, i, changes);
            && Slot(d, i) && ViewOf(d.sinsts[i].service) == ViewOf(c.sinsts[i].service)
            && LastView(d.log, i) ==
               if changes > 0 && Ready(c.sinsts[i].service) then Some(ViewOf(c.sinsts[i].service)) else LastView(c.log, i)
  {
    hide Sized, LastView;
    ViewSnoc(c.log, Told(i, Updated, c.fqsn[i], c.sinsts[i].service, Address(c, i)), i);
  }

  /** Exactly when an SRV leaves the user up to date. */
  lemma SrvToldIff(c: Cache, i: nat, srv: SrvRec, elapsed: u32)
    requires Sound(c, {}) && i < |c.g.owner| && Live(c.g, i) && srv.ttl != 0 && !Dropped(c, i, srv.target)
    requires c.sinsts[i].state != SinstInit && Shown(c, i)
    ensures Shown(GotSrv(c, i, srv, elapsed), i) <==> SrvTold(c, i, srv)
  {
    assert Slot(c, i);
    hide Sound, Live, FindRecord, Sized, LastView, TakeSrv, SrvChanges, React, Dropped, TargetResolved;
    TakeSrvFrame(c, i, srv, elapsed);
    ReactShows(TakeSrv(c, i, srv, elapsed), i, if SrvChanges(c, i, srv) then 1 else 0);
  }

  lemma GotTxtCurrent(c: Cache, i: nat, rdata: seq<byte>, strict: bool)
    requires Sound(c, {}) && Current(c, strict) && i < |c.g.owner| && Live(c.g, i) && (strict ==> TxtTold(c, i, rdata))
    ensures Current(GotTxt(c, i, rdata), strict)
  {
    var s := c.sinsts[i];
    var d := SetInstance(c, i, s.(service := UpdateTxt(s.service, rdata)));
    var changes := if TxtChanges(s.service.raw, rdata) then 1 else 0;
    assert About(c, d, i);
    ReactAbout(c, d, i, changes);
    ReactUpToDate(c, d, i, changes, strict);
    CurrentStep(c, GotTxt(c, i, rdata), i, strict);
  }

  /** Likewise for the address a resolved record has. */
  predicate AddressTold(c: Cache, i: nat, a: nat)
    requires Slot(c, i) && a < |c.g.owner|
  {
    var s := c.sinsts[i];
    s.state == SinstInit || s.service.ip == c.arecs[a].ip || s.service.hasSrv
  }

  lemma GotArecCurrent(c: Cache, i: nat, a: nat, pending: set<nat>, strict: bool)
    requires Sound(c, pending) && Current(c, strict) && i < |c.g.owner| && Live(c.g, i) && a < |c.g.owner|
    requires c.g.home[i] == Some(a) && a in c.g.live && c.arecs[a].state == ArecResolved
    requires strict ==> AddressTold(c, i, a)
    ensures Current(GotArec(c, i, a), strict)
  {
    AttachLinked(c.g, i, a);
    AttachFrame(c.g, i, a);
    var d := SetArec(c, i, a);
    var changes := if ArecChanges(c, i, a) then 1 else 0;
    assert UpToDate(c, i, strict);
    hide Sound, Live, Attach, Sized;
    assert About(c, d, i);
    ReactAbout(c, d, i, changes);
    ReactUpToDate(c, d, i, changes, strict);
    CurrentStep(c, GotArec(c, i, a), i, strict);
  }

  /** Taking an SRV: the record for it, its address if it has one, the new port. */
  lemma TakeSrvFrame(c: Cache, i: nat, srv: SrvRec, elapsed: u32)
    requires Sound(c, {}) && i < |c.g.owner| && Live(c.g, i) && !Dropped(c, i, srv.target)
    ensures var d := TakeSrv(c, i, srv, elapsed);
            && About(c, d, i) && d.log == c.log && d.sinsts[i].state == c.sinsts[i].state && d.sinsts[i].service.hasSrv
            && (!SrvChanges(c, i, srv) ==> ViewOf(d.sinsts[i].service) == ViewOf(c.sinsts[i].service))
            && (d.sinsts[i].service.ip != c.sinsts[i].service.ip ==> SrvChanges(c, i, srv) && Ready(d.sinsts[i].service))
            && (Ready(d.sinsts[i].service) <==> TargetResolved(c, srv.target))
            && d.sinsts[i].service.port == srv.port && d.sinsts[i].service.raw == c.sinsts[i].service.raw
            && (SrvChanges(c, i, srv) || srv.port == c.sinsts[i].service.port)
  {
    assert Slot(c, i);
    SameHomesAfter(c, srv.target);
    hide Sound, Live, FindRecord, Attach, Sized, LastView, About, SetArec, ArecChanges, NewRecord;
    var (c1, a) := RecordFor(c, srv.target);
    if a.Some? {
      if FindRecord(c, srv.target).None? {
        NewRecordSound(c, srv.target, {});
      } else {
        Found(c, srv.target);
      }
      LinkFrame(c, c1, i, a.value, srv, elapsed);
    } else {
      assert Forget(c.g, i) == c.g;
      NoAddress(c, i);
      OnlyOne(c, i, Renewed(c.sinsts[i], srv.port, srv.ttl, elapsed));
    }
  }

  /** An instance without a record has no address. */
  lemma NoAddress(c: Cache, i: nat)
    requires Sound(c, {}) && i < |c.g.owner| && Live(c.g, i)
    ensures |c.g.home| == |c.g.owner| && (c.g.home[i].None? ==> !c.sinsts[i].service.hasA)
  {
  }

  lemma OnlyOne(c: Cache, i: nat, s: Instance)
    requires Slot(c, i)
    ensures About(c, SetInstance(c, i, s), i)
  {
  }

  lemma LinkFrame(c: Cache, c1: Cache, i: nat, a: nat, srv: SrvRec, elapsed: u32)
    requires Slot(c, i) && Fits(c1) && Sound(c1, {}) && SameSize(c, c1) && Live(c1.g, i) && a in c1.g.live && a < |c.g.owner|
    requires |c.g.home| == |c.g.owner| && c1.g.home == c.g.home && c1.sinsts == c.sinsts && c1.log == c.log
    requires forall j: nat :: Live(c1.g, j) <==> Live(c.g, j)
    ensures var c2 := SetArec(c1, i, a);
            var d := SetInstance(c2, i, Renewed(c2.sinsts[i], srv.port, srv.ttl, elapsed));
            var changed := c.sinsts[i].service.port != srv.port || ArecChanges(c1, i, a);
            && About(c, d, i) && d.log == c.log && d.sinsts[i].state == c.sinsts[i].state && d.sinsts[i].service.hasSrv
            && (!changed ==> ViewOf(d.sinsts[i].service) == ViewOf(c.sinsts[i].service))
            && (d.sinsts[i].service.ip != c.sinsts[i].service.ip ==> changed && Ready(d.sinsts[i].service))
            && (Ready(d.sinsts[i].service) <==> c1.arecs[a].state == ArecResolved)
            && d.sinsts[i].service.port == srv.port && d.sinsts[i].service.raw == c.sinsts[i].service.raw
  {
    hide Sound, Live, Attach, Sized, LastView;
    AttachedLive(c1, i, a);
    AttachFrame(c1.g, i, a);
  }

  lemma AttachedLive(c: Cache, i: nat, a: nat)
    requires Sound(c, {}) && i < |c.g.owner| && Live(c.g, i) && a in c.g.live
    ensures a < |c.g.owner| && forall j: nat :: Live(Attach(c.g, i, a), j) <==> Live(c.g, j)
  {
    AttachLinked(c.g, i, a);
  }

  lemma SameHomesAfter(c: Cache, target: Name)
    requires Fits(c)
    ensures |c.g.home| == |c.g.owner|
    ensures var c1 := RecordFor(c, target).0; c1.g.home == c.g.home && c1.sinsts == c.sinsts && c1.log == c.log
  {
  }

  lemma GotSrvCurrent(c: Cache, i: nat, srv: SrvRec, elapsed: u32, strict: bool)
    requires Sound(c, {}) && Current(c, strict) && i < |c.g.owner| && Live(c.g, i) && (srv.ttl == 0 || !Dropped(c, i, srv.target))
    requires strict ==> SrvTold(c, i, srv)
    ensures Current(GotSrv(c, i, srv, elapsed), strict)
  {
    assert Slot(c, i) && UpToDate(c, i, strict);
    hide Sound, Live, FindRecord, Sized, LastView, TakeSrv, SrvChanges, React, Dropped, TargetResolved;
    if srv.ttl == 0 {
      LostCurrent(c, i, strict);
      GoodbyeIsLoss(c, i, srv, elapsed);
    } else {
      TakeSrvFrame(c, i, srv, elapsed);
      var d := TakeSrv(c, i, srv, elapsed);
      var changes := if SrvChanges(c, i, srv) then 1 else 0;
      ReactAbout(c, d, i, changes);
      ReactUpToDate(c, d, i, changes, strict);
      ReactGraph(d, i, changes);
      CurrentStep(c, GotSrv(c, i, srv, elapsed), i, strict);
    }
  }

  lemma ReactGraph(c: Cache, i: nat, changes: int)
    requires Slot(c, i)
    ensures Slot(React(c, i, changes), i)
  {
  }

  // ----- an instance goes or comes -----

  lemma LostCurrent(c: Cache, i: nat, strict: bool)
    requires Sound(c, {}) && Current(c, strict) && i < |c.g.owner| && Live(c.g, i)
    ensures Current(LostArec(c, i), strict)
  {
    var d := LostArec(c, i);
    LostFrame(c, i);
    hide Sound, Live, Sized, LastView, Free;
    forall j | 0 <= j < |c.g.owner| && j != i ensures LastView(d.log, j) == LastView(c.log, j) {
      ViewSnoc(c.log, Died(i, false), j);
      if c.sinsts[i].state != SinstInit {
        ViewSnoc(c.log + [Died(i, false)], d.log[|c.log| + 1], j);
      }
    }
    CurrentStep(c, d, i, strict);
  }

  lemma UnmonitoredCurrent(c: Cache, i: nat, strict: bool)
    requires Sound(c, {}) && Current(c, strict) && i < |c.g.owner| && Live(c.g, i)
    ensures Current(CleanupInstance(c, i, true), strict)
  {
    var d := CleanupInstance(c, i, true);
    UnmonitoredFrame(c, i);
    FreeHome(c.g, i);
    hide Sound, Live, Sized, LastView, Free;
    forall j | 0 <= j < |c.g.owner| && j != i ensures LastView(d.log, j) == LastView(c.log, j) {
      ViewSnoc(c.log, Died(i, true), j);
    }
    CurrentStep(c, d, i, strict);
  }

  lemma KnownPtrCurrent(c: Cache, i: nat, ttl: u32, elapsed: u32, strict: bool)
    requires Sound(c, {}) && Current(c, strict) && i < |c.g.owner| && Live(c.g, i)
    ensures Current(KnownPtr(c, i, ttl, elapsed), strict)
  {
    var d := KnownPtr(c, i, ttl, elapsed);
    FreeLinked(c.g, i);
    FreeHome(c.g, i);
    assert UpToDate(c, i, strict);
    hide Sound, Live, Sized, LastView, Free;
    if ttl == 0 {
      forall j | 0 <= j < |c.g.owner| && j != i ensures LastView(d.log, j) == LastView(c.log, j) {
        if c.sinsts[i].state == SinstInit {
          ViewSnoc(c.log, Died(i, false), j);
        } else {
          ViewSnoc(c.log, d.log[|c.log|], j);
          ViewSnoc(Tell(c, i, Disappeared).log, Died(i, false), j);
        }
      }
    }
    CurrentStep(c, d, i, strict);
  }

  lemma NewInstanceCurrent(c: Cache, k: nat, n: Name, ttl: u32, elapsed: u32, strict: bool)
    requires Sound(c, {}) && Current(c, strict) && c.g.spare != [] && k in c.g.watched && k < |c.g.held|
    ensures Current(NewInstance(c, k, n, ttl, elapsed), strict)
  {
    var i, d, e := c.g.spare[0], Taken(c, k, n), NewInstance(c, k, n, ttl, elapsed);
    AllocLinked(c.g, k);
    FreeLinked(d.g, i);
    FreeHome(d.g, i);
    hide Sound, Live, Sized, LastView, Free, ServInfo;
    forall j | 0 <= j < |c.g.owner| && j != i
      ensures LastView(d.log, j) == LastView(c.log, j) && LastView(d.log + [Died(i, false)], j) == LastView(c.log, j)
    {
      ViewSnoc(c.log, Born(i), j);
      ViewSnoc(d.log, Died(i, false), j);
    }
    CurrentStep(c, e, i, strict);
  }

  lemma UpToDateNow(c: Cache, i: nat, strict: bool)
    requires Sound(c, {}) && Current(c, strict) && i < |c.g.owner| && Live(c.g, i)
    ensures Slot(c, i) && UpToDate(c, i, strict)
  {
  }

  lemma AgeInstanceCurrent(w: Walk, i: nat, elapsed: u32, strict: bool)
    requires Sound(w.c, {}) && Current(w.c, strict) && i < |w.c.g.owner| && Live(w.c.g, i)
    ensures Current(AgeInstance(w, i, elapsed).c, strict)
  {
    hide Sound, Live, Sized, LastView, LostArec, AgeInstance, Current, Share;
    UpToDateNow(w.c, i, strict);
    AgeInstanceCases(w, i, elapsed);
    AgeInstanceView(w, i, elapsed);
    var s := Aged(w.c.sinsts[i], elapsed);
    if s.nextRefresh == 0 && s.percent < 5 {
      var d := SetInstance(w.c, i, s);
      SetInstanceSound(w.c, i, s, {});
      CurrentStep(w.c, d, i, strict);
      LostCurrent(d, i, strict);
    } else {
      CurrentStep(w.c, AgeInstance(w, i, elapsed).c, i, strict);
    }
  }

  /** Aging changes nothing the user sees, and asking again leaves the clean
      state. */
  lemma AgeInstanceView(w: Walk, i: nat, elapsed: u32)
    requires Slot(w.c, i)
    ensures var s, t := w.c.sinsts[i], AgeInstance(w, i, elapsed).c.sinsts[i];
            && ViewOf(t.service) == ViewOf(s.service) && (t.state == SinstClean ==> s.state == SinstClean)
            && (t.state == SinstInit <==> s.state == SinstInit) && (t.state == SinstInit ==> t.service == s.service)
  {
    hide Free, Sized;
  }

  // ----- the walks -----

  /** A change to records, monitors or the log that no instance shows. */
  lemma SameInstances(c: Cache, d: Cache, strict: bool)
    requires Fits(c) && Fits(d) && SameSize(c, d) && Current(c, strict) && d.sinsts == c.sinsts && d.g.home == c.g.home
    requires d.log == c.log || (exists e: Event :: e.Overflow? && d.log == c.log + [e])
    requires forall j: nat :: Live(d.g, j) ==> Live(c.g, j)
    ensures Current(d, strict)
  {
    hide Live, LastView, Sized;
    if d.log != c.log {
      var e: Event :| e.Overflow? && d.log == c.log + [e];
      forall j | 0 <= j < |c.g.owner| ensures LastView(d.log, j) == LastView(c.log, j) {
        ViewSnoc(c.log, e, j);
      }
    }
  }

  lemma {:induction false} TellAllCurrent(c: Cache, a: nat, done: seq<nat>, rest: seq<nat>, strict: bool)
    requires a in c.g.live && Sound(c, Elements(rest)) && Current(c, strict) && a < |c.g.owner| && c.g.xref[a] == done + rest
    requires c.arecs[a].state == ArecResolved
    requires strict ==> forall i {:trigger i in rest} :: i in rest && i < |c.g.owner| ==> AddressTold(c, i, a)
    ensures Below(rest, |c.g.owner|) && Current(TellAll(c, a, rest), strict)
    decreases |rest|
  {
    if rest != [] {
      TellStep(c, a, done, rest);
      OnTheList(c.g, a, done, rest);
      assert Fits(c);
      hide Sound, Live, GotArec, Current, AddressTold;
      HeadTold(c, a, rest, strict);
      GotArecCurrent(c, rest[0], a, Elements(rest), strict);
      assert [rest[0]] + done + rest[1..] == ([rest[0]] + done) + rest[1..];
      TellAllCurrent(GotArec(c, rest[0], a), a, [rest[0]] + done, rest[1..], strict);
    }
  }

  lemma HeadTold(c: Cache, a: nat, rest: seq<nat>, strict: bool)
    requires Slot(c, a) && rest != [] && Below(rest, |c.g.owner|) && c.arecs[a].state == ArecResolved && NoDup(rest)
    requires strict ==> forall i {:trigger i in rest} :: i in rest && i < |c.g.owner| ==> AddressTold(c, i, a)
    ensures strict ==> AddressTold(c, rest[0], a)
    ensures var d := GotArec(c, rest[0], a);
            && d.arecs == c.arecs
            && (strict ==> forall i {:trigger i in rest[1..]} :: i in rest[1..] && i < |c.g.owner| ==> AddressTold(d, i, a))
  {
    var h := rest[0];
    TailNoDup(rest);
    OneTold(c, a, h, h);
    hide GotArec;
    if strict {
      assert h in rest;
      forall i {:trigger i in rest[1..]} | i in rest[1..] && i < |c.g.owner| ensures AddressTold(GotArec(c, h, a), i, a) {
        assert i in rest;
        OneTold(c, a, h, i);
      }
    }
  }

  lemma OnTheList(g: Graph, a: nat, done: seq<nat>, rest: seq<nat>)
    requires Linked(g) && a < |g.owner| && g.xref[a] == done + rest && rest != []
    ensures rest[0] < |g.owner| && g.home[rest[0]] == Some(a) && NoDup(rest)
  {
    forall j, k | 0 <= j < k < |rest| ensures rest[j] != rest[k] {
      assert g.xref[a][|done| + j] != g.xref[a][|done| + k];
    }
    var i := rest[0];
    assert g.xref[a][|done|] == i && i in g.xref[a];
  }

  lemma {:induction false} LoseAllCurrent(c: Cache, list: seq<nat>, strict: bool)
    requires Sound(c, {}) && Current(c, strict) && NoDup(list) && Below(list, |c.g.owner|)
    requires forall i :: i in list ==> Live(c.g, i)
    ensures Current(LoseAll(c, list), strict)
    decreases |list|
  {
    if list != [] {
      TailNoDup(list);
      assert Fits(c);
      hide Sound, Live, LostArec, Current;
      LostFrame(c, list[0]);
      LostCurrent(c, list[0], strict);
      LoseAllCurrent(LostArec(c, list[0]), list[1..], strict);
    }
  }

  lemma EvictCurrent(c: Cache, a: nat, strict: bool)
    requires Sound(c, {}) && Current(c, strict) && a < |c.g.owner|
    ensures Current(Evict(c, a), strict)
  {
    assert NoDup(c.g.xref[a]) && Below(c.g.xref[a], |c.g.owner|) && forall i :: i in c.g.xref[a] ==> Live(c.g, i);
    hide Sound, LoseAll, LastView;
    LoseAllCurrent(c, c.g.xref[a], strict);
    SameInstances(LoseAll(c, c.g.xref[a]), Evict(c, a), strict);
  }

  /** An A record reports its address to all instances of its host. */
  predicate AddrTold(c: Cache, a: nat, ip: u32, ttl: u32)
    requires Slot(c, a)
  {
    ttl == 0 || forall i {:trigger i in c.g.xref[a]} :: i in c.g.xref[a] && i < |c.g.owner| ==> ArecTold(c, i, a, ip)
  }

  lemma SetIpCurrent(c: Cache, a: nat, ip: u32, ttl: u32, strict: bool)
    requires Sound(c, {}) && Current(c, strict) && a in c.g.live && a < |c.g.owner|
    requires c.arecs[a].state == ArecResolved && ttl != 0 && (strict ==> AddrTold(c, a, ip, ttl))
    ensures Current(SetIp(c, a, ip, ttl), strict)
  {
    var r := SetIp(c, a, ip, ttl);
    if c.arecs[a].ip == ip {
      SameInstances(c, r, strict);
    } else {
      var d := SetRecord(c, a, c.arecs[a].(ip := ip));
      NewIpSound(c, a, ip);
      SameInstances(c, d, strict);
      assert [] + c.g.xref[a] == c.g.xref[a];
      if strict {
        forall i {:trigger i in c.g.xref[a]} | i in c.g.xref[a] && i < |c.g.owner| ensures AddressTold(d, i, a) {
          assert ArecTold(c, i, a, ip);
        }
      }
      hide Sound, TellAll, LastView, AddressTold;
      TellAllCurrent(d, a, [], c.g.xref[a], strict);
      SameInstances(TellAll(d, a, c.g.xref[a]), r, strict);
    }
  }

  lemma GotAddrCurrent(c: Cache, a: nat, ip: u32, ttl: u32, strict: bool)
    requires Sound(c, {}) && Current(c, strict) && a in c.g.live && a < |c.g.owner| && (strict ==> AddrTold(c, a, ip, ttl))
    ensures Current(GotAddr(c, a, ip, ttl), strict)
  {
    if ttl == 0 {
      EvictCurrent(c, a, strict);
    } else {
      var d := SetRecord(c, a, c.arecs[a].(state := ArecResolved));
      SetRecordSound(c, a, c.arecs[a].(state := ArecResolved), {});
      SameInstances(c, d, strict);
      assert forall i :: 0 <= i < |c.g.owner| ==> ArecTold(d, i, a, ip) == ArecTold(c, i, a, ip);
      SetIpCurrent(d, a, ip, ttl, strict);
    }
  }

  /** A reaction about one instance tells nothing of another. */
  lemma ReactOther(c: Cache, h: nat, a: nat, i: nat)
    requires Slot(c, a) && h < |c.g.owner| && i < |c.g.owner| && i != h
    ensures GotArec(c, h, a).sinsts[i] == c.sinsts[i] && LastView(GotArec(c, h, a).log, i) == LastView(c.log, i)
  {
    var d := SetArec(c, h, a);
    hide Attach, Sized, LastView;
    ViewSnoc(d.log, Told(h, Discovered, d.fqsn[h], d.sinsts[h].service, Address(d, h)), i);
    ViewSnoc(d.log, Told(h, Updated, d.fqsn[h], d.sinsts[h].service, Address(d, h)), i);
  }

  /** What a new address makes of an instance of its host. */
  lemma GotArecView(c: Cache, i: nat, a: nat)
    requires Slot(c, a) && i < |c.g.owner| && |c.g.home| == |c.g.owner| && c.g.home[i] == Some(a)
    requires c.arecs[a].state == ArecResolved && c.sinsts[i].state != SinstInit
    ensures var s, d := c.sinsts[i].service, GotArec(c, i, a);
            && ViewOf(d.sinsts[i].service) == ViewOf(s.(ip := c.arecs[a].ip))
            && LastView(d.log, i) ==
               if s.ip != c.arecs[a].ip && s.hasSrv then Some(ViewOf(s.(ip := c.arecs[a].ip))) else LastView(c.log, i)
  {
    hide Attach, Sized, LastView, React;
    ReactShows(SetArec(c, i, a), i, if ArecChanges(c, i, a) then 1 else 0);
  }

  lemma {:induction false} TellAllView(c: Cache, a: nat, done: seq<nat>, rest: seq<nat>, i: nat)
    requires a in c.g.live && Sound(c, Elements(rest)) && a < |c.g.owner| && c.g.xref[a] == done + rest
    requires c.arecs[a].state == ArecResolved && i < |c.g.owner| && c.sinsts[i].state != SinstInit
    ensures Below(rest, |c.g.owner|)
    ensures var s, d := c.sinsts[i].service, TellAll(c, a, rest);
            if i !in rest then d.sinsts[i] == c.sinsts[i] && LastView(d.log, i) == LastView(c.log, i)
            else
              && ViewOf(d.sinsts[i].service) == ViewOf(s.(ip := c.arecs[a].ip))
              && LastView(d.log, i) ==
                 if s.ip != c.arecs[a].ip && s.hasSrv then Some(ViewOf(s.(ip := c.arecs[a].ip))) else LastView(c.log, i)
    decreases |rest|
  {
    if rest != [] {
      var h := rest[0];
      TellStep(c, a, done, rest);
      OnTheList(c.g, a, done, rest);
      TailNoDup(rest);
      assert Fits(c) && |c.g.home| == |c.g.owner|;
      hide Sound, Live, GotArec, LastView, Linked;
      OneTold(c, a, h, h);
      assert [h] + done + rest[1..] == ([h] + done) + rest[1..];
      if i == h {
        GotArecView(c, i, a);
        UntoldStay(GotArec(c, h, a), a, [h] + done, rest[1..], i);
      } else {
        ReactOther(c, h, a, i);
        TellAllView(GotArec(c, h, a), a, [h] + done, rest[1..], i);
      }
    }
  }

  lemma {:induction false} UntoldStay(c: Cache, a: nat, done: seq<nat>, rest: seq<nat>, i: nat)
    requires a in c.g.live && Sound(c, Elements(rest)) && a < |c.g.owner| && c.g.xref[a] == done + rest
    requires c.arecs[a].state == ArecResolved && i < |c.g.owner| && i !in rest
    ensures Below(rest, |c.g.owner|)
    ensures var d := TellAll(c, a, rest); d.sinsts[i] == c.sinsts[i] && LastView(d.log, i) == LastView(c.log, i)
    decreases |rest|
  {
    if rest != [] {
      var h := rest[0];
      TellStep(c, a, done, rest);
      OnTheList(c.g, a, done, rest);
      TailNoDup(rest);
      assert Fits(c);
      hide Sound, Live, GotArec, LastView, Linked;
      OneTold(c, a, h, h);
      assert [h] + done + rest[1..] == ([h] + done) + rest[1..];
      ReactOther(c, h, a, i);
      UntoldStay(GotArec(c, h, a), a, [h] + done, rest[1..], i);
    }
  }

  /** Exactly when an A record leaves the user up to date about an instance of its
      host of which they were. */
  lemma AddrToldIff(c: Cache, a: nat, ip: u32, ttl: u32, i: nat)
    requires Sound(c, {}) && a in c.g.live && a < |c.g.owner| && i in c.g.xref[a] && i < |c.g.owner| && ttl != 0
    requires c.sinsts[i].state != SinstInit && Shown(c, i)
    ensures Shown(GotAddr(c, a, ip, ttl), i) <==> ArecTold(c, i, a, ip)
  {
    var c1 := SetRecord(c, a, c.arecs[a].(state := ArecResolved));
    if c.arecs[a].ip != ip {
      var c2 := SetRecord(c1, a, c1.arecs[a].(ip := ip));
      SetRecordSound(c, a, c.arecs[a].(state := ArecResolved), {});
      NewIpSound(c1, a, ip);
      assert [] + c2.g.xref[a] == c2.g.xref[a];
      hide Sound, Live, LastView, TellAll;
      TellAllView(c2, a, [], c2.g.xref[a], i);
    }
  }

  // ----- a received packet -----

  lemma TakePtrCurrent(c: Cache, p: Answers, ptr: PtrRec, elapsed: u32, strict: bool)
    requires Sound(c, {}) && Current(c, strict)
    ensures Current(TakePtr(c, p, ptr, elapsed).0, strict)
  {
    var k := FindMonitor(c, ptr.name);
    if k.Some? {
      var i := FindInstance(c, k.value, ptr.target);
      if i.Some? {
        HeldIsLive(c.g, k.value, i.value);
        KnownPtrCurrent(c, i.value, ptr.ttl, elapsed, strict);
      } else if c.g.spare != [] {
        NewInstanceCurrent(c, k.value, ptr.target, ptr.ttl, elapsed, strict);
      } else {
        hide Sound, OverflowService, ServInfo, LastView;
        SameInstances(c, TakePtr(c, p, ptr, elapsed).0, strict);
      }
    }
  }

  lemma {:induction false} TakePtrsCurrent(c: Cache, p: Answers, ptrs: seq<PtrRec>, elapsed: u32, strict: bool)
    requires Sound(c, {}) && Current(c, strict)
    ensures Current(TakePtrs(c, p, ptrs, elapsed).0, strict)
    decreases |ptrs|
  {
    assert Fits(c);
    hide Sound, TakePtr, Current;
    if ptrs != [] {
      TakePtrSound(c, p, ptrs[0], elapsed);
      TakePtrCurrent(c, p, ptrs[0], elapsed, strict);
      var (c1, p1) := TakePtr(c, p, ptrs[0], elapsed);
      TakePtrsCurrent(c1, p1, ptrs[1..], elapsed, strict);
    }
  }

  /** Every TXT, SRV and A record of the packet that changes a shown instance is
      reported. */
  predicate TxtsTold(c: Cache, rs: seq<TxtRec>)
    requires Fits(c)
    decreases |rs|
  {
    rs == [] ||
    (var i := Belongs(c, rs[0].name);
     && (i.Some? ==> TxtTold(c, i.value, rs[0].rdata))
     && TxtsTold(if i.Some? then GotTxt(c, i.value, rs[0].rdata) else c, rs[1..]))
  }

  predicate SrvsTold(c: Cache, rs: seq<SrvRec>, elapsed: u32)
    requires Fits(c)
    decreases |rs|
  {
    rs == [] ||
    (var i := Belongs(c, rs[0].name);
     && (i.Some? ==> SrvTold(c, i.value, rs[0]))
     && SrvsTold(if i.Some? then GotSrv(c, i.value, rs[0], elapsed) else c, rs[1..], elapsed))
  }

  predicate AddrsTold(c: Cache, rs: seq<AddrRec>)
    requires Fits(c)
    decreases |rs|
  {
    rs == [] ||
    (var a := FindRecord(c, rs[0].name);
     && (a.Some? ==> AddrTold(c, a.value, rs[0].ip, rs[0].ttl))
     && AddrsTold(if a.Some? then GotAddr(c, a.value, rs[0].ip, rs[0].ttl) else c, rs[1..]))
  }

  predicate PacketTold(c: Cache, p: Answers, elapsed: u32)
    requires Fits(c)
  {
    var (c1, p1) := TakePtrs(c, p, p.ptrs, elapsed);
    var c2 := TakeTxts(c1, p1.txts);
    p.response ==>
      TxtsTold(c1, p1.txts) && SrvsTold(c2, p1.srvs, elapsed) && AddrsTold(TakeSrvs(c2, p1.srvs, elapsed), p1.addrs)
  }

  lemma {:induction false} TakeTxtsCurrent(c: Cache, rs: seq<TxtRec>, strict: bool)
    requires Sound(c, {}) && Current(c, strict) && (strict ==> TxtsTold(c, rs))
    ensures Current(TakeTxts(c, rs), strict)
    decreases |rs|
  {
    assert Fits(c);
    hide Sound, Live, Belongs, GotTxt, Current, TxtTold;
    if rs != [] {
      var i := Belongs(c, rs[0].name);
      if i.Some? {
        BelongsLive(c, rs[0].name);
        GotTxtSound(c, i.value, rs[0].rdata);
        GotTxtCurrent(c, i.value, rs[0].rdata, strict);
      }
      TakeTxtsCurrent(if i.Some? then GotTxt(c, i.value, rs[0].rdata) else c, rs[1..], strict);
    }
  }

  lemma NotDropped(c: Cache, i: nat, srv: SrvRec)
    requires Good(c) && i < |c.g.owner| && Live(c.g, i) && Settled(c, i, srv)
    ensures srv.ttl == 0 || !Dropped(c, i, srv.target)
  {
    if srv.ttl != 0 && c.g.home[i].Some? {
      FindOwnRecord(c, i, srv.target);
      HomesAreLive(c.g);
      if |c.g.xref[c.g.home[i].value]| >= 2 { SharedPigeonhole(c.g, c.g.home[i].value); }
    }
  }

  lemma {:induction false} TakeSrvsCurrent(c: Cache, rs: seq<SrvRec>, elapsed: u32, strict: bool)
    requires Good(c) && Current(c, strict) && StableSrvs(c, rs, elapsed) && (strict ==> SrvsTold(c, rs, elapsed))
    ensures Current(TakeSrvs(c, rs, elapsed), strict)
    decreases |rs|
  {
    assert Sound(c, {}) && Fits(c);
    hide Good, Sound, Live, Belongs, GotSrv, Settled, Current, Dropped, SrvTold;
    if rs != [] {
      var i := Belongs(c, rs[0].name);
      if i.Some? {
        BelongsLive(c, rs[0].name);
        NotDropped(c, i.value, rs[0]);
        GotSrvGood(c, i.value, rs[0], elapsed);
        GotSrvCurrent(c, i.value, rs[0], elapsed, strict);
      }
      TakeSrvsCurrent(if i.Some? then GotSrv(c, i.value, rs[0], elapsed) else c, rs[1..], elapsed, strict);
    }
  }

  lemma {:induction false} TakeAddrsCurrent(c: Cache, rs: seq<AddrRec>, strict: bool)
    requires Sound(c, {}) && Current(c, strict) && (strict ==> AddrsTold(c, rs))
    ensures Current(TakeAddrs(c, rs), strict)
    decreases |rs|
  {
    assert Fits(c);
    hide Sound, FindRecord, GotAddr, Current, AddrTold;
    if rs != [] {
      var a := FindRecord(c, rs[0].name);
      if a.Some? {
        Found(c, rs[0].name);
        GotAddrSound(c, a.value, rs[0].ip, rs[0].ttl);
        GotAddrCurrent(c, a.value, rs[0].ip, rs[0].ttl, strict);
      }
      TakeAddrsCurrent(if a.Some? then GotAddr(c, a.value, rs[0].ip, rs[0].ttl) else c, rs[1..], strict);
    }
  }

  lemma UpdateCacheCurrent(c: Cache, p: Answers, elapsed: u32, strict: bool)
    requires Good(c) && Current(c, strict) && Stable(c, p, elapsed) && (strict ==> PacketTold(c, p, elapsed))
    ensures Current(UpdateCache(c, p, elapsed), strict)
  {
    if p.response {
      TakePtrsSound(c, p, p.ptrs, elapsed);
      hide Sound, NoOrphans, TakePtrs, TakeTxts, TakeSrvs, TakeAddrs, StableSrvs, Current, TxtsTold, SrvsTold, AddrsTold;
      TakePtrsCurrent(c, p, p.ptrs, elapsed, strict);
      var (c1, p1) := TakePtrs(c, p, p.ptrs, elapsed);
      TakeTxtsSound(c1, p1.txts);
      TakeTxtsCurrent(c1, p1.txts, strict);
      var c2 := TakeTxts(c1, p1.txts);
      TakeSrvsGood(c2, p1.srvs, elapsed);
      TakeSrvsCurrent(c2, p1.srvs, elapsed, strict);
      TakeAddrsCurrent(TakeSrvs(c2, p1.srvs, elapsed), p1.addrs, strict);
    }
  }

  // ----- a timer pass -----

  lemma AgeRecordCurrent(w: Walk, a: nat, elapsed: u32, strict: bool)
    requires Sound(w.c, {}) && Current(w.c, strict) && a < |w.c.g.owner|
    ensures Current(AgeRecord(w, a, elapsed).c, strict)
  {
    var s, d := w.c.arecs[a], AgeRecord(w, a, elapsed).c;
    assert Slot(w.c, a);
    hide Sound, Evict, LastView;
    var left := Clock.Subtract(s.nextRefresh, elapsed);
    if s.state == ArecQuerying && left == 0 && s.percent < 5 {
      var c1 := SetRecord(w.c, a, s.(nextRefresh := 0));
      SetRecordSound(w.c, a, s.(nextRefresh := 0), {});
      SameInstances(w.c, c1, strict);
      EvictCurrent(c1, a, strict);
    } else {
      SameInstances(w.c, d, strict);
    }
  }

  lemma {:induction false} AgeRecordsCurrent(w: Walk, list: seq<nat>, elapsed: u32, strict: bool)
    requires Sound(w.c, {}) && Current(w.c, strict) && Below(list, |w.c.g.owner|)
    ensures Current(AgeRecords(w, list, elapsed).c, strict)
    decreases |list|
  {
    assert Fits(w.c);
    hide Sound, AgeRecord, Current;
    if list != [] {
      AgeRecordSound(w, list[0], elapsed);
      AgeRecordCurrent(w, list[0], elapsed, strict);
      var w1 := AgeRecord(w, list[0], elapsed);
      AgeRecordsCurrent(w1.(next := Min(w1.next, w1.c.arecs[list[0]].nextRefresh)), list[1..], elapsed, strict);
    }
  }

  lemma {:induction false} AgeInstancesCurrent(w: Walk, list: seq<nat>, elapsed: u32, strict: bool)
    requires Sound(w.c, {}) && Current(w.c, strict) && Below(list, |w.c.g.owner|) && NoDup(list)
    requires forall i :: i in list ==> Live(w.c.g, i)
    ensures Current(AgeInstances(w, list, elapsed).c, strict)
    decreases |list|
  {
    assert Fits(w.c);
    hide Sound, AgeInstance, Live, Current;
    if list != [] {
      TailNoDup(list);
      AgeInstanceSound(w, list[0], elapsed);
      AgeInstanceCurrent(w, list[0], elapsed, strict);
      var w1 := AgeInstance(w, list[0], elapsed);
      AgeInstancesCurrent(w1.(next := Min(w1.next, w1.c.sinsts[list[0]].nextRefresh)), list[1..], elapsed, strict);
    }
  }

  lemma AgeMonitorCurrent(w: Walk, k: nat, elapsed: u32, strict: bool)
    requires Sound(w.c, {}) && Current(w.c, strict) && k < |w.c.g.held|
    ensures Current(AgeMonitor(w, k, elapsed).c, strict)
  {
    SameInstances(w.c, AgeMonitor(w, k, elapsed).c, strict);
  }

  lemma {:induction false} AgeMonitorsCurrent(w: Walk, list: seq<nat>, elapsed: u32, strict: bool)
    requires Sound(w.c, {}) && Current(w.c, strict) && Below(list, |w.c.g.held|)
    ensures Current(AgeMonitors(w, list, elapsed).c, strict)
    decreases |list|
  {
    assert Fits(w.c);
    hide Sound, AgeMonitor, Live, AgeInstances, Current;
    if list != [] {
      AgeMonitorSound(w, list[0], elapsed);
      AgeMonitorCurrent(w, list[0], elapsed, strict);
      var w1 := AgeMonitor(w, list[0], elapsed);
      if !w1.failed {
        AllHeldLive(w1.c, list[0]);
        AgeInstancesSound(w1, w1.c.g.held[list[0]], elapsed);
        AgeInstancesCurrent(w1, w1.c.g.held[list[0]], elapsed, strict);
        AgeMonitorsCurrent(AgeInstances(w1, w1.c.g.held[list[0]], elapsed), list[1..], elapsed, strict);
      }
    }
  }

  lemma PrepareCurrent(c: Cache, elapsed: u32, strict: bool)
    requires Sound(c, {}) && Current(c, strict)
    ensures Current(Prepare(c, elapsed).c, strict)
  {
    var w0 := Walk(c, Query([], Packet.HEADER_SIZE), 0, U32_MAX, false);
    AgeRecordsSound(w0, c.g.live, elapsed);
    hide Sound, AgeRecords, AgeMonitors, Rearm, LastView;
    AgeRecordsCurrent(w0, c.g.live, elapsed, strict);
    var w1 := AgeRecords(w0, c.g.live, elapsed);
    AgeMonitorsCurrent(w1, w1.c.g.watched, elapsed, strict);
    var w2 := AgeMonitors(w1, w1.c.g.watched, elapsed);
    if !w2.failed && w2.sends != 0 {
      RearmRest(w2, w2.c.g.watched);
      SameInstances(w2.c, Prepare(c, elapsed).c, strict);
    }
  }

  // ----- control -----

  lemma AddServiceCurrent(c: Cache, fqst: Name, strict: bool)
    requires Sound(c, {}) && Current(c, strict)
    ensures Current(AddService(c, fqst), strict)
  {
    if FindMonitor(c, fqst).None? && c.g.unwatched != [] {
      WatchLinked(c.g);
      hide Sound, LastView, Live;
      SameInstances(c, AddService(c, fqst), strict);
    }
  }

  lemma {:induction false} CleanupAllCurrent(c: Cache, list: seq<nat>, strict: bool)
    requires Sound(c, {}) && Current(c, strict) && NoDup(list) && Below(list, |c.g.owner|)
    requires forall i :: i in list ==> Live(c.g, i)
    ensures Current(CleanupAll(c, list), strict)
    decreases |list|
  {
    assert Fits(c);
    hide Sound, Live, CleanupInstance, Current;
    if list != [] {
      TailNoDup(list);
      UnmonitoredFrame(c, list[0]);
      UnmonitoredCurrent(c, list[0], strict);
      CleanupAllCurrent(CleanupInstance(c, list[0], true), list[1..], strict);
    }
  }

  lemma RemoveMonitorCurrent(c: Cache, k: nat, strict: bool)
    requires Sound(c, {}) && Current(c, strict) && k in c.g.watched && k < |c.g.held|
    ensures Current(RemoveMonitor(c, k), strict)
  {
    AllHeldLive(c, k);
    hide Sound, CleanupAll, LastView;
    CleanupAllCurrent(c, c.g.held[k], strict);
    SameInstances(CleanupAll(c, c.g.held[k]), RemoveMonitor(c, k), strict);
  }

  lemma {:induction false} RemoveAllCurrent(c: Cache, list: seq<nat>, strict: bool)
    requires Sound(c, {}) && Current(c, strict) && list == c.g.watched && Below(list, |c.g.held|)
    ensures Current(RemoveAll(c, list), strict)
    decreases |list|
  {
    if list != [] {
      var k := list[0];
      assert k in list;
      RemoveMonitorSound(c, k);
      assert Fits(c);
      hide Sound, RemoveMonitor, Current;
      RemoveMonitorCurrent(c, k, strict);
      RemoveAllCurrent(RemoveMonitor(c, k), list[1..], strict);
    }
  }

  lemma ControlledCurrent(c: Cache, t: Option<Control>, strict: bool)
    requires Sound(c, {}) && Current(c, strict)
    ensures Current(Controlled(c, t), strict)
  {
    if t.Some? && t.value.Start? {
      AddServiceCurrent(c, t.value.fqst, strict);
    } else if t.Some? && t.value.Stop? {
      if t.value.fqst == [] {
        RemoveAllCurrent(c, c.g.watched, strict);
      } else if FindMonitor(c, t.value.fqst).Some? {
        RemoveMonitorCurrent(c, FindMonitor(c, t.value.fqst).value, strict);
      }
    }
  }

  // ----- runs -----

  predicate TurnTold(c: Cache, t: Turn)
    requires Fits(c)
  {
    t.rx.Received? ==> PacketTold(Controlled(c, t.control), t.rx.answers, t.elapsed)
  }

  /** Every record in the run that changes a shown instance is reported. */
  predicate RunTold(c: Cache, ts: seq<Turn>)
    requires Fits(c)
    decreases |ts|
  {
    ts == [] || (TurnTold(c, ts[0]) && RunTold(TakeTurn(c, ts[0]), ts[1..]))
  }

  lemma TurnCurrent(c: Cache, t: Turn, strict: bool)
    requires Good(c) && Current(c, strict) && StableTurn(c, t) && (strict ==> TurnTold(c, t))
    ensures Current(TakeTurn(c, t), strict)
  {
    var c1 := Controlled(c, t.control);
    ControlledCurrent(c, t.control, strict);
    ControlledGood(c, t.control);
    hide Sound, NoOrphans, Controlled, Prepare, UpdateCache, Stable, Current, PacketTold;
    match t.rx
    case Failed =>
    case Silent => PrepareCurrent(c1, t.elapsed, strict);
    case Received(p) =>
      UpdateCacheCurrent(c1, p, t.elapsed, strict);
      UpdateCacheGood(c1, p, t.elapsed);
      PrepareCurrent(UpdateCache(c1, p, t.elapsed), t.elapsed, strict);
  }

  lemma {:induction false} RunCurrent(c: Cache, ts: seq<Turn>, strict: bool)
    requires Good(c) && Current(c, strict) && StableRun(c, ts) && (strict ==> RunTold(c, ts))
    ensures Current(Run(c, ts), strict)
    decreases |ts|
  {
    assert Fits(c);
    hide Good, TakeTurn, StableTurn, Current, TurnTold;
    if ts != [] {
      TurnGood(c, ts[0]);
      TurnCurrent(c, ts[0], strict);
      RunCurrent(TakeTurn(c, ts[0]), ts[1..], strict);
    }
  }

  lemma NoneLive(n: nat, m: nat, strict: bool)
    requires m > 0
    ensures Current(Launch(n, m), strict)
  {
  }

  /** After any stable run an instance in the clean state was last shown to the
      user exactly as it is, one being updated has been shown, and so has one with
      both records and an address other than 0.0.0.0. */
  lemma UserKnows(n: nat, m: nat, ts: seq<Turn>, i: nat)
    requires m > 0 && StableRun(Launch(n, m), ts) && i < n && Live(Run(Launch(n, m), ts).g, i)
    ensures var c := Run(Launch(n, m), ts);
            var s := c.sinsts[i];
            && (s.state == SinstClean ==> Shown(c, i))
            && (s.state == SinstUpdating ==> LastView(c.log, i).Some?)
            && (Ready(s.service) && s.service.ip != 0 ==> Shows(Codes(c.log, i)))
  {
    LaunchGood(n, m);
    NoneLive(n, m, false);
    RunCurrent(Launch(n, m), ts, false);
    Farewells(n, m, ts, i);
    hide Run, StableRun, LastView, Codes;
    assert UpToDate(Run(Launch(n, m), ts), i, false);
  }

  /** If moreover no record of the run changes a shown instance unreported, which
      can be seen of each record when it comes, the user last saw every shown
      instance exactly as it is. */
  lemma UserUpToDate(n: nat, m: nat, ts: seq<Turn>, i: nat)
    requires m > 0 && StableRun(Launch(n, m), ts) && RunTold(Launch(n, m), ts) && i < n
    requires Live(Run(Launch(n, m), ts).g, i) && Run(Launch(n, m), ts).sinsts[i].state != SinstInit
    ensures Shown(Run(Launch(n, m), ts), i)
  {
    LaunchGood(n, m);
    NoneLive(n, m, true);
    RunCurrent(Launch(n, m), ts, true);
    hide Run, StableRun, LastView, RunTold;
    assert UpToDate(Run(Launch(n, m), ts), i, true);
  }
}
