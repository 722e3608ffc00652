/** The querier at work (mdns/mdns_query.c): its pools as records tied together
    by links, relinked in place. Every operation is shown to do to the links what
    its counterpart in Cache does to the lists they stand for. */
module Querier {
  import opened Bytes
  import opened Names
  import opened Slist
  import opened Pools
  import opened Cache
  import opened CacheInv
  import opened CacheSteps
  import opened CacheRun
  import opened CacheNames
  import opened Wakeup
  import opened QueryPacket
  import Clock
  import K = KnownAnswers
  import Packet

  const ACTIVE := 0
  const FREE := 1

  lemma ListUpdates(held: seq<seq<nat>>, spare: seq<nat>, k: nat, s: seq<nat>)
    ensures k < |held| ==> (held + [spare])[k := s] == held[k := s] + [spare]
    ensures (held + [spare])[|held| := s] == held + [s]
    ensures k < |held| ==> (held + [spare])[k] == held[k]
    ensures (held + [spare])[|held|] == spare
  {
  }

  lemma PairUpdates(s: seq<nat>, t: seq<nat>, u: seq<nat>)
    ensures [s, t][ACTIVE := u] == [u, t] && [s, t][FREE := u] == [s, u]
  {
  }

  /** The first element of a list with a name. */
  method Search(l: Links, k: nat, names: seq<Name>, n: Name, ghost ls: seq<seq<nat>>) returns (r: Option<nat>)
    requires Rep(l, ls) && k < |ls| && Below(ls[k], |names|)
    ensures r == Lookup(names, ls[k], n)
  {
    hide Rep, Below, Lookup;
    First(l, k, ls);
    var p := l.head[k];
    ghost var front, rest := [], ls[k];
    assert front + rest == ls[k];
    while p != NULL
      invariant ls[k] == front + rest && p == Elem(rest, 0) && Below(rest, |names|)
      invariant Lookup(names, ls[k], n) == Lookup(names, rest, n)
      decreases |rest|
    {
      LookupStep(names, rest, n);
      if names[p] == n { return Some(p); }
      Step(l, k, ls, front, rest);
      p := l.next[p];
      assert front + rest == (front + [rest[0]]) + rest[1..];
      front, rest := front + [rest[0]], rest[1..];
    }
    LookupNone(names, n);
    return None;
  }

  lemma LookupStep(names: seq<Name>, list: seq<nat>, n: Name)
    requires Below(list, |names|) && list != []
    ensures list[0] < |names| && Below(list[1..], |names|)
    ensures Lookup(names, list, n) == if names[list[0]] == n then Some(list[0]) else Lookup(names, list[1..], n)
  {
  }

  lemma LookupNone(names: seq<Name>, n: Name)
    ensures Below([], |names|) && Lookup(names, [], n) == None
  {
  }

  lemma FreeParts(g: Graph, i: nat)
    requires Sized(g) && i < |g.owner|
    ensures var r, k := Free(g, i), g.owner[i];
            && k < |g.held| && r.held == g.held[k := Without(g.held[k], i)] && r.spare == [i] + g.spare
            && r.owner == g.owner && r.home == g.home && r.watched == g.watched && r.unwatched == g.unwatched
            && match g.home[i]
               case None => r.xref == g.xref && r.live == g.live && r.idle == g.idle
               case Some(a) =>
                 && a < |g.xref| && r.xref == g.xref[a := Without(g.xref[a], i)]
                 && if Without(g.xref[a], i) == [] then r.live == Without(g.live, a) && r.idle == [a] + g.idle
                    else r.live == g.live && r.idle == g.idle
  {
  }

  /** The first element of the free list becomes the first active one. */
  method Activate(l: Links, ghost s: seq<nat>, ghost t: seq<nat>) returns (k: nat, r: Links)
    requires Rep(l, [s, t]) && t != []
    ensures k == t[0] && Rep(r, [[k] + s, t[1..]]) && |r.next| == |l.next|
  {
    hide Rep;
    First(l, FREE, [s, t]);
    PoppedLoose(l, FREE, [s, t]);
    k := l.head[FREE];
    PairUpdates(s, t, t[1..]);
    r := RemoveHead(l, FREE, [s, t]);
    PairUpdates(s, t[1..], [k] + s);
    r := InsertHead(r, ACTIVE, k, [s, t[1..]]);
  }

  /** SLIST_INIT on a list that is empty already. */
  method InitList(l: Links, k: nat, ghost held: seq<seq<nat>>, ghost spare: seq<nat>) returns (r: Links)
    requires Rep(l, held + [spare]) && k < |held| && held[k] == []
    ensures r == l
  {
    hide Rep;
    ListUpdates(held, spare, k, []);
    First(l, k, held + [spare]);
    r := l.(head := l.head[k := NULL]);
  }

  /** A record loses an instance, and is freed with the last one. */
  method Leave(xl: Links, al: Links, i: nat, a: nat, ghost xref: seq<seq<nat>>, ghost live: seq<nat>, ghost idle: seq<nat>)
    returns (xl': Links, al': Links)
    requires Rep(xl, xref) && Rep(al, [live, idle]) && a < |xref| && i in xref[a] && a in live && a < |al.next|
    ensures Rep(xl', xref[a := Without(xref[a], i)]) && |xl'.next| == |xl.next| && |al'.next| == |al.next|
    ensures i < |xl.next| && xl'.next[i] == xl.next[i]
    ensures if Without(xref[a], i) == [] then Rep(al', [Without(live, a), [a] + idle]) else al' == al
  {
    hide Rep, Without;
    xl' := Remove(xl, a, i, xref);
    al' := al;
    First(xl', a, xref[a := Without(xref[a], i)]);
    if xl'.head[a] == NULL {
      RemovedLoose(al, ACTIVE, [live, idle], a);
      PairUpdates(live, idle, Without(live, a));
      al' := Remove(al', ACTIVE, a, [live, idle]);
      PairUpdates(Without(live, a), idle, [a] + idle);
      al' := InsertHead(al', FREE, a, [Without(live, a), idle]);
    }
  }

  /** An instance goes from the list of a monitor to the free list. */
  method Release(sl: Links, k: nat, i: nat, m: nat, ghost held: seq<seq<nat>>, ghost spare: seq<nat>) returns (r: Links)
    requires Rep(sl, held + [spare]) && k < |held| == m && i in held[k]
    ensures Rep(r, held[k := Without(held[k], i)] + [[i] + spare]) && |r.next| == |sl.next|
  {
    hide Rep, Without;
    ghost var ls := held + [spare];
    ListUpdates(held, spare, k, Without(held[k], i));
    RemovedLoose(sl, k, ls, i);
    r := Remove(sl, k, i, ls);
    ghost var held' := held[k := Without(held[k], i)];
    ListUpdates(held', spare, m, [i] + spare);
    r := InsertHead(r, m, i, held' + [spare]);
  }

  /** The service takes the address of a resolved record. */
  method CopyAddress(s: Service, a: Record) returns (r: Service, changed: bool)
    ensures r == Adopt(s, a) && changed == (a.state == ArecResolved && s.ip != a.ip)
  {
    r, changed := s, false;
    if a.state == ArecResolved {
      if r.ip != a.ip {
        r, changed := r.(ip := a.ip), true;
      }
      r := r.(hasA := true);
    } else {
      r := r.(hasA := false);
    }
  }

  /** The cross-reference lists after an instance has moved to the front of one. */
  ghost function Relinked(xref: seq<seq<nat>>, i: nat, from: Option<nat>, a: nat): seq<seq<nat>>
    requires a < |xref| && (from.Some? ==> from.value < |xref|)
  {
    var x := if from.Some? then xref[from.value := Without(xref[from.value], i)] else xref;
    x[a := [i] + x[a]]
  }

  lemma AttachParts(g: Graph, i: nat, a: nat)
    requires Sized(g) && i < |g.owner| && a < |g.owner|
    ensures g.home[i].Some? ==> g.home[i].value < |g.xref|
    ensures Attach(g, i, a) == g.(xref := Relinked(g.xref, i, g.home[i], a), home := g.home[i := Some(a)])
  {
  }

  method Relink(xl: Links, i: nat, from: Option<nat>, a: nat, ghost xref: seq<seq<nat>>) returns (r: Links)
    requires Rep(xl, xref) && a < |xref| && i < |xl.next|
    requires if from.Some? then from.value < |xref| && i in xref[from.value] else Loose(xref, i)
    ensures Rep(r, Relinked(xref, i, from, a)) && |r.next| == |xl.next|
  {
    hide Rep, Without;
    r := xl;
    ghost var x := xref;
    if from.Some? {
      RemovedLoose(xl, from.value, xref, i);
      r := Remove(xl, from.value, i, xref);
      x := xref[from.value := Without(xref[from.value], i)];
    }
    r := InsertHead(r, a, i, x);
  }

  class Querier {
    var sinsts: seq<Instance>
    var fqsn: seq<Name>
    var smonOf: seq<nat>
    var arecOf: seq<Option<nat>>
    var arecs: seq<Record>
    var fqdn: seq<Name>
    var smons: seq<Monitor>
    var fqst: seq<Name>

    /** list_item of the instances: a head per monitor and one for the free list. */
    var sl: Links
    /** alist_item of the instances: a head per address record. */
    var xl: Links
    /** list_item of the address records and of the monitors. */
    var al: Links
    var ml: Links

    ghost var abs: Cache

    ghost predicate Valid()
      reads this
    {
      && Fits(abs)
      && sinsts == abs.sinsts && fqsn == abs.fqsn && smonOf == abs.g.owner && arecOf == abs.g.home
      && arecs == abs.arecs && fqdn == abs.fqdn && smons == abs.smons && fqst == abs.fqst
      && |sl.next| == |sinsts| && |xl.next| == |sinsts| && |al.next| == |arecs| && |ml.next| == |smons|
      && Rep(sl, abs.g.held + [abs.g.spare]) && Rep(xl, abs.g.xref)
      && Rep(al, [abs.g.live, abs.g.idle]) && Rep(ml, [abs.g.watched, abs.g.unwatched])
    }

    /** All slots on the free lists. */
    constructor (n: nat, m: nat)
      requires m > 0
      ensures Valid() && abs == Launch(n, m)
    {
      var sinstLinks := AllFree(n, m + 1, m);
      var arecLinks := AllFree(n, 2, FREE);
      var smonLinks := AllFree(m, 2, FREE);
      sl, al, ml := sinstLinks, arecLinks, smonLinks;
      xl := Links(seq(n, i => NULL), seq(n, a => NULL));
      sinsts, fqsn, smonOf, arecOf := seq(n, i => FRESH), seq(n, i => []), seq(n, i => 0), seq(n, i => None);
      arecs, fqdn := seq(n, a => Record(0, 0, ArecInit, 0, 0)), seq(n, a => []);
      smons, fqst := seq(m, k => Monitor(0, 0, 0)), seq(m, k => []);
      abs := Launch(n, m);
      LaunchLists(n, m);
    }

    /** One turn of the loop: a control message, a packet, and a timer pass with the
        query it leaves in the packet to send. */
    method Go(t: Turn, m: Packet.Message)
      returns (sends: nat, next: u32, failed: bool, ghost written: seq<seq<K.Answer>>)
      requires Valid() && Good(abs) && StableTurn(abs, t) && Named(abs) && CarriedTurn(t) && m.Valid()
      modifies this, m, m.data
      ensures Valid() && abs == TakeTurn(old(abs), t) && Good(abs) && Named(abs) && m.Valid()
      ensures !t.rx.Failed? && !failed ==>
                && (forall i: nat {:trigger Live(abs.g, i)} :: i < |sinsts| && Live(abs.g, i) ==> next <= sinsts[i].nextRefresh)
                && (forall a: nat {:trigger a in abs.g.live} :: a in abs.g.live && a < |arecs| ==> next <= arecs[a].nextRefresh)
                && (forall k: nat {:trigger k in abs.g.watched} :: k in abs.g.watched && k < |smons| ==> next <= smons[k].nextRefresh)
      ensures !t.rx.Failed? && !failed && sends > 0 ==>
                var w := Questions(Heard(old(abs), t), t.elapsed);
                Packet.ValidMsg(QueryMsg(w.q)) && PacketOf(m.data[..m.cur], w, written)
    {
      hide Good, Rep, Sized, Live, Stable, Controlled, UpdateCache, Prepare, Named, CarriedTurn, Questions, PacketOf;
      TurnGood(abs, t);
      TurnNamed(abs, t);
      Listen(t);
      sends, next, failed, written := 0, U32_MAX, false, [];
      if t.rx.Failed? { return; }
      ghost var c := abs;
      sends, next, failed, written := PrepareQuery(t.elapsed, m);
      if !failed {
        PreparePass(c, t.elapsed);
      }
    }

    /** The control message and the packet of a turn. */
    method Listen(t: Turn)
      requires Valid() && Good(abs) && StableTurn(abs, t) && Named(abs) && CarriedTurn(t)
      modifies this
      ensures Valid() && abs == Heard(old(abs), t) && Good(abs) && Named(abs)
    {
      hide Good, Sound, Rep, Sized, Linked, Stable, AddService, RemoveService, UpdateCache, Named, Carried, CarriedAnswers;
      GoodSound(abs);
      SoundLinked(abs, {});
      if t.control.Some? && t.control.value.Start? {
        var status := Monitored(t.control.value.fqst);
      } else if t.control.Some? && t.control.value.Stop? {
        Unmonitored(t.control.value.fqst);
      }
      ControlledGood(old(abs), t.control);
      ControlledNamed(old(abs), t.control);
      if t.rx.Received? {
        UpdateCacheNamed(abs, t.rx.answers, t.elapsed);
        UpdateServiceCache(t.rx.answers, t.elapsed);
      }
    }

    // ----- look-up -----

    method FindServiceMonitor(n: Name) returns (r: Option<nat>)
      requires Valid()
      ensures r == FindMonitor(abs, n)
    {
      hide Rep;
      r := Search(ml, ACTIVE, fqst, n, [abs.g.watched, abs.g.unwatched]);
    }

    method FindServiceInstance(k: nat, n: Name) returns (r: Option<nat>)
      requires Valid() && k < |smons|
      ensures r == FindInstance(abs, k, n)
    {
      hide Rep;
      ListUpdates(abs.g.held, abs.g.spare, k, []);
      r := Search(sl, k, fqsn, n, abs.g.held + [abs.g.spare]);
    }

    method FindArec(n: Name) returns (r: Option<nat>)
      requires Valid()
      ensures r == FindRecord(abs, n)
    {
      hide Rep;
      r := Search(al, ACTIVE, fqdn, n, [abs.g.live, abs.g.idle]);
    }

    // ----- instances -----

    method CleanupSinst(i: nat, ghost unmonitored: bool)
      requires Valid() && Linked(abs.g) && i < |sinsts| && Live(abs.g, i)
      modifies this
      ensures Valid() && abs == CleanupInstance(old(abs), i, unmonitored)
      ensures xl.next[i] == old(xl.next[i])
    {
      hide Linked, Rep, Without, Live, Below, Free, Sized;
      ghost var g := abs.g;
      CanRelease(g, i);
      FreeParts(g, i);
      sl := Release(sl, smonOf[i], i, |smons|, g.held, g.spare);
      if arecOf[i].Some? {
        xl, al := Leave(xl, al, i, arecOf[i].value, g.xref, g.live, g.idle);
      }
      sinsts := sinsts[i := sinsts[i].(nextRefresh := U32_MAX)];
      abs := CleanupInstance(abs, i, unmonitored);
    }

    /** update_sinst after the updates: the callbacks and the next state. */
    method Notify(i: nat, changes: int)
      requires Valid() && i < |sinsts| && -1 <= changes <= 1
      modifies this`sinsts, this`abs
      ensures Valid() && abs == React(old(abs), i, changes)
    {
      hide Rep, Sized;
      var s := sinsts[i];
      if changes == 0 || (changes == -1 && s.state == SinstInit) {
      } else if changes == -1 {
        abs := Tell(abs, i, Disappeared);
      } else if Ready(s.service) {
        abs := Tell(abs, i, if s.state == SinstInit then Discovered else Updated);
        MoveTo(i, SinstClean);
      } else if s.state == SinstClean {
        MoveTo(i, SinstUpdating);
      }
    }

    method MoveTo(i: nat, state: InstanceState)
      requires Valid() && i < |sinsts|
      modifies this`sinsts, this`abs
      ensures Valid() && abs == SetInstance(old(abs), i, old(abs).sinsts[i].(state := state))
    {
      hide Rep, Sized;
      var s := sinsts[i].(state := state);
      sinsts := sinsts[i := s];
      abs := SetInstance(abs, i, s);
    }

    method GotTxtEvent(i: nat, rdata: seq<byte>)
      requires Valid() && i < |sinsts|
      modifies this`sinsts, this`abs
      ensures Valid() && abs == GotTxt(old(abs), i, rdata)
    {
      hide Rep, Sized, React, TxtChanges;
      var s := sinsts[i];
      var changed := TxtChanges(s.service.raw, rdata);
      if changed {
        sinsts := sinsts[i := s.(service := s.service.(raw := Some(TxtKept(rdata))))];
      }
      abs := SetInstance(abs, i, s.(service := UpdateTxt(s.service, rdata)));
      Notify(i, if changed then 1 else 0);
    }

    method LinkArec(i: nat, a: nat) returns (changed: bool)
      requires Valid() && Linked(abs.g) && i < |sinsts| && Live(abs.g, i) && a < |arecs| && a in abs.g.live
      modifies this`sinsts, this`arecOf, this`xl, this`abs
      ensures Valid() && abs == SetArec(old(abs), i, a) && changed == ArecChanges(old(abs), i, a)
    {
      hide Linked, Rep, Without, Live, Below, Sized, Attach, Relinked, Adopt, Loose;
      ghost var g := abs.g;
      CanRelink(g, i);
      AttachParts(g, i, a);
      var moved := arecOf[i].Some? && arecOf[i] != Some(a);
      xl := Relink(xl, i, arecOf[i], a, g.xref);
      var s := sinsts[i];
      var service, news := CopyAddress(s.service, arecs[a]);
      changed := moved || news;
      sinsts := sinsts[i := s.(service := service)];
      arecOf := arecOf[i := Some(a)];
      abs := SetArec(abs, i, a);
    }

    method GotArecEvent(i: nat, a: nat)
      requires Valid() && Linked(abs.g) && i < |sinsts| && Live(abs.g, i) && a < |arecs| && a in abs.g.live
      modifies this`sinsts, this`arecOf, this`xl, this`abs
      ensures Valid() && abs == GotArec(old(abs), i, a)
    {
      hide Linked, Rep, Live, Sized, React, SetArec, ArecChanges, Attach;
      var changed := LinkArec(i, a);
      Notify(i, if changed then 1 else 0);
    }

    method LostArecEvent(i: nat)
      requires Valid() && Linked(abs.g) && i < |sinsts| && Live(abs.g, i)
      modifies this
      ensures Valid() && abs == LostArec(old(abs), i) && xl.next[i] == old(xl.next[i])
    {
      hide Linked, Rep, Live, Sized, Free;
      var state := sinsts[i].state;
      CleanupSinst(i, false);
      if state != SinstInit {
        abs := Tell(abs, i, Disappeared);
      }
    }

    /** A record from the free list, zeroed, for a new target. */
    method TakeArec(target: Name) returns (a: nat)
      requires Valid() && Linked(abs.g) && abs.g.idle != []
      modifies this`al, this`arecs, this`fqdn, this`abs, this`xl
      ensures Valid() && a == old(abs).g.idle[0] && a < |arecs| && abs == NewRecord(old(abs), target)
    {
      hide Rep, Linked, Below, Live;
      GrabLinked(abs.g);
      IdleBelow(abs);
      var links;
      a, links := Activate(al, abs.g.live, abs.g.idle);
      al := links;
      arecs := arecs[a := Record(0, 0, ArecInit, 0, 0)];
      fqdn := fqdn[a := target];
      abs := NewRecord(abs, target);
    }

    /** The record for a target: the one there is, one from the free list, or
        none. */
    method ArecFor(target: Name) returns (a: Option<nat>)
      requires Valid() && Sound(abs, {})
      modifies this`al, this`arecs, this`fqdn, this`abs, this`xl
      ensures Valid() && (abs, a) == RecordFor(old(abs), target) && Sound(abs, {})
      ensures a.Some? ==> a.value < |arecs| && a.value in abs.g.live
      ensures forall j: nat :: Live(abs.g, j) <==> Live(old(abs).g, j)
    {
      hide Sound, Rep, Live, Sized, NewRecord, FindRecord;
      a := FindArec(target);
      FreeHead();
      if a.None? && al.head[FREE] != NULL {
        NewRecordSound(abs, target, {});
        SoundLinked(abs, {});
        var n := TakeArec(target);
        a := Some(n);
      } else if a.Some? {
        Found(abs, target);
      }
    }

    method TakeSrvRecord(i: nat, srv: SrvRec, elapsed: u32) returns (changed: bool)
      requires Valid() && Sound(abs, {}) && i < |sinsts| && Live(abs.g, i) && srv.ttl != 0
      modifies this
      ensures Valid() && abs == TakeSrv(old(abs), i, srv, elapsed) && changed == SrvChanges(old(abs), i, srv)
    {
      hide Sound, Rep, Live, Sized, SetArec, ArecChanges, RecordFor, Renewed;
      changed := sinsts[i].service.port != srv.port;
      var a := ArecFor(srv.target);
      if a.Some? {
        SoundLinked(abs, {});
        var moved := LinkArec(i, a.value);
        changed := changed || moved;
      } else {
        SameHomes(abs, i);
        arecOf := arecOf[i := None];
        abs := abs.(g := Forget(abs.g, i));
      }
      abs := SetInstance(abs, i, Renewed(sinsts[i], srv.port, srv.ttl, elapsed));
      sinsts := sinsts[i := Renewed(sinsts[i], srv.port, srv.ttl, elapsed)];
    }

    method GotSrvEvent(i: nat, srv: SrvRec, elapsed: u32)
      requires Valid() && Sound(abs, {}) && i < |sinsts| && Live(abs.g, i)
      modifies this
      ensures Valid() && abs == GotSrv(old(abs), i, srv, elapsed)
    {
      hide Sound, Rep, Live, Sized, React, CleanupInstance, TakeSrv, SrvChanges;
      if srv.ttl == 0 {
        SoundLinked(abs, {});
        CleanupSinst(i, false);
        Notify(i, -1);
      } else {
        var changed := TakeSrvRecord(i, srv, elapsed);
        Notify(i, if changed then 1 else 0);
      }
    }

    lemma FreeHead()
      requires Valid()
      ensures |al.head| == 2 && (al.head[FREE] == NULL <==> abs.g.idle == [])
      ensures |sl.head| == |smons| + 1 && (sl.head[|smons|] == NULL <==> abs.g.spare == [])
      ensures |ml.head| == 2 && (ml.head[FREE] == NULL <==> abs.g.unwatched == [])
      ensures |ml.head| == 2 && (ml.head[ACTIVE] == NULL <==> abs.g.watched == [])
    {
      First(al, FREE, [abs.g.live, abs.g.idle]);
      First(sl, |smons|, abs.g.held + [abs.g.spare]);
      First(ml, FREE, [abs.g.watched, abs.g.unwatched]);
      First(ml, ACTIVE, [abs.g.watched, abs.g.unwatched]);
    }

    // ----- address records -----

    /** A plain walk over the list of a record, which unlinks every element it
        stands on. */
    method EvictArec(a: nat)
      requires Valid() && Sound(abs, {}) && a < |arecs|
      modifies this
      ensures Valid() && abs == Evict(old(abs), a) && xl.head[a] == NULL
    {
      hide Sound, Rep, Live, Sized, LostArec, Below;
      XrefSizes(abs, {});
      ghost var rest := abs.g.xref[a];
      First(xl, a, abs.g.xref);
      XrefBelow(abs, a);
      var p := xl.head[a];
      while p != NULL
        invariant Valid() && Sound(abs, {}) && |arecs| == old(|arecs|) && |abs.g.xref| == |arecs|
        invariant abs.g.xref[a] == rest && p == Elem(rest, 0) && Below(rest, |sinsts|)
        invariant LoseAll(abs, rest) == LoseAll(old(abs), old(abs).g.xref[a])
        decreases |rest|
      {
        EvictStep(abs, a, rest);
        assert [] + rest == rest;
        Step(xl, a, abs.g.xref, [], rest);
        SoundLinked(abs, {});
        LostArecEvent(p);
        p := xl.next[p];
        rest := rest[1..];
        XrefSizes(abs, {});
        XrefBelow(abs, a);
      }
      First(xl, a, abs.g.xref);
      arecs := arecs[a := arecs[a].(nextRefresh := U32_MAX)];
      abs := SetRecord(abs, a, arecs[a]);
    }

    /** A walk that moves every element it stands on to the front of the list. */
    method SetAddress(a: nat, ip: u32, ttl: u32)
      requires Valid() && Sound(abs, {}) && a < |arecs| && a in abs.g.live
      modifies this
      ensures Valid() && abs == SetIp(old(abs), a, ip, ttl)
    {
      hide Sound, Rep, Live, Sized, GotArec, Below, Elements, Share;
      XrefSizes(abs, {});
      XrefBelow(abs, a);
      if arecs[a].ip != ip {
        NewIpSound(abs, a, ip);
        arecs := arecs[a := arecs[a].(ip := ip)];
        abs := SetRecord(abs, a, arecs[a]);
        ghost var start := abs;
        ghost var done, rest := [], abs.g.xref[a];
        assert done + rest == rest;
        First(xl, a, abs.g.xref);
        var p := xl.head[a];
        while p != NULL
          invariant Valid() && Sound(abs, Elements(rest)) && |arecs| == old(|arecs|) && |abs.g.xref| == |arecs|
          invariant a in abs.g.live && abs.g.xref[a] == done + rest && p == Elem(rest, 0) && Below(rest, |sinsts|)
          invariant TellAll(abs, a, rest) == TellAll(start, a, start.g.xref[a])
          decreases |rest|
        {
          TellStep(abs, a, done, rest);
          Step(xl, a, abs.g.xref, done, rest);
          var next := xl.next[p];
          SoundLinked(abs, Elements(rest));
          GotArecEvent(p, a);
          p := next;
          done, rest := [rest[0]] + done, rest[1..];
          XrefSizes(abs, Elements(rest));
          SuffixBelow(abs, a, done, rest, Elements(rest));
        }
      }
      arecs := arecs[a := arecs[a].(ttl := Millis(ttl), nextRefresh := Share(Millis(ttl), 80), percent := 10)];
      abs := SetRecord(abs, a, arecs[a]);
    }

    method GotAddress(a: nat, ip: u32, ttl: u32)
      requires Valid() && Sound(abs, {}) && a < |arecs| && a in abs.g.live
      modifies this
      ensures Valid() && abs == GotAddr(old(abs), a, ip, ttl)
    {
      hide Sound, Rep, Sized, SetIp, Evict;
      if ttl == 0 {
        EvictArec(a);
      } else {
        SetRecordSound(abs, a, arecs[a].(state := ArecResolved), {});
        arecs := arecs[a := arecs[a].(state := ArecResolved)];
        abs := SetRecord(abs, a, arecs[a]);
        SetAddress(a, ip, ttl);
      }
    }

    // ----- a received packet -----

    method KnownPtrRecord(i: nat, ttl: u32, elapsed: u32)
      requires Valid() && Linked(abs.g) && i < |sinsts| && Live(abs.g, i)
      modifies this
      ensures Valid() && abs == KnownPtr(old(abs), i, ttl, elapsed)
    {
      hide Linked, Rep, Live, Sized, CleanupInstance;
      if ttl == 0 {
        if sinsts[i].state != SinstInit {
          abs := Tell(abs, i, Disappeared);
        }
        CleanupSinst(i, false);
      } else {
        abs := SetInstance(abs, i, sinsts[i].(ptrTtl := Clock.Add(Millis(ttl), elapsed)));
        sinsts := sinsts[i := sinsts[i].(ptrTtl := Clock.Add(Millis(ttl), elapsed))];
      }
    }

    /** A slot from the free list, reset, on the list of a monitor. */
    method TakeSinst(k: nat, n: Name) returns (i: nat)
      requires Valid() && Linked(abs.g) && abs.g.spare != [] && k < |smons|
      modifies this
      ensures Valid() && i == old(abs).g.spare[0] && i < |sinsts| && abs == Taken(old(abs), k, n)
      ensures |smons| == old(|smons|)
    {
      hide Linked, Rep, Sized, Below;
      ghost var g := abs.g;
      SpareBelow(abs);
      i, sl := Occupy(sl, |smons|, k, g.held, g.spare);
      sinsts := sinsts[i := FRESH];
      smonOf := smonOf[i := k];
      arecOf := arecOf[i := None];
      fqsn := fqsn[i := n];
      abs := Taken(abs, k, n);
    }

    method NewSinst(k: nat, n: Name, ttl: u32, elapsed: u32)
      requires Valid() && Linked(abs.g) && abs.g.spare != [] && k < |smons|
      modifies this
      ensures Valid() && abs == NewInstance(old(abs), k, n, ttl, elapsed)
    {
      hide Linked, Rep, Sized, Below, ServInfo, Alloc, Free, Without;
      TakenOwner(abs, k, n);
      var i := TakeSinst(k, n);
      if ServInfo(n) {
        sinsts := sinsts[i := sinsts[i].(ptrTtl := Clock.Add(Millis(ttl), elapsed))];
        abs := SetInstance(abs, i, sinsts[i]);
      } else {
        FreeParts(abs.g, i);
        sl := Release(sl, k, i, |smons|, abs.g.held, abs.g.spare);
        abs := abs.(g := Free(abs.g, i), log := abs.log + [Died(i, false)]);
      }
    }

    method TakePtrRecord(p: Answers, ptr: PtrRec, elapsed: u32) returns (p': Answers)
      requires Valid() && Sound(abs, {})
      modifies this
      ensures Valid() && (abs, p') == TakePtr(old(abs), p, ptr, elapsed)
    {
      hide Sound, Rep, Sized, Live, Linked, FindMonitor, FindInstance, KnownPtr, NewInstance, ServInfo, OverflowService, KeptTxts, KeptSrvs;
      p' := p;
      SoundLinked(abs, {});
      var k := FindServiceMonitor(ptr.name);
      if k.None? { return; }
      var i := FindServiceInstance(k.value, ptr.target);
      if i.Some? {
        FoundLive(abs, k.value, ptr.target);
        KnownPtrRecord(i.value, ptr.ttl, elapsed);
        return;
      }
      FreeHead();
      if sl.head[|smons|] != NULL {
        NewSinst(k.value, ptr.target, ptr.ttl, elapsed);
      } else if ptr.ttl != 0 && ServInfo(ptr.target) {
        var s;
        p', s := CollectOverflow(p, ptr.target);
        abs := abs.(log := abs.log + [Overflow(k.value, ptr.target, s)]);
      }
    }

    method TakeTxtRecord(r: TxtRec)
      requires Valid() && Sound(abs, {})
      modifies this`sinsts, this`abs
      ensures Valid() && abs == TakeTxts(old(abs), [r])
    {
      hide Sound, Rep, Sized, FindMonitor, FindInstance, GotTxt;
      assert [r][1..] == [];
      var k := FindServiceMonitor(Rest(r.name));
      if k.Some? {
        var i := FindServiceInstance(k.value, r.name);
        if i.Some? { GotTxtEvent(i.value, r.rdata); }
      }
    }

    method TakeSrvAnswer(r: SrvRec, elapsed: u32)
      requires Valid() && Sound(abs, {})
      modifies this
      ensures Valid() && abs == TakeSrvs(old(abs), [r], elapsed)
    {
      hide Sound, Rep, Sized, FindMonitor, FindInstance, GotSrv, Live;
      assert [r][1..] == [];
      var k := FindServiceMonitor(Rest(r.name));
      if k.Some? {
        var i := FindServiceInstance(k.value, r.name);
        if i.Some? {
          BelongsLive(abs, r.name);
          GotSrvEvent(i.value, r, elapsed);
        }
      }
    }

    method TakeAddrRecord(r: AddrRec)
      requires Valid() && Sound(abs, {})
      modifies this
      ensures Valid() && abs == TakeAddrs(old(abs), [r])
    {
      hide Sound, Rep, Sized, FindRecord, GotAddr;
      assert [r][1..] == [];
      var a := FindArec(r.name);
      if a.Some? {
        Found(abs, r.name);
        GotAddress(a.value, r.ip, r.ttl);
      }
    }

    /** A whole packet: the PTRs first, then what is left of the TXTs and SRVs,
        then the addresses. */
    method UpdateServiceCache(p: Answers, elapsed: u32)
      requires Valid() && Good(abs) && Stable(abs, p, elapsed)
      modifies this
      ensures Valid() && abs == UpdateCache(old(abs), p, elapsed) && Good(abs)
    {
      hide Good, Sound, Rep, Sized, TakePtr, TakeTxts, TakeSrvs, TakeAddrs, StableSrvs, Fits;
      if !p.response { return; }
      UpdateCacheGood(abs, p, elapsed);
      GoodSound(abs);
      var q := TakeAllPtrs(p, elapsed);
      ghost var c1 := abs;
      TakePtrsGood(old(abs), p, elapsed);
      TakeAllTxts(q.txts);
      GoodTxts(c1, q.txts);
      ghost var c2 := abs;
      TakeAllSrvs(q.srvs, elapsed);
      TakeSrvsGood(c2, q.srvs, elapsed);
      GoodSound(abs);
      TakeAllAddrs(q.addrs);
    }

    method TakeAllPtrs(p: Answers, elapsed: u32) returns (q: Answers)
      requires Valid() && Sound(abs, {})
      modifies this
      ensures Valid() && (abs, q) == TakePtrs(old(abs), p, p.ptrs, elapsed) && Sound(abs, {})
    {
      hide Sound, Rep, Sized, TakePtr;
      q := p;
      assert p.ptrs[0..] == p.ptrs;
      for j := 0 to |p.ptrs|
        invariant Valid() && Sound(abs, {})
        invariant TakePtrs(abs, q, p.ptrs[j..], elapsed) == TakePtrs(old(abs), p, p.ptrs, elapsed)
      {
        assert p.ptrs[j..][1..] == p.ptrs[j + 1..] && p.ptrs[j..][0] == p.ptrs[j];
        TakePtrSound(abs, q, p.ptrs[j], elapsed);
        q := TakePtrRecord(q, p.ptrs[j], elapsed);
      }
      assert p.ptrs[|p.ptrs|..] == [];
    }

    method TakeAllTxts(rs: seq<TxtRec>)
      requires Valid() && Sound(abs, {})
      modifies this`sinsts, this`abs
      ensures Valid() && abs == TakeTxts(old(abs), rs) && Sound(abs, {})
    {
      hide Sound, Rep, Sized, TakeTxts;
      assert rs[0..] == rs;
      for j := 0 to |rs|
        invariant Valid() && Sound(abs, {})
        invariant TakeTxts(abs, rs[j..]) == TakeTxts(old(abs), rs)
      {
        TxtsStep(abs, rs, j);
        TakeTxtsSound(abs, [rs[j]]);
        TakeTxtRecord(rs[j]);
      }
      assert rs[|rs|..] == [];
      NoMoreAnswers(abs, 0);
    }

    method TakeAllSrvs(rs: seq<SrvRec>, elapsed: u32)
      requires Valid() && Good(abs) && StableSrvs(abs, rs, elapsed)
      modifies this
      ensures Valid() && abs == TakeSrvs(old(abs), rs, elapsed)
    {
      hide Good, Sound, Rep, Sized, TakeSrvs, StableSrvs, Fits;
      GoodSound(abs);
      assert rs[0..] == rs;
      for j := 0 to |rs|
        invariant Valid() && Good(abs) && Fits(abs) && StableSrvs(abs, rs[j..], elapsed)
        invariant TakeSrvs(abs, rs[j..], elapsed) == TakeSrvs(old(abs), rs, elapsed)
      {
        GoodSound(abs);
        SrvsStep(abs, rs, j, elapsed);
        TakeSrvAnswer(rs[j], elapsed);
      }
      assert rs[|rs|..] == [];
      NoMoreAnswers(abs, elapsed);
    }

    method TakeAllAddrs(rs: seq<AddrRec>)
      requires Valid() && Sound(abs, {})
      modifies this
      ensures Valid() && abs == TakeAddrs(old(abs), rs)
    {
      hide Sound, Rep, Sized, TakeAddrs;
      assert rs[0..] == rs;
      for j := 0 to |rs|
        invariant Valid() && Sound(abs, {})
        invariant TakeAddrs(abs, rs[j..]) == TakeAddrs(old(abs), rs)
      {
        AddrsStep(abs, rs, j);
        TakeAddrsSound(abs, [rs[j]]);
        TakeAddrRecord(rs[j]);
      }
      assert rs[|rs|..] == [];
      NoMoreAnswers(abs, 0);
    }

    // ----- a timer pass -----

    method AgeArec(a: nat, elapsed: u32, m: Packet.Message, sends: nat, ghost w: Walk) returns (sends': nat)
      requires Valid() && Sound(abs, {}) && Named(abs) && a < |arecs| && w.c == abs && Open(m, w.q) && w.sends == sends
      modifies this, m, m.data
      ensures var r := AgeRecord(w, a, elapsed); Valid() && r.c == abs && r.sends == sends' && Open(m, r.q)
      ensures |arecs| == old(|arecs|)
    {
      hide Sound, Rep, Sized, Evict, Share, Ask, Open, Carried;
      sends' := sends;
      var s := arecs[a];
      var left := Clock.Subtract(s.nextRefresh, elapsed);
      match s.state {
        case ArecInit =>
          var ok := AskIn(m, fqdn[a], Packet.T_A, w.q);
          sends' := sends + 1;
          s := s.(state := ArecQuerying, ttl := 1000, nextRefresh := Share(1000, 80), percent := 10);
        case ArecQuerying =>
          s := s.(nextRefresh := left);
          if left == 0 && s.percent < 5 {
            SetRecordSound(abs, a, s, {});
            arecs := arecs[a := s];
            abs := SetRecord(abs, a, s);
            EvictArec(a);
            return;
          }
          if left == 0 {
            var ok := AskIn(m, fqdn[a], Packet.T_A, w.q);
            sends' := sends + 1;
            s := s.(percent := s.percent / 2, nextRefresh := Share(s.ttl, s.percent / 2));
          }
        case ArecResolved =>
          s := s.(nextRefresh := left);
          if left == 0 {
            var ok := AskIn(m, fqdn[a], Packet.T_A, w.q);
            sends' := sends + 1;
            s := s.(percent := 10, nextRefresh := Share(s.ttl, 10), state := ArecQuerying);
          }
      }
      arecs := arecs[a := s];
      abs := SetRecord(abs, a, s);
    }

    /** The walk over the active records, each of which may leave the list while
        the walk stands on it. */
    method AgeArecs(elapsed: u32, m: Packet.Message, ghost w: Walk) returns (sends: nat, next: u32)
      requires Valid() && Sound(abs, {}) && Named(abs) && Open(m, w.q) && w == Walk(abs, w.q, 0, U32_MAX, false)
      modifies this, m, m.data
      ensures var r := AgeRecords(w, old(abs).g.live, elapsed);
              Valid() && Open(m, r.q) && r == Walk(abs, r.q, sends, next, false)
    {
      hide Sound, Rep, Sized, AgeRecord, Below, Without, Open, Named, Keeps;
      sends, next := 0, U32_MAX;
      ghost var front: seq<nat>, rest, v := [], abs.g.live, w;
      assert front + rest == rest;
      First(al, ACTIVE, [abs.g.live, abs.g.idle]);
      RestBelow(abs, front, rest);
      var p := al.head[ACTIVE];
      while p != NULL
        invariant Valid() && Sound(abs, {}) && Named(abs) && |arecs| == old(|arecs|)
        invariant Open(m, v.q) && v == Walk(abs, v.q, sends, next, false)
        invariant abs.g.live == front + rest && p == Elem(rest, 0) && Below(rest, |arecs|)
        invariant AgeRecords(v, rest, elapsed) == AgeRecords(w, old(abs).g.live, elapsed)
        decreases |rest|
      {
        Step(al, ACTIVE, [abs.g.live, abs.g.idle], front, rest);
        BelowTail(rest, |arecs|);
        AgeRecordSound(v, p, elapsed);
        AgeRecordLive(v, p, elapsed);
        AgeRecordRest(v, p, elapsed);
        AgeRecordKeeps(v, p, elapsed);
        LiveNoDup(abs);
        ghost var live, r := abs.g.live, AgeRecord(v, p, elapsed);
        KeepsNamed(abs, r.c);
        var tmp := al.next[p];
        sends := AgeArec(p, elapsed, m, sends, v);
        next := Min(next, arecs[p].nextRefresh);
        front := SuffixKept(live, abs.g.live, front, rest);
        v := r.(next := next);
        p, rest := tmp, rest[1..];
      }
    }

    method AgeSinst(i: nat, elapsed: u32, m: Packet.Message, sends: nat, ghost w: Walk) returns (sends': nat)
      requires Valid() && Linked(abs.g) && Named(abs) && i < |sinsts| && Live(abs.g, i)
      requires w.c == abs && Open(m, w.q) && w.sends == sends
      modifies this, m, m.data
      ensures var r := AgeInstance(w, i, elapsed); Valid() && r.c == abs && r.sends == sends' && Open(m, r.q)
      ensures |sinsts| == old(|sinsts|) && |smons| == old(|smons|)
    {
      hide Linked, Rep, Sized, Live, CleanupInstance, Ask, Open, Carried;
      sends' := sends;
      var s := Aged(sinsts[i], elapsed);
      sinsts := sinsts[i := s];
      abs := SetInstance(abs, i, s);
      if s.nextRefresh != 0 { return; }
      if s.percent < 5 {
        CleanupSinst(i, false);
        if s.state != SinstInit {
          abs := Tell(abs, i, Disappeared);
        }
        return;
      }
      s := Retried(s);
      RefusedSame(w.q, fqsn[i], Packet.T_ANY);
      var ok := AskIn(m, fqsn[i], Packet.T_ANY, w.q);
      if ok {
        sends' := sends + 1;
        if s.state == SinstClean {
          s := s.(state := SinstUpdating, service := s.service.(hasSrv := false));
        }
      }
      sinsts := sinsts[i := s];
      abs := SetInstance(abs, i, s);
    }

    /** The walk over the instances of a monitor, likewise. */
    method AgeSinsts(k: nat, elapsed: u32, m: Packet.Message, sends: nat, next: u32, ghost w: Walk)
      returns (sends': nat, next': u32)
      requires Valid() && Sound(abs, {}) && Named(abs) && k < |smons|
      requires Open(m, w.q) && w == Walk(abs, w.q, sends, next, false)
      modifies this, m, m.data
      ensures var r := AgeInstances(w, old(abs).g.held[k], elapsed);
              Valid() && Open(m, r.q) && r == Walk(abs, r.q, sends', next', false)
      ensures Sound(abs, {}) && Named(abs) && |smons| == old(|smons|)
    {
      hide Sound, Rep, Sized, AgeInstance, Below, Without, Live, Open, Named, Keeps;
      sends', next' := sends, next;
      ghost var front: seq<nat>, rest, v := [], abs.g.held[k], w;
      assert front + rest == rest;
      ListUpdates(abs.g.held, abs.g.spare, k, []);
      First(sl, k, abs.g.held + [abs.g.spare]);
      HeldRest(abs, k, front, rest);
      var p := sl.head[k];
      while p != NULL
        invariant Valid() && Sound(abs, {}) && Named(abs) && |sinsts| == old(|sinsts|) && |smons| == old(|smons|)
        invariant Open(m, v.q) && v == Walk(abs, v.q, sends', next', false)
        invariant abs.g.held[k] == front + rest && p == Elem(rest, 0) && Below(rest, |sinsts|)
        invariant AgeInstances(v, rest, elapsed) == AgeInstances(w, old(abs).g.held[k], elapsed)
        decreases |rest|
      {
        ListUpdates(abs.g.held, abs.g.spare, k, []);
        Step(sl, k, abs.g.held + [abs.g.spare], front, rest);
        HeldRest(abs, k, front, rest);
        AgeInstanceSound(v, p, elapsed);
        AgeInstanceRest(v, p, elapsed);
        AgeInstanceKeeps(v, p, elapsed);
        HeldAfter(v, k, p, elapsed);
        SoundLinked(abs, {});
        ghost var list, r := abs.g.held[k], AgeInstance(v, p, elapsed);
        KeepsNamed(abs, r.c);
        var tmp := sl.next[p];
        sends' := AgeSinst(p, elapsed, m, sends', v);
        next' := Min(next', sinsts[p].nextRefresh);
        front := SuffixKept(list, abs.g.held[k], front, rest);
        v := r.(next := next');
        p, rest := tmp, rest[1..];
      }
    }

    method AgeSmon(k: nat, elapsed: u32, m: Packet.Message, sends: nat, next: u32, ghost w: Walk)
      returns (sends': nat, next': u32, failed: bool)
      requires Valid() && Named(abs) && k < |smons| && Open(m, w.q) && w == Walk(abs, w.q, sends, next, false)
      modifies this`smons, this`abs, m, m.data
      ensures var r := AgeMonitor(w, k, elapsed); Valid() && Open(m, r.q) && r == Walk(abs, r.q, sends', next', failed)
      ensures |smons| == old(|smons|)
    {
      hide Rep, Sized, Ask, Carried, Written;
      sends', next', failed := sends, next, false;
      var s := smons[k];
      if s.nextRefresh <= elapsed {
        s := Monitor(if s.period > 30000 then 60000 else s.period * 2, 0, m.cur);
        var ok := AskIn(m, fqst[k], Packet.T_ANY, w.q);
        failed := !ok;
        if ok { sends' := sends + 1; }
        RefusedSame(w.q, fqst[k], Packet.T_ANY);
      } else {
        s := s.(nextRefresh := Clock.Subtract(s.nextRefresh, elapsed));
        next' := Min(next, s.nextRefresh);
      }
      smons := smons[k := s];
      abs := SetMonitor(abs, k, s);
    }

    /** A monitor and then its instances. */
    method PassSmon(k: nat, elapsed: u32, m: Packet.Message, sends: nat, next: u32, ghost w: Walk)
      returns (sends': nat, next': u32, failed: bool)
      requires Valid() && Sound(abs, {}) && Named(abs) && k < |smons|
      requires Open(m, w.q) && w == Walk(abs, w.q, sends, next, false)
      modifies this, m, m.data
      ensures Valid() && Sound(abs, {}) && Named(abs) && |smons| == old(|smons|) && abs.g.watched == old(abs).g.watched
      ensures var w1 := AgeMonitor(w, k, elapsed);
              && k < |w1.c.g.held| && Below(w1.c.g.held[k], |w1.c.g.owner|)
              && var r := if w1.failed then w1 else AgeInstances(w1, w1.c.g.held[k], elapsed);
                 failed == w1.failed && Open(m, r.q) && r == Walk(abs, r.q, sends', next', failed)
    {
      hide Sound, Rep, Sized, AgeMonitor, AgeInstances, Below, Open, Named, Keeps;
      AgeMonitorSound(w, k, elapsed);
      AgeMonitorKeeps(w, k, elapsed);
      ghost var w1 := AgeMonitor(w, k, elapsed);
      KeepsNamed(abs, w1.c);
      HeldBelow(w1.c, k);
      SameWatch(w, k, elapsed);
      sends', next', failed := AgeSmon(k, elapsed, m, sends, next, w);
      if failed { return; }
      MonitorWalk(w1, k, elapsed);
      sends', next' := AgeSinsts(k, elapsed, m, sends', next', w1);
    }

    method NextSmon(p: nat, ghost front: seq<nat>, ghost rest: seq<nat>) returns (next: int)
      requires Valid() && rest != [] && p == rest[0] && abs.g.watched == front + rest
      ensures abs.g.watched == (front + [rest[0]]) + rest[1..] && next == Elem(rest[1..], 0)
    {
      hide Rep, Fits;
      Step(ml, ACTIVE, [abs.g.watched, abs.g.unwatched], front, rest);
      next := ml.next[p];
    }

    method AgeSmons(elapsed: u32, m: Packet.Message, sends: nat, next: u32, ghost w: Walk)
      returns (sends': nat, next': u32, failed: bool)
      requires Valid() && Sound(abs, {}) && Named(abs) && Open(m, w.q) && w == Walk(abs, w.q, sends, next, false)
      modifies this, m, m.data
      ensures var r := AgeMonitors(w, old(abs).g.watched, elapsed);
              Valid() && Open(m, r.q) && r == Walk(abs, r.q, sends', next', failed)
    {
      hide Sound, Rep, Sized, AgeMonitor, AgeInstances, AgeMonitors, Below, Open, Named;
      sends', next', failed := sends, next, false;
      ghost var front: seq<nat>, rest, v := [], abs.g.watched, w;
      assert front + rest == rest;
      First(ml, ACTIVE, [abs.g.watched, abs.g.unwatched]);
      WatchedRest(abs, front, rest);
      var p := ml.head[ACTIVE];
      while p != NULL
        invariant Valid() && Sound(abs, {}) && Named(abs) && |smons| == old(|smons|) && !failed
        invariant Open(m, v.q) && v == Walk(abs, v.q, sends', next', false)
        invariant abs.g.watched == front + rest && p == Elem(rest, 0) && Below(rest, |smons|)
        invariant AgeMonitors(v, rest, elapsed) == AgeMonitors(w, old(abs).g.watched, elapsed)
        decreases |rest|
      {
        BelowTail(rest, |smons|);
        MonitorsStep(v, rest, elapsed);
        ghost var w1 := AgeMonitor(v, p, elapsed);
        sends', next', failed := PassSmon(p, elapsed, m, sends', next', v);
        if failed { return; }
        v := AgeInstances(w1, w1.c.g.held[p], elapsed);
        p := NextSmon(p, front, rest);
        front, rest := front + [rest[0]], rest[1..];
      }
      MonitorsDone(v, elapsed);
    }

    /** The known answers of a monitor, as many as fit: a prefix of what is known of
        its instances, each written whole and counted. */
    method AddKnownAnswers(m: Packet.Message, k: nat) returns (ghost written: seq<K.Answer>)
      requires Valid() && m.Valid() && k < |smons| && smons[k].offset < 0x4000
      requires K.ValidAnswers(AnswersOf(abs, abs.g.held[k]))
      modifies m`cur, m.data
      ensures m.Valid() && K.ValidAnswers(written)
      ensures var known := K.Known(AnswersOf(abs, abs.g.held[k]));
              written <= known && (written != known ==> m.cur + K.PtrSize(known[|written|]) > Packet.DATA_MAX)
      ensures var was := old(m.data[..m.cur]);
              m.data[..m.cur] ==
              K.Counted(was, K.Wrapped(K.AnswerCount(was) + |written|)) + K.AnswersBytes(smons[k].offset, written)
    {
      hide Rep, Sized, Below, AnswersOf, AnswerOf, K.Counted, K.AnswerCount, K.AnswerBytes, K.AnswersBytes, K.Wrapped, K.Known,
           K.PtrSize, K.ValidAnswers;
      ghost var was := m.data[..m.cur];
      written := [];
      K.NothingAnswered(was, smons[k].offset);
      ghost var front: seq<nat>, rest := [], abs.g.held[k];
      assert front + rest == rest;
      ListUpdates(abs.g.held, abs.g.spare, k, []);
      First(sl, k, abs.g.held + [abs.g.spare]);
      HeldSplit(abs, k, front, rest);
      NoAnswersYet(abs);
      var p := sl.head[k];
      while p != NULL
        invariant m.Valid() && abs.g.held[k] == front + rest && p == Elem(rest, 0)
        invariant Below(front, |sinsts|) && Below(rest, |sinsts|)
        invariant written == K.Known(AnswersOf(abs, front)) && K.ValidAnswers(written)
        invariant m.data[..m.cur] ==
                  K.Counted(was, K.Wrapped(K.AnswerCount(was) + |written|)) + K.AnswersBytes(smons[k].offset, written)
        decreases |rest|
      {
        ListUpdates(abs.g.held, abs.g.spare, k, []);
        Step(sl, k, abs.g.held + [abs.g.spare], front, rest);
        HeldSplit(abs, k, front, rest);
        BelowTail(rest, |sinsts|);
        HeldSplit(abs, k, front + [p], rest[1..]);
        NextAnswer(abs, k, front, rest);
        if sinsts[p].ptrTtl != 0 {
          var a := K.Answer(Servname(fqsn[p]), sinsts[p].ptrTtl);
          var len := K.PtrSize(a);
          if len > Packet.DATA_MAX - m.cur { return; }
          K.OneMoreAnswer(was, smons[k].offset, written, a);
          K.AddAnswer(m, smons[k].offset, a);
          written := written + [a];
        }
        front, p, rest := front + [p], sl.next[p], rest[1..];
      }
      assert front + [] == front;
    }

    /** A monitor that asked is answered for and armed again. */
    method RearmSmon(m: Packet.Message, k: nat, next: u32, ghost w: Walk, ghost q: seq<byte>, ghost dues: seq<K.Due>,
                     ghost written: seq<seq<K.Answer>>)
      returns (next': u32, ghost written': seq<seq<K.Answer>>)
      requires Valid() && abs == w.c.(smons := smons) && k < |smons| == |w.c.smons| && smons[k] == w.c.smons[k]
      requires k in w.c.g.watched && K.AllAsked(q, Dues(w.c, w.c.g.watched)) && m.Valid()
      requires K.Answered(m.data[..m.cur], q, dues, written) && K.AsManyAsFit(q, dues, written)
      modifies this`smons, this`abs, m`cur, m.data
      ensures Valid() && w.(c := abs, next := next') == RearmOne(w.(c := old(abs), next := next), k)
      ensures abs == w.c.(smons := smons) && smons == old(smons)[k := smons[k]] && m.Valid()
      ensures var dues' := dues + if w.c.smons[k].nextRefresh == 0 then [DueOf(w.c, k)] else [];
              K.Answered(m.data[..m.cur], q, dues', written') && K.AsManyAsFit(q, dues', written')
    {
      hide Rep, Sized, Below, K.AllAsked, K.AsManyAsFit, AnswersOf, Dues, K.Counted, K.AnswersBytes, K.KnownBytes, K.Total,
           K.PtrSize, K.Wrapped, K.AnswerCount, K.Known, K.ValidAnswers, K.Prefixes;
      next', written' := next, written;
      var s := smons[k];
      if s.nextRefresh == 0 {
        ghost var d, b := DueOf(w.c, k), m.data[..m.cur];
        AnswersSame(w.c, smons, k);
        DueFacts(w.c, k, q);
        ghost var answers := AddKnownAnswers(m, k);
        K.OneMoreDue(b, q, dues, written, d, answers);
        K.FitSnoc(q, dues, written, d, answers);
        written' := written + [answers];
        s := s.(nextRefresh := s.period);
        smons := smons[k := s];
        abs := SetMonitor(abs, k, s);
        next' := Min(next, s.nextRefresh);
      } else {
        assert dues + [] == dues;
      }
    }

    /** The second pass over the monitors. */
    method RearmSmons(m: Packet.Message, sends: nat, next: u32, ghost w: Walk)
      returns (next': u32, ghost written: seq<seq<K.Answer>>)
      requires Valid() && Named(abs) && NoDup(abs.g.watched) && Open(m, w.q) && w == Walk(abs, w.q, sends, next, false)
      requires K.AllAsked(Packet.Wire(QueryMsg(w.q)), Dues(abs, abs.g.watched))
      modifies this`smons, this`abs, m`cur, m.data
      ensures Valid() && w.(c := abs, next := next') == Rearm(w, old(abs).g.watched)
      ensures m.Valid() && PacketOf(m.data[..m.cur], w, written)
    {
      hide Rep, Sized, Below, Rearm, RearmOne, Packet.Wire, K.AllAsked, K.Answered, K.AsManyAsFit, DueOf, Dues, Named, NoDup,
           Untouched, Written;
      next' := next;
      written := [];
      ghost var q := Packet.Wire(QueryMsg(w.q));
      ghost var front: seq<nat>, rest := [], abs.g.watched;
      assert front + rest == rest;
      K.NoneAnswered(q);
      First(ml, ACTIVE, [abs.g.watched, abs.g.unwatched]);
      WatchedSplit(abs, front, rest);
      AllUntouched(smons, rest);
      NoDues(abs);
      var p := ml.head[ACTIVE];
      while p != NULL
        invariant Valid() && abs == w.c.(smons := smons) && |smons| == |w.c.smons| && Untouched(smons, w.c.smons, rest)
        invariant w.c.g.watched == front + rest && p == Elem(rest, 0) && Below(rest, |smons|) && Below(front, |smons|)
        invariant Rearm(w.(c := abs, next := next'), rest) == Rearm(w, w.c.g.watched)
        invariant m.Valid() && K.Answered(m.data[..m.cur], q, Dues(w.c, front), written)
        invariant K.Prefixes(Dues(w.c, front), written) && K.AsManyAsFit(q, Dues(w.c, front), written)
        decreases |rest|
      {
        BelowTail(rest, |smons|);
        RearmStep(w.(c := abs, next := next'), rest);
        DuesSnoc(w.c, front, p);
        assert w.c.g.watched[|front|] == p;
        UntouchedFirst(smons, w.c.smons, rest);
        ghost var was := smons;
        next', written := RearmSmon(m, p, next', w, q, Dues(w.c, front), written);
        UntouchedStep(was, w.c.smons, w.c.g.watched, front, rest, smons[p]);
        p := NextSmon(p, front, rest);
        front, rest := front + [rest[0]], rest[1..];
        WatchedSplit(w.c, front, rest);
        PrefixesOf(m.data[..m.cur], q, Dues(w.c, front), written);
      }
      assert front + [] == front;
      RearmDone(w.(c := abs, next := next'));
    }

    /** A timer pass: how much to send, when to wake up next, whether it failed, and
        the packet. */
    method PrepareQuery(elapsed: u32, m: Packet.Message)
      returns (sends: nat, next: u32, failed: bool, ghost written: seq<seq<K.Answer>>)
      requires Valid() && Good(abs) && Named(abs) && m.Valid()
      modifies this, m, m.data
      ensures var r := Prepare(old(abs), elapsed); Valid() && r == Walk(abs, r.q, sends, next, failed)
      ensures Good(abs) && m.Valid()
      ensures !failed && sends > 0 ==>
                var w := Questions(old(abs), elapsed);
                Packet.ValidMsg(QueryMsg(w.q)) && PacketOf(m.data[..m.cur], w, written)
    {
      hide Sound, NoOrphans, Rep, Sized, AgeRecords, AgeMonitors, Rearm, Below, Open, Named, Keeps, PacketOf, Dues, K.AllAsked,
           Written;
      PrepareSound(abs, elapsed);
      GoodSound(abs);
      failed, written := false, [];
      Begin(m);
      ghost var w := Walk(abs, Query([], Packet.HEADER_SIZE), 0, U32_MAX, false);
      LiveBelow(abs);
      AgeRecordsSound(w, abs.g.live, elapsed);
      AgeRecordsKeeps(w, abs.g.live, elapsed);
      ghost var w1 := AgeRecords(w, abs.g.live, elapsed);
      KeepsNamed(abs, w1.c);
      assert [] + w1.c.g.watched == w1.c.g.watched;
      WatchedRest(w1.c, [], w1.c.g.watched);
      sends, next := AgeArecs(elapsed, m, w);
      sends, next, failed := AgeSmons(elapsed, m, sends, next, w1);
      ghost var w2 := AgeMonitors(w1, w1.c.g.watched, elapsed);
      StillValid(m, w2.q);
      if !failed && sends != 0 {
        ReadyToAnswer(old(abs), elapsed);
        WatchedOnce(abs);
        next, written := RearmSmons(m, sends, next, w2);
      }
    }

    // ----- control -----

    method Monitored(n: Name) returns (status: Status)
      requires Valid() && Linked(abs.g)
      modifies this
      ensures Valid() && abs == AddService(old(abs), n)
      ensures status == InUse <==> FindMonitor(old(abs), n).Some?
      ensures status == NoMemory <==> FindMonitor(old(abs), n).None? && old(abs).g.unwatched == []
    {
      hide Rep, Sized, Below, Linked, FindMonitor;
      var found := FindServiceMonitor(n);
      if found.Some? { return InUse; }
      FreeHead();
      if ml.head[FREE] == NULL { return NoMemory; }
      UnwatchedEmpty(abs);
      var k, links := Activate(ml, abs.g.watched, abs.g.unwatched);
      ml := links;
      fqst := fqst[k := n];
      smons := smons[k := Monitor(1000, 0, 0)];
      sl := InitList(sl, k, abs.g.held, abs.g.spare);
      abs := AddService(abs, n);
      return Success;
    }

    /** A walk that unlinks every element it stands on, having looked ahead. */
    method CleanupService(k: nat)
      requires Valid() && Sound(abs, {}) && k < |smons|
      modifies this
      ensures Valid() && Sound(abs, {}) && |smons| == old(|smons|)
      ensures abs == CleanupAll(old(abs), old(abs).g.held[k]) && abs.g.held[k] == []
    {
      hide Sound, Rep, Sized, Below, CleanupInstance, Live;
      ghost var rest := abs.g.held[k];
      assert [] + rest == rest;
      HeldRest(abs, k, [], rest);
      ListUpdates(abs.g.held, abs.g.spare, k, []);
      First(sl, k, abs.g.held + [abs.g.spare]);
      var p := sl.head[k];
      while p != NULL
        invariant Valid() && Sound(abs, {}) && |smons| == old(|smons|)
        invariant abs.g.held[k] == rest && p == Elem(rest, 0) && Below(rest, |sinsts|)
        invariant CleanupAll(abs, rest) == CleanupAll(old(abs), old(abs).g.held[k])
        decreases |rest|
      {
        ListUpdates(abs.g.held, abs.g.spare, k, []);
        assert [] + rest == rest;
        Step(sl, k, abs.g.held + [abs.g.spare], [], rest);
        CleanupStep(abs, k, rest);
        SoundLinked(abs, {});
        var tmp := sl.next[p];
        CleanupSinst(p, true);
        p, rest := tmp, rest[1..];
      }
    }

    method DropMonitor(k: nat)
      requires Valid() && Sound(abs, {}) && k < |smons| && k in abs.g.watched
      modifies this
      ensures Valid() && Sound(abs, {}) && abs == RemoveMonitor(old(abs), k) && |smons| == old(|smons|)
    {
      hide Sound, Rep, Sized, Below, CleanupAll, Without;
      RemoveMonitorSound(abs, k);
      CleanupWatched(abs, k);
      CleanupService(k);
      ghost var watched, unwatched := abs.g.watched, abs.g.unwatched;
      RemovedLoose(ml, ACTIVE, [watched, unwatched], k);
      PairUpdates(watched, unwatched, Without(watched, k));
      ml := Remove(ml, ACTIVE, k, [watched, unwatched]);
      PairUpdates(Without(watched, k), unwatched, [k] + unwatched);
      ml := InsertHead(ml, FREE, k, [Without(watched, k), unwatched]);
      abs := abs.(g := Unwatch(abs.g, k));
    }

    method Unmonitored(n: Name)
      requires Valid() && Sound(abs, {})
      modifies this
      ensures Valid() && abs == RemoveService(old(abs), n)
    {
      hide Sound, Rep, Sized, Below, RemoveMonitor, FindMonitor;
      if n == [] {
        FreeHead();
        WatchedRest(abs, [], abs.g.watched);
        while ml.head[ACTIVE] != NULL
          invariant Valid() && Sound(abs, {}) && |ml.head| == 2 && (ml.head[ACTIVE] == NULL <==> abs.g.watched == [])
          invariant Below(abs.g.watched, |smons|) && |smons| == old(|smons|)
          invariant RemoveAll(abs, abs.g.watched) == RemoveAll(old(abs), old(abs).g.watched)
          decreases |abs.g.watched|
        {
          First(ml, ACTIVE, [abs.g.watched, abs.g.unwatched]);
          RemoveAllStep(abs);
          DropMonitor(ml.head[ACTIVE]);
          FreeHead();
        }
        return;
      }
      var k := FindServiceMonitor(n);
      if k.Some? {
        FoundMonitor(abs, n);
        DropMonitor(k.value);
      }
    }
  }

  /** The first n slots on one of several lists. */
  ghost function Lists(heads: nat, k: nat, n: nat): (r: seq<seq<nat>>)
    ensures |r| == heads
  {
    seq(heads, j => if j == k then Down(n) else [])
  }

  lemma ListsStart(n: nat, heads: nat, k: nat)
    ensures Rep(Links(seq(n, i => NULL), seq(heads, j => NULL)), Lists(heads, k, 0))
  {
  }

  lemma ListsStep(heads: nat, k: nat, n: nat)
    requires k < heads
    ensures Loose(Lists(heads, k, n), n) && Lists(heads, k, n)[k := [n] + Lists(heads, k, n)[k]] == Lists(heads, k, n + 1)
  {
  }

  /** The slots as the launch loop leaves them: all on one list. */
  method AllFree(n: nat, heads: nat, k: nat) returns (l: Links)
    requires k < heads
    ensures Rep(l, Lists(heads, k, n)) && |l.next| == n
  {
    hide Rep, Lists, Loose;
    l := Links(seq(n, i => NULL), seq(heads, j => NULL));
    ListsStart(n, heads, k);
    for i := 0 to n
      invariant Rep(l, Lists(heads, k, i)) && |l.next| == n
    {
      ListsStep(heads, k, i);
      l := InsertHead(l, k, i, Lists(heads, k, i));
    }
  }

  lemma LaunchLists(n: nat, m: nat)
    requires m > 0
    ensures var g := Launch(n, m).g;
            && g.held + [g.spare] == Lists(m + 1, m, n)
            && [g.live, g.idle] == Lists(2, FREE, n) && [g.watched, g.unwatched] == Lists(2, FREE, m)
            && Rep(Links(seq(n, i => NULL), seq(n, a => NULL)), g.xref)
  {
  }

  datatype Status = Success | InUse | NoMemory

  lemma UnwatchedEmpty(c: Cache)
    requires Fits(c) && Linked(c.g) && c.g.unwatched != []
    ensures c.g.unwatched[0] < |c.g.held| && Watch(c.g).held == c.g.held && c.g.held[c.g.unwatched[0]] == []
  {
    WatchLinked(c.g);
  }

  lemma CleanupStep(c: Cache, k: nat, rest: seq<nat>)
    requires Sound(c, {}) && k < |c.g.held| && c.g.held[k] == rest && rest != []
    ensures rest[0] < |c.g.owner| && Live(c.g, rest[0]) && Below(rest, |c.g.owner|) && Below(rest[1..], |c.g.owner|)
    ensures var d := CleanupInstance(c, rest[0], true);
            && Sound(d, {}) && |d.g.held| == |c.g.held| && d.g.held[k] == rest[1..]
            && CleanupAll(c, rest) == CleanupAll(d, rest[1..])
  {
    var i := rest[0];
    assert i in c.g.held[k];
    HeldIsLive(c.g, k, i);
    UnmonitoredSound(c, i);
    WithoutAt(rest, 0);
    FreeParts(c.g, i);
    assert rest[..0] + rest[1..] == rest[1..];
  }

  lemma CleanupWatched(c: Cache, k: nat)
    requires Sound(c, {}) && k < |c.g.held|
    ensures Below(c.g.held[k], |c.g.owner|) && CleanupAll(c, c.g.held[k]).g.watched == c.g.watched
  {
    AllHeldLive(c, k);
    CleanupAllSound(c, c.g.held[k]);
  }

  lemma RemoveAllStep(c: Cache)
    requires Sound(c, {}) && c.g.watched != [] && Below(c.g.watched, |c.g.held|)
    ensures var k := c.g.watched[0];
            && k in c.g.watched && k < |c.g.held|
            && Below(RemoveMonitor(c, k).g.watched, |c.g.held|) && RemoveMonitor(c, k).g.watched == c.g.watched[1..]
            && RemoveAll(c, c.g.watched) == RemoveAll(RemoveMonitor(c, k), RemoveMonitor(c, k).g.watched)
  {
    var k := c.g.watched[0];
    assert k in c.g.watched;
    RemoveMonitorSound(c, k);
    WithoutAt(c.g.watched, 0);
  }

  lemma FoundMonitor(c: Cache, n: Name)
    requires Fits(c) && FindMonitor(c, n).Some?
    ensures FindMonitor(c, n).value in c.g.watched
  {
  }

  /** What the second pass does to one monitor. */
  function RearmOne(w: Walk, k: nat): (r: Walk)
    requires Fits(w.c) && k < |w.c.g.held|
    ensures Fits(r.c) && SameSize(r.c, w.c)
  {
    var s := w.c.smons[k];
    if s.nextRefresh == 0 then w.(c := SetMonitor(w.c, k, s.(nextRefresh := s.period)), next := Min(w.next, s.period)) else w
  }

  lemma RearmStep(w: Walk, list: seq<nat>)
    requires Fits(w.c) && Below(list, |w.c.g.held|) && list != []
    ensures Below(list[1..], |w.c.g.held|) && Rearm(w, list) == Rearm(RearmOne(w, list[0]), list[1..])
  {
  }

  lemma RearmDone(w: Walk)
    requires Fits(w.c)
    ensures Below([], |w.c.g.held|) && Rearm(w, []) == w
  {
  }

  lemma MonitorsStep(w: Walk, list: seq<nat>, elapsed: u32)
    requires Fits(w.c) && Below(list, |w.c.g.held|) && list != []
    ensures Below(list[1..], |w.c.g.held|)
    ensures var w1 := AgeMonitor(w, list[0], elapsed);
            AgeMonitors(w, list, elapsed) ==
            if w1.failed then w1 else AgeMonitors(AgeInstances(w1, w1.c.g.held[list[0]], elapsed), list[1..], elapsed)
  {
    hide AgeMonitor, AgeInstances;
  }

  lemma MonitorsDone(w: Walk, elapsed: u32)
    requires Fits(w.c)
    ensures Below([], |w.c.g.held|) && AgeMonitors(w, [], elapsed) == w
  {
  }

  lemma BelowTail(s: seq<nat>, n: nat)
    requires Below(s, n) && s != []
    ensures s[0] < n && Below(s[1..], n)
  {
  }

  lemma RestBelow(c: Cache, front: seq<nat>, rest: seq<nat>)
    requires Fits(c) && c.g.live == front + rest
    ensures Below(rest, |c.g.owner|)
  {
    forall j | 0 <= j < |rest| ensures rest[j] < |c.g.owner| {
      assert c.g.live[|front| + j] == rest[j];
    }
  }

  lemma WatchedRest(c: Cache, front: seq<nat>, rest: seq<nat>)
    requires Fits(c) && c.g.watched == front + rest
    ensures Below(rest, |c.g.held|)
  {
    forall j | 0 <= j < |rest| ensures rest[j] < |c.g.held| {
      assert c.g.watched[|front| + j] == rest[j];
    }
  }

  lemma LiveBelow(c: Cache)
    requires Sound(c, {})
    ensures Below(c.g.live, |c.g.owner|)
  {
  }

  lemma LiveNoDup(c: Cache)
    requires Sound(c, {})
    ensures NoDup(c.g.live)
  {
  }

  /** The instances of a monitor still to be passed are cached. */
  lemma HeldRest(c: Cache, k: nat, front: seq<nat>, rest: seq<nat>)
    requires Sound(c, {}) && k < |c.g.held| && c.g.held[k] == front + rest
    ensures NoDup(c.g.held[k]) && Below(rest, |c.g.owner|)
    ensures rest != [] ==> rest[0] < |c.g.owner| && Live(c.g, rest[0]) && rest[0] in c.g.held[k] && Below(rest[1..], |c.g.owner|)
  {
    forall j | 0 <= j < |rest| ensures rest[j] < |c.g.owner| {
      assert c.g.held[k][|front| + j] == rest[j];
    }
    if rest != [] {
      var i := rest[0];
      assert i in c.g.held[k];
    }
  }

  lemma HeldAfter(w: Walk, k: nat, i: nat, elapsed: u32)
    requires Sound(w.c, {}) && k < |w.c.g.held| && i < |w.c.g.owner| && i in w.c.g.held[k]
    ensures var g := AgeInstance(w, i, elapsed).c.g;
            |g.held| == |w.c.g.held| && (g.held[k] == w.c.g.held[k] || g.held[k] == Without(w.c.g.held[k], i))
  {
    HeldIsLive(w.c.g, k, i);
    AgeInstanceHeld(w, i, elapsed);
    FreeParts(w.c.g, i);
  }

  lemma MonitorWalk(w: Walk, k: nat, elapsed: u32)
    requires Sound(w.c, {}) && k < |w.c.g.held|
    ensures Below(w.c.g.held[k], |w.c.g.owner|) && Sound(AgeInstances(w, w.c.g.held[k], elapsed).c, {})
    ensures AgeInstances(w, w.c.g.held[k], elapsed).c.g.watched == w.c.g.watched
  {
    AllHeldLive(w.c, k);
    AgeInstancesSound(w, w.c.g.held[k], elapsed);
  }


  lemma GoodSound(c: Cache)
    requires Good(c)
    ensures Sound(c, {}) && Fits(c)
  {
  }

  lemma FoundLive(c: Cache, k: nat, n: Name)
    requires Sound(c, {}) && k < |c.g.held| && FindInstance(c, k, n).Some?
    ensures FindInstance(c, k, n).value < |c.g.owner| && Live(c.g, FindInstance(c, k, n).value)
  {
    HeldIsLive(c.g, k, FindInstance(c, k, n).value);
  }

  lemma TxtsStep(c: Cache, rs: seq<TxtRec>, j: nat)
    requires Fits(c) && j < |rs|
    ensures TakeTxts(c, rs[j..]) == TakeTxts(TakeTxts(c, [rs[j]]), rs[j + 1..])
  {
    hide Belongs, GotTxt;
    assert rs[j..][1..] == rs[j + 1..] && rs[j..][0] == rs[j] && [rs[j]][1..] == [];
  }

  lemma AddrsStep(c: Cache, rs: seq<AddrRec>, j: nat)
    requires Fits(c) && j < |rs|
    ensures TakeAddrs(c, rs[j..]) == TakeAddrs(TakeAddrs(c, [rs[j]]), rs[j + 1..])
  {
    hide FindRecord, GotAddr;
    assert rs[j..][1..] == rs[j + 1..] && rs[j..][0] == rs[j] && [rs[j]][1..] == [];
  }

  lemma SrvsStep(c: Cache, rs: seq<SrvRec>, j: nat, elapsed: u32)
    requires Good(c) && j < |rs| && StableSrvs(c, rs[j..], elapsed)
    ensures var d := TakeSrvs(c, [rs[j]], elapsed);
            && Good(d) && StableSrvs(d, rs[j + 1..], elapsed)
            && TakeSrvs(c, rs[j..], elapsed) == TakeSrvs(d, rs[j + 1..], elapsed)
  {
    hide Belongs, GotSrv, Sound, Settled;
    GoodSound(c);
    assert rs[j..][1..] == rs[j + 1..] && rs[j..][0] == rs[j] && [rs[j]][1..] == [];
    assert StableSrvs(c, [rs[j]], elapsed);
    TakeSrvsGood(c, [rs[j]], elapsed);
  }

  lemma NoMoreAnswers(c: Cache, elapsed: u32)
    requires Fits(c)
    ensures TakeTxts(c, []) == c && TakeSrvs(c, [], elapsed) == c && TakeAddrs(c, []) == c
  {
  }

  lemma TakePtrsGood(c: Cache, p: Answers, elapsed: u32)
    requires Good(c)
    ensures Good(TakePtrs(c, p, p.ptrs, elapsed).0)
  {
    TakePtrsSound(c, p, p.ptrs, elapsed);
  }

  lemma GoodTxts(c: Cache, rs: seq<TxtRec>)
    requires Good(c)
    ensures Good(TakeTxts(c, rs))
  {
    TakeTxtsSound(c, rs);
  }

  /** What the packet says of an instance without a slot, taken out of the
      packet. */
  method CollectOverflow(p: Answers, n: Name) returns (q: Answers, s: Service)
    ensures q == p.(txts := KeptTxts(p.txts, n), srvs := KeptSrvs(p.srvs, n)) && s == OverflowService(p, n)
  {
    var txts, srvs, target;
    txts, s := CollectTxts(p.txts, n, FRESH.service);
    srvs, s, target := CollectSrvs(p.srvs, n, s);
    if target.Some? {
      s := CollectAddr(p.addrs, target.value, s);
    }
    q := p.(txts := txts, srvs := srvs);
  }

  method CollectTxts(rs: seq<TxtRec>, n: Name, s0: Service) returns (kept: seq<TxtRec>, s: Service)
    ensures kept == KeptTxts(rs, n) && s == FromTxts(s0, rs, n)
  {
    kept, s := [], s0;
    assert rs[0..] == rs;
    for j := 0 to |rs|
      invariant kept + KeptTxts(rs[j..], n) == KeptTxts(rs, n)
      invariant FromTxts(s, rs[j..], n) == FromTxts(s0, rs, n)
    {
      assert rs[j..][1..] == rs[j + 1..];
      if rs[j].name == n && rs[j].ttl != 0 {
        s := UpdateTxt(s, rs[j].rdata);
      } else {
        kept := kept + [rs[j]];
      }
    }
  }

  method CollectSrvs(rs: seq<SrvRec>, n: Name, s0: Service) returns (kept: seq<SrvRec>, s: Service, target: Option<Name>)
    ensures kept == KeptSrvs(rs, n) && (s, target) == FromSrvs(s0, None, rs, n)
  {
    kept, s, target := [], s0, None;
    assert rs[0..] == rs;
    for j := 0 to |rs|
      invariant kept + KeptSrvs(rs[j..], n) == KeptSrvs(rs, n)
      invariant FromSrvs(s, target, rs[j..], n) == FromSrvs(s0, None, rs, n)
    {
      assert rs[j..][1..] == rs[j + 1..];
      if rs[j].name == n && rs[j].ttl != 0 {
        s, target := s.(port := rs[j].port), Some(rs[j].target);
      } else {
        kept := kept + [rs[j]];
      }
    }
  }

  method CollectAddr(rs: seq<AddrRec>, n: Name, s0: Service) returns (s: Service)
    ensures s == FromAddrs(s0, rs, n)
  {
    s := s0;
    assert rs[0..] == rs;
    for j := 0 to |rs|
      invariant FromAddrs(s0, rs[j..], n) == FromAddrs(s0, rs, n)
    {
      assert rs[j..][1..] == rs[j + 1..];
      if rs[j].name == n && rs[j].ttl != 0 {
        return s.(ip := rs[j].ip);
      }
    }
  }

  /** The first free slot moves to the front of a monitor's list... */
  method Occupy(sl: Links, m: nat, k: nat, ghost held: seq<seq<nat>>, ghost spare: seq<nat>) returns (i: nat, r: Links)
    requires Rep(sl, held + [spare]) && k < |held| == m && spare != []
    ensures i == spare[0] && Rep(r, held[k := [spare[0]] + held[k]] + [spare[1..]]) && |r.next| == |sl.next|
  {
    hide Rep;
    ListUpdates(held, spare, k, []);
    First(sl, m, held + [spare]);
    PoppedLoose(sl, m, held + [spare]);
    ListUpdates(held, spare, m, spare[1..]);
    i := sl.head[m];
    r := RemoveHead(sl, m, held + [spare]);
    ListUpdates(held, spare[1..], k, [i] + held[k]);
    r := InsertHead(r, k, i, held + [spare[1..]]);
  }

  lemma IdleBelow(c: Cache)
    requires Fits(c) && c.g.idle != []
    ensures c.g.idle[0] < |c.g.owner|
  {
  }

  lemma SpareBelow(c: Cache)
    requires Fits(c) && c.g.spare != []
    ensures c.g.spare[0] < |c.g.owner| == |c.g.home|
  {
  }

  lemma TakenOwner(c: Cache, k: nat, n: Name)
    requires Fits(c) && c.g.spare != [] && k < |c.g.held|
    ensures var g, i := Taken(c, k, n).g, c.g.spare[0];
            && i < |g.owner| == |g.home| && g.owner[i] == k && g.home[i] == None && i in g.held[k] && |g.held| == |c.g.held|
  {
  }

  lemma SameHomes(c: Cache, i: nat)
    requires Slot(c, i)
    ensures |c.g.home| == |c.g.owner|
  {
  }

  lemma XrefSizes(c: Cache, pending: set<nat>)
    requires Sound(c, pending)
    ensures |c.g.xref| == |c.g.owner|
  {
  }

  lemma XrefBelow(c: Cache, a: nat)
    requires Sound(c, {}) && a < |c.g.xref|
    ensures Below(c.g.xref[a], |c.g.owner|)
  {
  }

  lemma SuffixBelow(c: Cache, a: nat, done: seq<nat>, rest: seq<nat>, pending: set<nat>)
    requires Sound(c, pending) && a < |c.g.xref| && c.g.xref[a] == done + rest
    ensures Below(rest, |c.g.owner|)
  {
    forall j | 0 <= j < |rest| ensures rest[j] < |c.g.owner| {
      assert c.g.xref[a][|done| + j] == rest[j];
    }
  }

  lemma SoundLinked(c: Cache, pending: set<nat>)
    requires Sound(c, pending)
    ensures Linked(c.g)
  {
  }

  lemma CanRelease(g: Graph, i: nat)
    requires Linked(g) && i < |g.owner| && Live(g, i)
    ensures |g.xref| == |g.home| == |g.owner| && g.owner[i] < |g.held| && i in g.held[g.owner[i]]
    ensures g.home[i].Some? ==> var a := g.home[i].value; a < |g.xref| && i in g.xref[a] && a in g.live
  {
    HomesAreLive(g);
  }

  /** An instance is on the list of its record, or on no record's list. */
  lemma CanRelink(g: Graph, i: nat)
    requires Linked(g) && i < |g.owner| && Live(g, i)
    ensures |g.xref| == |g.home| == |g.owner|
    ensures if g.home[i].Some? then g.home[i].value < |g.xref| && i in g.xref[g.home[i].value] else Loose(g.xref, i)
  {
  }

  /** The cache as the pass of a turn finds it. */
  function Heard(c: Cache, t: Turn): (r: Cache)
    requires Fits(c)
    ensures Fits(r) && SameSize(r, c)
  {
    var d := Controlled(c, t.control);
    if t.rx.Received? then UpdateCache(d, t.rx.answers, t.elapsed) else d
  }

  lemma RefusedSame(q: Query, n: Name, t: u16)
    ensures !Ask(q, n, t).1 ==> Ask(q, n, t).0 == q
  {
  }

  lemma HeldBelow(c: Cache, k: nat)
    requires Fits(c) && k < |c.g.held|
    ensures Below(c.g.held[k], |c.g.owner|)
  {
  }

  lemma SameWatch(w: Walk, k: nat, elapsed: u32)
    requires Fits(w.c) && k < |w.c.g.held|
    ensures AgeMonitor(w, k, elapsed).c.g == w.c.g
  {
    hide Ask;
  }

  lemma HeldSplit(c: Cache, k: nat, front: seq<nat>, rest: seq<nat>)
    requires Fits(c) && k < |c.g.held| && c.g.held[k] == front + rest
    ensures Below(front, |c.g.owner|) && Below(rest, |c.g.owner|) && Below(front + rest, |c.g.owner|)
  {
    forall j | 0 <= j < |front| ensures front[j] < |c.g.owner| {
      assert c.g.held[k][j] == front[j];
    }
    forall j | 0 <= j < |rest| ensures rest[j] < |c.g.owner| {
      assert c.g.held[k][|front| + j] == rest[j];
    }
  }

  lemma NoAnswersYet(c: Cache)
    requires Fits(c)
    ensures Below([], |c.g.owner|) && AnswersOf(c, []) == [] && K.ValidAnswers([])
  {
  }

  /** The next instance on a monitor's list, as far as it is known. */
  lemma NextAnswer(c: Cache, k: nat, front: seq<nat>, rest: seq<nat>)
    requires Fits(c) && k < |c.g.held| && c.g.held[k] == front + rest && rest != []
    requires K.ValidAnswers(AnswersOf(c, c.g.held[k]))
    requires Below(front, |c.g.owner|) && rest[0] < |c.g.owner| && Below(front + [rest[0]], |c.g.owner|)
    ensures var a, known := AnswerOf(c, rest[0]), K.Known(AnswersOf(c, front));
            && K.ValidAnswer(a) && a == K.Answer(Servname(c.fqsn[rest[0]]), c.sinsts[rest[0]].ptrTtl) && K.ValidAnswers(known + [a])
            && known <= K.Known(AnswersOf(c, c.g.held[k]))
            && K.Known(AnswersOf(c, front + [rest[0]])) == known + (if a.ptrTtl == 0 then [] else [a])
            && (a.ptrTtl != 0 ==> known + [a] <= K.Known(AnswersOf(c, c.g.held[k])))
  {
    hide K.Known;
    var all, n := AnswersOf(c, c.g.held[k]), |front|;
    assert all[n] == AnswerOf(c, rest[0]);
    assert all[..n] == AnswersOf(c, front) && all[..n + 1] == AnswersOf(c, front + [rest[0]]);
    K.KnownSnoc(all, n);
    K.KnownPrefix(all, n);
    K.KnownPrefix(all, n + 1);
    assert K.ValidAnswer(all[n]);
  }

  /** A due monitor has an offset that a pointer can hold, and answers that can be
      written. */
  lemma DueFacts(c: Cache, k: nat, q: seq<byte>)
    requires Fits(c) && k in c.g.watched && k < |c.g.held| && c.smons[k].nextRefresh == 0
    requires K.AllAsked(q, Dues(c, c.g.watched))
    ensures c.smons[k].offset < 0x4000 && K.ValidAnswers(AnswersOf(c, c.g.held[k]))
  {
    hide Dues, Encode, At;
    DueAmong(c, c.g.watched, k);
    assert K.Asked(q, DueOf(c, k));
  }

  /** The monitors on a list are as they were. */
  predicate Untouched(a: seq<Monitor>, b: seq<Monitor>, list: seq<nat>) {
    |a| == |b| && Below(list, |a|) && forall j :: 0 <= j < |list| ==> a[list[j]] == b[list[j]]
  }

  lemma AllUntouched(a: seq<Monitor>, list: seq<nat>)
    requires Below(list, |a|)
    ensures Untouched(a, a, list)
  {
  }

  lemma UntouchedStep(a: seq<Monitor>, b: seq<Monitor>, all: seq<nat>, front: seq<nat>, rest: seq<nat>, s: Monitor)
    requires NoDup(all) && all == front + rest && rest != [] && Untouched(a, b, rest)
    ensures rest[0] < |a| && Untouched(a[rest[0] := s], b, rest[1..])
  {
    forall j | 0 <= j < |rest[1..]| ensures rest[1..][j] != rest[0] {
      assert all[|front|] == rest[0] && all[|front| + 1 + j] == rest[1..][j];
    }
  }

  lemma UntouchedFirst(a: seq<Monitor>, b: seq<Monitor>, list: seq<nat>)
    requires Untouched(a, b, list) && list != []
    ensures list[0] < |a| == |b| && a[list[0]] == b[list[0]]
  {
  }

  lemma NoDues(c: Cache)
    requires Fits(c)
    ensures Below([], |c.g.held|) && Dues(c, []) == []
  {
  }

  lemma PrefixesOf(b: seq<byte>, q: seq<byte>, dues: seq<K.Due>, written: seq<seq<K.Answer>>)
    requires K.Answered(b, q, dues, written)
    ensures K.Prefixes(dues, written)
  {
  }

  lemma WatchedSplit(c: Cache, front: seq<nat>, rest: seq<nat>)
    requires Fits(c) && c.g.watched == front + rest
    ensures Below(front, |c.g.held|) && Below(rest, |c.g.held|)
  {
    forall j | 0 <= j < |front| ensures front[j] < |c.g.held| {
      assert c.g.watched[j] == front[j];
    }
    forall j | 0 <= j < |rest| ensures rest[j] < |c.g.held| {
      assert c.g.watched[|front| + j] == rest[j];
    }
  }

  lemma WatchedOnce(c: Cache)
    requires Good(c)
    ensures NoDup(c.g.watched)
  {
  }

  lemma StillValid(m: Packet.Message, q: Query)
    requires Open(m, q)
    ensures m.Valid()
  {
  }
}
