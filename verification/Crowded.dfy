/** A run of the querier (mdns/mdns_query.c), from launch on, after which the
    questions of its monitors do not fit a packet any more: the instance behind
    them is kept for ever, and no pass schedules another. */
module Crowded {
  import opened Bytes
  import opened Names
  import opened Slist
  import opened Pools
  import opened Cache
  import opened CacheInv
  import opened CacheSteps
  import opened CacheRun
  import opened Wakeup
  import opened Silence
  import opened Pacing
  import Packet
  import Unreported

  // ----- six long types -----

  function Filler(n: nat): (l: Label)
    ensures |l| == n
  {
    seq(n, _ => 97)
  }

  /** The i-th of six types, of 242 octets each. */
  function TypeName(i: nat): Name
    requires i < 6
  {
    [[97 + i] + Filler(61), UNDERSCORE_TCP, Filler(62), Filler(62), Filler(46)]
  }

  lemma TypeSize(i: nat)
    requires i < 6
    ensures WireSize(TypeName(i)) == 242
  {
    var n: Name := TypeName(i);
    var end: Name := n[5..];
    assert end == [] && n[4..][1..] == end && n[3..][1..] == n[4..] && n[2..][1..] == n[3..] && n[1..][1..] == n[2..];
    assert WireSize(end) == 1 && WireSize(n[4..]) == 48 && WireSize(n[3..]) == 111 && WireSize(n[2..]) == 174 && WireSize(n[1..]) == 179;
  }

  lemma TypesDiffer(i: nat, j: nat)
    requires i < 6 && j < 6 && i != j
    ensures TypeName(i) != TypeName(j)
  {
    assert TypeName(i)[0][0] != TypeName(j)[0][0];
  }

  /** An instance of the first of them. */
  function InstanceName(): Name {
    [[97]] + TypeName(0)
  }

  lemma InstanceFits()
    ensures ServInfo(InstanceName())
  {
    TypeSize(0);
    assert InstanceName()[1..] == TypeName(0);
  }

  // ----- six turns -----

  /** The first j types are monitored, the latest first, and nothing is cached. */
  predicate Monitoring(c: Cache, j: nat) {
    && Good(c) && Paced(c) && |c.g.owner| == 1 && |c.g.held| == 6 && c.g.live == [] && |c.g.watched| == j <= 6
    && (forall t :: 0 <= t < j ==> c.fqst[c.g.watched[t]] == TypeName(j - 1 - t))
    && (forall k :: 0 <= k < 6 ==> c.g.held[k] == [])
  }

  lemma NoneMonitored()
    ensures Monitoring(Launch(1, 6), 0)
  {
    LaunchGood(1, 6);
    LaunchPaced(1, 6);
  }

  function StartTurn(i: nat): Turn
    requires i < 6
  {
    Turn(Some(Start(TypeName(i))), Silent, 1)
  }

  lemma OneMoreType(c: Cache, j: nat)
    requires Monitoring(c, j) && j < 6
    ensures Monitoring(AddService(c, TypeName(j)), j + 1)
  {
    var n := TypeName(j);
    NotYet(c, j);
    FreeMonitor(c);
    AddServiceSound(c, n);
    hide Sound, NoOrphans, TypeName, FindMonitor, Halves;
    var k, d := c.g.unwatched[0], AddService(c, n);
    assert d.g.watched == [k] + c.g.watched;
    forall t | 0 <= t < j + 1 ensures d.fqst[d.g.watched[t]] == TypeName(j - t) {
      if t > 0 {
        assert d.g.watched[t] == c.g.watched[t - 1] && c.g.watched[t - 1] in c.g.watched;
      }
    }
  }

  lemma NotYet(c: Cache, j: nat)
    requires Monitoring(c, j) && j < 6
    ensures FindMonitor(c, TypeName(j)) == None
  {
    hide Linked, Keys, Coherent, Logged, SafeLog, NoOrphans, TypeName;
    var r := FindMonitor(c, TypeName(j));
    if r.Some? {
      var t: nat :| t < |c.g.watched| && c.g.watched[t] == r.value;
      TypesDiffer(j, j - 1 - t);
      assert false;
    }
  }

  lemma FreeMonitor(c: Cache)
    requires Good(c) && |c.g.watched| < |c.g.held|
    ensures c.g.unwatched != [] && c.g.unwatched[0] !in c.g.watched
  {
    ElementCount(c.g.watched);
    if c.g.unwatched == [] {
      Subset(Range(|c.g.held|), Elements(c.g.watched));
    } else {
      var k := c.g.unwatched[0];
      assert k in c.g.unwatched;
    }
  }

  lemma PassMonitoring(c: Cache, j: nat)
    requires Monitoring(c, j)
    ensures Monitoring(Prepare(c, 1).c, j)
  {
    hide Prepare, Linked, Keys, Coherent, Logged, SafeLog, NoOrphans, Refresh.Rank, Refresh.RecordRank, Live, TypeName, Paced;
    PassOlder(c, 1);
    PreparePaced(c, 1);
    var d := Prepare(c, 1).c;
    HeadIn(d.g.live);
    forall k | 0 <= k < 6 ensures d.g.held[k] == [] {
      StaysEmpty(c, d, k);
    }
  }

  /** The turns that monitor the types from the i-th on. */
  function StartTurns(i: nat): seq<Turn>
    requires i <= 6
    decreases 6 - i
  {
    if i == 6 then [] else [StartTurn(i)] + StartTurns(i + 1)
  }

  lemma StartStep(c: Cache, i: nat)
    requires Fits(c) && Monitoring(c, i) && i < 6
    ensures Monitoring(TakeTurn(c, StartTurn(i)), i + 1) && StableTurn(c, StartTurn(i))
  {
    hide Monitoring, Prepare, AddService, TypeName;
    OneMoreType(c, i);
    PassMonitoring(AddService(c, TypeName(i)), i + 1);
    assert TakeTurn(c, StartTurn(i)) == Prepare(AddService(c, TypeName(i)), 1).c;
  }

  lemma {:induction false} StartRun(c: Cache, i: nat, more: seq<Turn>)
    requires Fits(c) && Monitoring(c, i) && i <= 6
    ensures Monitoring(Run(c, StartTurns(i)), 6)
    ensures Run(c, StartTurns(i) + more) == Run(Run(c, StartTurns(i)), more)
    ensures StableRun(c, StartTurns(i) + more) <==> StableRun(Run(c, StartTurns(i)), more)
    decreases 6 - i
  {
    hide Monitoring, TakeTurn, StableTurn, StartTurn;
    if i == 6 {
      assert [] + more == more;
    } else {
      StartStep(c, i);
      StartRun(TakeTurn(c, StartTurn(i)), i + 1, more);
      var ts := StartTurns(i);
      assert ts[0] == StartTurn(i) && ts[1..] == StartTurns(i + 1);
      assert (ts + more)[0] == StartTurn(i) && (ts + more)[1..] == StartTurns(i + 1) + more;
    }
  }

  // ----- the instance -----

  function Found(): Answers {
    Answers(true, [PtrRec(TypeName(0), InstanceName(), 4500)], [], [], [])
  }

  /** A PTR for the first type, after a minute of sleep. */
  function LastTurn(): Turn {
    Turn(None, Received(Found()), 60000)
  }

  lemma FirstMonitor(c: Cache)
    requires Monitoring(c, 6)
    ensures FindMonitor(c, TypeName(0)) == Some(c.g.watched[5])
  {
    hide Linked, Keys, Coherent, Logged, SafeLog, NoOrphans, TypeName;
    var last := c.g.watched[5];
    assert last in c.g.watched && c.fqst[last] == TypeName(0);
    var r := FindMonitor(c, TypeName(0));
    var t: nat :| t < |c.g.watched| && c.g.watched[t] == r.value;
    if t != 5 {
      TypesDiffer(0, 5 - t);
      assert false;
    }
  }

  /** One instance, of the monitor that is last on the list. */
  predicate Cached(c: Cache) {
    && Good(c) && Paced(c) && |c.g.owner| == 1 && |c.g.held| == 6 && c.g.live == [] && |c.g.watched| == 6
    && (forall t :: 0 <= t < 6 ==> c.fqst[c.g.watched[t]] == TypeName(5 - t))
    && (forall t :: 0 <= t < 5 ==> c.g.held[c.g.watched[t]] == [])
    && c.g.held[c.g.watched[5]] == [0] && c.g.home[0] == None
  }

  lemma FreeSlot(c: Cache)
    requires Good(c) && |c.g.owner| == 1 && forall k :: 0 <= k < |c.g.held| ==> c.g.held[k] == []
    ensures c.g.spare != [] && c.g.spare[0] == 0
  {
    assert 0 in c.g.spare;
  }

  lemma FindsInstance(c: Cache, p: Answers)
    requires Monitoring(c, 6)
    ensures TakePtr(c, p, Found().ptrs[0], 60000).1 == p && Cached(TakePtr(c, p, Found().ptrs[0], 60000).0)
  {
    var k, n := c.g.watched[5], InstanceName();
    assert k in c.g.watched;
    FirstMonitor(c);
    FreeSlot(c);
    InstanceFits();
    assert FindInstance(c, k, n) == None;
    NewInstanceSound(c, k, n, 4500, 60000);
    WatchedNoDup(c);
    hide Sound, NoOrphans, TypeName, FindMonitor, FindInstance, ServInfo, InstanceName, Paced;
    var d := NewInstance(c, k, n, 4500, 60000);
    assert d.g == Alloc(c.g, 0 + k);
    assert [0] + [] == [0];
    SamePace(c, d);
  }

  lemma PacketCached(c: Cache)
    requires Monitoring(c, 6)
    ensures Cached(UpdateCache(c, Found(), 60000)) && Stable(c, Found(), 60000)
  {
    hide TakePtr, TakePtrs, Monitoring, Cached, TypeName, InstanceName;
    var p := Found();
    MonitoringFits(c);
    FindsInstance(c, p);
    Unreported.PtrAlone(c, p, p.ptrs[0], 60000);
    var d := TakePtr(c, p, p.ptrs[0], 60000).0;
    Unreported.Nothing(d, p, 60000);
  }

  lemma MonitoringFits(c: Cache)
    requires Monitoring(c, 6)
    ensures Fits(c)
  {
  }

  // ----- the pass that fails -----

  lemma {:induction false} SizeOfTypes(fqst: seq<Name>, ks: seq<nat>)
    requires Below(ks, |fqst|) && forall t :: 0 <= t < |ks| ==> WireSize(fqst[ks[t]]) == 242
    ensures TypesSize(fqst, ks) == 246 * |ks|
    decreases |ks|
  {
    hide WireSize;
    if ks != [] {
      SizeOfTypes(fqst, ks[1..]);
    }
  }

  lemma SizesOf(c: Cache, n: nat)
    requires Cached(c) && n <= 6
    ensures Fits(c) && Below(c.g.watched[..n], |c.fqst|) && TypesSize(c.fqst, c.g.watched[..n]) == 246 * n
  {
    hide WireSize, TypeName, Linked, Keys, Coherent, Logged, SafeLog, NoOrphans;
    var ks := c.g.watched[..n];
    forall t | 0 <= t < n ensures WireSize(c.fqst[ks[t]]) == 242 {
      TypeSize(5 - t);
    }
    SizeOfTypes(c.fqst, ks);
  }

  /** The state the run ends in: nothing can change it but a packet or a user. */
  predicate Crowd(c: Cache) {
    && Good(c) && |c.g.watched| == 6 && Live(c.g, 0) && c.g.held[c.g.watched[5]] == [0] && c.g.home[0] == None
    && Stuck(c, 5) && !RoomForTypes(c)
  }

  lemma FailingPass(c: Cache)
    requires Cached(c)
    ensures Crowd(Prepare(c, 60000).c) && Prepare(c, 60000).failed
  {
    SizesOf(c, 5);
    SizesOf(c, 6);
    assert c.g.watched[..6] == c.g.watched;
    PrepareSound(c, 60000);
    HeldIsLive(c.g, c.g.watched[5], 0);
    hide Sound, NoOrphans, TypeName, AgeMonitors, TypesSize, WireSize;
    NotReached(Walk(c, Query([], Packet.HEADER_SIZE), 0, U32_MAX, false), c.g.watched, 5, 60000);
  }

  function Story(): seq<Turn> {
    StartTurns(0) + [LastTurn()]
  }

  /** Six types are monitored, an instance of the first is found, and a minute later
      all of them are to ask.  From then on no pass empties the cache, whatever time
      goes by, and none schedules another. */
  lemma NeverEmptied(es: seq<u32>, elapsed: u32)
    ensures var c := Run(Launch(1, 6), Story());
            && StableRun(Launch(1, 6), Story()) && Good(c) && !RoomForTypes(c) && !Homed(c) && !Empties(c)
            && Live(Passes(c, es).g, 0) && Prepare(Passes(c, es), elapsed).next == U32_MAX
  {
    hide Launch, Monitoring, Good, Passes, Cached, TakeTurn, StableTurn, Empties, Homed, Stuck, RoomForTypes, Live;
    NoneMonitored();
    var l, last := Launch(1, 6), LastTurn();
    StartRun(l, 0, [last]);
    var m := Run(l, StartTurns(0));
    var c := LastStep(m);
    assert [last][1..] == [];
    assert Run(m, [last]) == Run(c, []) == c;
    assert StableRun(m, [last]);
    CrowdStays(c, es, elapsed);
  }

  lemma LastStep(m: Cache) returns (c: Cache)
    requires Fits(m) && Monitoring(m, 6)
    ensures c == TakeTurn(m, LastTurn()) && StableTurn(m, LastTurn()) && Crowd(c) && Fits(c)
  {
    hide Monitoring, UpdateCache, Prepare, Cached, Crowd, Found, Stable;
    PacketCached(m);
    FailingPass(UpdateCache(m, Found(), 60000));
    c := TakeTurn(m, LastTurn());
  }

  lemma CrowdStays(c: Cache, es: seq<u32>, elapsed: u32)
    requires Fits(c) && Crowd(c)
    ensures Good(c) && !RoomForTypes(c) && !Homed(c) && !Empties(c)
    ensures Live(Passes(c, es).g, 0) && Prepare(Passes(c, es), elapsed).next == U32_MAX
  {
    hide Good, Stuck, Passes, Prepare, Empties, TypesSize, FitCount, Live;
    AllFit(c.fqst, c.g.watched, Packet.HEADER_SIZE);
    var i := c.g.held[c.g.watched[5]][0];
    assert i in c.g.held[c.g.watched[5]];
    EmptiesIff(c);
    NeverEmpties(c, 5, es);
    StuckPass(Passes(c, es), 5, elapsed);
  }
}
