/** The pools of the querier (mdns/mdns_query.c): service instances, address
    records and monitors, each slot on a free list or in use. A live instance is
    on the list of its monitor and, once it has an address record, on the
    cross-reference list of that record too. */
module Pools {
  import opened Bytes
  import opened Slist

  /** For each instance the monitor it belongs to and its address record; for
      each monitor its instances; for each address record the instances that
      refer to it; and the free and active lists. */
  datatype Graph = Graph(
    owner: seq<nat>, home: seq<Option<nat>>,
    held: seq<seq<nat>>, spare: seq<nat>,
    xref: seq<seq<nat>>, live: seq<nat>, idle: seq<nat>,
    watched: seq<nat>, unwatched: seq<nat>)

  predicate Below(s: seq<nat>, n: nat) {
    forall j :: 0 <= j < |s| ==> s[j] < n
  }

  /** Every index is that of a slot; there are as many address records as
      instances. */
  predicate Sized(g: Graph) {
    var n, m := |g.owner|, |g.held|;
    && |g.home| == |g.xref| == n
    && Below(g.owner, m)
    && (forall i :: 0 <= i < n && g.home[i].Some? ==> g.home[i].value < n)
    && (forall k :: 0 <= k < m ==> Below(g.held[k], n))
    && (forall a :: 0 <= a < n ==> Below(g.xref[a], n))
    && Below(g.spare, n) && Below(g.live, n) && Below(g.idle, n)
    && Below(g.watched, m) && Below(g.unwatched, m)
  }

  lemma BelowWithout(s: seq<nat>, x: nat, n: nat)
    requires Below(s, n)
    ensures Below(Without(s, x), n)
  {
    forall j | 0 <= j < |Without(s, x)| ensures Without(s, x)[j] < n {
      assert Without(s, x)[j] in s;
    }
  }

  predicate Live(g: Graph, i: nat) {
    i < |g.owner| && g.owner[i] < |g.held| && i in g.held[g.owner[i]]
  }

  // ----- the invariant -----

  /** Each of n slots is on exactly one of two lists, once. */
  predicate Halves(s: seq<nat>, t: seq<nat>, n: nat) {
    && NoDup(s) && NoDup(t) && Below(s, n) && Below(t, n)
    && (forall x :: x in s ==> x !in t)
    && (forall x :: 0 <= x < n ==> x in s || x in t)
  }

  /** Each instance is on exactly one of the free list and the lists of the
      active monitors. */
  predicate Placed(g: Graph) {
    && NoDup(g.spare) && (forall k :: 0 <= k < |g.held| ==> NoDup(g.held[k]))
    && (forall k, i {:trigger i in g.held[k]} :: 0 <= k < |g.held| && i in g.held[k] ==>
          i < |g.owner| && g.owner[i] == k && i !in g.spare && k in g.watched)
    && (forall i :: 0 <= i < |g.owner| ==> i in g.spare || Live(g, i))
  }

  /** An instance is on the list of an address record exactly if it is live and
      refers to that record. */
  predicate Crossed(g: Graph)
    requires |g.owner| == |g.home| == |g.xref|
  {
    && (forall a :: 0 <= a < |g.xref| ==> NoDup(g.xref[a]))
    && (forall a, i {:trigger i in g.xref[a]} :: 0 <= a < |g.xref| && i in g.xref[a] ==>
          i < |g.owner| && Live(g, i) && g.home[i] == Some(a))
    && (forall i {:trigger Live(g, i)} :: 0 <= i < |g.owner| && Live(g, i) && g.home[i].Some? ==>
          g.home[i].value < |g.xref| && i in g.xref[g.home[i].value] && g.home[i].value in g.live)
  }

  predicate Linked(g: Graph) {
    && Sized(g)
    && Placed(g) && Crossed(g)
    && Halves(g.live, g.idle, |g.xref|) && Halves(g.watched, g.unwatched, |g.held|)
  }

  /** No address record is active without an instance. */
  predicate NoOrphans(g: Graph) {
    forall a {:trigger a in g.live} :: a in g.live && a < |g.xref| ==> g.xref[a] != []
  }

  // ----- the operations -----

  /** An instance leaves its monitor and its address record, which is freed with
      its last instance. */
  function Free(g: Graph, i: nat): (r: Graph)
    requires Sized(g) && i < |g.owner|
    ensures Sized(r) && |r.owner| == |g.owner| && |r.held| == |g.held|
  {
    BelowWithout(g.held[g.owner[i]], i, |g.owner|);
    var g1 := g.(held := g.held[g.owner[i] := Without(g.held[g.owner[i]], i)], spare := [i] + g.spare);
    match g.home[i]
    case None => g1
    case Some(a) =>
      BelowWithout(g.xref[a], i, |g.owner|);
      BelowWithout(g.live, a, |g.owner|);
      var g2 := g1.(xref := g1.xref[a := Without(g1.xref[a], i)]);
      if g2.xref[a] != [] then g2 else g2.(live := Without(g2.live, a), idle := [a] + g2.idle)
  }

  /** The first free instance goes to a monitor, with no address record. */
  function Alloc(g: Graph, k: nat): (r: Graph)
    requires Sized(g) && k < |g.held| && g.spare != []
    ensures Sized(r) && |r.owner| == |g.owner| && |r.held| == |g.held|
  {
    var i := g.spare[0];
    assert i in g.spare;
    g.(spare := g.spare[1..], held := g.held[k := [i] + g.held[k]],
       owner := g.owner[i := k], home := g.home[i := None])
  }

  /** An instance takes an active address record, leaving the one it had. */
  function Attach(g: Graph, i: nat, a: nat): (r: Graph)
    requires Sized(g) && i < |g.owner| && a < |g.owner|
    ensures Sized(r) && |r.owner| == |g.owner| && |r.held| == |g.held|
  {
    var x :=
      if g.home[i].Some? then
        BelowWithout(g.xref[g.home[i].value], i, |g.owner|);
        g.xref[g.home[i].value := Without(g.xref[g.home[i].value], i)]
      else g.xref;
    g.(xref := x[a := [i] + x[a]], home := g.home[i := Some(a)])
  }

  /** The first free address record becomes active, for no instance yet. */
  function Grab(g: Graph): (r: Graph)
    requires Sized(g) && g.idle != []
    ensures Sized(r) && |r.owner| == |g.owner| && |r.held| == |g.held|
  {
    var a := g.idle[0];
    assert a in g.idle;
    g.(idle := g.idle[1..], live := [a] + g.live, xref := g.xref[a := []])
  }

  /** An instance forgets its address record without leaving its list. */
  function Forget(g: Graph, i: nat): (r: Graph)
    requires Sized(g) && i < |g.owner|
    ensures Sized(r) && |r.owner| == |g.owner| && |r.held| == |g.held|
  {
    g.(home := g.home[i := None])
  }

  function Watch(g: Graph): (r: Graph)
    requires Sized(g) && g.unwatched != []
    ensures Sized(r) && |r.owner| == |g.owner| && |r.held| == |g.held|
  {
    var k := g.unwatched[0];
    assert k in g.unwatched;
    g.(unwatched := g.unwatched[1..], watched := [k] + g.watched, held := g.held[k := []])
  }

  /** A monitor without instances returns to the free list. */
  function Unwatch(g: Graph, k: nat): (r: Graph)
    requires Sized(g) && k < |g.held|
    ensures Sized(r) && |r.owner| == |g.owner| && |r.held| == |g.held|
  {
    BelowWithout(g.watched, k, |g.held|);
    g.(watched := Without(g.watched, k), unwatched := [k] + g.unwatched)
  }

  // ----- every operation keeps the invariant -----

  lemma HalvesMoved(s: seq<nat>, t: seq<nat>, n: nat, x: nat)
    requires Halves(s, t, n) && x in s
    ensures Halves(Without(s, x), [x] + t, n)
  {
    WithoutNoDup(s, x);
    BelowWithout(s, x, n);
  }

  lemma HalvesPopped(s: seq<nat>, t: seq<nat>, n: nat)
    requires Halves(s, t, n) && t != []
    ensures Halves([t[0]] + s, t[1..], n) && t[0] !in s && t[0] < n
  {
    TailNoDup(t);
    ConsNoDup(t[0], s);
  }

  /** An instance in the list of a monitor. */
  lemma HeldIsLive(g: Graph, k: nat, i: nat)
    requires Placed(g) && k < |g.held| && i in g.held[k]
    ensures Live(g, i) && g.owner[i] == k && i !in g.spare && k in g.watched
  {
  }

  lemma FreePlaced(g: Graph, i: nat)
    requires Sized(g) && Placed(g) && Live(g, i)
    ensures Placed(Free(g, i))
    ensures forall j: nat :: Live(Free(g, i), j) <==> Live(g, j) && j != i
  {
    var r, k := Free(g, i), g.owner[i];
    HeldIsLive(g, k, i);
    WithoutNoDup(g.held[k], i);
    ConsNoDup(i, g.spare);
    hide NoDup, Without, Below;
    forall j: nat ensures Live(r, j) <==> Live(g, j) && j != i {
      if Live(g, j) { HeldIsLive(g, g.owner[j], j); }
    }
  }

  lemma FreeCrossed(g: Graph, i: nat)
    requires Linked(g) && Live(g, i)
    ensures Crossed(Free(g, i))
  {
    FreePlaced(g, i);
    var r := Free(g, i);
    hide Placed, Halves, Below;
    if g.home[i].Some? {
      var a := g.home[i].value;
      WithoutNoDup(g.xref[a], i);
      CrossedFree(g, i, a, r);
    } else {
      assert r.xref == g.xref && r.live == g.live && r.home == g.home && |r.owner| == |g.owner|;
    }
  }

  lemma CrossedFree(g: Graph, i: nat, a: nat, r: Graph)
    requires |g.owner| == |g.home| == |g.xref| && Crossed(g) && Live(g, i) && g.home[i] == Some(a)
    requires r.owner == g.owner && r.home == g.home && a < |g.xref|
    requires forall j: nat :: Live(r, j) <==> Live(g, j) && j != i
    requires r.xref == g.xref[a := Without(g.xref[a], i)] && i !in r.xref[a] && NoDup(r.xref[a])
    requires r.live == g.live || (r.live == Without(g.live, a) && r.xref[a] == [])
    ensures Crossed(r)
  {
    hide NoDup, Live;
    forall b, j {:trigger j in r.xref[b]} | 0 <= b < |r.xref| && j in r.xref[b] ensures j < |r.owner| && Live(r, j) && r.home[j] == Some(b) {
      assert j in g.xref[b];
      assert Live(g, j) && g.home[j] == Some(b);
    }
    forall j {:trigger Live(r, j)} | 0 <= j < |r.owner| && Live(r, j) && r.home[j].Some?
      ensures r.home[j].value < |r.xref| && j in r.xref[r.home[j].value] && r.home[j].value in r.live
    {
      assert Live(g, j) && j in g.xref[g.home[j].value];
    }
  }

  lemma FreeLinked(g: Graph, i: nat)
    requires Linked(g) && Live(g, i)
    ensures Linked(Free(g, i))
    ensures forall j: nat :: Live(Free(g, i), j) <==> Live(g, j) && j != i
    ensures NoOrphans(g) ==> NoOrphans(Free(g, i))
  {
    hide Placed, Crossed, Halves, NoDup, Free, Live, NoOrphans;
    FreePlaced(g, i);
    FreeCrossed(g, i);
    FreeHalves(g, i);
  }

  lemma FreeHalves(g: Graph, i: nat)
    requires Linked(g) && Live(g, i)
    ensures var r := Free(g, i); Halves(r.live, r.idle, |r.xref|) && Halves(r.watched, r.unwatched, |r.held|)
    ensures NoOrphans(g) ==> NoOrphans(Free(g, i))
  {
    if g.home[i].Some? {
      var a := g.home[i].value;
      assert a in g.live;
      hide Placed, Crossed;
      HalvesMoved(g.live, g.idle, |g.xref|, a);
      WithoutNoDup(g.live, a);
    }
  }

  lemma AllocPlaced(g: Graph, k: nat)
    requires Sized(g) && Placed(g) && g.spare != [] && k in g.watched && k < |g.held|
    ensures Placed(Alloc(g, k)) && g.spare[0] < |g.owner| && !Live(g, g.spare[0])
    ensures forall j: nat :: Live(Alloc(g, k), j) <==> Live(g, j) || j == g.spare[0]
  {
    var r, i := Alloc(g, k), g.spare[0];
    TailNoDup(g.spare);
    ConsNoDup(i, g.held[k]);
    hide NoDup, Below;
    forall j: nat ensures Live(r, j) <==> Live(g, j) || j == i {
      if Live(g, j) { HeldIsLive(g, g.owner[j], j); }
    }
    forall b, j {:trigger j in r.held[b]} | 0 <= b < |r.held| && j in r.held[b]
      ensures j < |r.owner| && r.owner[j] == b && j !in r.spare && b in r.watched
    {
      if j != i { HeldIsLive(g, b, j); }
    }
  }

  lemma AllocLinked(g: Graph, k: nat)
    requires Linked(g) && g.spare != [] && k in g.watched
    ensures k < |g.held| && Linked(Alloc(g, k)) && Live(Alloc(g, k), g.spare[0]) && !Live(g, g.spare[0])
    ensures forall j: nat :: Live(Alloc(g, k), j) <==> Live(g, j) || j == g.spare[0]
    ensures NoOrphans(g) ==> NoOrphans(Alloc(g, k))
  {
    AllocPlaced(g, k);
    var r, i := Alloc(g, k), g.spare[0];
    hide Placed, Halves, NoDup, Live, Below;
    forall a, j {:trigger j in r.xref[a]} | 0 <= a < |r.xref| && j in r.xref[a] ensures j < |r.owner| && Live(r, j) && r.home[j] == Some(a) {
      assert Live(g, j) && g.home[j] == Some(a);
    }
  }

  lemma AttachLinked(g: Graph, i: nat, a: nat)
    requires Linked(g) && Live(g, i) && a in g.live
    ensures a < |g.owner| && Linked(Attach(g, i, a))
    ensures forall j: nat :: Live(Attach(g, i, a), j) <==> Live(g, j)
  {
    var r := Attach(g, i, a);
    assert Placed(r);
    forall j: nat ensures Live(r, j) <==> Live(g, j) {
    }
    hide Placed, Halves;
    var x := if g.home[i].Some? then g.xref[g.home[i].value := Without(g.xref[g.home[i].value], i)] else g.xref;
    if g.home[i].Some? {
      WithoutNoDup(g.xref[g.home[i].value], i);
    }
    assert i !in x[a];
    ConsNoDup(i, x[a]);
    hide NoDup, Live, Below;
    forall b, j {:trigger j in r.xref[b]} | 0 <= b < |r.xref| && j in r.xref[b] ensures j < |r.owner| && Live(r, j) && r.home[j] == Some(b) {
      if j != i { assert j in g.xref[b]; }
    }
    forall j {:trigger Live(r, j)} | 0 <= j < |r.owner| && Live(r, j) && r.home[j].Some?
      ensures r.home[j].value < |r.xref| && j in r.xref[r.home[j].value] && r.home[j].value in r.live
    {
      assert Live(g, j);
    }
  }

  /** Attaching leaves no orphan exactly if the record left behind, if any, has
      another instance. */
  lemma AttachOrphans(g: Graph, i: nat, a: nat)
    requires Linked(g) && Live(g, i) && a in g.live
    requires forall b :: b in g.live && b < |g.xref| && b != a ==> g.xref[b] != []
    ensures a < |g.owner|
    ensures NoOrphans(Attach(g, i, a)) <==>
            g.home[i].None? || g.home[i] == Some(a) || |g.xref[g.home[i].value]| >= 2
  {
    var r := Attach(g, i, a);
    hide Placed, Halves;
    if g.home[i].Some? {
      var h := g.home[i].value;
      WithoutNoDup(g.xref[h], i);
      assert h in g.live;
      if h != a {
        assert r.xref[h] == Without(g.xref[h], i);
      }
    }
  }

  lemma GrabLinked(g: Graph)
    requires Linked(g) && g.idle != []
    ensures Linked(Grab(g)) && g.idle[0] in Grab(g).live && g.idle[0] !in g.live && Grab(g).xref == g.xref
    ensures forall j: nat :: Live(Grab(g), j) <==> Live(g, j)
  {
    var r, a := Grab(g), g.idle[0];
    HalvesPopped(g.live, g.idle, |g.xref|);
    Unreferenced(g, a);
    assert r.xref == g.xref;
    assert Placed(r);
    hide Placed, Halves, NoDup, Below;
    forall j: nat ensures Live(r, j) <==> Live(g, j) {
    }
  }

  /** Only active records have instances. */
  lemma Unreferenced(g: Graph, a: nat)
    requires Linked(g) && a < |g.xref| && a !in g.live
    ensures g.xref[a] == []
  {
    hide Placed, Halves, NoDup, Below;
    HeadIn(g.xref[a]);
  }

  lemma Unheld(g: Graph, k: nat)
    requires Placed(g) && k < |g.held| && k !in g.watched
    ensures g.held[k] == []
  {
    hide NoDup;
    HeadIn(g.held[k]);
  }

  lemma WatchLinked(g: Graph)
    requires Linked(g) && g.unwatched != []
    ensures Linked(Watch(g)) && g.unwatched[0] in Watch(g).watched && g.unwatched[0] !in g.watched
    ensures Watch(g).held == g.held
    ensures forall j: nat :: Live(Watch(g), j) <==> Live(g, j)
    ensures NoOrphans(g) ==> NoOrphans(Watch(g))
  {
    var r, k := Watch(g), g.unwatched[0];
    HalvesPopped(g.watched, g.unwatched, |g.held|);
    Unheld(g, k);
    assert r.held == g.held;
    hide Halves, NoDup, Below;
    forall j: nat ensures Live(r, j) <==> Live(g, j) {
    }
    assert Placed(r);
  }

  lemma UnwatchLinked(g: Graph, k: nat)
    requires Linked(g) && k in g.watched && k < |g.held| && g.held[k] == []
    ensures Linked(Unwatch(g, k))
    ensures forall j: nat :: Live(Unwatch(g, k), j) <==> Live(g, j)
    ensures NoOrphans(g) ==> NoOrphans(Unwatch(g, k))
  {
    var r := Unwatch(g, k);
    HalvesMoved(g.watched, g.unwatched, |g.held|, k);
    hide Halves, NoDup, Below;
    forall j: nat ensures Live(r, j) <==> Live(g, j) {
    }
    forall b, j {:trigger j in r.held[b]} | 0 <= b < |r.held| && j in r.held[b]
      ensures j < |r.owner| && r.owner[j] == b && j !in r.spare && b in r.watched
    {
      assert b != k;
    }
    assert Placed(r);
  }

  // ----- pigeonhole and conservation -----

  ghost function Firsts(g: Graph, k: nat): (r: set<nat>)
    requires k <= |g.xref| && forall a :: 0 <= a < k ==> g.xref[a] != []
  {
    set a | 0 <= a < k :: g.xref[a][0]
  }

  lemma {:induction false} CountFirsts(g: Graph, k: nat)
    requires Linked(g) && k <= |g.xref| && forall a :: 0 <= a < k ==> g.xref[a] != []
    ensures |Firsts(g, k)| == k
  {
    if k > 0 {
      CountFirsts(g, k - 1);
      var x := g.xref[k - 1][0];
      hide Placed, Halves, NoDup, Sized, Live;
      assert x in g.xref[k - 1] && g.home[x] == Some(k - 1);
      forall a | 0 <= a < k - 1 ensures g.xref[a][0] != x {
        assert g.xref[a][0] in g.xref[a] && g.home[g.xref[a][0]] == Some(a);
      }
      assert x !in Firsts(g, k - 1);
      assert Firsts(g, k) == Firsts(g, k - 1) + {x};
    }
  }

  ghost function Range(n: nat): (r: set<nat>)
    ensures |r| == n && forall x :: x in r <==> 0 <= x < n
  {
    if n == 0 then {} else Range(n - 1) + {n - 1}
  }

  lemma {:induction false} Subset(a: set<nat>, b: set<nat>)
    requires a <= b
    ensures |a| <= |b|
    decreases a
  {
    if a != {} {
      var x :| x in a;
      Subset(a - {x}, b - {x});
    }
  }

  /** As long as some instance is not the first of a list, there is a record to
      spare: there are as many records as instances. */
  lemma NotFirst(g: Graph, i: nat)
    requires Linked(g) && NoOrphans(g) && i < |g.owner|
    requires forall a :: 0 <= a < |g.xref| && g.xref[a] != [] ==> g.xref[a][0] != i
    ensures g.idle != []
  {
    if g.idle == [] {
      var n := |g.xref|;
      forall a | 0 <= a < n ensures g.xref[a] != [] {
        assert a in g.live;
      }
      CountFirsts(g, n);
      forall x | x in Firsts(g, n) ensures x in Range(n) - {i} {
        var a :| 0 <= a < n && x == g.xref[a][0];
        assert x in g.xref[a];
      }
      Subset(Firsts(g, n), Range(n) - {i});
    }
  }

  /** An instance without an address record can always get one... */
  lemma Pigeonhole(g: Graph, i: nat)
    requires Linked(g) && NoOrphans(g) && Live(g, i) && g.home[i].None?
    ensures g.idle != []
  {
    forall a | 0 <= a < |g.xref| && g.xref[a] != [] ensures g.xref[a][0] != i {
      var x := g.xref[a][0];
      assert x in g.xref[a];
    }
    NotFirst(g, i);
  }

  /** ...and so can one that shares its record. */
  lemma SharedPigeonhole(g: Graph, a: nat)
    requires Linked(g) && NoOrphans(g) && a < |g.xref| && |g.xref[a]| >= 2
    ensures g.idle != []
  {
    var i := g.xref[a][1];
    assert i in g.xref[a];
    forall b | 0 <= b < |g.xref| && g.xref[b] != [] ensures g.xref[b][0] != i {
      var x := g.xref[b][0];
      assert x in g.xref[b];
    }
    NotFirst(g, i);
  }

  /** All slots of a pool are on one list. */
  predicate Whole(s: seq<nat>, n: nat) {
    NoDup(s) && |s| == n && forall x :: 0 <= x < n ==> x in s
  }

  lemma {:induction false} WholeLength(s: seq<nat>, n: nat)
    requires NoDup(s) && Below(s, n) && forall x :: 0 <= x < n ==> x in s
    ensures Whole(s, n)
  {
    ElementCount(s);
    assert Elements(s) == Range(n);
  }

  ghost function Elements(s: seq<nat>): set<nat> {
    set x | x in s
  }

  lemma {:induction false} ElementCount(s: seq<nat>)
    requires NoDup(s)
    ensures |Elements(s)| == |s|
  {
    if s == [] {
      assert Elements(s) == {};
    } else {
      TailNoDup(s);
      ElementCount(s[1..]);
      assert Elements(s) == Elements(s[1..]) + {s[0]};
    }
  }

  /** With no monitor left every slot is free again. */
  lemma Conserved(g: Graph)
    requires Linked(g) && NoOrphans(g) && g.watched == []
    ensures Whole(g.spare, |g.owner|) && Whole(g.idle, |g.owner|) && Whole(g.unwatched, |g.held|)
    ensures g.live == []
  {
    forall k | 0 <= k < |g.held| ensures g.held[k] == [] {
      Unheld(g, k);
    }
    forall a | 0 <= a < |g.xref| ensures g.xref[a] == [] {
      HeadIn(g.xref[a]);
    }
    HeadIn(g.live);
    WholeLength(g.spare, |g.owner|);
    WholeLength(g.idle, |g.owner|);
    WholeLength(g.unwatched, |g.held|);
  }
}
