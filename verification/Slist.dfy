/** Intrusive singly-linked lists (SLIST_* in mdns/queue.h): several list heads
    over one link field of a pool of elements. */
module Slist {
  const NULL := -1

  datatype Links = Links(next: seq<int>, head: seq<int>)

  // ----- lists as values -----

  predicate NoDup(s: seq<nat>) {
    forall i, j :: 0 <= i < j < |s| ==> s[i] != s[j]
  }

  function Without(s: seq<nat>, x: nat): (r: seq<nat>)
    ensures forall y :: y in r ==> y in s
    ensures forall y :: y in s && y != x ==> y in r
    ensures |r| <= |s|
  {
    if s == [] then [] else if s[0] == x then s[1..] else [s[0]] + Without(s[1..], x)
  }

  /** Removing the element at a known place. */
  lemma {:induction false} WithoutAt(s: seq<nat>, j: nat)
    requires j < |s| && s[j] !in s[..j]
    ensures Without(s, s[j]) == s[..j] + s[j + 1..]
  {
    if j > 0 {
      assert s[1..][j - 1] == s[j] && s[1..][..j - 1] == s[1..j] == s[..j][1..];
      assert s[0] == s[..j][0] && s[0] != s[j];
      WithoutAt(s[1..], j - 1);
      assert s[..j] + s[j + 1..] == [s[0]] + (s[1..][..j - 1] + s[1..][j..]);
    }
  }

  lemma {:induction false} Find(s: seq<nat>, x: nat) returns (j: nat)
    requires x in s
    ensures j < |s| && s[j] == x && x !in s[..j]
  {
    if s[0] == x {
      j := 0;
    } else {
      assert s == [s[0]] + s[1..];
      j := Find(s[1..], x);
      j := j + 1;
      assert s[..j] == [s[0]] + s[1..][..j - 1];
    }
  }

  lemma WithoutNoDup(s: seq<nat>, x: nat)
    requires NoDup(s)
    ensures NoDup(Without(s, x)) && x !in Without(s, x)
    ensures x in s ==> |Without(s, x)| == |s| - 1
    ensures x !in s ==> Without(s, x) == s
  {
    if x in s {
      var j := Find(s, x);
      WithoutAt(s, j);
    } else {
      WithoutAbsent(s, x);
    }
  }

  lemma {:induction false} WithoutAbsent(s: seq<nat>, x: nat)
    requires x !in s
    ensures Without(s, x) == s
  {
    if s != [] {
      assert s == [s[0]] + s[1..];
      assert forall y :: y in s[1..] ==> y in s;
      WithoutAbsent(s[1..], x);
    }
  }

  lemma HeadIn(s: seq<nat>)
    ensures s == [] || exists x: nat :: x in s
  {
    if s != [] {
      var x := s[0];
      assert x in s;
    }
  }

  lemma ConsNoDup(x: nat, s: seq<nat>)
    requires NoDup(s) && x !in s
    ensures NoDup([x] + s)
  {
  }

  lemma TailNoDup(s: seq<nat>)
    requires NoDup(s) && s != []
    ensures NoDup(s[1..]) && s[0] !in s[1..] && s[0] in s
    ensures forall x :: x in s <==> x == s[0] || x in s[1..]
  {
    assert s == [s[0]] + s[1..];
  }

  // ----- lists as links -----

  /** The j-th element, or the null that ends the list. */
  function Elem(s: seq<nat>, j: nat): int {
    if j < |s| then s[j] else NULL
  }

  predicate Chain(next: seq<int>, p: int, s: seq<nat>) {
    && p == Elem(s, 0)
    && (forall j :: 0 <= j < |s| ==> s[j] < |next| && next[s[j]] == Elem(s, j + 1))
  }

  /** No element is on two lists, or twice on one. */
  predicate Apart(ls: seq<seq<nat>>) {
    && (forall k :: 0 <= k < |ls| ==> NoDup(ls[k]))
    && (forall k, k', x :: 0 <= k < |ls| && 0 <= k' < |ls| && k != k' && x in ls[k] ==> x !in ls[k'])
  }

  /** The links hold these lists. */
  predicate Rep(l: Links, ls: seq<seq<nat>>) {
    && |l.head| == |ls|
    && (forall k :: 0 <= k < |ls| ==> Chain(l.next, l.head[k], ls[k]))
    && Apart(ls)
  }

  /** x is on none of the lists. */
  predicate Loose(ls: seq<seq<nat>>, x: nat) {
    forall k :: 0 <= k < |ls| ==> x !in ls[k]
  }

  lemma ApartReplaced(ls: seq<seq<nat>>, k: nat, s: seq<nat>)
    requires Apart(ls) && k < |ls| && NoDup(s)
    requires forall x :: x in s ==> x in ls[k] || Loose(ls, x)
    ensures Apart(ls[k := s])
  {
  }

  lemma ChainKept(next: seq<int>, p: int, s: seq<nat>, x: nat, q: int)
    requires Chain(next, p, s) && x !in s && x < |next|
    ensures Chain(next[x := q], p, s)
  {
    forall j | 0 <= j < |s| ensures next[x := q][s[j]] == Elem(s, j + 1) {
      assert s[j] in s;
    }
  }

  method InsertHead(l: Links, k: nat, x: nat, ghost ls: seq<seq<nat>>) returns (r: Links)
    requires Rep(l, ls) && k < |ls| && x < |l.next| && Loose(ls, x)
    ensures Rep(r, ls[k := [x] + ls[k]]) && |r.next| == |l.next|
  {
    r := l.(next := l.next[x := l.head[k]], head := l.head[k := x]);
    ghost var s := [x] + ls[k];
    ApartReplaced(ls, k, s);
    assert Chain(r.next, x, s) by {
      forall j | 0 <= j < |s| ensures s[j] < |r.next| && r.next[s[j]] == Elem(s, j + 1) {
        if j > 0 { assert s[j] == ls[k][j - 1] && s[j] in ls[k]; }
      }
    }
    forall k' | 0 <= k' < |ls| && k' != k ensures Chain(r.next, r.head[k'], ls[k']) {
      ChainKept(l.next, l.head[k'], ls[k'], x, l.head[k]);
    }
  }

  method RemoveHead(l: Links, k: nat, ghost ls: seq<seq<nat>>) returns (r: Links)
    requires Rep(l, ls) && k < |ls| && ls[k] != []
    ensures Rep(r, ls[k := ls[k][1..]]) && r.next == l.next
  {
    assert Chain(l.next, l.head[k], ls[k]);
    r := l.(head := l.head[k := l.next[l.head[k]]]);
    ghost var s := ls[k][1..];
    ApartReplaced(ls, k, s);
    forall j | 0 <= j < |s| ensures s[j] < |r.next| && r.next[s[j]] == Elem(s, j + 1) {
      assert s[j] == ls[k][j + 1];
    }
  }

  /** A member is unlinked wherever it stands; its own link still leads to the
      element that followed it. */
  method Remove(l: Links, k: nat, x: nat, ghost ls: seq<seq<nat>>) returns (r: Links)
    requires Rep(l, ls) && k < |ls| && x in ls[k]
    ensures Rep(r, ls[k := Without(ls[k], x)]) && |r.next| == |l.next|
    ensures x < |l.next| && r.next[x] == l.next[x]
  {
    ghost var s := ls[k];
    assert Chain(l.next, l.head[k], s);
    if l.head[k] == x {
      r := RemoveHead(l, k, ls);
    } else {
      var cur := l.head[k];
      ghost var at := Find(s, x);
      ghost var j := 0;
      while l.next[cur] != x
        invariant 0 <= j < at && cur == s[j]
        decreases at - j
      {
        cur := l.next[cur];
        j := j + 1;
      }
      SameElement(s, j + 1, at);
      r := l.(next := l.next[cur := l.next[l.next[cur]]]);
      Unlinked(l, k, ls, j, r);
    }
  }

  lemma SameElement(s: seq<nat>, i: nat, j: nat)
    requires NoDup(s) && i < |s| && j < |s| && s[i] == s[j]
    ensures i == j
  {
  }

  lemma ChainCut(next: seq<int>, p: int, s: seq<nat>, j: nat)
    requires NoDup(s) && Chain(next, p, s) && j + 1 < |s|
    ensures s[j] < |next| && Chain(next[s[j] := Elem(s, j + 2)], p, s[..j + 1] + s[j + 2..])
  {
    var t := s[..j + 1] + s[j + 2..];
    var n := next[s[j] := Elem(s, j + 2)];
    forall i | 0 <= i < |t| ensures t[i] < |n| && n[t[i]] == Elem(t, i + 1) {
      if i <= j { assert t[i] == s[i]; } else { assert t[i] == s[i + 1]; }
    }
  }

  lemma CutOut(s: seq<nat>, j: nat)
    requires NoDup(s) && j < |s|
    ensures Without(s, s[j]) == s[..j] + s[j + 1..] && NoDup(s[..j] + s[j + 1..])
    ensures forall x :: x in s[..j] + s[j + 1..] ==> x in s
  {
    hide Without;
    WithoutAt(s, j);
    var t := s[..j] + s[j + 1..];
    forall a, b | 0 <= a < b < |t| ensures t[a] != t[b] {
      assert t[a] == s[if a < j then a else a + 1] && t[b] == s[if b < j then b else b + 1];
    }
  }

  lemma Unlinked(l: Links, k: nat, ls: seq<seq<nat>>, j: nat, r: Links)
    requires Rep(l, ls) && k < |ls| && j + 1 < |ls[k]| && ls[k][j] < |l.next|
    requires r == l.(next := l.next[ls[k][j] := Elem(ls[k], j + 2)])
    ensures Rep(r, ls[k := Without(ls[k], ls[k][j + 1])])
  {
    hide Chain, Elem, Without;
    var s, x := ls[k], ls[k][j + 1];
    var t := s[..j + 1] + s[j + 2..];
    CutOut(s, j + 1);
    ApartReplaced(ls, k, t);
    ChainCut(l.next, l.head[k], s, j);
    forall k' | 0 <= k' < |ls| && k' != k ensures Chain(r.next, r.head[k'], ls[k']) {
      assert s[j] in ls[k];
      ChainKept(l.next, l.head[k'], ls[k'], s[j], Elem(s, j + 2));
    }
  }

  /** Walking a list: the link of an element leads to the next one. */
  lemma Step(l: Links, k: nat, ls: seq<seq<nat>>, front: seq<nat>, rest: seq<nat>)
    requires Rep(l, ls) && k < |ls| && ls[k] == front + rest && rest != []
    ensures rest[0] < |l.next| && l.next[rest[0]] == Elem(rest, 1)
  {
    assert Chain(l.next, l.head[k], ls[k]);
    assert ls[k][|front|] == rest[0];
  }

  lemma First(l: Links, k: nat, ls: seq<seq<nat>>)
    requires Rep(l, ls) && k < |ls|
    ensures k < |l.head| && l.head[k] == Elem(ls[k], 0)
  {
    assert Chain(l.next, l.head[k], ls[k]);
  }

  lemma RemovedLoose(l: Links, k: nat, ls: seq<seq<nat>>, x: nat)
    requires Rep(l, ls) && k < |ls| && x in ls[k]
    ensures Loose(ls[k := Without(ls[k], x)], x)
  {
    WithoutNoDup(ls[k], x);
  }

  lemma PoppedLoose(l: Links, k: nat, ls: seq<seq<nat>>)
    requires Rep(l, ls) && k < |ls| && ls[k] != []
    ensures Loose(ls[k := ls[k][1..]], ls[k][0]) && ls[k][0] < |l.next|
  {
    TailNoDup(ls[k]);
    Step(l, k, ls, [], ls[k]);
  }
}
