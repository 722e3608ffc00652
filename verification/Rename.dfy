/** Deriving a fresh name after a conflict (dname_increment in mdns/dname.c). */
module Rename {
  import opened Bytes
  import opened Names

  const DASH: byte := 45
  const TWO: byte := 50
  const NINE: byte := 57

  /** foo-2 up to foo-9. */
  predicate Numbered(l: Label) {
    |l| >= 2 && l[|l| - 2] == DASH && TWO <= l[|l| - 1] <= NINE
  }

  /** A label the code can number: one of 62 octets has room for neither the
      two extra octets nor an overwritten tail. */
  predicate Renamable(l: Label) {
    ValidLabel(l) && (|l| != 62 || Numbered(l))
  }

  /** The next label to try, if there is one. */
  function Next(l: Label): (r: Option<Label>)
    requires Renamable(l)
    ensures r.Some? ==> Renamable(r.value) && Numbered(r.value)
  {
    if Numbered(l) then
      if l[|l| - 1] < NINE then Some(l[|l| - 1 := l[|l| - 1] + 1]) else None
    else if |l| + 2 > MAX_LABEL then Some(l[..|l| - 2] + [DASH, TWO])
    else Some(l + [DASH, TWO])
  }

  /** The label after k conflicts. */
  function After(l: Label, k: nat): (r: Option<Label>)
    requires Renamable(l)
    ensures r.Some? ==> Renamable(r.value) && (k > 0 ==> Numbered(r.value))
  {
    if k == 0 then Some(l)
    else
      match After(l, k - 1)
      case None => None
      case Some(p) => Next(p)
  }

  /** From a numbered label the number just counts up to nine. */
  lemma {:induction false} CountsUp(l: Label, k: nat)
    requires Renamable(l) && Numbered(l)
    ensures After(l, k) ==
            if l[|l| - 1] as int + k <= NINE then Some(l[|l| - 1 := l[|l| - 1] as int + k]) else None
  {
    if k > 0 {
      CountsUp(l, k - 1);
      if l[|l| - 1] as int + k <= NINE {
        var p := l[|l| - 1 := l[|l| - 1] as int + k - 1];
        assert p[|l| - 1 := p[|l| - 1] + 1] == l[|l| - 1 := l[|l| - 1] as int + k];
      }
    } else {
      assert l[|l| - 1 := l[|l| - 1]] == l;
    }
  }

  lemma {:induction false} AfterNext(l: Label, k: nat)
    requires Renamable(l) && Next(l).Some?
    ensures After(l, k + 1) == After(Next(l).value, k)
  {
    if k > 0 {
      AfterNext(l, k - 1);
    }
  }

  /** All names tried for one label: well formed, at most two octets longer than
      the original, pairwise distinct, and at most eight besides it. */
  lemma RenamingExhausts(l: Label)
    requires Renamable(l)
    ensures After(l, 9) == None
    ensures forall k :: 0 <= k && After(l, k).Some? ==> k <= 8 && |After(l, k).value| <= |l| + 2
    ensures forall i, j :: 0 <= i < j && After(l, i).Some? && After(l, j).Some? ==> After(l, i) != After(l, j)
  {
    forall k | 0 < k
      ensures After(l, k).Some? ==>
                k <= 8 && |After(l, k).value| <= |l| + 2 &&
                |After(l, k).value| >= |l| && After(l, k).value != l
      ensures k >= 9 ==> After(l, k) == None
    {
      Stage(l, k);
    }
    forall i, j | 0 <= i < j && After(l, i).Some? && After(l, j).Some?
      ensures After(l, i) != After(l, j)
    {
      Stage(l, j);
      if i > 0 { Stage(l, i); }
    }
  }

  /** The label after k > 0 conflicts ends in the k-th number of its count. */
  lemma Stage(l: Label, k: nat)
    requires Renamable(l) && k > 0
    ensures var first := if Numbered(l) then l[|l| - 1] as int else TWO as int - 1;
            if first + k > NINE then After(l, k) == None
            else
              After(l, k).Some? &&
              var r := After(l, k).value;
              |l| <= |r| <= |l| + 2 && r[|r| - 1] as int == first + k && r != l
  {
    if Numbered(l) {
      CountsUp(l, k);
    } else {
      var p := Next(l).value;
      AfterNext(l, k - 1);
      CountsUp(p, k - 1);
    }
  }

  // ----- in the name buffer -----

  /** The whole name after one conflict. */
  function NextName(n: Name): (r: Option<Name>)
    requires ValidName(n) && n != [] && Renamable(n[0])
    ensures r.Some? ==> ValidName(r.value) && |r.value| == |n| && r.value[1..] == n[1..]
  {
    match Next(n[0])
    case None => None
    case Some(l) => Some([l] + n[1..])
  }

  /** strlen. */
  method CStringLength(a: array<byte>, ghost end: nat) returns (len: nat)
    requires end < a.Length && a[end] == 0 && forall k :: 0 <= k < end ==> a[k] != 0
    ensures len == end
  {
    len := 0;
    while a[len] != 0
      invariant 0 <= len <= end
      decreases end - len
    {
      len := len + 1;
    }
  }

  /** The buffer after the code ran on it: size is the length of the C string it
      holds, and no result means the name was left alone. */
  function Incremented(b: seq<byte>, size: nat): (r: Option<seq<byte>>)
    requires |b| >= 64 && 1 <= b[0] <= size && size + 3 <= |b|
    ensures r.Some? ==> |r.value| == |b|
  {
    var len: int := b[0];
    if b[len - 1] == DASH && TWO <= b[len] < NINE then Some(b[len := b[len] + 1])
    else if b[len - 1] == DASH && b[len] == NINE then None
    else if len + 2 > MAX_LABEL then Some(b[62 := DASH][63 := TWO])
    else Some([len + 2] + b[1..len + 1] + [DASH, TWO] + b[len + 1..size + 1] + b[size + 3..])
  }

  /** The three writes of the growing case, put together. */
  lemma Shifted(b: seq<byte>, len: nat, size: nat, c: seq<byte>)
    requires 1 <= len <= size && size + 3 <= |b| && len + 2 < 0x100
    requires var b1 := b[0 := len + 2]; c == b1[..len + 3] + b1[len + 1..size + 1] + b1[size + 3..]
    ensures c[len + 1 := DASH][len + 2 := TWO] ==
            [len + 2] + b[1..len + 1] + [DASH, TWO] + b[len + 1..size + 1] + b[size + 3..]
  {
    var b1 := b[0 := len + 2];
    assert b1[..len + 3] == [len + 2] + b[1..len + 1] + b[len + 1..len + 3];
    assert b1[len + 1..size + 1] == b[len + 1..size + 1] && b1[size + 3..] == b[size + 3..];
  }

  method IncrementName(a: array<byte>, ghost size: nat) returns (ret: int)
    requires a.Length >= 64 && 1 <= a[0] <= size && size + 3 <= a.Length
    requires a[size] == 0 && forall k :: 0 <= k < size ==> a[k] != 0
    modifies a
    ensures ret == -1 <==> Incremented(old(a[..]), size) == None
    ensures ret != -1 ==> ret == 0
    ensures a[..] == match Incremented(old(a[..]), size) case None => old(a[..]) case Some(b) => b
  {
    ghost var was: seq<byte> := a[..];
    var len: int := a[0];
    if a[len - 1] == DASH && TWO <= a[len] < NINE {
      a[len] := a[len] + 1;
      assert a[..] == was[len := was[len] + 1];
      return 0;
    }
    if a[len - 1] == DASH && a[len] == NINE {
      return -1;
    }
    if len + 2 > MAX_LABEL {
      a[MAX_LABEL - 1] := DASH;
      a[MAX_LABEL] := TWO;
      assert a[..] == was[62 := DASH][63 := TWO];
    } else {
      Widen(a, len, size);
    }
    return 0;
  }

  /** The first label grows by two octets, and the rest of the string moves up. */
  method Widen(a: array<byte>, len: nat, ghost size: nat)
    requires 1 <= len <= size && size + 3 <= a.Length && len + 2 <= MAX_LABEL && a[0] as int == len
    requires a[size] == 0 && forall k :: 0 <= k < size ==> a[k] != 0
    modifies a
    ensures var b := old(a[..]);
            a[..] == [len + 2] + b[1..len + 1] + [DASH, TWO] + b[len + 1..size + 1] + b[size + 3..]
  {
    ghost var was: seq<byte> := a[..];
    var end := CStringLength(a, size);
    a[0] := len + 2;
    CopyOctets(a, len + 3, a[len + 1..end + 1]);
    ghost var b: seq<byte> := a[..];
    a[len + 1] := DASH;
    a[len + 2] := TWO;
    assert a[..] == b[len + 1 := DASH][len + 2 := TWO];
    Shifted(was, len, end, b);
  }

  /** No zero octet inside the labels, so the C string ends at the root. */
  predicate ZeroFree(n: Name)
    requires ValidName(n)
  {
    forall k :: 0 <= k < |LabelBytes(n)| ==> LabelBytes(n)[k] != 0
  }

  /** A buffer that starts with a label followed by the octets rest. */
  predicate Holds(b: seq<byte>, l: Label, rest: seq<byte>) {
    |l| < 0x100 && At(b, 0, [|l|]) && At(b, 1, l) && At(b, |l| + 1, rest)
  }

  /** One buffer step replaces the first label by the next one and keeps what
      follows. */
  lemma IncrementHead(b: seq<byte>, l: Label, rest: seq<byte>)
    requires Renamable(l) && rest != [] && Holds(b, l, rest) && |b| >= 64 && |l| + |rest| + 3 <= |b|
    ensures Incremented(b, |l| + |rest|) == None <==> Next(l) == None
    ensures Next(l).Some? ==> Holds(Incremented(b, |l| + |rest|).value, Next(l).value, rest)
  {
    var len := |l|;
    AtIndex(b, 0, [len], 0);
    AtIndex(b, 1, l, len - 1);
    if len >= 2 { AtIndex(b, 1, l, len - 2); }
    if Next(l).Some? {
      var l', b' := Next(l).value, Incremented(b, len + |rest|).value;
      if |l'| == len {
        assert b'[len + 1..len + 1 + |rest|] == b[len + 1..len + 1 + |rest|];
        assert b'[1..len + 1] == l';
      } else {
        assert b'[1..len + 3] == b[1..len + 1] + [DASH, TWO];
        assert b'[len + 3..len + 3 + |rest|] == b[len + 1..len + 1 + |rest|];
      }
      assert b'[0..1] == [|l'|];
    }
  }

  /** The buffer step is the renaming step: it gives up exactly when no number
      is left, and otherwise the buffer holds the next name, other labels
      unchanged. */
  lemma IncrementRenames(b: seq<byte>, n: Name)
    requires ValidName(n) && n != [] && Renamable(n[0])
    requires |b| >= 64 && |b| >= |Encode(n)| + 2 && Encode(n) <= b
    ensures 1 <= b[0] <= |LabelBytes(n)|
    ensures Incremented(b, |LabelBytes(n)|) == None <==> NextName(n) == None
    ensures NextName(n).Some? ==> Encode(NextName(n).value) <= Incremented(b, |LabelBytes(n)|).value
  {
    hide Holds, Incremented, Next, Encode;
    HeadOfName(b, n);
    IncrementHead(b, n[0], Encode(n[1..]));
    if NextName(n).Some? {
      HoldsName(Incremented(b, |LabelBytes(n)|).value, Next(n[0]).value, n[1..]);
    }
  }

  /** A label and the wire form of the remaining ones make a name. */
  lemma HoldsName(b: seq<byte>, l: Label, n: Name)
    requires ValidLabel(l) && ValidName(n) && Holds(b, l, Encode(n))
    ensures Encode([l] + n) <= b
  {
    hide Encode;
    assert ([l] + n)[1..] == n;
    EncodedAt(b, 0, [l] + n);
    var e := Encode([l] + n);
    assert b[..|e|] == b[0..|e|] && e <= b;
  }

  lemma HeadOfName(b: seq<byte>, n: Name)
    requires ValidName(n) && n != [] && Encode(n) <= b
    ensures |LabelBytes(n)| == |n[0]| + |Encode(n[1..])| == |Encode(n)| - 1
    ensures b[0] == |n[0]|
    ensures Holds(b, n[0], Encode(n[1..]))
  {
    HeadSizes(n);
    hide Encode, LabelBytes;
    assert b[0..|Encode(n)|] == b[..|Encode(n)|];
    EncodedAt(b, 0, n);
    AtIndex(b, 0, [|n[0]|], 0);
  }

  lemma HeadSizes(n: Name)
    requires ValidName(n) && n != []
    ensures |LabelBytes(n)| == |n[0]| + |Encode(n[1..])| == |Encode(n)| - 1
  {
  }

  /** Exactly when one step that does not give up renames as documented: the
      first label becomes a numbered one and the other labels stay.  It fails
      for an unnumbered first label of 62 octets, where the digit lands on the
      length octet of the next label. */
  lemma IncrementIff(b: seq<byte>, n: Name)
    requires ValidName(n) && n != []
    requires |b| >= |Encode(n)| + 2 && |b| >= 64 && Encode(n) <= b && 1 <= b[0] <= |LabelBytes(n)|
    requires Incremented(b, |LabelBytes(n)|).Some?
    ensures (exists l :: ValidLabel(l) && Numbered(l) &&
                         Encode([l] + n[1..]) <= Incremented(b, |LabelBytes(n)|).value)
            <==> Renamable(n[0])
  {
    var b' := Incremented(b, |LabelBytes(n)|).value;
    if Renamable(n[0]) {
      IncrementRenames(b, n);
      var l := Next(n[0]).value;
      assert ValidLabel(l) && Numbered(l) && Encode([l] + n[1..]) <= b';
    } else {
      HeadOfName(b, n);
      assert b[1..63] == n[0] && b[61] == b[1..63][60] && b[62] == b[1..63][61];
      assert b'[0] == 62 && b'[62] == DASH;
      forall l | ValidLabel(l) && Numbered(l) ensures !(Encode([l] + n[1..]) <= b') {
        if Encode([l] + n[1..]) <= b' {
          HeadOfName(b', [l] + n[1..]);
        }
      }
    }
  }

  /** The call on a name buffer, whose C string ends at the root: it gives up only
      when the numbers are used up, and then leaves the name alone; otherwise the
      buffer holds the next name if the first label can be numbered, and no name with
      a numbered first label in its place if not. */
  method Increment(a: array<byte>, ghost n: Name) returns (ret: int)
    requires ValidName(n) && n != [] && ZeroFree(n)
    requires a.Length >= 64 && a.Length >= |Encode(n)| + 2 && Encode(n) <= a[..]
    modifies a
    ensures ret == 0 || ret == -1
    ensures ret == -1 ==> a[..] == old(a[..])
    ensures Renamable(n[0]) ==> (ret == -1 <==> NextName(n) == None) && (ret == 0 ==> Encode(NextName(n).value) <= a[..])
    ensures ret == 0 ==>
              ((exists l :: ValidLabel(l) && Numbered(l) && Encode([l] + n[1..]) <= a[..]) <==> Renamable(n[0]))
  {
    hide Incremented, NextName, Numbered;
    ghost var b, size := a[..], |LabelBytes(n)|;
    StringEnds(b, n);
    ret := IncrementName(a, size);
    if ret == 0 {
      IncrementIff(b, n);
    }
    if Renamable(n[0]) {
      IncrementRenames(b, n);
    }
  }

  lemma StringEnds(b: seq<byte>, n: Name)
    requires ValidName(n) && n != [] && ZeroFree(n) && |b| >= |Encode(n)| + 2 && Encode(n) <= b
    ensures var size := |LabelBytes(n)|;
            1 <= b[0] <= size && size + 3 <= |b| && b[size] == 0 && forall k :: 0 <= k < size ==> b[k] != 0
  {
    HeadOfName(b, n);
    var size := |LabelBytes(n)|;
    assert b[..size + 1] == Encode(n);
    assert forall k :: 0 <= k < size ==> b[..size + 1][k] == b[k] && Encode(n)[k] == LabelBytes(n)[k];
    assert b[..size + 1][size] == b[size];
  }

  /** A concrete clobbering: after an unnumbered 62-octet host label the length
      octet of "local" reads fifty instead of five. */
  lemma SixtyTwoClobbers(l: Label, b: seq<byte>)
    requires ValidLabel(l) && |l| == 62 && !Numbered(l)
    requires b == [62] + l + [5, 108, 111, 99, 97, 108, 0] + [0, 0]
    ensures NameAt(b, 0) && LabelsAt(b, 0) == [l, [108, 111, 99, 97, 108]]
    ensures Incremented(b, 69).Some? && Incremented(b, 69).value[63] == 50
    ensures !NameAt(Incremented(b, 69).value, 0)
  {
    assert b[64..69] == [108, 111, 99, 97, 108] && b[1..63] == l;
    assert WellFormed(b, 0, 69) && Labels(b, 0, 69) == [];
    assert WellFormed(b, 0, 63) && Labels(b, 0, 63) == [b[64..69]] + [];
    var b' := Incremented(b, 69).value;
    assert !WellFormed(b', 0, 114);
    assert !WellFormed(b', 0, 63);
  }
}
