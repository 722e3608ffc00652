/** Domain names (mdns/dname.c): the label sequence a possibly compressed name
    stands for, and the walks that measure, compare, copy and range-check it. */
module Names {
  import opened Bytes

  type Label = seq<byte>
  type Name = seq<Label>

  const MAX_LABEL := 63
  const MAX_NAME := 255

  // ----- names as values -----

  predicate ValidLabel(l: Label) {
    1 <= |l| <= MAX_LABEL
  }

  predicate ValidName(n: Name) {
    forall i :: 0 <= i < |n| ==> ValidLabel(n[i])
  }

  /** The octets of the labels, without the root octet. */
  function LabelBytes(n: Name): seq<byte>
    requires ValidName(n)
  {
    if n == [] then [] else [|n[0]|] + n[0] + LabelBytes(n[1..])
  }

  /** The pointer-free wire form. */
  function Encode(n: Name): (b: seq<byte>)
    requires ValidName(n)
    ensures |b| >= 1
  {
    LabelBytes(n) + [0]
  }

  lemma EncodeCons(l: Label, n: Name)
    requires ValidLabel(l) && ValidName(n)
    ensures ValidName([l] + n) && |Encode([l] + n)| == |l| + 1 + |Encode(n)|
    ensures Encode([]) == [0]
  {
    assert ([l] + n)[1..] == n;
  }

  // ----- order on names -----

  function NameCmp(a: Name, b: Name): (r: int)
    ensures -1 <= r <= 1
  {
    if a == [] then (if b == [] then 0 else -1)
    else if b == [] then 1
    else
      var c := ByteCmp(a[0], b[0]);
      if c != 0 then c else NameCmp(a[1..], b[1..])
  }

  /** The comparison identifies exactly the equal names... */
  lemma {:induction false} NameCmpZero(a: Name, b: Name)
    ensures NameCmp(a, b) == 0 <==> a == b
  {
    if a != [] && b != [] {
      ByteCmpZero(a[0], b[0]);
      NameCmpZero(a[1..], b[1..]);
      assert a == [a[0]] + a[1..] && b == [b[0]] + b[1..];
    }
  }

  /** ...and is a total order. */
  lemma {:induction false} NameCmpAntisymmetric(a: Name, b: Name)
    ensures NameCmp(a, b) == -NameCmp(b, a)
  {
    if a != [] && b != [] {
      ByteCmpAntisymmetric(a[0], b[0]);
      NameCmpAntisymmetric(a[1..], b[1..]);
    }
  }

  lemma {:induction false} NameCmpTransitive(a: Name, b: Name, c: Name)
    requires NameCmp(a, b) <= 0 && NameCmp(b, c) <= 0
    ensures NameCmp(a, c) <= 0
    ensures NameCmp(a, c) == 0 ==> NameCmp(a, b) == 0 && NameCmp(b, c) == 0
  {
    if a != [] && b != [] && c != [] {
      ByteCmpTransitive(a[0], b[0], c[0]);
      if ByteCmp(a[0], c[0]) == 0 {
        NameCmpTransitive(a[1..], b[1..], c[1..]);
      }
    }
  }

  // ----- names in a buffer -----

  /** Any octet with one of its two top bits set is taken for a pointer. */
  predicate IsPointer(c: byte) {
    c >= 0x40
  }

  function Target(b: seq<byte>, n: nat): (t: nat)
    requires n + 1 < |b|
    ensures t < 0x4000
  {
    (b[n] as int) % 0x40 * 0x100 + b[n + 1] as int
  }

  /** Reading a name from offset n, in the run of labels that began at run:
      every octet needed is in the buffer and each pointer leads before the
      start of the run it ends. */
  predicate WellFormed(b: seq<byte>, run: nat, n: nat)
    decreases run, |b| - n
  {
    && run <= n < |b|
    && if b[n] == 0 then true
       else if IsPointer(b[n]) then
         n + 1 < |b| && Target(b, n) < run && WellFormed(b, Target(b, n), Target(b, n))
       else WellFormed(b, run, n + b[n] as int + 1)
  }

  function Labels(b: seq<byte>, run: nat, n: nat): (r: Name)
    requires WellFormed(b, run, n)
    ensures ValidName(r)
    decreases run, |b| - n
  {
    if b[n] == 0 then []
    else if IsPointer(b[n]) then Labels(b, Target(b, n), Target(b, n))
    else
      assert WellFormed(b, run, n + b[n] as int + 1);
      [b[n + 1..n + b[n] as int + 1]] + Labels(b, run, n + b[n] as int + 1)
  }

  predicate NameAt(b: seq<byte>, n: nat) {
    WellFormed(b, n, n)
  }

  function LabelsAt(b: seq<byte>, n: nat): (r: Name)
    requires NameAt(b, n)
    ensures ValidName(r)
  {
    Labels(b, n, n)
  }

  lemma PrefixSlice(b: seq<byte>, c: seq<byte>, i: nat, j: nat)
    requires b <= c && i <= j <= |b|
    ensures b[i..j] == c[i..j]
  {
  }

  /** Bytes appended to the buffer do not disturb the names already in it. */
  lemma {:induction false} NameStable(b: seq<byte>, c: seq<byte>, run: nat, n: nat)
    requires WellFormed(b, run, n) && b <= c
    ensures WellFormed(c, run, n) && Labels(c, run, n) == Labels(b, run, n)
    decreases run, |b| - n
  {
    assert c[n] == b[n];
    if b[n] != 0 {
      if IsPointer(b[n]) {
        assert Target(c, n) == Target(b, n);
        NameStable(b, c, Target(b, n), Target(b, n));
      } else {
        NameStable(b, c, run, n + b[n] as int + 1);
        var i := n + b[n] as int + 1;
        PrefixSlice(b, c, n + 1, i);
        assert WellFormed(b, run, i) && WellFormed(c, run, n);
        assert Labels(b, run, n) == [b[n + 1..i]] + Labels(b, run, i);
        assert Labels(c, run, n) == [c[n + 1..i]] + Labels(c, run, i);
      }
    }
  }

  /** The wire form of a non-empty name is its first label and the wire form of
      the others. */
  lemma EncodeFirst(n: Name)
    requires ValidName(n) && n != []
    ensures Encode(n) == [|n[0]|] + n[0] + Encode(n[1..])
  {
  }

  lemma EncodedAt(b: seq<byte>, k: nat, n: Name)
    requires ValidName(n) && n != []
    ensures |Encode(n)| == |n[0]| + 1 + |Encode(n[1..])|
    ensures At(b, k, Encode(n)) <==>
            At(b, k, [|n[0]|]) && At(b, k + 1, n[0]) && At(b, k + |n[0]| + 1, Encode(n[1..]))
  {
    EncodeFirst(n);
    hide Encode, At;
    AtParts(b, k, [|n[0]|] + n[0], Encode(n[1..]));
    AtParts(b, k, [|n[0]|], n[0]);
  }

  /** The wire form of a name, wherever it lies in a buffer, is read back as
      that name. */
  lemma {:induction false} EncodedNameAt(b: seq<byte>, run: nat, k: nat, n: Name)
    requires ValidName(n) && run <= k && At(b, k, Encode(n))
    ensures WellFormed(b, run, k) && Labels(b, run, k) == n
    decreases |n|
  {
    if n == [] {
      AtIndex(b, k, Encode(n), 0);
    } else {
      hide Encode, WellFormed, Labels;
      EncodedAt(b, k, n);
      AtIndex(b, k, [|n[0]|], 0);
      EncodedNameAt(b, run, k + |n[0]| + 1, n[1..]);
      LabelBefore(b, run, k, n[0]);
      assert n == [n[0]] + n[1..];
    }
  }

  lemma LabelBefore(b: seq<byte>, run: nat, k: nat, l: Label)
    requires ValidLabel(l) && run <= k < |b| && b[k] == |l| && At(b, k + 1, l) && WellFormed(b, run, k + |l| + 1)
    ensures WellFormed(b, run, k) && Labels(b, run, k) == [l] + Labels(b, run, k + |l| + 1)
  {
  }

  // ----- dname_size -----

  /** Octets taken by the name at n itself, a pointer counting two; absent when
      the walk leaves the buffer. */
  function SizeFrom(b: seq<byte>, n: nat): (r: Result)
    ensures r.Ok? ==> 1 <= r.value && n + r.value <= |b| + 1
    decreases |b| - n
  {
    if n >= |b| then Fault
    else if b[n] == 0 then Ok(1)
    else if IsPointer(b[n]) then Ok(2)
    else
      match SizeFrom(b, n + b[n] as int + 1)
      case Ok(s) => Ok(b[n] as int + 1 + s)
      case Fault => Fault
  }

  datatype Result = Ok(value: nat) | Fault

  method NameSize(b: seq<byte>, n: nat) returns (r: Result)
    ensures r == SizeFrom(b, n)
  {
    var i := n;
    while i < |b| && b[i] != 0
      invariant n <= i
      invariant SizeFrom(b, n) ==
        (match SizeFrom(b, i) case Ok(s) => Ok(i - n + s) case Fault => Fault)
      decreases |b| - i
    {
      if IsPointer(b[i]) {
        i := i + 1;
        return Ok(i - n + 1);
      }
      i := i + b[i] as int + 1;
    }
    if i >= |b| {
      return Fault;
    }
    return Ok(i - n + 1);
  }

  /** A pointer-free name takes exactly the octets of its wire form. */
  lemma {:induction false} EncodedSize(b: seq<byte>, k: nat, n: Name)
    requires ValidName(n) && At(b, k, Encode(n))
    ensures SizeFrom(b, k) == Ok(|Encode(n)|)
    decreases |n|
  {
    if n == [] {
      AtIndex(b, k, Encode(n), 0);
    } else {
      EncodedAt(b, k, n);
      AtIndex(b, k, [|n[0]|], 0);
      EncodedSize(b, k + |n[0]| + 1, n[1..]);
    }
  }

  // ----- dname_label_cmp, dname_cmp -----

  /** Follow pointers until a label or the root. */
  method SkipPointers(b: seq<byte>, ghost run: nat, n: nat) returns (m: nat, ghost run': nat)
    requires WellFormed(b, run, n)
    ensures WellFormed(b, run', m) && !IsPointer(b[m])
    ensures Labels(b, run', m) == Labels(b, run, n)
    ensures run' < run || (run' == run && m == n)
    ensures IsPointer(b[n]) <==> run' < run
  {
    m, run' := n, run;
    while IsPointer(b[m])
      invariant WellFormed(b, run', m) && Labels(b, run', m) == Labels(b, run, n)
      invariant run' < run || (run' == run && m == n)
      invariant IsPointer(b[n]) && run' == run ==> m == n
      invariant run' < run ==> IsPointer(b[n])
      decreases run'
    {
      m := Target(b, m);
      run' := m;
    }
  }

  method CompareLabels(a: seq<byte>, i: nat, b: seq<byte>, j: nat) returns (r: int)
    requires i < |a| && i + a[i] as int < |a|
    requires j < |b| && j + b[j] as int < |b|
    ensures r == ByteCmp(a[i + 1..i + 1 + a[i] as int], b[j + 1..j + 1 + b[j] as int])
  {
    ghost var la, lb := a[i + 1..i + 1 + a[i] as int], b[j + 1..j + 1 + b[j] as int];
    var min: int := if a[i] > b[j] then b[j] else a[i];
    var k := 0;
    while k < min
      invariant 0 <= k <= min
      invariant la[..k] == lb[..k]
    {
      ByteCmpFirstDifference(la, lb, k);
      assert la[k] == a[i + 1 + k] && lb[k] == b[j + 1 + k];
      if a[i + 1 + k] > b[j + 1 + k] { return 1; }
      if b[j + 1 + k] > a[i + 1 + k] { return -1; }
      assert la[..k + 1] == la[..k] + [la[k]] && lb[..k + 1] == lb[..k] + [lb[k]];
      k := k + 1;
    }
    ByteCmpFirstDifference(la, lb, min);
    if a[i] > b[j] { return 1; }
    if b[j] > a[i] { return -1; }
    return 0;
  }

  /** Comparing two compressed names is comparing the names they stand for. */
  method CompareNames(a: seq<byte>, i: nat, b: seq<byte>, j: nat) returns (r: int)
    requires NameAt(a, i) && NameAt(b, j)
    ensures r == NameCmp(LabelsAt(a, i), LabelsAt(b, j))
  {
    var m: nat, n: nat := i, j;
    ghost var ra: nat, rb: nat := i, j;
    while true
      invariant WellFormed(a, ra, m) && WellFormed(b, rb, n)
      invariant NameCmp(LabelsAt(a, i), LabelsAt(b, j)) == NameCmp(Labels(a, ra, m), Labels(b, rb, n))
      decreases ra, |a| - m
    {
      m, ra := SkipPointers(a, ra, m);
      n, rb := SkipPointers(b, rb, n);
      if a[m] == 0 && b[n] == 0 { break; }
      if a[m] != 0 && b[n] != 0 {
        assert WellFormed(a, ra, m + a[m] as int + 1) && WellFormed(b, rb, n + b[n] as int + 1);
        r := CompareLabels(a, m, b, n);
        if r != 0 { return; }
      }
      if a[m] != 0 && b[n] == 0 { return 1; }
      if a[m] == 0 && b[n] != 0 { return -1; }
      m := m + a[m] as int + 1;
      n := n + b[n] as int + 1;
    }
    return 0;
  }

  // ----- dname_copy -----

  datatype CopyOutcome =
    | Copied(out: seq<byte>)
    | TooLong(out: seq<byte>)
    | CopyFault
    | CopyRunning

  /** What the copy loop has done after at most fuel passes of its two loops,
      out being the octets already written. */
  function CopyFrom(b: seq<byte>, n: nat, out: seq<byte>, fuel: nat): CopyOutcome
    decreases fuel, 1
  {
    if fuel == 0 then CopyRunning
    else if n >= |b| then CopyFault
    else if b[n] == 0 then Copied(out + [0])
    else CopyLabel(b, n, out, fuel)
  }

  /** The body of the copy loop, which follows pointers and then copies one
      label without looking whether it is the root. */
  function CopyLabel(b: seq<byte>, n: nat, out: seq<byte>, fuel: nat): CopyOutcome
    decreases fuel, 0
  {
    if fuel == 0 then CopyRunning
    else if n >= |b| then CopyFault
    else if IsPointer(b[n]) then
      if n + 1 >= |b| then CopyFault else CopyLabel(b, Target(b, n), out, fuel - 1)
    else
      var size := b[n] as int + 1;
      if |out| + size >= MAX_NAME then TooLong(out + [0])
      else if n + size > |b| then CopyFault
      else CopyFrom(b, n + size, out + b[n..n + size], fuel - 1)
  }

  /** No pointer of the name leads straight to a root octet. */
  predicate NoRootPointer(b: seq<byte>, run: nat, n: nat)
    requires WellFormed(b, run, n)
    decreases run, |b| - n
  {
    if b[n] == 0 then true
    else if IsPointer(b[n]) then
      b[Target(b, n)] != 0 && NoRootPointer(b, Target(b, n), Target(b, n))
    else NoRootPointer(b, run, n + b[n] as int + 1)
  }

  /** Pointers followed and labels read on the way to the root. */
  function Hops(b: seq<byte>, run: nat, n: nat): nat
    requires WellFormed(b, run, n)
    decreases run, |b| - n
  {
    if b[n] == 0 then 0
    else if IsPointer(b[n]) then 1 + Hops(b, Target(b, n), Target(b, n))
    else 1 + Hops(b, run, n + b[n] as int + 1)
  }

  /** The leading labels that fit in a name buffer already holding used octets. */
  function Fitting(n: Name, used: nat): (r: Name)
    requires ValidName(n)
    ensures ValidName(r) && r <= n
  {
    if n == [] || used + |n[0]| + 1 >= MAX_NAME then []
    else [n[0]] + Fitting(n[1..], used + |n[0]| + 1)
  }

  lemma {:induction false} FittingAll(n: Name, used: nat)
    requires ValidName(n)
    ensures used < MAX_NAME ==> (Fitting(n, used) == n <==> used + |LabelBytes(n)| < MAX_NAME)
  {
    if n != [] && used + |n[0]| + 1 < MAX_NAME {
      FittingAll(n[1..], used + |n[0]| + 1);
      assert n == [n[0]] + n[1..];
    }
  }

  /** What copying a name should leave: its pointer-free form, or as many whole
      labels as fit, closed by a root octet. */
  function CopySpec(n: Name, out: seq<byte>): CopyOutcome
    requires ValidName(n)
  {
    var bytes := out + LabelBytes(Fitting(n, |out|)) + [0];
    if |out| + |LabelBytes(n)| < MAX_NAME then Copied(bytes) else TooLong(bytes)
  }

  /** Copying keeps the name: whenever no pointer leads to a root octet the loop
      ends, and it leaves exactly the pointer-free form of the labels. */
  lemma {:induction false} CopyKeepsName(b: seq<byte>, run: nat, n: nat, out: seq<byte>, fuel: nat)
    requires WellFormed(b, run, n) && NoRootPointer(b, run, n) && |out| < MAX_NAME
    requires fuel > Hops(b, run, n)
    ensures CopyFrom(b, n, out, fuel) == CopySpec(Labels(b, run, n), out)
    ensures b[n] != 0 ==> CopyLabel(b, n, out, fuel) == CopySpec(Labels(b, run, n), out)
    decreases run, |b| - n
  {
    hide CopySpec, CopyFrom, CopyLabel, Labels;
    if b[n] == 0 {
      CopySpecRoot(b, run, n, out, fuel);
    } else if IsPointer(b[n]) {
      CopyKeepsName(b, Target(b, n), Target(b, n), out, fuel - 1);
      CopyPointer(b, run, n, out, fuel);
    } else {
      var size := b[n] as int + 1;
      if |out| + size < MAX_NAME {
        CopyKeepsName(b, run, n + size, out + b[n..n + size], fuel - 1);
      }
      CopyOneLabel(b, run, n, out, fuel);
    }
  }

  lemma CopyPointer(b: seq<byte>, run: nat, n: nat, out: seq<byte>, fuel: nat)
    requires WellFormed(b, run, n) && IsPointer(b[n]) && fuel > 0
    ensures CopyFrom(b, n, out, fuel) == CopyLabel(b, n, out, fuel) == CopyLabel(b, Target(b, n), out, fuel - 1)
    ensures Labels(b, run, n) == Labels(b, Target(b, n), Target(b, n))
  {
  }

  lemma CopyOneLabel(b: seq<byte>, run: nat, n: nat, out: seq<byte>, fuel: nat)
    requires WellFormed(b, run, n) && b[n] != 0 && !IsPointer(b[n]) && fuel > 0 && |out| < MAX_NAME
    requires var size := b[n] as int + 1;
             && n + size < |b| && WellFormed(b, run, n + size)
             && (|out| + size < MAX_NAME ==>
                   CopyFrom(b, n + size, out + b[n..n + size], fuel - 1) ==
                   CopySpec(Labels(b, run, n + size), out + b[n..n + size]))
    ensures CopyFrom(b, n, out, fuel) == CopyLabel(b, n, out, fuel) == CopySpec(Labels(b, run, n), out)
  {
    hide CopySpec;
    CopySpecLabel(Labels(b, run, n), out);
    assert b[n..n + b[n] as int + 1] == [b[n]] + Labels(b, run, n)[0];
  }

  lemma CopySpecRoot(b: seq<byte>, run: nat, n: nat, out: seq<byte>, fuel: nat)
    requires WellFormed(b, run, n) && b[n] == 0 && |out| < MAX_NAME && fuel > 0
    ensures CopyFrom(b, n, out, fuel) == CopySpec(Labels(b, run, n), out)
  {
    assert out + LabelBytes([]) + [0] == out + [0];
  }

  /** The specification copies one label at a time. */
  lemma CopySpecLabel(n: Name, out: seq<byte>)
    requires ValidName(n) && n != [] && |out| < MAX_NAME
    ensures CopySpec(n, out) ==
            if |out| + |n[0]| + 1 >= MAX_NAME then TooLong(out + [0])
            else CopySpec(n[1..], out + ([|n[0]|] + n[0]))
  {
    var size := |n[0]| + 1;
    if |out| + size >= MAX_NAME {
      assert Fitting(n, |out|) == [] && out + LabelBytes([]) + [0] == out + [0];
    } else {
      var f := Fitting(n[1..], |out| + size);
      assert Fitting(n, |out|) == [n[0]] + f && ([n[0]] + f)[1..] == f;
      assert out + ([|n[0]|] + n[0]) + LabelBytes(f) + [0] == out + LabelBytes(Fitting(n, |out|)) + [0];
    }
  }

  /** A finished copy has at least the octets written so far and a root. */
  lemma {:induction false} CopyGrows(b: seq<byte>, n: nat, out: seq<byte>, fuel: nat)
    ensures var r := CopyFrom(b, n, out, fuel); r.Copied? ==> |r.out| > |out|
    ensures var r := CopyLabel(b, n, out, fuel); r.Copied? ==> |r.out| > |out|
    decreases fuel
  {
    if fuel > 0 && n < |b| {
      if IsPointer(b[n]) {
        if n + 1 < |b| {
          CopyGrows(b, Target(b, n), out, fuel - 1);
        }
      } else {
        var size := b[n] as int + 1;
        if n + size <= |b| {
          CopyGrows(b, n + size, out + b[n..n + size], fuel - 1);
        }
      }
    }
  }

  /** Once a pointer leads to a root octet the loop copies past the end of the
      name: it never leaves just the pointer-free form. */
  lemma {:induction false} CopyRunsPastRoot(b: seq<byte>, run: nat, n: nat, out: seq<byte>, fuel: nat)
    requires WellFormed(b, run, n) && !NoRootPointer(b, run, n)
    ensures var r := CopyLabel(b, n, out, fuel);
            r.Copied? ==> |r.out| > |out| + |Encode(Labels(b, run, n))|
    decreases run, |b| - n
  {
    if fuel > 0 {
      if IsPointer(b[n]) {
        var t := Target(b, n);
        if b[t] == 0 {
          if fuel > 1 && |out| + 1 < MAX_NAME {
            CopyGrows(b, t + 1, out + b[t..t + 1], fuel - 2);
          }
        } else {
          CopyRunsPastRoot(b, t, t, out, fuel - 1);
        }
      } else {
        var size := b[n] as int + 1;
        assert WellFormed(b, run, n + size);
        assert Labels(b, run, n)[1..] == Labels(b, run, n + size);
        if |out| + size < MAX_NAME {
          CopyRunsPastRoot(b, run, n + size, out + b[n..n + size], fuel - 1);
        }
      }
    }
  }

  /** Exactly when copying a name that fits leaves its pointer-free form. */
  lemma CopyExactIff(b: seq<byte>, n: nat)
    requires NameAt(b, n) && |LabelBytes(LabelsAt(b, n))| < MAX_NAME
    ensures (exists fuel :: CopyFrom(b, n, [], fuel) == Copied(Encode(LabelsAt(b, n))))
            <==> NoRootPointer(b, n, n)
  {
    var name := LabelsAt(b, n);
    if NoRootPointer(b, n, n) {
      var fuel := Hops(b, n, n) + 1;
      CopyKeepsName(b, n, n, [], fuel);
      FittingAll(name, 0);
      assert [] + LabelBytes(name) + [0] == Encode(name);
      assert CopyFrom(b, n, [], fuel) == Copied(Encode(name));
    } else {
      forall fuel ensures CopyFrom(b, n, [], fuel) != Copied(Encode(name)) {
        CopyRunsPastRoot(b, n, n, [], fuel);
      }
    }
  }

  /** A pointer to a root, which is the root name, is not copied as such. */
  lemma CopyWitness()
    ensures var b: seq<byte> := [0, 0xC0, 0];
            && NameAt(b, 1) && LabelsAt(b, 1) == []
            && forall fuel: nat :: CopyFrom(b, 1, [], fuel) != Copied(Encode([]))
  {
    var b: seq<byte> := [0, 0xC0, 0];
    assert Target(b, 1) == 0;
    assert WellFormed(b, 0, 0) && WellFormed(b, 1, 1);
    assert Labels(b, 1, 1) == Labels(b, 0, 0) == [];
    assert !NoRootPointer(b, 1, 1);
    CopyExactIff(b, 1);
  }

  /** The copy itself: dst receives exactly the octets of the outcome, and
      nothing beyond them is touched. */
  method CopyName(dst: array<byte>, b: seq<byte>, n: nat, fuel: nat) returns (r: CopyOutcome)
    requires dst.Length >= MAX_NAME
    modifies dst
    ensures r == CopyFrom(b, n, [], fuel)
    ensures r.Copied? || r.TooLong? ==>
              |r.out| <= MAX_NAME && dst[..] == r.out + old(dst[..])[|r.out|..]
  {
    var src, len, passes := n, 0, fuel;
    while true
      invariant 0 <= src && 0 <= len < MAX_NAME && 0 <= passes
      invariant dst[len..] == old(dst[..])[len..]
      invariant CopyFrom(b, n, [], fuel) == CopyFrom(b, src, dst[..len], passes)
      decreases passes
    {
      if passes == 0 { return CopyRunning; }
      if src >= |b| { return CopyFault; }
      if b[src] == 0 { break; }
      ghost var p := passes;
      while src < |b| && IsPointer(b[src]) && passes > 0
        invariant 0 <= src && 0 <= passes <= p
        invariant CopyFrom(b, n, [], fuel) == CopyLabel(b, src, dst[..len], passes)
        decreases passes
      {
        if src + 1 >= |b| { return CopyFault; }
        src := Target(b, src);
        passes := passes - 1;
      }
      if passes == 0 { return CopyRunning; }
      if src >= |b| { return CopyFault; }
      var size := b[src] as int + 1;
      if len + size >= MAX_NAME {
        Terminated(dst[..], old(dst[..]), len);
        dst[len] := 0;
        r := TooLong(dst[..len] + [0]);
        return;
      }
      if src + size > |b| { return CopyFault; }
      CopyOctets(dst, len, b[src..src + size]);
      len := len + size;
      src := src + size;
      passes := passes - 1;
    }
    Terminated(dst[..], old(dst[..]), len);
    dst[len] := 0;
    r := Copied(dst[..len] + [0]);
  }

  lemma Terminated(now: seq<byte>, was: seq<byte>, len: nat)
    requires len < |now| == |was| && now[len..] == was[len..]
    ensures now[len := 0] == now[..len] + [0] + was[len + 1..]
  {
    assert now[len + 1..] == now[len..][1..] == was[len + 1..];
  }

  // ----- dname_overrun -----

  datatype Scan = InRange | Overruns | ScanFault | ScanRunning

  /** The range check of a name against the last valid offset e, after at most
      fuel passes of its two loops. */
  function ScanFrom(b: seq<byte>, e: int, n: nat, fuel: nat): Scan
    decreases fuel, 1
  {
    if fuel == 0 then ScanRunning
    else if n > e then Overruns
    else if n >= |b| then ScanFault
    else if b[n] == 0 then InRange
    else ScanLabel(b, e, n, fuel)
  }

  function ScanLabel(b: seq<byte>, e: int, n: nat, fuel: nat): Scan
    decreases fuel, 0
  {
    if fuel == 0 then ScanRunning
    else if n >= |b| then ScanFault
    else if IsPointer(b[n]) then
      if n + 1 >= |b| then ScanFault
      else if Target(b, n) > e then Overruns
      else ScanLabel(b, e, Target(b, n), fuel - 1)
    else ScanFrom(b, e, n + b[n] as int + 1, fuel - 1)
  }

  method NameOverruns(b: seq<byte>, e: int, n: nat, fuel: nat) returns (r: Scan)
    ensures r == ScanFrom(b, e, n, fuel)
  {
    var i: nat, passes: nat := n, fuel;
    while true
      invariant ScanFrom(b, e, n, fuel) == ScanFrom(b, e, i, passes)
      decreases passes
    {
      if passes == 0 { return ScanRunning; }
      if i > e { return Overruns; }
      if i >= |b| { return ScanFault; }
      if b[i] == 0 { return InRange; }
      ghost var p := passes;
      while i < |b| && IsPointer(b[i]) && passes > 0
        invariant passes <= p
        invariant ScanFrom(b, e, n, fuel) == ScanLabel(b, e, i, passes)
        decreases passes
      {
        if i + 1 >= |b| { return ScanFault; }
        i := Target(b, i);
        if i > e { return Overruns; }
        passes := passes - 1;
      }
      if passes == 0 { return ScanRunning; }
      if i >= |b| { return ScanFault; }
      i := i + b[i] as int + 1;
      passes := passes - 1;
    }
  }

  /** The check passes every well-formed name that lies within the packet and
      has no pointer to a root octet. */
  lemma {:induction false} ScanAccepts(b: seq<byte>, e: nat, run: nat, n: nat, fuel: nat)
    requires e < |b| && WellFormed(b[..e + 1], run, n) && NoRootPointer(b[..e + 1], run, n)
    requires fuel > Hops(b[..e + 1], run, n)
    ensures ScanFrom(b, e, n, fuel) == InRange
    ensures b[n] != 0 ==> ScanLabel(b, e, n, fuel) == InRange
    decreases run, e - n
  {
    var c := b[..e + 1];
    if c[n] != 0 {
      if IsPointer(c[n]) {
        ScanAccepts(b, e, Target(c, n), Target(c, n), fuel - 1);
      } else {
        ScanAccepts(b, e, run, n + c[n] as int + 1, fuel - 1);
      }
    }
  }
}
