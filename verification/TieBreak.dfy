/** Simultaneous probes (find_authorities, rr_cmp and authority_set_cmp in
    mdns/mdns_respond.c): which of two hosts that probe for the same name gives
    way, by section 8.2 of RFC 6762. */
module TieBreak {
  import opened Bytes
  import opened Names
  import opened Packet

  /** The data of an authority record, names decompressed. */
  datatype Data =
    | Addr(octets: seq<byte>)
    | NameRef(target: Name)
    | SrvRef(fixed: seq<byte>, host: Name)
    | Text(text: seq<byte>)

  datatype Authority = Authority(name: Name, rtype: u16, rclass: u16, data: Data)

  /** The data has the shape of the type. */
  predicate Shaped(r: Authority) {
    if r.rtype == T_A then r.data.Addr? && |r.data.octets| == 4
    else if r.rtype == T_CNAME || r.rtype == T_PTR then r.data.NameRef?
    else if r.rtype == T_SRV then r.data.SrvRef? && |r.data.fixed| == 6
    else r.data.Text?
  }

  predicate AllShaped(rs: seq<Authority>) {
    forall i :: 0 <= i < |rs| ==> Shaped(rs[i])
  }

  function Sign(a: int, b: int): int {
    if a > b then 1 else if a < b then -1 else 0
  }

  // ----- comparing two records -----

  /** Some octet of a exceeds the octet of b at the same place. */
  predicate AnyGreater(a: seq<byte>, b: seq<byte>) {
    a != [] && b != [] && (a[0] > b[0] || AnyGreater(a[1..], b[1..]))
  }

  /** The comparison of TXT data as coded: an octet that is smaller never
      decides, because the second test repeats the first. */
  function TextCmp(a: seq<byte>, b: seq<byte>): (r: int)
    ensures -1 <= r <= 1
  {
    if AnyGreater(a, b) then 1 else Sign(|a|, |b|)
  }

  function DataCmp(a: Data, b: Data): (r: int)
    ensures -1 <= r <= 1
  {
    match (a, b)
    case (Addr(x), Addr(y)) => ByteCmp(x, y)
    case (NameRef(x), NameRef(y)) => NameCmp(x, y)
    case (SrvRef(f, x), SrvRef(g, y)) => if ByteCmp(f, g) != 0 then ByteCmp(f, g) else NameCmp(x, y)
    case (Text(x), Text(y)) => TextCmp(x, y)
    case _ => 0
  }

  /** Class without the cache-flush bit, then type, then data. */
  function RecordCmp(a: Authority, b: Authority): (r: int)
    ensures -1 <= r <= 1
  {
    if a.rclass % 0x8000 != b.rclass % 0x8000 then Sign(a.rclass % 0x8000, b.rclass % 0x8000)
    else if a.rtype != b.rtype then Sign(a.rtype, b.rtype)
    else DataCmp(a.data, b.data)
  }

  method CompareText(a: seq<byte>, b: seq<byte>) returns (r: int)
    ensures r == TextCmp(a, b)
  {
    var min := if |a| > |b| then |b| else |a|;
    for i := 0 to min
      invariant AnyGreater(a, b) <==> AnyGreater(a[i..], b[i..])
    {
      if a[i] > b[i] { return 1; }
      if a[i] > b[i] { return -1; }
      assert a[i..][1..] == a[i + 1..] && b[i..][1..] == b[i + 1..];
    }
    if |a| > |b| { return 1; }
    if |a| < |b| { return -1; }
    return 0;
  }

  // ----- collecting the records of a name -----

  /** The position of a type among those compared, in increasing order. */
  function Slot(t: u16): nat {
    if t == T_A then 0 else if t == T_CNAME then 1 else if t == T_PTR then 2
    else if t == T_TXT then 3 else if t == T_SRV then 4 else 5
  }

  /** The last record of the name in slot k. */
  function LastOf(rs: seq<Authority>, name: Name, k: nat): (r: Option<Authority>)
    ensures r.Some? ==> r.value in rs && r.value.name == name && Slot(r.value.rtype) == k
  {
    if rs == [] then None
    else
      var r := rs[|rs| - 1];
      if r.name == name && Slot(r.rtype) == k then Some(r)
      else LastOf(rs[..|rs| - 1], name, k)
  }

  /** The records of a name from slot k on, in order of type. */
  function From(rs: seq<Authority>, name: Name, k: nat): (s: seq<Authority>)
    decreases 5 - k
  {
    if k >= 5 then []
    else
      match LastOf(rs, name, k)
      case None => From(rs, name, k + 1)
      case Some(r) => [r] + From(rs, name, k + 1)
  }

  method FindAuthorities(rs: seq<Authority>, name: Name, results: array<Option<Authority>>)
    returns (n: nat)
    requires results.Length == 5
    modifies results
    ensures forall k :: 0 <= k < 5 ==> results[k] == LastOf(rs, name, k)
    ensures n == 0 <==> forall k :: 0 <= k < 5 ==> results[k] == None
  {
    n := 0;
    for k := 0 to 5
      invariant forall j :: 0 <= j < k ==> results[j] == None
    {
      results[k] := None;
    }
    for i := 0 to |rs|
      invariant forall k :: 0 <= k < 5 ==> results[k] == LastOf(rs[..i], name, k)
      invariant n == 0 <==> forall k :: 0 <= k < 5 ==> results[k] == None
    {
      assert rs[..i + 1][..i] == rs[..i];
      if rs[i].name != name { continue; }
      n := n + 1;
      var k := Slot(rs[i].rtype);
      if k < 5 {
        results[k] := Some(rs[i]);
        assert results[k] != None;
      } else {
        n := n - 1;
      }
    }
    assert rs[..|rs|] == rs;
  }

  // ----- comparing the record sets -----

  function SetCmp(xs: seq<Authority>, ys: seq<Authority>): (r: int)
    ensures -1 <= r <= 1
  {
    if xs == [] then (if ys == [] then 0 else -1)
    else if ys == [] then 1
    else
      var c := RecordCmp(xs[0], ys[0]);
      if c != 0 then c else SetCmp(xs[1..], ys[1..])
  }

  method CompareRecords(a: Authority, b: Authority) returns (r: int)
    requires Shaped(a) && Shaped(b)
    ensures r == RecordCmp(a, b)
  {
    if a.rclass % 0x8000 > b.rclass % 0x8000 { return 1; }
    if a.rclass % 0x8000 < b.rclass % 0x8000 { return -1; }
    if a.rtype > b.rtype { return 1; }
    if a.rtype < b.rtype { return -1; }
    match a.data {
      case Addr(x) => return ByteCmp(x, b.data.octets);
      case NameRef(x) => return NameCmp(x, b.data.target);
      case SrvRef(f, x) =>
        r := ByteCmp(f, b.data.fixed);
        if r != 0 { return; }
        return NameCmp(x, b.data.host);
      case Text(x) =>
        r := CompareText(x, b.data.text);
    }
  }

  method CompareAuthorities(p: seq<Authority>, q: seq<Authority>, name: Name) returns (r: int)
    requires AllShaped(p) && AllShaped(q)
    ensures r == SetCmp(From(p, name, 0), From(q, name, 0))
  {
    hide From, LastOf, SetCmp, RecordCmp, Slot;
    var r1, r2 := new Option<Authority>[5](_ => None), new Option<Authority>[5](_ => None);
    var n1 := FindAuthorities(p, name, r1);
    var n2 := FindAuthorities(q, name, r2);
    var a1, a2 := r1[..], r2[..];
    assert forall k :: 0 <= k < 5 ==> a1[k] == LastOf(p, name, k) && a2[k] == LastOf(q, name, k);
    NothingFrom(p, name, 0);
    NothingFrom(q, name, 0);
    SetCmpEnds(From(p, name, 0), From(q, name, 0));
    if n1 == 0 && n2 == 0 { return 0; }
    var i: nat, j: nat := 0, 0;
    while true
      invariant 0 <= i <= 5 && 0 <= j <= 5
      invariant SetCmp(From(p, name, 0), From(q, name, 0)) == SetCmp(From(p, name, i), From(q, name, j))
      decreases 5 - i
    {
      ghost var i0 := i;
      while i < 5 && a1[i] == None
        invariant i0 <= i <= 5 && From(p, name, i) == From(p, name, i0)
      {
        FromStep(p, name, i);
        i := i + 1;
      }
      ghost var j0 := j;
      while j < 5 && a2[j] == None
        invariant j0 <= j <= 5 && From(q, name, j) == From(q, name, j0)
      {
        FromStep(q, name, j);
        j := j + 1;
      }
      FromStep(p, name, i);
      FromStep(q, name, j);
      SetCmpEnds(From(p, name, i), From(q, name, j));
      if i == 5 && j == 5 { return 0; }
      if i == 5 { return -1; }
      if j == 5 { return 1; }
      r := CompareRecords(a1[i].value, a2[j].value);
      if r != 0 { return; }
      i := i + 1;
      j := j + 1;
    }
  }

  /** One slot of the collected records. */
  lemma FromStep(rs: seq<Authority>, name: Name, k: nat)
    requires k <= 5
    ensures k == 5 ==> From(rs, name, k) == []
    ensures k < 5 && LastOf(rs, name, k) == None ==> From(rs, name, k) == From(rs, name, k + 1)
    ensures k < 5 && LastOf(rs, name, k).Some? ==>
              var s := From(rs, name, k);
              s != [] && s[0] == LastOf(rs, name, k).value && s[0] in rs && s[1..] == From(rs, name, k + 1)
  {
  }

  /** One step of the comparison of sets. */
  lemma SetCmpEnds(xs: seq<Authority>, ys: seq<Authority>)
    ensures xs == [] && ys == [] ==> SetCmp(xs, ys) == 0
    ensures xs == [] && ys != [] ==> SetCmp(xs, ys) == -1
    ensures xs != [] && ys == [] ==> SetCmp(xs, ys) == 1
    ensures xs != [] && ys != [] ==>
              SetCmp(xs, ys) == if RecordCmp(xs[0], ys[0]) != 0 then RecordCmp(xs[0], ys[0]) else SetCmp(xs[1..], ys[1..])
  {
  }

  lemma NothingFrom(rs: seq<Authority>, name: Name, k: nat)
    requires k <= 5
    ensures (forall j :: k <= j < 5 ==> LastOf(rs, name, j) == None) ==> From(rs, name, k) == []
    decreases 5 - k
  {
    if k < 5 { NothingFrom(rs, name, k + 1); }
  }

  // ----- who gives way -----

  /** The same record, up to the cache-flush bit. */
  predicate Same(a: Authority, b: Authority) {
    a.rclass % 0x8000 == b.rclass % 0x8000 && a.rtype == b.rtype && a.data == b.data
  }

  predicate Equivalent(xs: seq<Authority>, ys: seq<Authority>) {
    |xs| == |ys| && forall i :: 0 <= i < |xs| ==> Same(xs[i], ys[i])
  }

  /** Two TXT records that are compared by their data. */
  predicate TextPair(a: Authority, b: Authority) {
    a.rclass % 0x8000 == b.rclass % 0x8000 && a.rtype == b.rtype && a.data.Text? && b.data.Text?
  }

  /** The first place where two texts differ, or the end of the shorter one. */
  function FirstDifference(a: seq<byte>, b: seq<byte>): (k: nat)
    ensures k <= |a| && k <= |b| && a[..k] == b[..k]
    ensures k < |a| && k < |b| ==> a[k] != b[k]
  {
    if a == [] || b == [] || a[0] != b[0] then 0
    else
      var k := FirstDifference(a[1..], b[1..]);
      assert a[..k + 1] == [a[0]] + a[1..][..k] && b[..k + 1] == [b[0]] + b[1..][..k];
      k + 1
  }

  /** The first difference makes a the lower text. */
  predicate LowerText(a: seq<byte>, b: seq<byte>) {
    var k := FirstDifference(a, b);
    k < |a| && k < |b| && a[k] < b[k]
  }

  lemma {:induction false} DifferenceShows(a: seq<byte>, b: seq<byte>)
    ensures LowerText(a, b) ==> AnyGreater(b, a)
    ensures !LowerText(a, b) && !LowerText(b, a) ==> a <= b || b <= a
    ensures ByteCmp(a, b) == if LowerText(a, b) then -1 else if LowerText(b, a) then 1 else Sign(|a|, |b|)
    ensures FirstDifference(a, b) == FirstDifference(b, a)
  {
    if a != [] && b != [] {
      if a[0] == b[0] {
        DifferenceShows(a[1..], b[1..]);
        var k := FirstDifference(a[1..], b[1..]);
        assert FirstDifference(a, b) == k + 1;
        if a[1..] <= b[1..] {
          assert a == [a[0]] + a[1..] && b == [b[0]] + b[1..];
        } else if b[1..] <= a[1..] {
          assert a == [a[0]] + a[1..] && b == [b[0]] + b[1..];
        }
      } else {
        assert FirstDifference(a, b) == 0;
      }
    }
  }

  lemma {:induction false} NoneGreaterInPrefix(a: seq<byte>, b: seq<byte>)
    requires a <= b || b <= a
    ensures !AnyGreater(a, b)
  {
    if a != [] && b != [] {
      assert a[0] == b[0] && (a[1..] <= b[1..] || b[1..] <= a[1..]);
      NoneGreaterInPrefix(a[1..], b[1..]);
    }
  }

  /** Exactly when the coded comparison of TXT data is the lexicographic one. */
  lemma TextCmpIff(a: seq<byte>, b: seq<byte>)
    ensures TextCmp(a, b) == ByteCmp(a, b)
            <==> !(LowerText(a, b) && (AnyGreater(a, b) || |a| >= |b|))
  {
    hide AnyGreater, LowerText, ByteCmp;
    DifferenceShows(a, b);
    DifferenceShows(b, a);
    if !LowerText(a, b) && !LowerText(b, a) {
      NoneGreaterInPrefix(a, b);
    }
    LowerOneWay(a, b);
  }

  lemma LowerOneWay(a: seq<byte>, b: seq<byte>)
    ensures !(LowerText(a, b) && LowerText(b, a))
  {
    DifferenceShows(a, b);
  }

  /** Both hosts take the other's records for the greater ones: the sets agree
      up to a TXT record whose texts first differ downwards for one host, and
      that host also has a greater octet, or more octets, or as many and a
      greater record behind. */
  predicate Clash(xs: seq<Authority>, ys: seq<Authority>) {
    xs != [] && ys != [] &&
    var x, y, xs', ys' := xs[0], ys[0], xs[1..], ys[1..];
    if TextPair(x, y) && x.data != y.data then
      || (LowerText(x.data.text, y.data.text) && StillGreater(x.data.text, y.data.text, xs', ys'))
      || (LowerText(y.data.text, x.data.text) && StillGreater(y.data.text, x.data.text, ys', xs'))
    else Same(x, y) && Clash(xs', ys')
  }

  predicate StillGreater(a: seq<byte>, b: seq<byte>, xs: seq<Authority>, ys: seq<Authority>) {
    AnyGreater(a, b) || |a| > |b| || (|a| == |b| && IdealSetCmp(xs, ys) == 1)
  }

  /** Apart from TXT data the comparison of records is antisymmetric. */
  lemma RecordCmpSound(x: Authority, y: Authority)
    requires Shaped(x) && Shaped(y) && !(TextPair(x, y) && x.data != y.data)
    ensures RecordCmp(x, y) == -RecordCmp(y, x)
    ensures RecordCmp(x, y) == 0 <==> Same(x, y)
  {
    hide ByteCmp, NameCmp, AnyGreater;
    if x.rclass % 0x8000 == y.rclass % 0x8000 && x.rtype == y.rtype {
      match x.data {
        case Addr(a) =>
          ByteCmpAntisymmetric(a, y.data.octets);
          ByteCmpZero(a, y.data.octets);
        case NameRef(a) =>
          NameCmpAntisymmetric(a, y.data.target);
          NameCmpZero(a, y.data.target);
        case SrvRef(f, a) =>
          ByteCmpAntisymmetric(f, y.data.fixed);
          ByteCmpZero(f, y.data.fixed);
          NameCmpAntisymmetric(a, y.data.host);
          NameCmpZero(a, y.data.host);
        case Text(a) =>
          NoneGreaterInPrefix(a, a);
      }
    }
  }

  /** The coded comparison of two different TXT records, both ways round. */
  lemma TextPairCmp(x: Authority, y: Authority)
    requires TextPair(x, y) && x.data != y.data
    ensures var a, b := x.data.text, y.data.text;
            && RecordCmp(x, y) == TextCmp(a, b) && RecordCmp(y, x) == TextCmp(b, a)
            && (LowerText(a, b) ==> TextCmp(b, a) == 1 && !LowerText(b, a))
            && (LowerText(b, a) ==> TextCmp(a, b) == 1)
            && (!LowerText(a, b) && !LowerText(b, a) ==> TextCmp(a, b) == -TextCmp(b, a) != 0)
  {
    var a, b := x.data.text, y.data.text;
    hide LowerText, AnyGreater, ByteCmp;
    DifferenceShows(a, b);
    DifferenceShows(b, a);
    LowerOneWay(a, b);
    if !LowerText(a, b) && !LowerText(b, a) {
      NoneGreaterInPrefix(a, b);
      NoneGreaterInPrefix(b, a);
      assert |a| == |b| ==> a == b;
    }
  }

  /** At most one TXT record. */
  predicate OneText(xs: seq<Authority>) {
    forall i, j :: 0 <= i < j < |xs| ==> !(xs[i].data.Text? && xs[j].data.Text?)
  }

  /** The records collected for a name keep their shape and are of different
      types. */
  lemma {:induction false} FromFacts(rs: seq<Authority>, name: Name, k: nat)
    requires AllShaped(rs) && k <= 5
    ensures var s := From(rs, name, k);
            AllShaped(s) && OneText(s) && forall i :: 0 <= i < |s| ==> k <= Slot(s[i].rtype) < 5
    decreases 5 - k
  {
    hide LastOf, Shaped, Slot, From;
    FromStep(rs, name, k);
    if k < 5 {
      FromFacts(rs, name, k + 1);
      var s, t := From(rs, name, k), From(rs, name, k + 1);
      if LastOf(rs, name, k).Some? {
        assert s == [s[0]] + t && Shaped(s[0]) && Slot(s[0].rtype) == k;
        TextSlot(s[0]);
        forall i | 0 <= i < |t| ensures !(s[0].data.Text? && t[i].data.Text?) {
          TextSlot(t[i]);
        }
      }
    }
  }

  lemma TextSlot(r: Authority)
    requires Shaped(r) && Slot(r.rtype) < 5
    ensures r.data.Text? <==> Slot(r.rtype) == 3
  {
  }

  /** Of two hosts that compare each other's records for one name, some host
      gives way exactly when the records differ, and both do exactly when the
      TXT data clash. */
  lemma WhoGivesWay(p: seq<Authority>, q: seq<Authority>, name: Name)
    requires AllShaped(p) && AllShaped(q)
    ensures var xs, ys := From(p, name, 0), From(q, name, 0);
            && (SetCmp(xs, ys) == 1 || SetCmp(ys, xs) == 1 <==> !Equivalent(xs, ys))
            && (SetCmp(xs, ys) == 1 && SetCmp(ys, xs) == 1 <==> Clash(xs, ys))
  {
    FromFacts(p, name, 0);
    FromFacts(q, name, 0);
    GivesWay(From(p, name, 0), From(q, name, 0));
  }

  lemma {:induction false} GivesWay(xs: seq<Authority>, ys: seq<Authority>)
    requires AllShaped(xs) && AllShaped(ys) && OneText(xs) && OneText(ys)
    ensures SetCmp(xs, ys) == 1 || SetCmp(ys, xs) == 1 <==> !Equivalent(xs, ys)
    ensures SetCmp(xs, ys) == 1 && SetCmp(ys, xs) == 1 <==> Clash(xs, ys)
    decreases |xs|
  {
    hide RecordCmp, LowerText, AnyGreater, TextCmp, Shaped, IdealSetCmp;
    if xs != [] && ys != [] {
      var x, y := xs[0], ys[0];
      EquivalentStep(xs, ys);
      RestOneText(xs);
      RestOneText(ys);
      if TextPair(x, y) && x.data != y.data {
        TextPairCmp(x, y);
        TextCmpCases(x.data.text, y.data.text);
        TextCmpCases(y.data.text, x.data.text);
        AgreeingTexts(xs[1..], ys[1..]);
        AgreeingTexts(ys[1..], xs[1..]);
      } else {
        RecordCmpSound(x, y);
        GivesWay(xs[1..], ys[1..]);
      }
    }
  }

  lemma RestOneText(xs: seq<Authority>)
    requires xs != [] && OneText(xs)
    ensures OneText(xs[1..])
    ensures xs[0].data.Text? ==> forall i :: 0 <= i < |xs[1..]| ==> !xs[1..][i].data.Text?
  {
    forall i, j | 0 <= i < j < |xs[1..]| ensures !(xs[1..][i].data.Text? && xs[1..][j].data.Text?) {
      assert xs[1..][i] == xs[i + 1] && xs[1..][j] == xs[j + 1];
    }
  }

  lemma EquivalentStep(xs: seq<Authority>, ys: seq<Authority>)
    requires xs != [] && ys != []
    ensures Equivalent(xs, ys) <==> Same(xs[0], ys[0]) && Equivalent(xs[1..], ys[1..])
  {
    if Same(xs[0], ys[0]) && Equivalent(xs[1..], ys[1..]) {
      assert forall i :: 0 < i < |xs| ==> xs[i] == xs[1..][i - 1] && ys[i] == ys[1..][i - 1];
    }
    if Equivalent(xs, ys) {
      assert forall i :: 0 <= i < |xs[1..]| ==> xs[1..][i] == xs[i + 1] && ys[1..][i] == ys[i + 1];
    }
  }

  lemma TextCmpCases(a: seq<byte>, b: seq<byte>)
    ensures TextCmp(a, b) == 1 <==> AnyGreater(a, b) || |a| > |b|
    ensures TextCmp(a, b) == 0 <==> !AnyGreater(a, b) && |a| == |b|
  {
  }

  // ----- the order the specification asks for -----

  /** Records compared as section 8.2 of RFC 6762 wants them, TXT data included. */
  function IdealCmp(a: Authority, b: Authority): (r: int)
    ensures -1 <= r <= 1
  {
    if TextPair(a, b) then ByteCmp(a.data.text, b.data.text) else RecordCmp(a, b)
  }

  function IdealSetCmp(xs: seq<Authority>, ys: seq<Authority>): (r: int)
    ensures -1 <= r <= 1
  {
    if xs == [] then (if ys == [] then 0 else -1)
    else if ys == [] then 1
    else
      var c := IdealCmp(xs[0], ys[0]);
      if c != 0 then c else IdealSetCmp(xs[1..], ys[1..])
  }

  lemma IdealCmpSound(x: Authority, y: Authority)
    requires Shaped(x) && Shaped(y)
    ensures IdealCmp(x, y) == -IdealCmp(y, x)
    ensures IdealCmp(x, y) == 0 <==> Same(x, y)
  {
    hide RecordCmp, ByteCmp;
    if TextPair(x, y) {
      ByteCmpAntisymmetric(x.data.text, y.data.text);
      ByteCmpZero(x.data.text, y.data.text);
    } else {
      RecordCmpSound(x, y);
    }
  }

  lemma IdealCmpTransitive(x: Authority, y: Authority, z: Authority)
    requires Shaped(x) && Shaped(y) && Shaped(z) && IdealCmp(x, y) <= 0 && IdealCmp(y, z) <= 0
    ensures IdealCmp(x, z) <= 0
    ensures IdealCmp(x, z) == 0 ==> IdealCmp(x, y) == 0 && IdealCmp(y, z) == 0
  {
    hide ByteCmp, NameCmp, TextCmp;
    if x.rclass % 0x8000 == y.rclass % 0x8000 == z.rclass % 0x8000 && x.rtype == y.rtype == z.rtype {
      match x.data {
        case Addr(a) => ByteCmpTransitive(a, y.data.octets, z.data.octets);
        case NameRef(a) => NameCmpTransitive(a, y.data.target, z.data.target);
        case SrvRef(f, a) =>
          ByteCmpTransitive(f, y.data.fixed, z.data.fixed);
          if ByteCmp(f, z.data.fixed) == 0 {
            NameCmpTransitive(a, y.data.host, z.data.host);
          }
        case Text(a) => ByteCmpTransitive(a, y.data.text, z.data.text);
      }
    }
  }

  /** The ideal comparison of record sets is a total order. */
  lemma {:induction false} IdealSetOrder(xs: seq<Authority>, ys: seq<Authority>)
    requires AllShaped(xs) && AllShaped(ys)
    ensures IdealSetCmp(xs, ys) == -IdealSetCmp(ys, xs)
    ensures IdealSetCmp(xs, ys) == 0 <==> Equivalent(xs, ys)
    decreases |xs|
  {
    hide IdealCmp, Shaped, Same;
    if xs != [] && ys != [] {
      IdealCmpSound(xs[0], ys[0]);
      EquivalentStep(xs, ys);
      IdealSetOrder(xs[1..], ys[1..]);
    }
  }

  lemma {:induction false} IdealSetTransitive(xs: seq<Authority>, ys: seq<Authority>, zs: seq<Authority>)
    requires AllShaped(xs) && AllShaped(ys) && AllShaped(zs)
    requires IdealSetCmp(xs, ys) <= 0 && IdealSetCmp(ys, zs) <= 0
    ensures IdealSetCmp(xs, zs) <= 0
    ensures IdealSetCmp(xs, zs) == 0 ==> IdealSetCmp(xs, ys) == 0 && IdealSetCmp(ys, zs) == 0
    decreases |xs|
  {
    hide IdealCmp, Shaped;
    if xs != [] && ys != [] && zs != [] {
      IdealCmpTransitive(xs[0], ys[0], zs[0]);
      if IdealCmp(xs[0], zs[0]) == 0 {
        IdealSetTransitive(xs[1..], ys[1..], zs[1..]);
      }
    }
  }

  /** Any two TXT data of the two sets agree as far as both go. */
  predicate TextsAgree(xs: seq<Authority>, ys: seq<Authority>) {
    forall i, j :: 0 <= i < |xs| && 0 <= j < |ys| && xs[i].data.Text? && ys[j].data.Text? ==>
      xs[i].data.text <= ys[j].data.text || ys[j].data.text <= xs[i].data.text
  }

  /** With agreeing TXT data the code decides by the ideal order, so never both
      hosts give way, and exactly one does if the records differ. */
  lemma {:induction false} AgreeingTexts(xs: seq<Authority>, ys: seq<Authority>)
    requires AllShaped(xs) && AllShaped(ys) && TextsAgree(xs, ys)
    ensures SetCmp(xs, ys) == IdealSetCmp(xs, ys) && !Clash(xs, ys)
    decreases |xs|
  {
    hide ByteCmp, RecordCmp, AnyGreater, LowerText, Shaped;
    if xs != [] && ys != [] {
      var x, y := xs[0], ys[0];
      if TextPair(x, y) {
        AgreeingPair(x, y);
      }
      RestAgrees(xs, ys);
      AgreeingTexts(xs[1..], ys[1..]);
    }
  }

  lemma RestAgrees(xs: seq<Authority>, ys: seq<Authority>)
    requires xs != [] && ys != [] && TextsAgree(xs, ys)
    ensures TextsAgree(xs[1..], ys[1..])
  {
    forall i, j | 0 <= i < |xs[1..]| && 0 <= j < |ys[1..]| && xs[1..][i].data.Text? && ys[1..][j].data.Text?
      ensures xs[1..][i].data.text <= ys[1..][j].data.text || ys[1..][j].data.text <= xs[1..][i].data.text
    {
      assert xs[1..][i] == xs[i + 1] && ys[1..][j] == ys[j + 1];
    }
  }

  lemma AgreeingPair(x: Authority, y: Authority)
    requires TextPair(x, y) && (x.data.text <= y.data.text || y.data.text <= x.data.text)
    ensures RecordCmp(x, y) == ByteCmp(x.data.text, y.data.text)
    ensures !LowerText(x.data.text, y.data.text) && !LowerText(y.data.text, x.data.text)
  {
    var a, b := x.data.text, y.data.text;
    NoneGreaterInPrefix(a, b);
    NoneGreaterInPrefix(b, a);
    DifferenceShows(a, b);
    DifferenceShows(b, a);
  }

  /** Two hosts that both give way: TXT data [1, 2] against [2, 1]. */
  lemma BothGiveWay(name: Name, xs: seq<Authority>, ys: seq<Authority>)
    requires xs == [Authority(name, T_TXT, C_FLUSH, Text([1, 2]))]
    requires ys == [Authority(name, T_TXT, C_FLUSH, Text([2, 1]))]
    ensures SetCmp(From(xs, name, 0), From(ys, name, 0)) == 1
    ensures SetCmp(From(ys, name, 0), From(xs, name, 0)) == 1
  {
    var a: seq<byte>, b: seq<byte> := [1, 2], [2, 1];
    OneRecord(xs, name);
    OneRecord(ys, name);
    assert AnyGreater(b, a);
    assert a[1..] == [2] && b[1..] == [1] && AnyGreater(a[1..], b[1..]);
    assert AnyGreater(a, b);
  }

  lemma OneRecord(rs: seq<Authority>, name: Name)
    requires |rs| == 1 && rs[0].name == name && rs[0].rtype == T_TXT
    ensures From(rs, name, 0) == rs
  {
    assert rs[..0] == [];
    FromStep(rs, name, 0);
    FromStep(rs, name, 1);
    FromStep(rs, name, 2);
    FromStep(rs, name, 3);
    FromStep(rs, name, 4);
    FromStep(rs, name, 5);
    assert rs == [rs[0]] + [];
  }
}
