/** Known answers in a query (ptr_size, mdns_add_answer_o, mdns_add_name_lo and the
    second pass of prepare_query in mdns/mdns_query.c): PTR records written with
    pointers to the name of a question in the same packet. */
module KnownAnswers {
  import opened Bytes
  import opened Names
  import opened Packet

  /** What a cached instance is answered with: its service name and what is left of
      its PTR, in milliseconds. */
  datatype Answer = Answer(servname: Label, ptrTtl: u32)

  predicate ValidAnswer(s: Answer) {
    ValidLabel(s.servname)
  }

  predicate ValidAnswers(insts: seq<Answer>) {
    forall i :: 0 <= i < |insts| ==> ValidAnswer(insts[i])
  }

  /** The instances whose PTR is still known. */
  function Known(insts: seq<Answer>): (r: seq<Answer>)
    ensures ValidAnswers(insts) ==> ValidAnswers(r)
    ensures |r| <= |insts|
  {
    if insts == [] then []
    else
      var last := insts[|insts| - 1];
      Known(insts[..|insts| - 1]) + if last.ptrTtl == 0 then [] else [last]
  }

  /** A pointer to an offset in the packet. */
  function PointerTo(off: nat): seq<byte>
    requires off < 0x4000
  {
    Be16(0xC000 + off)
  }

  function OwnerBytes(off: nat, ttl: u32): (b: seq<byte>)
    requires off < 0x4000
    ensures |b| == 10
  {
    PointerTo(off) + Be16(T_PTR) + Be16(C_IN) + Be32(ttl)
  }

  function NameBytes(off: nat, l: Label): (b: seq<byte>)
    requires off < 0x4000 && |l| < 0x100
    ensures |b| == |l| + 5
  {
    Be16(|l| + 3) + ([|l|] + l + PointerTo(off))
  }

  /** One answer, as the two writers leave it. */
  function AnswerBytes(off: nat, s: Answer): (b: seq<byte>)
    requires off < 0x4000 && ValidAnswer(s)
    ensures |b| == PtrSize(s)
  {
    OwnerBytes(off, s.ptrTtl / 1000) + NameBytes(off, s.servname)
  }

  /** The size the code checks for before it writes. */
  function PtrSize(s: Answer): nat {
    2 * 2 + 4 + 2 * 2 + |s.servname| + 1 + 2
  }

  function AnswersBytes(off: nat, insts: seq<Answer>): (b: seq<byte>)
    requires off < 0x4000 && ValidAnswers(insts)
  {
    if insts == [] then [] else AnswersBytes(off, insts[..|insts| - 1]) + AnswerBytes(off, insts[|insts| - 1])
  }

  // ----- what the answers mean -----

  /** At offset p lies a complete PTR record from the type to the instance. */
  predicate AnswerAt(b: seq<byte>, p: nat, fqst: Name, s: Answer) {
    && p + PtrSize(s) <= |b|
    && NameAt(b, p) && LabelsAt(b, p) == fqst && SizeFrom(b, p) == Ok(2)
    && Get16(b, p + 2) == T_PTR && Get16(b, p + 4) == C_IN && Get32(b, p + 6) == s.ptrTtl / 1000
    && Get16(b, p + 10) as int == PtrSize(s) - 12
    && NameAt(b, p + 12) && LabelsAt(b, p + 12) == [s.servname] + fqst
  }

  /** From offset p on lie the answers for the instances, one after the other. */
  predicate AnswersAt(b: seq<byte>, p: nat, fqst: Name, insts: seq<Answer>)
    requires ValidAnswers(insts)
    decreases |insts|
  {
    insts == [] ||
    (AnswerAt(b, p, fqst, insts[0]) && AnswersAt(b, p + PtrSize(insts[0]), fqst, insts[1..]))
  }

  lemma PointerDecodes(b: seq<byte>, p: nat, run: nat, off: nat, fqst: Name)
    requires ValidName(fqst) && off < 0x4000 && off < run <= p
    requires At(b, p, PointerTo(off)) && At(b, off, Encode(fqst))
    ensures WellFormed(b, run, p) && Labels(b, run, p) == fqst && SizeFrom(b, p) == Ok(2)
  {
    hide Encode;
    EncodedNameAt(b, off, off, fqst);
    AtIndex(b, p, PointerTo(off), 0);
    AtIndex(b, p, PointerTo(off), 1);
    assert Target(b, p) == off;
  }

  /** The writers' octets mean the record, in any packet that holds the question
      the pointers lead to. */
  lemma AnswerDecodes(b: seq<byte>, p: nat, off: nat, fqst: Name, s: Answer)
    requires ValidName(fqst) && off < 0x4000 && off < p && ValidAnswer(s)
    requires At(b, off, Encode(fqst)) && At(b, p, AnswerBytes(off, s))
    ensures AnswerAt(b, p, fqst, s)
  {
    hide At, Encode, Be16, Be32, Get16, Get32, WellFormed, Labels, SizeFrom;
    var l, ttl := s.servname, s.ptrTtl / 1000;
    AtParts(b, p, OwnerBytes(off, ttl), NameBytes(off, l));
    AtParts(b, p, PointerTo(off) + Be16(T_PTR) + Be16(C_IN), Be32(ttl));
    AtParts(b, p, PointerTo(off) + Be16(T_PTR), Be16(C_IN));
    AtParts(b, p, PointerTo(off), Be16(T_PTR));
    AtParts(b, p + 10, Be16(|l| + 3), [|l|] + l + PointerTo(off));
    PointerDecodes(b, p, p, off, fqst);
    Get16AfterBe16(b, p + 2, T_PTR);
    Get16AfterBe16(b, p + 4, C_IN);
    Get32AfterBe32(b, p + 6, ttl);
    Get16AfterBe16(b, p + 10, |l| + 3);
    LabelPointerDecodes(b, p + 12, off, l, fqst);
    InBounds(b, p, AnswerBytes(off, s));
  }

  lemma InBounds(b: seq<byte>, p: nat, e: seq<byte>)
    requires At(b, p, e)
    ensures p + |e| <= |b|
  {
  }

  lemma LabelPointerDecodes(b: seq<byte>, p: nat, off: nat, l: Label, fqst: Name)
    requires ValidName(fqst) && off < 0x4000 && off < p && 1 <= |l| <= MAX_LABEL
    requires At(b, off, Encode(fqst)) && At(b, p, [|l|] + l + PointerTo(off))
    ensures NameAt(b, p) && LabelsAt(b, p) == [l] + fqst
  {
    hide Encode;
    AtParts(b, p, [|l|] + l, PointerTo(off));
    AtParts(b, p, [|l|], l);
    AtIndex(b, p, [|l|], 0);
    PointerDecodes(b, p + |l| + 1, p, off, fqst);
  }

  lemma {:induction false} AnswersFront(off: nat, insts: seq<Answer>)
    requires off < 0x4000 && ValidAnswers(insts) && insts != []
    ensures AnswersBytes(off, insts) == AnswerBytes(off, insts[0]) + AnswersBytes(off, insts[1..])
    decreases |insts|
  {
    hide AnswerBytes;
    var n := |insts| - 1;
    if n > 0 {
      AnswersFront(off, insts[..n]);
      assert insts[..n][1..] == insts[1..][..n - 1];
    } else {
      assert insts[1..] == [] && insts[..0] == [];
    }
  }

  lemma {:induction false} AnswersDecode(b: seq<byte>, p: nat, off: nat, fqst: Name, insts: seq<Answer>)
    requires ValidName(fqst) && off < 0x4000 && off < p && ValidAnswers(insts)
    requires At(b, off, Encode(fqst)) && At(b, p, AnswersBytes(off, insts))
    ensures AnswersAt(b, p, fqst, insts)
    decreases |insts|
  {
    hide At, Encode, AnswerBytes, AnswerAt;
    if insts != [] {
      AnswersFront(off, insts);
      AtParts(b, p, AnswerBytes(off, insts[0]), AnswersBytes(off, insts[1..]));
      AnswerDecodes(b, p, off, fqst, insts[0]);
      AnswersDecode(b, p + PtrSize(insts[0]), off, fqst, insts[1..]);
    }
  }

  // ----- the writers -----

  /** The packet with its answer count replaced. */
  function Counted(b: seq<byte>, n: u16): (r: seq<byte>)
    requires |b| >= HEADER_SIZE
    ensures |r| == |b|
  {
    b[..6] + Be16(n) + b[8..]
  }

  function AnswerCount(b: seq<byte>): u16
    requires |b| >= HEADER_SIZE
  {
    Get16(b, 6)
  }

  /** A 16-bit counter, which wraps. */
  function Wrapped(n: nat): u16 {
    n % 0x1_0000
  }

  lemma WrappedNow(n: u16)
    ensures Wrapped(n) == n
  {
  }

  lemma WrappedNext(n: nat, k: nat)
    ensures Wrapped(Wrapped(n) + k) == Wrapped(n + k)
  {
  }

  lemma CountedFacts(b: seq<byte>, n: u16, n': u16, x: seq<byte>)
    requires |b| >= HEADER_SIZE
    ensures Counted(Counted(b, n) + x, n') == Counted(b, n') + x
    ensures AnswerCount(Counted(b, n) + x) == n
    ensures Counted(b, AnswerCount(b)) == b
    ensures Bump(b, 6) == Counted(b, Wrapped(AnswerCount(b) + 1))
  {
    hide Be16, Get16;
    var c := Counted(b, n) + x;
    assert c[6..8] == Be16(n);
    Get16AfterBe16(c, 6, n);
    assert c[..6] == b[..6] && c[8..] == b[8..] + x;
    GetThenPut(b);
  }

  lemma GetThenPut(b: seq<byte>)
    requires |b| >= HEADER_SIZE
    ensures Counted(b, AnswerCount(b)) == b
  {
    assert b == b[..6] + [b[6], b[7]] + b[8..];
    assert Be16(Get16(b, 6)) == [b[6], b[7]];
  }

  /** Octets behind the header are untouched by the count. */
  lemma AtCounted(b: seq<byte>, n: u16, x: seq<byte>, k: nat, e: seq<byte>)
    requires |b| >= HEADER_SIZE && k >= HEADER_SIZE && At(b, k, e)
    ensures At(Counted(b, n) + x, k, e)
  {
    var c := Counted(b, n) + x;
    assert c[8..|b|] == b[8..];
    assert c[k..k + |e|] == c[8..|b|][k - 8..k - 8 + |e|] && b[k..k + |e|] == b[8..][k - 8..k - 8 + |e|];
  }

  method AddAnswerOffset(m: Message, off: nat, ttl: u32) returns (ok: bool)
    requires m.Valid() && off < 0x4000
    modifies m`cur, m.data
    ensures m.Valid()
    ensures ok <==> old(m.cur) + 10 <= DATA_MAX
    ensures ok ==> m.data[..m.cur] == Bump(old(m.data[..m.cur]) + OwnerBytes(off, ttl), 6)
    ensures !ok ==> m.cur == old(m.cur) && m.data[..] == old(m.data[..])
  {
    hide Be16, Be32, Bump;
    if DATA_MAX - m.cur < 10 { return false; }
    ghost var was := m.data[..m.cur];
    m.Put(PointerTo(off));
    m.Put(Be16(T_PTR));
    m.Put(Be16(C_IN));
    m.Put(Be32(ttl));
    Associate(was, PointerTo(off), Be16(T_PTR), Be16(C_IN), Be32(ttl));
    m.Count(Answers);
    return true;
  }

  method AddNameLabelOffset(m: Message, l: Label, off: nat) returns (ok: bool)
    requires m.Valid() && off < 0x4000 && |l| < 0x100
    modifies m`cur, m.data
    ensures m.Valid()
    ensures ok <==> old(m.cur) + |l| + 5 <= DATA_MAX
    ensures ok ==> m.data[..m.cur] == old(m.data[..m.cur]) + NameBytes(off, l)
    ensures !ok ==> m.cur == old(m.cur) && m.data[..] == old(m.data[..])
  {
    hide Be16;
    if DATA_MAX - m.cur < |l| + 5 { return false; }
    ghost var was := m.data[..m.cur];
    m.Put(Be16(|l| + 3));
    m.Put([|l|]);
    m.Put(l);
    m.Put(PointerTo(off));
    assert was + Be16(|l| + 3) + [|l|] + l + PointerTo(off) == was + (Be16(|l| + 3) + ([|l|] + l + PointerTo(off)));
    return true;
  }

  /** One known answer; the room was checked for both writers together. */
  method AddAnswer(m: Message, off: nat, s: Answer)
    requires m.Valid() && off < 0x4000 && ValidAnswer(s) && m.cur + PtrSize(s) <= DATA_MAX
    modifies m`cur, m.data
    ensures m.Valid()
    ensures var was := old(m.data[..m.cur]);
            m.data[..m.cur] == Counted(was, Wrapped(AnswerCount(was) + 1)) + AnswerBytes(off, s)
  {
    hide Bump, Counted, OwnerBytes, NameBytes, AnswerCount, Wrapped;
    ghost var was := m.data[..m.cur];
    var ok := AddAnswerOffset(m, off, s.ptrTtl / 1000);
    ok := AddNameLabelOffset(m, s.servname, off);
    BumpAppend(was, OwnerBytes(off, s.ptrTtl / 1000), 6);
    CountedFacts(was, 0, 0, []);
    ghost var c := Counted(was, Wrapped(AnswerCount(was) + 1));
    assert c + OwnerBytes(off, s.ptrTtl / 1000) + NameBytes(off, s.servname) == c + AnswerBytes(off, s);
  }

  lemma NothingAnswered(b: seq<byte>, off: nat)
    requires |b| >= HEADER_SIZE && off < 0x4000
    ensures Counted(b, Wrapped(AnswerCount(b))) + AnswersBytes(off, []) == b
    ensures Known([]) == []
  {
    hide Counted, AnswerCount;
    CountedFacts(b, 0, 0, []);
  }

  lemma {:induction false} KnownPrefix(insts: seq<Answer>, i: nat)
    requires i <= |insts|
    ensures Known(insts[..i]) <= Known(insts)
    decreases |insts|
  {
    if i < |insts| {
      KnownPrefix(insts[..|insts| - 1], i);
      assert insts[..|insts| - 1][..i] == insts[..i];
    } else {
      assert insts[..i] == insts;
    }
  }

  lemma AnswersSnoc(off: nat, written: seq<Answer>, s: Answer)
    requires off < 0x4000 && ValidAnswers(written) && ValidAnswer(s)
    ensures AnswersBytes(off, written + [s]) == AnswersBytes(off, written) + AnswerBytes(off, s)
  {
    hide AnswerBytes;
    assert (written + [s])[..|written|] == written;
  }

  lemma KnownSnoc(insts: seq<Answer>, i: nat)
    requires i < |insts|
    ensures Known(insts[..i + 1]) == Known(insts[..i]) + if insts[i].ptrTtl == 0 then [] else [insts[i]]
  {
    assert insts[..i + 1][..i] == insts[..i];
  }

  lemma CountedMore(q: seq<byte>, n: nat, xs: seq<byte>, k: nat, x: seq<byte>)
    requires |q| >= HEADER_SIZE
    ensures var b := Counted(q, Wrapped(n)) + xs;
            Counted(b, Wrapped(AnswerCount(b) + k)) + x == Counted(q, Wrapped(n + k)) + (xs + x)
  {
    hide Counted, AnswerCount, Wrapped;
    CountedFacts(q, Wrapped(n), Wrapped(n + k), xs);
    WrappedNext(n, k);
    var c := Counted(q, Wrapped(n + k));
    assert c + xs + x == c + (xs + x);
  }

  lemma OneMoreAnswer(was: seq<byte>, off: nat, written: seq<Answer>, s: Answer)
    requires |was| >= HEADER_SIZE && off < 0x4000 && ValidAnswers(written) && ValidAnswer(s)
    ensures var n: nat := AnswerCount(was) + |written|;
            var b := Counted(was, Wrapped(n)) + AnswersBytes(off, written);
            Counted(b, Wrapped(AnswerCount(b) + 1)) + AnswerBytes(off, s)
            == Counted(was, Wrapped(n + 1)) + AnswersBytes(off, written + [s])
  {
    hide Counted, AnswerCount, AnswerBytes, AnswersBytes, Wrapped, ValidAnswers, ValidAnswer;
    AnswersSnoc(off, written, s);
    CountedMore(was, AnswerCount(was) + |written|, AnswersBytes(off, written), 1, AnswerBytes(off, s));
  }

  // ----- the answers of all monitors -----

  /** A monitor that has asked in this packet: its type, the offset of its question
      and what is known of its instances. */
  datatype Due = Due(fqst: Name, offset: nat, instances: seq<Answer>)

  /** Its question stands where it says. */
  predicate Asked(b: seq<byte>, d: Due) {
    && ValidName(d.fqst) && ValidAnswers(d.instances)
    && HEADER_SIZE <= d.offset < 0x4000 && d.offset < |b| && At(b, d.offset, Encode(d.fqst))
  }

  predicate AllAsked(b: seq<byte>, dues: seq<Due>) {
    forall i :: 0 <= i < |dues| ==> Asked(b, dues[i])
  }

  /** For each a prefix of what is known. */
  predicate Prefixes(dues: seq<Due>, written: seq<seq<Answer>>) {
    |dues| == |written| &&
    forall i :: 0 <= i < |dues| ==>
      dues[i].offset < 0x4000 && ValidAnswers(written[i]) && written[i] <= Known(dues[i].instances)
  }

  function KnownBytes(dues: seq<Due>, written: seq<seq<Answer>>): seq<byte>
    requires Prefixes(dues, written)
  {
    if dues == [] then []
    else
      var n := |dues| - 1;
      KnownBytes(dues[..n], written[..n]) + AnswersBytes(dues[n].offset, written[n])
  }

  function Total(written: seq<seq<Answer>>): nat {
    if written == [] then 0 else Total(written[..|written| - 1]) + |written[|written| - 1]|
  }

  /** The packet with questions q and the answers behind them. */
  predicate Answered(b: seq<byte>, q: seq<byte>, dues: seq<Due>, written: seq<seq<Answer>>) {
    && |q| >= HEADER_SIZE && Prefixes(dues, written)
    && b == Counted(q, Wrapped(AnswerCount(q) + Total(written))) + KnownBytes(dues, written)
  }

  /** For the i-th monitor all that is known is written, or the next did not fit. */
  predicate Full(q: seq<byte>, dues: seq<Due>, written: seq<seq<Answer>>, i: nat)
    requires Prefixes(dues, written) && i < |dues|
  {
    var known := Known(dues[i].instances);
    written[i] == known ||
    |q| + |KnownBytes(dues[..i + 1], written[..i + 1])| + PtrSize(known[|written[i]|]) > DATA_MAX
  }

  /** Answers are left out only for lack of room. */
  predicate AsManyAsFit(q: seq<byte>, dues: seq<Due>, written: seq<seq<Answer>>)
    requires Prefixes(dues, written)
  {
    forall i :: 0 <= i < |dues| ==> Full(q, dues, written, i)
  }

  lemma NoneAnswered(q: seq<byte>)
    requires |q| >= HEADER_SIZE
    ensures Answered(q, q, [], []) && AsManyAsFit(q, [], [])
  {
    hide Counted, AnswerCount;
    WrappedNow(AnswerCount(q));
    CountedFacts(q, 0, 0, []);
  }

  lemma KnownBytesSnoc(dues: seq<Due>, written: seq<seq<Answer>>, d: Due, w: seq<Answer>)
    requires Prefixes(dues, written) && d.offset < 0x4000 && ValidAnswers(w) && w <= Known(d.instances)
    ensures Prefixes(dues + [d], written + [w]) && Total(written + [w]) == Total(written) + |w|
    ensures KnownBytes(dues + [d], written + [w]) == KnownBytes(dues, written) + AnswersBytes(d.offset, w)
  {
    hide AnswersBytes, Known, ValidAnswers;
    assert (dues + [d])[..|dues|] == dues && (written + [w])[..|written|] == written;
  }

  /** One more monitor's answers. */
  lemma OneMoreDue(b: seq<byte>, q: seq<byte>, dues: seq<Due>, written: seq<seq<Answer>>, d: Due, w: seq<Answer>)
    requires Answered(b, q, dues, written) && |b| >= HEADER_SIZE
    requires d.offset < 0x4000 && ValidAnswers(w) && w <= Known(d.instances)
    ensures Answered(Counted(b, Wrapped(AnswerCount(b) + |w|)) + AnswersBytes(d.offset, w), q, dues + [d], written + [w])
  {
    hide Counted, AnswerCount, AnswersBytes, KnownBytes, Wrapped, Prefixes, Known, ValidAnswers, Total;
    KnownBytesSnoc(dues, written, d, w);
    CountedMore(q, AnswerCount(q) + Total(written), KnownBytes(dues, written), |w|, AnswersBytes(d.offset, w));
  }

  lemma FitSnoc(q: seq<byte>, dues: seq<Due>, written: seq<seq<Answer>>, d: Due, w: seq<Answer>)
    requires Prefixes(dues, written) && AsManyAsFit(q, dues, written)
    requires d.offset < 0x4000 && ValidAnswers(w) && w <= Known(d.instances)
    requires w != Known(d.instances) ==>
               |q| + |KnownBytes(dues, written)| + |AnswersBytes(d.offset, w)| + PtrSize(Known(d.instances)[|w|]) > DATA_MAX
    ensures Prefixes(dues + [d], written + [w]) && AsManyAsFit(q, dues + [d], written + [w])
  {
    hide AnswersBytes, Known, ValidAnswers, KnownBytes, Full;
    KnownBytesSnoc(dues, written, d, w);
    forall i | 0 <= i < |dues| + 1 ensures Full(q, dues + [d], written + [w], i) {
      if i < |dues| {
        FullStays(q, dues, written, d, w, i);
      } else {
        FullLast(q, dues + [d], written + [w]);
      }
    }
  }

  lemma FullStays(q: seq<byte>, dues: seq<Due>, written: seq<seq<Answer>>, d: Due, w: seq<Answer>, i: nat)
    requires Prefixes(dues, written) && Prefixes(dues + [d], written + [w]) && i < |dues| && Full(q, dues, written, i)
    ensures Full(q, dues + [d], written + [w], i)
  {
    hide Known, ValidAnswers, KnownBytes, PtrSize;
    assert (dues + [d])[..i + 1] == dues[..i + 1] && (written + [w])[..i + 1] == written[..i + 1];
  }

  lemma FullLast(q: seq<byte>, dues: seq<Due>, written: seq<seq<Answer>>)
    requires Prefixes(dues, written) && dues != []
    requires var n := |dues| - 1;
             var known := Known(dues[n].instances);
             written[n] == known || |q| + |KnownBytes(dues, written)| + PtrSize(known[|written[n]|]) > DATA_MAX
    ensures Full(q, dues, written, |dues| - 1)
  {
    hide Known, ValidAnswers, KnownBytes, PtrSize;
    assert dues[..|dues|] == dues && written[..|dues|] == written;
  }

  lemma KnownBytesAt(dues: seq<Due>, written: seq<seq<Answer>>, i: nat)
    requires Prefixes(dues, written) && i < |dues|
    ensures var front := KnownBytes(dues[..i], written[..i]);
            front + AnswersBytes(dues[i].offset, written[i]) <= KnownBytes(dues, written)
    decreases |dues|
  {
    hide AnswersBytes, Known, ValidAnswers;
    var n := |dues| - 1;
    if i < n {
      KnownBytesAt(dues[..n], written[..n], i);
      assert dues[..n][..i] == dues[..i] && written[..n][..i] == written[..i];
    }
  }

  /** In the finished packet every answer is a complete PTR record, from the type of
      its monitor to the instance, and they follow one another without gaps. */
  lemma KnownAnswersDecode(b: seq<byte>, q: seq<byte>, dues: seq<Due>, written: seq<seq<Answer>>, i: nat)
    requires Answered(b, q, dues, written) && AllAsked(q, dues) && i < |dues|
    ensures ValidAnswers(written[i])
    ensures AnswersAt(b, |q| + |KnownBytes(dues[..i], written[..i])|, dues[i].fqst, written[i])
  {
    hide Encode, At, AnswersBytes, Known, AnswersAt, KnownBytes, Counted, ValidAnswers;
    var n, off := Wrapped(AnswerCount(q) + Total(written)), dues[i].offset;
    var front, x, all := KnownBytes(dues[..i], written[..i]), AnswersBytes(off, written[i]), KnownBytes(dues, written);
    KnownBytesAt(dues, written, i);
    assert Asked(q, dues[i]);
    AtCounted(q, n, all, off, Encode(dues[i].fqst));
    PrefixAt(Counted(q, n), front, x, all);
    AnswersDecode(b, |q| + |front|, off, dues[i].fqst, written[i]);
  }

  lemma PrefixAt(c: seq<byte>, front: seq<byte>, x: seq<byte>, all: seq<byte>)
    requires front + x <= all
    ensures At(c + all, |c| + |front|, x)
  {
    assert (c + all)[|c| + |front|..|c| + |front| + |x|] == all[|front|..|front| + |x|];
    assert (front + x)[|front|..] == x;
  }
}
