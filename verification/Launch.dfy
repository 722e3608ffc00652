/** The size check made at launch (responder_launch, check_max_response and the
    growth bounds in mdns/mdns_respond.c) against every name the responder may
    later take. */
module Launch {
  import opened Bytes
  import opened Names
  import opened Rename
  import opened Packet
  import opened Parser
  import opened Host
  import opened Respond

  // ----- namings reached by renaming -----

  /** The label is the original one or was derived from it by conflicts. */
  ghost predicate Derived(base: Label, l: Label)
    requires Renamable(base)
  {
    exists k :: 0 <= k <= 8 && After(base, k) == Some(l)
  }

  ghost predicate Reachable(d: HostDef, n: Naming)
    requires ValidDef(d)
  {
    && ValidNaming(d, n) && Derived(d.hostname, n.host)
    && forall i :: 0 <= i < |d.services| ==> Derived(d.services[i].servname, n.services[i])
  }

  /** A label has room for a dash and a digit and does not carry them yet. */
  predicate Grows(l: Label) {
    !Numbered(l) && |l| + 2 <= MAX_LABEL
  }

  function Longest(l: Label): (r: Label)
    requires Renamable(l)
    ensures ValidLabel(r) && |r| == |l| + if Grows(l) then 2 else 0
  {
    if Grows(l) then l + [DASH, TWO] else l
  }

  lemma DerivedLength(base: Label, l: Label)
    requires Renamable(base) && Derived(base, l)
    ensures |base| <= |l| <= |Longest(base)|
  {
    var k :| 0 <= k <= 8 && After(base, k) == Some(l);
    if k > 0 {
      Stage(base, k);
      if Numbered(base) {
        CountsUp(base, k);
      } else {
        AfterNext(base, k - 1);
        CountsUp(Next(base).value, k - 1);
      }
    }
  }

  lemma LongestIsDerived(base: Label)
    requires Renamable(base)
    ensures Derived(base, Longest(base))
  {
    if Grows(base) {
      assert After(base, 0) == Some(base) && After(base, 1) == Next(base);
    } else {
      assert After(base, 0) == Some(base);
    }
  }

  function LongestNaming(d: HostDef): (n: Naming)
    requires ValidDef(d)
    ensures ValidNaming(d, n)
    ensures forall i :: 0 <= i < |d.services| ==> n.services[i] == Longest(d.services[i].servname)
  {
    Naming(Longest(d.hostname),
           seq(|d.services|, i requires 0 <= i < |d.services| =>
             assert ValidService(d.services[i]);
             Longest(d.services[i].servname)))
  }

  lemma LongestReachable(d: HostDef)
    requires ValidDef(d)
    ensures Reachable(d, LongestNaming(d)) && Reachable(d, BaseNaming(d))
  {
    LongestIsDerived(d.hostname);
    assert After(d.hostname, 0) == Some(d.hostname);
    forall i | 0 <= i < |d.services|
      ensures Derived(d.services[i].servname, LongestNaming(d).services[i])
      ensures Derived(d.services[i].servname, BaseNaming(d).services[i])
    {
      assert ValidService(d.services[i]);
      LongestIsDerived(d.services[i].servname);
      assert After(d.services[i].servname, 0) == Some(d.services[i].servname);
    }
  }

  // ----- sizes -----

  function FqdnSize(d: HostDef, n: Naming): nat {
    |n.host| + |d.domain| + 3
  }

  function FqsnSize(d: HostDef, n: Naming, i: nat): nat
    requires i < |d.services| == |n.services|
  {
    |n.services[i]| + |d.services[i].servtype| + |d.domain| + 10
  }

  /** Octets of one record. */
  function EntrySize(d: HostDef, n: Naming, e: Entry): nat
    requires HasEntry(d, e) && |d.services| == |n.services|
  {
    match e
    case HostAddress => FqdnSize(d, n) + 14
    case ReversePointer => |Encode(ArpaName(d.ip))| + 10 + FqdnSize(d, n)
    case Srv(i) => FqsnSize(d, n, i) + 16 + FqdnSize(d, n)
    case ServicePointer(i) => FqsnSize(d, n, i) - |n.services[i]| - 1 + 10 + FqsnSize(d, n, i)
    case KeyVals(i) => FqsnSize(d, n, i) + 10 + |d.services[i].keyvals.value|
  }

  lemma EntrySizeIs(d: HostDef, n: Naming, ttl: u32, e: Entry)
    requires ValidDef(d) && ValidNaming(d, n) && HasEntry(d, e) && ttl != NO_TTL
    ensures |RecordBytes(EntryRecord(d, n, ttl, e))| == EntrySize(d, n, e)
  {
    hide Encode, ValidDef, ValidNaming, ArpaName, SoundRecord, ValidService;
  }

  function SumSize(d: HostDef, n: Naming, es: seq<Entry>): nat
    requires HasEntries(d, es) && |d.services| == |n.services|
  {
    if es == [] then 0 else SumSize(d, n, es[..|es| - 1]) + EntrySize(d, n, es[|es| - 1])
  }

  lemma {:induction false} SumSizeIs(d: HostDef, n: Naming, ttl: u32, es: seq<Entry>)
    requires ValidDef(d) && ValidNaming(d, n) && HasEntries(d, es) && ttl != NO_TTL
    ensures |RecordsBytes(EntryRecords(d, n, ttl, es))| == SumSize(d, n, es)
  {
    hide EntryRecord, EntrySize, RecordBytes, SoundRecord, ValidDef, ValidNaming, HasEntry, ValidRecord;
    if es != [] {
      var k := |es| - 1;
      SumSizeIs(d, n, ttl, es[..k]);
      EntrySizeIs(d, n, ttl, es[k]);
      var rs := EntryRecords(d, n, ttl, es[..k]);
      assert (rs + [EntryRecord(d, n, ttl, es[k])])[..k] == rs;
    }
  }

  function QuestionsSize(d: HostDef, n: Naming, k: nat): nat
    requires k <= |d.services| == |n.services|
  {
    if k == 0 then 0 else QuestionsSize(d, n, k - 1) + FqsnSize(d, n, k - 1) + 4
  }

  lemma {:induction false} QuestionsSizeIs(d: HostDef, n: Naming, k: nat)
    requires ValidDef(d) && ValidNaming(d, n) && k <= |d.services|
    ensures |QuestionsBytes(ServiceQuestions(d, n, k))| == QuestionsSize(d, n, k)
  {
    hide Encode, ValidDef, ValidNaming;
    if k > 0 {
      QuestionsSizeIs(d, n, k - 1);
      var qs := ServiceQuestions(d, n, k);
      assert qs[..k - 1] == ServiceQuestions(d, n, k - 1);
    }
  }

  lemma ProbeSizeIs(d: HostDef, n: Naming)
    requires ValidDef(d) && ValidNaming(d, n)
    ensures Size(ProbeMsg(d, n)) ==
            HEADER_SIZE + FqdnSize(d, n) + 4 + |Encode(ArpaName(d.ip))| + 4 + QuestionsSize(d, n, |d.services|)
            + SumSize(d, n, AllEntries(d, Authorities))
  {
    hide Encode, ValidDef, ValidNaming, ArpaName, EntryRecords, ServiceQuestions, RecordsBytes, AllEntries, ValidQuestions;
    SumSizeIs(d, n, 255, AllEntries(d, Authorities));
    QuestionsSizeIs(d, n, |d.services|);
    EmptySizes();
    TwoQuestions(Question(Fqdn(d, n), T_ANY, C_IN), Question(ArpaName(d.ip), T_ANY, C_IN), ServiceQuestions(d, n, |d.services|));
  }

  lemma TwoQuestions(a: Question, b: Question, qs: seq<Question>)
    requires ValidQuestion(a) && ValidQuestion(b) && ValidQuestions(qs)
    ensures ValidQuestions([a, b] + qs)
    ensures |QuestionsBytes([a, b] + qs)| == |Encode(a.name)| + 4 + |Encode(b.name)| + 4 + |QuestionsBytes(qs)|
  {
    var all := [a, b] + qs;
    QuestionsFront(all);
    assert all[1..] == [b] + qs;
    QuestionsFront([b] + qs);
    assert ([b] + qs)[1..] == qs;
  }

  // ----- growth -----

  /** Every label of n' is at least as long as that of n, by at most two octets. */
  predicate Within(n: Naming, n': Naming) {
    && |n.services| == |n'.services|
    && |n.host| <= |n'.host| <= |n.host| + 2
    && forall i :: 0 <= i < |n.services| ==> |n.services[i]| <= |n'.services[i]| <= |n.services[i]| + 2
  }

  /** Every label of n' is longer by exactly two octets. */
  predicate Longer(n: Naming, n': Naming) {
    && |n.services| == |n'.services|
    && |n'.host| == |n.host| + 2
    && forall i :: 0 <= i < |n.services| ==> |n'.services[i]| == |n.services[i]| + 2
  }

  /** How often a record names the host or its service. */
  function Mentions(e: Entry): nat {
    if e.Srv? then 2 else 1
  }

  function AllMentions(es: seq<Entry>): nat {
    if es == [] then 0 else AllMentions(es[..|es| - 1]) + Mentions(es[|es| - 1])
  }

  lemma EntryGrowth(d: HostDef, n: Naming, n': Naming, e: Entry)
    requires HasEntry(d, e) && |d.services| == |n.services| && Within(n, n')
    ensures EntrySize(d, n, e) <= EntrySize(d, n', e) <= EntrySize(d, n, e) + 2 * Mentions(e)
    ensures Longer(n, n') ==> EntrySize(d, n', e) == EntrySize(d, n, e) + 2 * Mentions(e)
  {
    hide Encode, ArpaName;
  }

  lemma {:induction false} SumGrowth(d: HostDef, n: Naming, n': Naming, es: seq<Entry>)
    requires HasEntries(d, es) && |d.services| == |n.services| && Within(n, n')
    ensures SumSize(d, n, es) <= SumSize(d, n', es) <= SumSize(d, n, es) + 2 * AllMentions(es)
    ensures Longer(n, n') ==> SumSize(d, n', es) == SumSize(d, n, es) + 2 * AllMentions(es)
  {
    hide EntrySize, HasEntry;
    if es != [] {
      var k := |es| - 1;
      SumGrowth(d, n, n', es[..k]);
      EntryGrowth(d, n, n', es[k]);
    }
  }

  lemma {:induction false} QuestionsGrowth(d: HostDef, n: Naming, n': Naming, k: nat)
    requires k <= |d.services| == |n.services| && Within(n, n')
    ensures QuestionsSize(d, n, k) <= QuestionsSize(d, n', k) <= QuestionsSize(d, n, k) + 2 * k
    ensures Longer(n, n') ==> QuestionsSize(d, n', k) == QuestionsSize(d, n, k) + 2 * k
  {
    if k > 0 {
      QuestionsGrowth(d, n, n', k - 1);
    }
  }

  function TxtCount(d: HostDef, k: nat): (t: nat)
    requires k <= |d.services|
    ensures t <= k
  {
    if k == 0 then 0 else TxtCount(d, k - 1) + if d.services[k - 1].keyvals.Some? then 1 else 0
  }

  lemma {:induction false} MentionsAppend(a: seq<Entry>, b: seq<Entry>)
    ensures AllMentions(a + b) == AllMentions(a) + AllMentions(b)
    decreases |b|
  {
    if b == [] {
      assert a + b == a;
    } else {
      var k := |b| - 1;
      MentionsAppend(a, b[..k]);
      assert (a + b)[..|a| + k] == a + b[..k];
    }
  }

  lemma {:induction false} ServiceMentions(d: HostDef, section: Section, k: nat)
    requires k <= |d.services|
    ensures AllMentions(ServiceEntries(d, section, k)) == (if section == Answers then 3 * k else 2 * k) + TxtCount(d, k)
  {
    if k > 0 {
      ServiceMentions(d, section, k - 1);
      var a, i := ServiceEntries(d, section, k - 1), k - 1;
      var x: seq<Entry> := if section == Answers then [ServicePointer(i)] else [];
      var y: seq<Entry> := if d.services[i].keyvals.Some? then [KeyVals(i)] else [];
      MentionsAppend(a, OneService(d, section, i));
      MentionsAppend([Srv(i)] + x, y);
      MentionsAppend([Srv(i)], x);
    }
  }

  lemma EntriesMentions(d: HostDef)
    ensures AllMentions(AllEntries(d, Answers)) == 2 + 3 * |d.services| + TxtCount(d, |d.services|)
    ensures AllMentions(AllEntries(d, Authorities)) == 2 + 2 * |d.services| + TxtCount(d, |d.services|)
  {
    ServiceMentions(d, Answers, |d.services|);
    ServiceMentions(d, Authorities, |d.services|);
    var two := [HostAddress, ReversePointer];
    assert two[..1] == [HostAddress] && AllMentions(two) == 2;
    MentionsAppend(two, ServiceEntries(d, Answers, |d.services|));
    MentionsAppend(two, ServiceEntries(d, Authorities, |d.services|));
  }

  /** Renaming lets an announcement grow by at most 4 + 6n + 2t octets, n being
      the number of services and t those with a TXT record; a probe by at most
      6 + 6n + 2t, and by exactly that when every label grows. */
  lemma PacketGrowth(d: HostDef, n: Naming, n': Naming, ttl: u32)
    requires ValidDef(d) && ValidNaming(d, n) && ValidNaming(d, n') && Within(n, n') && ttl != NO_TTL
    ensures var s, t := |d.services|, TxtCount(d, |d.services|);
            && Size(AnnounceMsg(d, n, ttl)) <= Size(AnnounceMsg(d, n', ttl)) <= Size(AnnounceMsg(d, n, ttl)) + 4 + 6 * s + 2 * t
            && Size(ProbeMsg(d, n)) <= Size(ProbeMsg(d, n')) <= Size(ProbeMsg(d, n)) + 6 + 6 * s + 2 * t
            && (Longer(n, n') ==> Size(ProbeMsg(d, n')) == Size(ProbeMsg(d, n)) + 6 + 6 * s + 2 * t)
  {
    hide Encode, ArpaName, AllEntries, SumSize, QuestionsSize, TxtCount, EntryRecords, RecordsBytes;
    EntriesMentions(d);
    AnnounceSizeIs(d, n, ttl);
    AnnounceSizeIs(d, n', ttl);
    SumGrowth(d, n, n', AllEntries(d, Answers));
    ProbeSizeIs(d, n);
    ProbeSizeIs(d, n');
    SumGrowth(d, n, n', AllEntries(d, Authorities));
    QuestionsGrowth(d, n, n', |d.services|);
  }

  lemma AnnounceSizeIs(d: HostDef, n: Naming, ttl: u32)
    requires ValidDef(d) && ValidNaming(d, n) && ttl != NO_TTL
    ensures Size(AnnounceMsg(d, n, ttl)) == HEADER_SIZE + SumSize(d, n, AllEntries(d, Answers))
  {
    SumSizeIs(d, n, ttl, AllEntries(d, Answers));
    EmptySizes();
  }

  lemma ReachableWithin(d: HostDef, n: Naming)
    requires ValidDef(d) && Reachable(d, n)
    ensures Within(BaseNaming(d), n) && Within(n, LongestNaming(d))
  {
    DerivedLength(d.hostname, n.host);
    forall i | 0 <= i < |d.services|
      ensures |d.services[i].servname| <= |n.services[i]| <= |Longest(d.services[i].servname)|
    {
      assert ValidService(d.services[i]);
      DerivedLength(d.services[i].servname, n.services[i]);
    }
  }

  /** Every probe the responder may come to send fits a packet exactly when the
      one with all labels at their longest does. */
  lemma ProbesFitIff(d: HostDef)
    requires ValidDef(d)
    ensures (forall n :: Reachable(d, n) ==> Size(ProbeMsg(d, n)) <= DATA_MAX)
            <==> Size(ProbeMsg(d, LongestNaming(d))) <= DATA_MAX
  {
    LongestReachable(d);
    forall n | Reachable(d, n)
      ensures Size(ProbeMsg(d, n)) <= Size(ProbeMsg(d, LongestNaming(d)))
    {
      ReachableWithin(d, n);
      PacketGrowth(d, n, LongestNaming(d), 255);
    }
  }

  // ----- the check made at launch -----

  /** A probe that fits claims at most thirty services, so all its questions are
      parsed. */
  lemma FewServices(d: HostDef, n: Naming)
    requires ValidDef(d) && ValidNaming(d, n) && Size(ProbeMsg(d, n)) <= DATA_MAX
    ensures |d.services| + 2 <= MAX_ENTRIES
  {
    hide Encode, ArpaName;
    ProbeSizeIs(d, n);
    LeastSize(d, n, |d.services|);
    SumAppend(d, n, [HostAddress, ReversePointer], ServiceEntries(d, Authorities, |d.services|));
  }

  lemma {:induction false} LeastSize(d: HostDef, n: Naming, k: nat)
    requires ValidDef(d) && ValidNaming(d, n) && k <= |d.services|
    ensures QuestionsSize(d, n, k) >= 16 * k
    ensures SumSize(d, n, ServiceEntries(d, Authorities, k)) >= 33 * k
  {
    hide ArpaName, Encode;
    if k > 0 {
      LeastSize(d, n, k - 1);
      var i := k - 1;
      var y: seq<Entry> := if d.services[i].keyvals.Some? then [KeyVals(i)] else [];
      SumAppend(d, n, ServiceEntries(d, Authorities, i), OneService(d, Authorities, i));
      assert OneService(d, Authorities, i) == [Srv(i)] + y;
      SumAppend(d, n, [Srv(i)], y);
      assert [Srv(i)][..0] == [];
    }
  }

  lemma {:induction false} SumAppend(d: HostDef, n: Naming, a: seq<Entry>, b: seq<Entry>)
    requires HasEntries(d, a) && HasEntries(d, b) && |d.services| == |n.services|
    ensures HasEntries(d, a + b) && SumSize(d, n, a + b) == SumSize(d, n, a) + SumSize(d, n, b)
    decreases |b|
  {
    hide EntrySize;
    if b == [] {
      assert a + b == a;
    } else {
      var k := |b| - 1;
      SumAppend(d, n, a, b[..k]);
      assert (a + b)[..|a| + k] == a + b[..k];
    }
  }

  /** A list that has everything another one has is at least as long in octets. */
  lemma {:induction false} SumOfMore(d: HostDef, n: Naming, a: seq<Entry>, b: seq<Entry>)
    requires HasEntries(d, a) && HasEntries(d, b) && |d.services| == |n.services| && multiset(a) <= multiset(b)
    ensures SumSize(d, n, a) <= SumSize(d, n, b)
    decreases |a|
  {
    hide EntrySize, HasEntry;
    if a != [] {
      var e, a' := a[|a| - 1], a[..|a| - 1];
      assert a == a' + [e];
      assert e in multiset(b);
      var k :| 0 <= k < |b| && b[k] == e;
      var x, y := b[..k], b[k + 1..];
      assert b == x + [e] + y;
      SumAppend(d, n, x + [e], y);
      SumAppend(d, n, x, [e]);
      SumAppend(d, n, x, y);
      assert [e][..0] == [] && SumSize(d, n, [e]) == EntrySize(d, n, e);
      WithoutOne(a', x, e, y);
      SumOfMore(d, n, a', x + y);
    }
  }

  lemma WithoutOne(a: seq<Entry>, x: seq<Entry>, e: Entry, y: seq<Entry>)
    requires multiset(a + [e]) <= multiset(x + [e] + y)
    ensures multiset(a) <= multiset(x + y)
  {
    assert multiset(a + [e]) == multiset(a) + multiset{e};
    assert multiset(x + [e] + y) == multiset(x) + multiset{e} + multiset(y);
    assert multiset(x + y) == multiset(x) + multiset(y);
    forall z ensures multiset(a)[z] <= multiset(x + y)[z] {
      assert multiset(a + [e])[z] <= multiset(x + [e] + y)[z];
    }
  }

  /** Every entry of the announcement is asked for by the questions of the
      launch check, so it is in the response that the check builds. */
  lemma CheckAsksAll(d: HostDef, e: Entry)
    requires ValidDef(d) && e in AllEntries(d, Answers)
    ensures var n := BaseNaming(d); Asked(d, n, AllQuestions(d, n), |d.services| + 2, e) > 0
  {
    hide Fqdn, Fqsn, PtrName, ArpaName;
    var n := BaseNaming(d);
    var qs := AllQuestions(d, n);
    assert qs[0] == Question(Fqdn(d, n), T_ANY, C_IN) && qs[1] == Question(ArpaName(d.ip), T_ANY, C_IN);
    match e {
      case HostAddress => AskedBy(d, n, qs, |qs|, 0, e);
      case ReversePointer => AskedBy(d, n, qs, |qs|, 1, e);
      case Srv(i) => ServiceAsked(d, n, i, e);
      case ServicePointer(i) => ServiceAsked(d, n, i, e);
      case KeyVals(i) => ServiceAsked(d, n, i, e);
    }
  }

  lemma ServiceAsked(d: HostDef, n: Naming, i: nat, e: Entry)
    requires ValidDef(d) && ValidNaming(d, n) && i < |d.services|
    requires HasEntry(d, e) && (e == Srv(i) || e == ServicePointer(i) || e == KeyVals(i))
    ensures Asked(d, n, AllQuestions(d, n), |d.services| + 2, e) > 0
  {
    hide Fqdn, Fqsn, PtrName, ArpaName, Asked;
    var qs := AllQuestions(d, n);
    QuestionOf(d, n, |d.services|, i);
    assert qs[i + 2] == ServiceQuestions(d, n, |d.services|)[i];
    AskedBy(d, n, qs, |qs|, i + 2, e);
  }

  lemma {:induction false} QuestionOf(d: HostDef, n: Naming, k: nat, i: nat)
    requires ValidDef(d) && ValidNaming(d, n) && i < k <= |d.services|
    ensures ServiceQuestions(d, n, k)[i] == Question(Fqsn(d, n, i), T_ANY, C_IN)
  {
    if i < k - 1 { QuestionOf(d, n, k - 1, i); }
  }

  lemma {:induction false} AskedBy(d: HostDef, n: Naming, qs: seq<Question>, k: nat, i: nat, e: Entry)
    requires ValidDef(d) && ValidNaming(d, n) && i < k <= |qs| && Asks(d, n, qs[i], e)
    ensures Asked(d, n, qs, k, e) > 0
  {
    if i < k - 1 { AskedBy(d, n, qs, k - 1, i, e); }
  }

  /** No entry is announced twice. */
  lemma {:induction false} ServiceEntriesOnce(d: HostDef, k: nat, e: Entry)
    requires k <= |d.services|
    ensures multiset(ServiceEntries(d, Answers, k))[e] <= 1
    ensures multiset(ServiceEntries(d, Answers, k))[e] > 0 ==> OfService(e, k) && HasEntry(d, e)
  {
    hide OneService;
    if k > 0 {
      ServiceEntriesOnce(d, k - 1, e);
      var a, b := ServiceEntries(d, Answers, k - 1), OneService(d, Answers, k - 1);
      assert multiset(a + b) == multiset(a) + multiset(b);
      OneServiceOnce(d, k - 1, e);
    }
  }

  lemma OneServiceOnce(d: HostDef, i: nat, e: Entry)
    requires i < |d.services|
    ensures multiset(OneService(d, Answers, i))[e] <= 1
    ensures multiset(OneService(d, Answers, i))[e] > 0 ==> OfService(e, i + 1) && e.i == i && HasEntry(d, e)
  {
    var b := OneService(d, Answers, i);
    if d.services[i].keyvals.Some? {
      assert b == [Srv(i), ServicePointer(i), KeyVals(i)];
    } else {
      assert b == [Srv(i), ServicePointer(i)];
    }
  }

  lemma AnnouncedOnce(d: HostDef, e: Entry)
    ensures multiset(AllEntries(d, Answers))[e] <= 1
  {
    hide ServiceEntries;
    var es := ServiceEntries(d, Answers, |d.services|);
    ServiceEntriesOnce(d, |d.services|, e);
    assert multiset([HostAddress, ReversePointer] + es) == multiset{HostAddress, ReversePointer} + multiset(es);
  }

  /** The entries of the response that the launch check builds. */
  function CheckEntries(d: HostDef): (es: seq<Entry>)
    requires ValidDef(d)
    ensures HasEntries(d, es)
  {
    var n := BaseNaming(d);
    AnsweringExtends(d, n, AllQuestions(d, n), 0, |d.services| + 2);
    Answering(d, n, AllQuestions(d, n), |d.services| + 2)
  }

  lemma CheckCoversAnnouncement(d: HostDef)
    requires ValidDef(d)
    ensures Size(AnnounceMsg(d, BaseNaming(d), 255)) <= Size(AnswerMsg(d, BaseNaming(d), 0, CheckEntries(d)))
    ensures CheckEntries(d) != []
  {
    hide AllEntries, Answering, SumSize, AllQuestions, Asked, EntryRecords, RecordsBytes;
    var n := BaseNaming(d);
    var all, es := AllEntries(d, Answers), CheckEntries(d);
    forall e ensures multiset(all)[e] <= multiset(es)[e] {
      AnnouncedOnce(d, e);
      if e in all {
        CheckAsksAll(d, e);
        AnswerMultiplicity(d, n, AllQuestions(d, n), |d.services| + 2, e);
      }
    }
    SumOfMore(d, n, all, es);
    SumSizeIs(d, n, 255, all);
    SumSizeIs(d, n, 255, es);
    HasHostAddress(d);
    assert multiset(es)[HostAddress] > 0;
  }

  lemma HasHostAddress(d: HostDef)
    ensures HostAddress in AllEntries(d, Answers) && multiset(AllEntries(d, Answers))[HostAddress] > 0
  {
    assert AllEntries(d, Answers)[0] == HostAddress;
  }

  function MaxProbeGrowth(services: nat): nat {
    2 * 3 + 2 * 2 * services
  }

  function MaxResponseGrowth(services: nat): nat {
    2 * 3 + 4 * 2 * services
  }

  /** The first half of the launch check: the probe, and room for renaming it. */
  predicate ProbeAccepted(d: HostDef)
    requires ValidDef(d)
  {
    var n := BaseNaming(d);
    && Size(ProbeMsg(d, n)) <= DATA_MAX
    && MaxProbeGrowth(|d.services|) <= DATA_MAX - ProbeEnd(d, n)
  }

  /** The second half: the largest response, and room for renaming it. */
  predicate ResponseAccepted(d: HostDef)
    requires ValidDef(d)
  {
    var m := AnswerMsg(d, BaseNaming(d), 0, CheckEntries(d));
    Size(m) <= DATA_MAX && MaxResponseGrowth(|d.services|) <= DATA_MAX - Size(m)
  }

  /** After a successful launch every announcement the responder may come to
      make fits a packet, whatever names it has taken by then. */
  lemma LaunchCoversAnnouncements(d: HostDef, n: Naming, ttl: u32)
    requires ValidDef(d) && ResponseAccepted(d) && Reachable(d, n) && ttl != NO_TTL
    ensures Size(AnnounceMsg(d, n, ttl)) <= DATA_MAX
  {
    hide AnnounceMsg, AnswerMsg, Size, ProbeMsg, TxtCount;
    CheckCoversAnnouncement(d);
    ReachableWithin(d, n);
    PacketGrowth(d, BaseNaming(d), n, ttl);
    SameSize(d, BaseNaming(d), ttl);
    TxtBound(d);
  }

  lemma TxtBound(d: HostDef)
    ensures TxtCount(d, |d.services|) <= |d.services|
  {
  }

  lemma SameSize(d: HostDef, n: Naming, ttl: u32)
    requires ValidDef(d) && ValidNaming(d, n) && ttl != NO_TTL
    ensures Size(AnnounceMsg(d, n, ttl)) == Size(AnnounceMsg(d, n, 255))
  {
    AnnounceSizeIs(d, n, ttl);
    AnnounceSizeIs(d, n, 255);
  }

  /** The questions a parsed query means. */
  function Decoded(data: seq<byte>, ps: seq<ParsedQuestion>): (qs: seq<Question>)
    requires forall i :: 0 <= i < |ps| ==> NameAt(data, ps[i].at)
    ensures |qs| == |ps|
    ensures forall i :: 0 <= i < |ps| ==> qs[i] == Question(LabelsAt(data, ps[i].at), ps[i].qtype, ps[i].qclass)
  {
    seq(|ps|, i requires 0 <= i < |ps| => Question(LabelsAt(data, ps[i].at), ps[i].qtype, ps[i].qclass))
  }

  lemma DecodedAre(data: seq<byte>, ps: seq<ParsedQuestion>, qs: seq<Question>)
    requires MeansQuestions(data, ps, qs)
    ensures forall i :: 0 <= i < |ps| ==> NameAt(data, ps[i].at)
    ensures Decoded(data, ps) == qs
  {
    hide NameAt, LabelsAt;
    assert forall i :: 0 <= i < |ps| ==> MeansQuestion(data, ps[i], qs[i]);
  }

  /** The query of the launch check is read back question for question. */
  lemma CheckQueryParses(d: HostDef, b: seq<byte>)
    requires ValidDef(d) && |d.services| + 2 <= MAX_ENTRIES
    requires var m := Msg(0, false, AllQuestions(d, BaseNaming(d)), [], []);
             ValidMsg(m) && Wire(m) <= b
    ensures var len := |Wire(Msg(0, false, AllQuestions(d, BaseNaming(d)), [], []))|;
            len <= |b| && ParseMessage(b, len, 256).Good? &&
            MeansQuestions(b, ParseMessage(b, len, 256).value.questions, AllQuestions(d, BaseNaming(d)))
  {
    hide AllQuestions, ParseMessage, MeansQuestions, Wire, ValidDef;
    var m := Msg(0, false, AllQuestions(d, BaseNaming(d)), [], []);
    RoundTrip(m, b, 256);
    Uncut(m);
  }

  method CheckMaxResponse(rx: Message, tx: Message, d: HostDef) returns (ok: bool)
    requires rx.Valid() && tx.Valid() && rx != tx && rx.data != tx.data && ValidDef(d)
    requires Size(ProbeMsg(d, BaseNaming(d))) <= DATA_MAX
    modifies rx, rx.data, tx, tx.data
    ensures tx.Valid()
    ensures ok <==> Size(AnswerMsg(d, BaseNaming(d), 0, CheckEntries(d))) <= DATA_MAX
    ensures ok ==> tx.Holds() && tx.msg == AnswerMsg(d, BaseNaming(d), 0, CheckEntries(d))
  {
    hide AnswerMsg, Size, ValidDef, AllQuestions, Answering, Wire, QuestionsBytes, ParseMessage, MeansQuestions, BaseNaming,
         ProbeMsg, Sends, Delays;
    var n := BaseNaming(d);
    FewServices(d, n);
    rx.Init(false);
    ok := AddQuestions(rx, AllQuestions(d, n));
    QuestionsFitToo(d, n);
    if !ok { return; }
    assert rx.data[..rx.cur] <= rx.data[..];
    var parsed := ReadMessage(rx.data[..], rx.cur, 256);
    CheckQueryParses(d, rx.data[..]);
    DecodedAre(rx.data[..], parsed.value.questions, AllQuestions(d, n));
    if !parsed.Good? { return false; }
    var qs := Decoded(rx.data[..], parsed.value.questions);
    var r := PrepareResponse(tx, d, n, 0, true, qs);
    CheckCoversAnnouncement(d);
    SendsOrNot(CheckEntries(d));
    if r.Failed? || (!r.send && !r.delay) { return false; }
    return true;
  }

  lemma QuestionsFitToo(d: HostDef, n: Naming)
    requires ValidDef(d) && ValidNaming(d, n) && Size(ProbeMsg(d, n)) <= DATA_MAX
    ensures HEADER_SIZE + |QuestionsBytes(AllQuestions(d, n))| <= DATA_MAX
  {
  }

  /** The launch check as the code makes it. */
  method CheckSizes(rx: Message, tx: Message, d: HostDef) returns (ok: bool)
    requires rx.Valid() && tx.Valid() && rx != tx && rx.data != tx.data && ValidDef(d)
    modifies rx, rx.data, tx, tx.data
    ensures ok <==> ProbeAccepted(d) && ResponseAccepted(d)
  {
    hide ProbeMsg, Size, ProbeEnd, AnswerMsg, CheckEntries, ValidDef, BaseNaming, Wire;
    var n := BaseNaming(d);
    var parsed;
    ok, parsed := PrepareProbe(tx, d, n);
    if !ok { return; }
    FewServices(d, n);
    if MaxProbeGrowth(|d.services|) > DATA_MAX - parsed.cur { return false; }
    ok := CheckMaxResponse(rx, tx, d);
    if !ok { return; }
    SizeIsWire(tx.msg);
    return MaxResponseGrowth(|d.services|) <= DATA_MAX - tx.cur;
  }

  /** The launch check as a whole. */
  predicate Launched(d: HostDef) {
    ValidDef(d) && ProbeAccepted(d) && ResponseAccepted(d)
  }

  // ----- the authorities of a launched host -----

  lemma {:induction false} EntryCount(d: HostDef, k: nat)
    requires k <= |d.services|
    ensures |ServiceEntries(d, Authorities, k)| == k + TxtCount(d, k)
  {
    if k > 0 {
      EntryCount(d, k - 1);
    }
  }

  /** Octets of the records of one service. */
  lemma OneServiceSize(d: HostDef, n: Naming, section: Section, i: nat)
    requires i < |d.services| == |n.services|
    ensures SumSize(d, n, OneService(d, section, i)) ==
            EntrySize(d, n, Srv(i)) + (if section == Answers then EntrySize(d, n, ServicePointer(i)) else 0)
            + (if d.services[i].keyvals.Some? then EntrySize(d, n, KeyVals(i)) else 0)
  {
    hide EntrySize;
    var x: seq<Entry> := if section == Answers then [ServicePointer(i)] else [];
    var y: seq<Entry> := if d.services[i].keyvals.Some? then [KeyVals(i)] else [];
    SumAppend(d, n, [Srv(i)] + x, y);
    SumAppend(d, n, [Srv(i)], x);
    assert [Srv(i)][..0] == [] && [ServicePointer(i)][..0] == [];
    assert d.services[i].keyvals.Some? ==> y[..0] == [];
  }

  lemma NextServiceSize(d: HostDef, n: Naming, section: Section, k: nat)
    requires 0 < k <= |d.services| == |n.services|
    ensures SumSize(d, n, ServiceEntries(d, section, k)) ==
            SumSize(d, n, ServiceEntries(d, section, k - 1)) + SumSize(d, n, OneService(d, section, k - 1))
  {
    hide SumSize, OneService, HasEntries;
    SumAppend(d, n, ServiceEntries(d, section, k - 1), OneService(d, section, k - 1));
  }

  lemma LeastService(d: HostDef, n: Naming, i: nat)
    requires ValidDef(d) && ValidNaming(d, n) && i < |d.services|
    ensures EntrySize(d, n, Srv(i)) + EntrySize(d, n, ServicePointer(i)) >= 65
    ensures d.services[i].keyvals.Some? ==> EntrySize(d, n, KeyVals(i)) >= 22
  {
  }

  lemma {:induction false} LeastAnnouncement(d: HostDef, n: Naming, k: nat)
    requires ValidDef(d) && ValidNaming(d, n) && k <= |d.services|
    ensures SumSize(d, n, ServiceEntries(d, Answers, k)) >= 65 * k + 22 * TxtCount(d, k)
  {
    hide ArpaName, Encode;
    if k > 0 {
      hide SumSize, OneService, ServiceEntries, ValidDef, ValidNaming, EntrySize, HasEntries;
      LeastAnnouncement(d, n, k - 1);
      NextServiceSize(d, n, Answers, k);
      OneServiceSize(d, n, Answers, k - 1);
      LeastService(d, n, k - 1);
    }
  }

  /** A host that passes the launch check claims at most 32 records, since each
      takes its room in the response. */
  lemma FewAuthorities(d: HostDef)
    requires ValidDef(d) && ResponseAccepted(d)
    ensures |AllEntries(d, Authorities)| <= MAX_ENTRIES
  {
    hide AnswerMsg, AnnounceMsg, Size, Encode, ArpaName, SumSize, TxtCount, ServiceEntries, ValidDef;
    var n := BaseNaming(d);
    CheckCoversAnnouncement(d);
    AnnounceSizeIs(d, n, 255);
    LeastAnnouncement(d, n, |d.services|);
    HostPart(d, n, ServiceEntries(d, Answers, |d.services|));
    EntryCount(d, |d.services|);
    TxtBound(d);
  }

  /** So every probe of a launched host that fits a packet is read back as it was
      written, to its last octet. */
  method LaunchedProbe(m: Message, d: HostDef, n: Naming) returns (ok: bool, parsed: Parse<ParsedMsg>)
    requires m.Valid() && Launched(d) && ValidNaming(d, n)
    modifies m, m.data
    ensures m.Valid()
    ensures ok <==> Size(ProbeMsg(d, n)) <= DATA_MAX
    ensures ok ==> m.Holds() && m.msg == ProbeMsg(d, n)
    ensures ok ==> parsed.Good? && parsed.cur == m.cur && MeansMsg(m.data[..], parsed.value, ProbeMsg(d, n))
  {
    hide ProbeMsg, Size, ValidDef, ValidNaming, MeansMsg, ProbeEnd, Wire, AllEntries, ProbeAccepted, ResponseAccepted;
    ok, parsed := PrepareProbe(m, d, n);
    if ok {
      FewServices(d, n);
      FewAuthorities(d);
    }
  }

  // ----- the bound for probes -----

  /** Octets by which a label can grow. */
  function Growth(l: Label): nat {
    if Grows(l) then 2 else 0
  }

  /** Octets by which what a probe says of the services below k can grow. */
  function ServiceGrowth(d: HostDef, k: nat): nat
    requires k <= |d.services|
  {
    if k == 0 then 0
    else
      var s := d.services[k - 1];
      ServiceGrowth(d, k - 1) + Growth(d.hostname) + (if s.keyvals.Some? then 3 else 2) * Growth(s.servname)
  }

  /** Octets by which the probe can grow. */
  function ProbeGrowth(d: HostDef): nat {
    3 * Growth(d.hostname) + ServiceGrowth(d, |d.services|)
  }

  lemma {:induction false} ServiceGrowthIs(d: HostDef, k: nat)
    requires ValidDef(d) && k <= |d.services|
    ensures var n, n' := BaseNaming(d), LongestNaming(d);
            QuestionsSize(d, n', k) + SumSize(d, n', ServiceEntries(d, Authorities, k)) ==
            QuestionsSize(d, n, k) + SumSize(d, n, ServiceEntries(d, Authorities, k)) + ServiceGrowth(d, k)
  {
    hide ArpaName, Encode;
    if k > 0 {
      ServiceGrowthIs(d, k - 1);
      var i, n, n' := k - 1, BaseNaming(d), LongestNaming(d);
      assert ValidService(d.services[i]);
      NextServiceSize(d, n, Authorities, k);
      NextServiceSize(d, n', Authorities, k);
      OneServiceSize(d, n, Authorities, i);
      OneServiceSize(d, n', Authorities, i);
      hide SumSize, OneService, ServiceEntries, ValidDef, ValidService, LongestNaming, BaseNaming;
    }
  }

  lemma LongestProbe(d: HostDef)
    requires ValidDef(d)
    ensures Size(ProbeMsg(d, LongestNaming(d))) == Size(ProbeMsg(d, BaseNaming(d))) + ProbeGrowth(d)
  {
    hide ArpaName, Encode, ProbeMsg, Size;
    var n, n', es := BaseNaming(d), LongestNaming(d), ServiceEntries(d, Authorities, |d.services|);
    ProbeSizeIs(d, n);
    ProbeSizeIs(d, n');
    ServiceGrowthIs(d, |d.services|);
    HostPart(d, n, es);
    HostPart(d, n', es);
  }

  lemma HostPart(d: HostDef, n: Naming, es: seq<Entry>)
    requires HasEntries(d, es) && |d.services| == |n.services|
    ensures HasEntries(d, [HostAddress, ReversePointer] + es)
    ensures SumSize(d, n, [HostAddress, ReversePointer] + es) ==
            2 * FqdnSize(d, n) + 24 + |Encode(ArpaName(d.ip))| + SumSize(d, n, es)
  {
    hide ArpaName, Encode;
    SumAppend(d, n, [HostAddress, ReversePointer], es);
    assert [HostAddress, ReversePointer] == [HostAddress] + [ReversePointer];
    SumAppend(d, n, [HostAddress], [ReversePointer]);
    assert [HostAddress][..0] == [];
  }

  /** The bound the code uses for probes is too small, and this is when it matters:
      a host that passes the launch check comes to a probe that does not fit a
      packet, after conflicts, exactly if its first probe leaves less room than all
      its names together can grow by. */
  lemma ProbeBoundTooSmall(d: HostDef)
    requires Launched(d)
    ensures (exists n :: Reachable(d, n) && Size(ProbeMsg(d, n)) > DATA_MAX) <==>
            DATA_MAX - Size(ProbeMsg(d, BaseNaming(d))) < ProbeGrowth(d)
  {
    hide ProbeMsg, Size, ValidDef, ProbeAccepted, ResponseAccepted, ProbeGrowth;
    ProbesFitIff(d);
    LongestProbe(d);
    LongestReachable(d);
  }

  /** With 6 + 6n + 2t octets to spare every later probe fits. */
  lemma EnoughRoomForProbes(d: HostDef, n: Naming)
    requires ValidDef(d) && Reachable(d, n)
    requires Size(ProbeMsg(d, BaseNaming(d))) + 6 + 6 * |d.services| + 2 * TxtCount(d, |d.services|) <= DATA_MAX
    ensures Size(ProbeMsg(d, n)) <= DATA_MAX
  {
    hide ProbeMsg, Size, TxtCount;
    ReachableWithin(d, n);
    PacketGrowth(d, BaseNaming(d), n, 255);
  }

  /** Such a host exists: one service with long labels and 237 octets of
      key/value pairs passes the launch check with twelve octets to spare, and its
      names can grow by fourteen. */
  lemma ProbeBoundWitness() returns (d: HostDef)
    ensures Launched(d)
    ensures Reachable(d, LongestNaming(d)) && Size(ProbeMsg(d, LongestNaming(d))) > DATA_MAX
  {
    var kv: seq<byte> := [236] + seq(236, _ => 97);
    var s := ServiceDef(seq(60, _ => 97), seq(62, _ => 97), true, 80, Some(kv));
    d := HostDef(seq(60, _ => 97), seq(63, _ => 97), U32_MAX, [s]);
    assert ValidService(s);
    WitnessProbe(d);
    WitnessResponse(d);
    LongestProbe(d);
    LongestReachable(d);
    assert ServiceGrowth(d, 0) == 0 && ServiceGrowth(d, 1) == 8;
  }

  lemma WitnessProbe(d: HostDef)
    requires ValidDef(d) && |d.services| == 1 && d.services[0].keyvals.Some? && d.ip == U32_MAX
    requires |d.hostname| == 60 && |d.domain| == 63 && |d.services[0].servname| == 60
    requires |d.services[0].servtype| == 62 && |d.services[0].keyvals.value| == 237
    ensures Size(ProbeMsg(d, BaseNaming(d))) == 1460 && ProbeAccepted(d)
  {
    hide EntryRecords, ProbeMsg, Size, RecordsBytes, AllEntries, ValidDef;
    var n := BaseNaming(d);
    OneServiceProbe(d, n);
    ArpaOfAllOnes();
    WholeProbe(d, n);
  }

  /** A probe of few records is seen whole. */
  lemma WholeProbe(d: HostDef, n: Naming)
    requires ValidDef(d) && ValidNaming(d, n)
    requires |d.services| + 2 <= MAX_ENTRIES && |AllEntries(d, Authorities)| <= MAX_ENTRIES
    ensures ProbeEnd(d, n) == Size(ProbeMsg(d, n))
  {
    hide EntryRecords, AllEntries, AllQuestions, ValidDef, ValidNaming;
    Uncut(ProbeMsg(d, n));
  }

  /** With one service the trial response holds every record once. */
  lemma OneServiceResponse(d: HostDef)
    requires ValidDef(d) && |d.services| == 1 && d.services[0].keyvals.Some?
    ensures CheckEntries(d) == [HostAddress, ReversePointer, Srv(0), ServicePointer(0), KeyVals(0)]
  {
    var n := BaseNaming(d);
    var qs := AllQuestions(d, n);
    NamesApart(d, n);
    assert ServiceQuestions(d, n, 1) == ServiceQuestions(d, n, 0) + [Question(Fqsn(d, n, 0), T_ANY, C_IN)];
    assert qs[2] == Question(Fqsn(d, n, 0), T_ANY, C_IN);
    hide Fqdn, Fqsn, PtrName, ArpaName, ValidDef, ValidNaming, AllQuestions;
    assert Answering(d, n, qs, 0) == [];
    NoneAsked(d, n, qs[0], [HostAddress]);
    assert AnswerHost(d, n, qs[0], []) == [HostAddress];
    assert Answering(d, n, qs, 1) == AnswerServices(d, n, qs[0], AnswerHost(d, n, qs[0], Answering(d, n, qs, 0)), 1);
    NoneAsked(d, n, qs[1], [HostAddress, ReversePointer]);
    assert AnswerHost(d, n, qs[1], [HostAddress]) == [HostAddress, ReversePointer];
    assert Answering(d, n, qs, 2) == AnswerServices(d, n, qs[1], AnswerHost(d, n, qs[1], Answering(d, n, qs, 1)), 1);
    assert Answering(d, n, qs, 3) == AnswerServices(d, n, qs[2], [HostAddress, ReversePointer], 1);
    assert AnswerServices(d, n, qs[2], [HostAddress, ReversePointer], 0) == [HostAddress, ReversePointer];
  }

  /** A question about no service adds nothing for it. */
  lemma NoneAsked(d: HostDef, n: Naming, q: Question, es: seq<Entry>)
    requires ValidDef(d) && ValidNaming(d, n) && |d.services| == 1
    requires q.name != PtrName(d, 0) && q.name != Fqsn(d, n, 0)
    ensures AnswerServices(d, n, q, es, 1) == es
  {
    assert AnswerServices(d, n, q, es, 0) == es;
  }

  lemma NamesApart(d: HostDef, n: Naming)
    requires ValidDef(d) && ValidNaming(d, n) && |d.services| == 1
    ensures Fqdn(d, n) != ArpaName(d.ip) && Fqdn(d, n) != PtrName(d, 0) && Fqdn(d, n) != Fqsn(d, n, 0)
    ensures ArpaName(d.ip) != PtrName(d, 0) && ArpaName(d.ip) != Fqsn(d, n, 0)
  {
    assert |Fqdn(d, n)| == 2 && |PtrName(d, 0)| == 3 && |Fqsn(d, n, 0)| == 4 && |ArpaName(d.ip)| == 6;
  }

  lemma WitnessResponse(d: HostDef)
    requires ValidDef(d) && |d.services| == 1 && d.services[0].keyvals.Some? && d.ip == U32_MAX
    requires |d.hostname| == 60 && |d.domain| == 63 && |d.services[0].servname| == 60
    requires |d.services[0].servtype| == 62 && |d.services[0].keyvals.value| == 237
    ensures ResponseAccepted(d)
  {
    hide Encode, ArpaName, CheckEntries, RecordsBytes, EntryRecords, ValidDef;
    var n, es := BaseNaming(d), CheckEntries(d);
    OneServiceResponse(d);
    ArpaOfAllOnes();
    SumSizeIs(d, n, 255, es);
    EmptySizes();
    assert es == [HostAddress, ReversePointer] + [Srv(0), ServicePointer(0), KeyVals(0)];
    assert [Srv(0), ServicePointer(0), KeyVals(0)] == [] + [Srv(0)] + [ServicePointer(0)] + [KeyVals(0)];
    SumOne(d, n, [], Srv(0));
    SumOne(d, n, [] + [Srv(0)], ServicePointer(0));
    SumOne(d, n, [] + [Srv(0)] + [ServicePointer(0)], KeyVals(0));
    HostPart(d, n, [Srv(0), ServicePointer(0), KeyVals(0)]);
  }

  lemma ArpaOfAllOnes()
    ensures |Encode(ArpaName(U32_MAX))| == 30
  {
    hide Encode, ValidName;
    var o: Label := Decimal(255);
    assert Be32(U32_MAX) == [255, 255, 255, 255];
    var inaddr: Label, arpa: Label := [105, 110, 45, 97, 100, 100, 114], [97, 114, 112, 97];
    var tail: Name := [inaddr] + ([arpa] + []);
    EncodeCons(arpa, []);
    EncodeCons(inaddr, [arpa] + []);
    EncodeCons(o, tail);
    EncodeCons(o, [o] + tail);
    EncodeCons(o, [o] + ([o] + tail));
    EncodeCons(o, [o] + ([o] + ([o] + tail)));
  }

  lemma SumOne(d: HostDef, n: Naming, es: seq<Entry>, e: Entry)
    requires HasEntries(d, es) && HasEntry(d, e) && |d.services| == |n.services|
    ensures HasEntries(d, es + [e]) && SumSize(d, n, es + [e]) == SumSize(d, n, es) + EntrySize(d, n, e)
  {
    assert (es + [e])[..|es|] == es;
  }

  lemma OneServiceProbe(d: HostDef, n: Naming)
    requires ValidDef(d) && ValidNaming(d, n) && |d.services| == 1 && d.services[0].keyvals.Some?
    ensures |AllEntries(d, Authorities)| == 4
    ensures Size(ProbeMsg(d, n)) ==
            74 + 4 * FqdnSize(d, n) + 2 * |Encode(ArpaName(d.ip))| + 3 * FqsnSize(d, n, 0) + |d.services[0].keyvals.value|
  {
    hide Encode, ArpaName, ProbeMsg, Size, ValidDef;
    var es := AllEntries(d, Authorities);
    assert ServiceEntries(d, Authorities, 0) == [] && ServiceEntries(d, Authorities, 1) == [] + OneService(d, Authorities, 0);
    assert es == [HostAddress, ReversePointer, Srv(0), KeyVals(0)];
    assert es == [HostAddress] + [ReversePointer] + [Srv(0)] + [KeyVals(0)];
    SumOne(d, n, [], HostAddress);
    SumOne(d, n, [HostAddress], ReversePointer);
    SumOne(d, n, [HostAddress] + [ReversePointer], Srv(0));
    SumOne(d, n, [HostAddress] + [ReversePointer] + [Srv(0)], KeyVals(0));
    assert [] + [HostAddress] == [HostAddress];
    assert QuestionsSize(d, n, 0) == 0 && QuestionsSize(d, n, 1) == FqsnSize(d, n, 0) + 4;
    ProbeSizeIs(d, n);
  }
}
