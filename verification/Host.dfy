/** The names and records a responder claims, and the two packets it claims them
    with (mdns/mdns_respond.c). */
module Host {
  import opened Bytes
  import opened Names
  import opened Rename
  import opened Packet
  import opened Parser

  /** What the user passed at launch.  Key/value pairs are in packed form. */
  datatype ServiceDef = ServiceDef(servname: Label, servtype: Label, tcp: bool, port: u16, keyvals: Option<seq<byte>>)
  datatype HostDef = HostDef(hostname: Label, domain: Label, ip: u32, services: seq<ServiceDef>)

  /** The first labels of the host name and of the service names now in use. */
  datatype Naming = Naming(host: Label, services: seq<Label>)

  const UNDERSCORE: byte := 95

  /** Labels that fit, the service type with its underscore. */
  predicate ValidDef(d: HostDef) {
    && Renamable(d.hostname) && ValidLabel(d.domain)
    && forall i :: 0 <= i < |d.services| ==> ValidService(d.services[i])
  }

  predicate ValidService(s: ServiceDef) {
    && Renamable(s.servname) && |s.servtype| < MAX_LABEL
    && (s.keyvals.Some? ==> |s.keyvals.value| <= 255)
  }

  predicate ValidNaming(d: HostDef, n: Naming) {
    && ValidLabel(n.host) && |n.services| == |d.services|
    && forall i :: 0 <= i < |n.services| ==> ValidLabel(n.services[i])
  }

  function BaseNaming(d: HostDef): (n: Naming)
    requires ValidDef(d)
    ensures ValidNaming(d, n)
  {
    Naming(d.hostname, seq(|d.services|, i requires 0 <= i < |d.services| => d.services[i].servname))
  }

  // ----- names -----

  function Fqdn(d: HostDef, n: Naming): (r: Name)
    requires ValidDef(d) && ValidNaming(d, n)
    ensures ShortName(r) && |Encode(r)| == |n.host| + |d.domain| + 3
  {
    EncodeCons(d.domain, []);
    EncodeCons(n.host, [d.domain] + []);
    [n.host] + ([d.domain] + [])
  }

  function Protocol(tcp: bool): (l: Label)
    ensures |l| == 4
  {
    if tcp then [UNDERSCORE, 116, 99, 112] else [UNDERSCORE, 117, 100, 112]
  }

  /** The type under which service i is found: the service name without its
      first label. */
  function PtrName(d: HostDef, i: nat): (r: Name)
    requires ValidDef(d) && i < |d.services|
    ensures ShortName(r) && |Encode(r)| == |d.services[i].servtype| + |d.domain| + 9
  {
    var t: Label := [UNDERSCORE] + d.services[i].servtype;
    var p := Protocol(d.services[i].tcp);
    EncodeCons(d.domain, []);
    EncodeCons(p, [d.domain] + []);
    EncodeCons(t, [p] + ([d.domain] + []));
    [t] + ([p] + ([d.domain] + []))
  }

  function Fqsn(d: HostDef, n: Naming, i: nat): (r: Name)
    requires ValidDef(d) && ValidNaming(d, n) && i < |d.services|
    ensures ShortName(r) && r == [n.services[i]] + PtrName(d, i)
    ensures |Encode(r)| == |n.services[i]| + 1 + |Encode(PtrName(d, i))|
  {
    EncodeCons(n.services[i], PtrName(d, i));
    [n.services[i]] + PtrName(d, i)
  }

  /** Decimal digits of an octet. */
  function Decimal(b: byte): (l: Label)
    ensures 1 <= |l| <= 3
  {
    if b < 10 then [48 + b]
    else if b < 100 then [48 + b / 10, 48 + b % 10]
    else [48 + b / 100, 48 + b / 10 % 10, 48 + b % 10]
  }

  /** The name of the reverse mapping, such as 45.1.168.192.in-addr.arpa. */
  function ArpaName(ip: u32): (r: Name)
    ensures ShortName(r)
  {
    var arpa: Label := [97, 114, 112, 97];
    var inaddr: Label := [105, 110, 45, 97, 100, 100, 114];
    var b := Be32(ip);
    var tail := [inaddr] + ([arpa] + []);
    EncodeCons(arpa, []);
    EncodeCons(inaddr, [arpa] + []);
    EncodeCons(Decimal(b[0]), tail);
    EncodeCons(Decimal(b[1]), [Decimal(b[0])] + tail);
    EncodeCons(Decimal(b[2]), [Decimal(b[1])] + ([Decimal(b[0])] + tail));
    EncodeCons(Decimal(b[3]), [Decimal(b[2])] + ([Decimal(b[1])] + ([Decimal(b[0])] + tail)));
    [Decimal(b[3])] + ([Decimal(b[2])] + ([Decimal(b[1])] + ([Decimal(b[0])] + tail)))
  }

  // ----- records -----

  datatype Entry =
    | HostAddress
    | ReversePointer
    | Srv(i: nat)
    | ServicePointer(i: nat)
    | KeyVals(i: nat)

  predicate HasEntry(d: HostDef, e: Entry) {
    match e
    case HostAddress => true
    case ReversePointer => true
    case Srv(i) => i < |d.services|
    case ServicePointer(i) => i < |d.services|
    case KeyVals(i) => i < |d.services| && d.services[i].keyvals.Some?
  }

  function EntryName(d: HostDef, n: Naming, e: Entry): (r: Name)
    requires ValidDef(d) && ValidNaming(d, n) && HasEntry(d, e)
    ensures ShortName(r)
  {
    match e
    case HostAddress => Fqdn(d, n)
    case ReversePointer => ArpaName(d.ip)
    case Srv(i) => Fqsn(d, n, i)
    case ServicePointer(i) => PtrName(d, i)
    case KeyVals(i) => Fqsn(d, n, i)
  }

  function EntryType(e: Entry): u16 {
    match e
    case HostAddress => T_A
    case ReversePointer => T_PTR
    case Srv(i) => T_SRV
    case ServicePointer(i) => T_PTR
    case KeyVals(i) => T_TXT
  }

  function EntryData(d: HostDef, n: Naming, e: Entry): (r: RData)
    requires ValidDef(d) && ValidNaming(d, n) && HasEntry(d, e)
    ensures ValidRData(r) && |RDataBytes(r)| <= 0x1000
  {
    match e
    case HostAddress => Address(d.ip)
    case ReversePointer => Pointer(Fqdn(d, n))
    case Srv(i) => Service(d.services[i].port, Fqdn(d, n))
    case ServicePointer(i) => Pointer(Fqsn(d, n, i))
    case KeyVals(i) =>
      assert ValidService(d.services[i]);
      Txt(d.services[i].keyvals.value)
  }

  function EntryRecord(d: HostDef, n: Naming, ttl: u32, e: Entry): (r: Record)
    requires ValidDef(d) && ValidNaming(d, n) && HasEntry(d, e) && ttl != NO_TTL
    ensures SoundRecord(r)
  {
    WrittenRecordIsSound(EntryName(d, n, e), EntryType(e), ttl, EntryData(d, n, e));
    Record(EntryName(d, n, e), EntryType(e), C_FLUSH, ttl, RDataBytes(EntryData(d, n, e)))
  }

  predicate HasEntries(d: HostDef, es: seq<Entry>) {
    forall k :: 0 <= k < |es| ==> HasEntry(d, es[k])
  }

  function EntryRecords(d: HostDef, n: Naming, ttl: u32, es: seq<Entry>): (rs: seq<Record>)
    requires ValidDef(d) && ValidNaming(d, n) && HasEntries(d, es) && ttl != NO_TTL
    ensures |rs| == |es| && ValidRecords(rs)
    ensures forall k :: 0 <= k < |rs| ==> SoundRecord(rs[k])
  {
    if es == [] then []
    else EntryRecords(d, n, ttl, es[..|es| - 1]) + [EntryRecord(d, n, ttl, es[|es| - 1])]
  }

  /** What is claimed for the services below k; the authority section of a probe
      leaves out the pointers. */
  function ServiceEntries(d: HostDef, section: Section, k: nat): (es: seq<Entry>)
    requires k <= |d.services|
    ensures HasEntries(d, es)
  {
    if k == 0 then []
    else ServiceEntries(d, section, k - 1) + OneService(d, section, k - 1)
  }

  function OneService(d: HostDef, section: Section, i: nat): (es: seq<Entry>)
    requires i < |d.services|
    ensures HasEntries(d, es) && |es| <= 3
  {
    [Srv(i)]
    + (if section == Answers then [ServicePointer(i)] else [])
    + (if d.services[i].keyvals.Some? then [KeyVals(i)] else [])
  }

  function AllEntries(d: HostDef, section: Section): (es: seq<Entry>)
    ensures HasEntries(d, es)
  {
    [HostAddress, ReversePointer] + ServiceEntries(d, section, |d.services|)
  }

  function ServiceQuestions(d: HostDef, n: Naming, k: nat): (qs: seq<Question>)
    requires ValidDef(d) && ValidNaming(d, n) && k <= |d.services|
    ensures |qs| == k && ValidQuestions(qs)
    ensures forall i :: 0 <= i < |qs| ==> ShortName(qs[i].name)
  {
    if k == 0 then []
    else ServiceQuestions(d, n, k - 1) + [Question(Fqsn(d, n, k - 1), T_ANY, C_IN)]
  }

  function AllQuestions(d: HostDef, n: Naming): (qs: seq<Question>)
    requires ValidDef(d) && ValidNaming(d, n)
    ensures |qs| == |d.services| + 2 && ValidQuestions(qs)
    ensures forall i :: 0 <= i < |qs| ==> ShortName(qs[i].name)
  {
    [Question(Fqdn(d, n), T_ANY, C_IN), Question(ArpaName(d.ip), T_ANY, C_IN)]
    + ServiceQuestions(d, n, |d.services|)
  }

  // ----- packets -----

  function ProbeMsg(d: HostDef, n: Naming): (m: Msg)
    requires ValidDef(d) && ValidNaming(d, n)
    ensures ValidQuestions(m.questions) && ValidRecords(m.answers) && ValidRecords(m.authorities)
  {
    Msg(0, false, AllQuestions(d, n), [], EntryRecords(d, n, 255, AllEntries(d, Authorities)))
  }

  function AnnounceMsg(d: HostDef, n: Naming, ttl: u32): (m: Msg)
    requires ValidDef(d) && ValidNaming(d, n) && ttl != NO_TTL
    ensures ValidQuestions(m.questions) && ValidRecords(m.answers) && ValidRecords(m.authorities)
  {
    Msg(0, true, [], EntryRecords(d, n, ttl, AllEntries(d, Answers)), [])
  }

  /** Octets a message takes, whatever its counts. */
  function Size(m: Msg): nat
    requires ValidQuestions(m.questions) && ValidRecords(m.answers) && ValidRecords(m.authorities)
  {
    HEADER_SIZE + |QuestionsBytes(m.questions)| + |RecordsBytes(m.answers)| + |RecordsBytes(m.authorities)|
  }

  lemma SizeIsWire(m: Msg)
    requires ValidMsg(m)
    ensures |Wire(m)| == Size(m)
  {
  }

  lemma {:induction false} FewRecords(rs: seq<Record>)
    requires ValidRecords(rs)
    ensures |rs| <= |RecordsBytes(rs)|
  {
    if rs != [] {
      FewRecords(rs[..|rs| - 1]);
      SomeBytes(rs[|rs| - 1]);
    }
  }

  lemma {:induction false} FewQuestions(qs: seq<Question>)
    requires ValidQuestions(qs)
    ensures |qs| <= |QuestionsBytes(qs)|
  {
    if qs != [] {
      FewQuestions(qs[..|qs| - 1]);
    }
  }

  /** A message that fits a packet has room in its counts. */
  lemma FitsCounts(m: Msg)
    requires ValidQuestions(m.questions) && ValidRecords(m.answers) && ValidRecords(m.authorities)
    requires Size(m) <= DATA_MAX
    ensures ValidMsg(m) && |m.questions| <= DATA_MAX && |m.answers| <= DATA_MAX && |m.authorities| <= DATA_MAX
  {
    FewQuestions(m.questions);
    FewRecords(m.answers);
    FewRecords(m.authorities);
  }

  function WithRecords(m: Msg, section: Section, rs: seq<Record>): Msg {
    if section == Answers then m.(answers := m.answers + rs) else m.(authorities := m.authorities + rs)
  }

  lemma {:induction false} RecordsAppend(a: seq<Record>, b: seq<Record>)
    requires ValidRecords(a) && ValidRecords(b)
    ensures ValidRecords(a + b) && RecordsBytes(a + b) == RecordsBytes(a) + RecordsBytes(b)
    decreases |b|
  {
    hide RecordBytes, ValidRecord;
    if b == [] {
      assert a + b == a;
    } else {
      var n := |b| - 1;
      RecordsAppend(a, b[..n]);
      assert (a + b)[..|a| + n] == a + b[..n];
    }
  }

  /** Add entries until one does not fit. */
  method AddEntries(m: Message, section: Section, d: HostDef, n: Naming, ttl: u32, es: seq<Entry>) returns (ok: bool)
    requires m.Holds() && section != Questions && (section == Answers ==> m.msg.authorities == [])
    requires ValidDef(d) && ValidNaming(d, n) && HasEntries(d, es) && ttl != NO_TTL
    modifies m, m.data
    ensures m.Valid()
    ensures ok <==> Size(old(m.msg)) + |RecordsBytes(EntryRecords(d, n, ttl, es))| <= DATA_MAX
    ensures ok ==> m.Holds() && m.msg == WithRecords(old(m.msg), section, EntryRecords(d, n, ttl, es))
  {
    hide EntryRecords, EntryRecord, EntryName, EntryData, EntryType, RecordsBytes, RecordBytes, RDataBytes, Wire, Size,
         HasEntry, ValidDef, ValidNaming, Encode, ValidRData, SoundRecord, WithRecord, WithRecords;
    ghost var m0 := m.msg;
    NoEntries(m0, section, d, n, ttl, es);
    for k := 0 to |es|
      invariant m.Holds()
      invariant m.msg == WithRecords(m0, section, EntryRecords(d, n, ttl, es[..k]))
    {
      var e := es[k];
      NextEntry(m0, section, d, n, ttl, es, k);
      ok := m.AddRecord(section, EntryName(d, n, e), EntryType(e), ttl, EntryData(d, n, e));
      if !ok { return; }
    }
    LastEntry(m0, section, d, n, ttl, es);
    return true;
  }

  lemma NoEntries(m0: Msg, section: Section, d: HostDef, n: Naming, ttl: u32, es: seq<Entry>)
    requires section != Questions && ValidDef(d) && ValidNaming(d, n) && ttl != NO_TTL
    ensures HasEntries(d, es[..0])
    ensures WithRecords(m0, section, EntryRecords(d, n, ttl, es[..0])) == m0
  {
    assert m0.answers + [] == m0.answers && m0.authorities + [] == m0.authorities;
  }

  /** Before entry k is added: the record to add, and when it will fit. */
  lemma NextEntry(m0: Msg, section: Section, d: HostDef, n: Naming, ttl: u32, es: seq<Entry>, k: nat)
    requires section != Questions && (section == Answers ==> m0.authorities == []) && ValidMsg(m0)
    requires ValidDef(d) && ValidNaming(d, n) && HasEntries(d, es) && ttl != NO_TTL && k < |es|
    requires ValidMsg(WithRecords(m0, section, EntryRecords(d, n, ttl, es[..k])))
    requires |Wire(WithRecords(m0, section, EntryRecords(d, n, ttl, es[..k])))| <= DATA_MAX
    ensures var m := WithRecords(m0, section, EntryRecords(d, n, ttl, es[..k]));
            var r := EntryRecord(d, n, ttl, es[k]);
            && CanAdd(m, section) && HasEntry(d, es[k])
            && |Encode(EntryName(d, n, es[k]))| < 0x1_0000 && ValidRData(EntryData(d, n, es[k]))
            && r == Record(EntryName(d, n, es[k]), EntryType(es[k]), C_FLUSH, ttl, RDataBytes(EntryData(d, n, es[k])))
            && WithRecord(m, section, r) == WithRecords(m0, section, EntryRecords(d, n, ttl, es[..k + 1]))
            && |Wire(m)| + |RecordBytes(r)| <= Size(m0) + |RecordsBytes(EntryRecords(d, n, ttl, es))|
  {
    hide RecordsBytes, RecordBytes, Wire, ValidRecord;
    var done := EntryRecords(d, n, ttl, es[..k]);
    var m := WithRecords(m0, section, done);
    SizeIsWire(m);
    FitsCounts(m);
    OneMoreEntry(d, n, ttl, es, k);
    GrownMsg(m0, section, done, EntryRecord(d, n, ttl, es[k]));
    SizeWithRecords(m0, section, done);
  }

  lemma LastEntry(m0: Msg, section: Section, d: HostDef, n: Naming, ttl: u32, es: seq<Entry>)
    requires section != Questions && ValidMsg(m0)
    requires ValidDef(d) && ValidNaming(d, n) && HasEntries(d, es) && ttl != NO_TTL
    requires ValidMsg(WithRecords(m0, section, EntryRecords(d, n, ttl, es[..|es|])))
    ensures es[..|es|] == es
    ensures |Wire(WithRecords(m0, section, EntryRecords(d, n, ttl, es)))|
         == Size(m0) + |RecordsBytes(EntryRecords(d, n, ttl, es))|
  {
    assert es[..|es|] == es;
    SizeIsWire(WithRecords(m0, section, EntryRecords(d, n, ttl, es)));
    SizeWithRecords(m0, section, EntryRecords(d, n, ttl, es));
  }

  lemma SizeWithRecords(m: Msg, section: Section, rs: seq<Record>)
    requires section != Questions && ValidRecords(rs)
    requires ValidQuestions(m.questions) && ValidRecords(m.answers) && ValidRecords(m.authorities)
    ensures var m' := WithRecords(m, section, rs);
            ValidRecords(m'.answers) && ValidRecords(m'.authorities) && Size(m') == Size(m) + |RecordsBytes(rs)|
  {
    hide RecordsBytes;
    RecordsAppend(if section == Answers then m.answers else m.authorities, rs);
  }

  lemma OneMoreEntry(d: HostDef, n: Naming, ttl: u32, es: seq<Entry>, k: nat)
    requires ValidDef(d) && ValidNaming(d, n) && HasEntries(d, es) && ttl != NO_TTL && k < |es|
    ensures EntryRecords(d, n, ttl, es[..k + 1]) == EntryRecords(d, n, ttl, es[..k]) + [EntryRecord(d, n, ttl, es[k])]
    ensures var all := EntryRecords(d, n, ttl, es);
            |RecordsBytes(all)| >= |RecordsBytes(EntryRecords(d, n, ttl, es[..k]))| + |RecordBytes(EntryRecord(d, n, ttl, es[k]))|
  {
    hide EntryRecord, RecordBytes, SoundRecord, ValidRecord;
    assert es[..k + 1][..k] == es[..k];
    var done, r := EntryRecords(d, n, ttl, es[..k]), EntryRecord(d, n, ttl, es[k]);
    assert (done + [r])[..|done|] == done;
    LongerEntries(d, n, ttl, es, k + 1);
  }

  lemma {:induction false} LongerEntries(d: HostDef, n: Naming, ttl: u32, es: seq<Entry>, k: nat)
    requires ValidDef(d) && ValidNaming(d, n) && HasEntries(d, es) && ttl != NO_TTL && k <= |es|
    ensures |RecordsBytes(EntryRecords(d, n, ttl, es))| >= |RecordsBytes(EntryRecords(d, n, ttl, es[..k]))|
    decreases |es|
  {
    hide EntryRecord, RecordBytes, SoundRecord, ValidRecord;
    if k == |es| {
      assert es[..k] == es;
    } else {
      var p := |es| - 1;
      LongerEntries(d, n, ttl, es[..p], k);
      assert es[..p][..k] == es[..k];
      var rs := EntryRecords(d, n, ttl, es);
      assert rs[..|rs| - 1] == EntryRecords(d, n, ttl, es[..p]);
    }
  }

  lemma GrownMsg(m0: Msg, section: Section, rs: seq<Record>, r: Record)
    ensures section != Questions ==>
              WithRecord(WithRecords(m0, section, rs), section, r) == WithRecords(m0, section, rs + [r])
  {
    assert m0.answers + rs + [r] == m0.answers + (rs + [r]);
    assert m0.authorities + rs + [r] == m0.authorities + (rs + [r]);
  }

  /** The announcement, or with a zero time to live the goodbye: it is prepared
      exactly when it fits a packet. */
  method PrepareAnnouncement(m: Message, d: HostDef, n: Naming, ttl: u32) returns (ok: bool)
    requires m.Valid() && ValidDef(d) && ValidNaming(d, n) && ttl != NO_TTL
    modifies m, m.data
    ensures m.Valid()
    ensures ok <==> Size(AnnounceMsg(d, n, ttl)) <= DATA_MAX
    ensures ok ==> m.Holds() && m.msg == AnnounceMsg(d, n, ttl)
  {
    hide EntryRecords, RecordsBytes, AllEntries, ValidDef, ValidNaming;
    m.Init(true);
    ok := AddEntries(m, Answers, d, n, ttl, AllEntries(d, Answers));
    var rs := EntryRecords(d, n, ttl, AllEntries(d, Answers));
    assert [] + rs == rs;
    EmptySizes();
  }

  lemma EmptySizes()
    ensures QuestionsBytes([]) == [] && RecordsBytes([]) == []
  {
  }

  /** One question; fits is the size it leads to. */
  lemma NextQuestion(m: Msg, q: Question)
    requires ValidMsg(m) && m.answers == [] && m.authorities == [] && |Wire(m)| <= DATA_MAX
    requires ValidQuestion(q) && ShortName(q.name)
    ensures CanAdd(m, Questions) && ValidQuestions(m.questions + [q])
    ensures Size(WithQuestion(m, q)) == |Wire(m)| + |QuestionBytes(q)|
  {
    SizeIsWire(m);
    FitsCounts(m);
    assert (m.questions + [q])[..|m.questions|] == m.questions;
  }

  lemma {:induction false} LongerQuestions(qs: seq<Question>, k: nat)
    requires ValidQuestions(qs) && k <= |qs|
    ensures |QuestionsBytes(qs)| >= |QuestionsBytes(qs[..k])|
    decreases |qs|
  {
    if k == |qs| {
      assert qs[..k] == qs;
    } else {
      LongerQuestions(qs[..|qs| - 1], k);
      assert qs[..|qs| - 1][..k] == qs[..k];
    }
  }

  /** Add the questions until one does not fit. */
  method AddQuestions(m: Message, qs: seq<Question>) returns (ok: bool)
    requires m.Holds() && m.msg == Empty(false)
    requires ValidQuestions(qs) && forall i :: 0 <= i < |qs| ==> ShortName(qs[i].name)
    modifies m, m.data
    ensures m.Valid()
    ensures ok <==> HEADER_SIZE + |QuestionsBytes(qs)| <= DATA_MAX
    ensures ok ==> m.Holds() && m.msg == Msg(0, false, qs, [], [])
  {
    hide QuestionBytes, Wire, QuestionsBytes, Encode;
    for k := 0 to |qs|
      invariant m.Holds() && m.msg == Msg(0, false, qs[..k], [], [])
    {
      NextQuestion(m.msg, qs[k]);
      assert qs[..k] + [qs[k]] == qs[..k + 1];
      LongerQuestions(qs, k + 1);
      EmptySizes();
      ok := m.AddQuestion(qs[k].name, qs[k].qtype, qs[k].qclass);
      if !ok { return; }
    }
    assert qs[..|qs|] == qs;
    SizeIsWire(m.msg);
    EmptySizes();
    return true;
  }

  /** Where the parser stops in a probe: behind what it can see of it. */
  function ProbeEnd(d: HostDef, n: Naming): int
    requires ValidDef(d) && ValidNaming(d, n)
  {
    Size(Head(ProbeMsg(d, n)))
  }

  /** The probe: prepared exactly when it fits.  The parser, which the code runs
      on its own packet, then succeeds with at most 32 questions: it reads back the
      questions and at most 32 authorities, and leaves the end of the packet where
      the writer had it exactly when there are no more. */
  method PrepareProbe(m: Message, d: HostDef, n: Naming) returns (ok: bool, parsed: Parse<ParsedMsg>)
    requires m.Valid() && ValidDef(d) && ValidNaming(d, n)
    modifies m, m.data
    ensures m.Valid()
    ensures ok <==> Size(ProbeMsg(d, n)) <= DATA_MAX
    ensures ok ==> m.Holds() && m.msg == ProbeMsg(d, n)
    ensures ok && |d.services| + 2 <= MAX_ENTRIES ==>
              parsed.Good? && parsed.cur == ProbeEnd(d, n) && MeansMsg(m.data[..], parsed.value, Head(ProbeMsg(d, n))) &&
              (parsed.cur == m.cur <==> |AllEntries(d, Authorities)| <= MAX_ENTRIES)
    ensures ok && |d.services| + 2 <= MAX_ENTRIES && |AllEntries(d, Authorities)| <= MAX_ENTRIES ==>
              MeansMsg(m.data[..], parsed.value, ProbeMsg(d, n))
  {
    hide EntryRecords, RecordsBytes, AllEntries, QuestionsBytes, AllQuestions, ValidDef, ValidNaming, Wire,
         MeansMsg, ParseMessage, SoundRecord, SoundMsg;
    parsed := Lost;
    m.Init(false);
    EmptySizes();
    ok := AddQuestions(m, AllQuestions(d, n));
    if !ok { return; }
    ok := AddEntries(m, Authorities, d, n, 255, AllEntries(d, Authorities));
    var rs := EntryRecords(d, n, 255, AllEntries(d, Authorities));
    assert [] + rs == rs;
    if !ok { return; }
    assert m.data[..m.cur] <= m.data[..];
    parsed := ReadMessage(m.data[..], m.cur, 256);
    if |d.services| + 2 <= MAX_ENTRIES {
      ProbeIsSound(d, n);
      SizeIsWire(m.msg);
      RoundTrip(m.msg, m.data[..], 256);
      SizeIsWire(Head(m.msg));
      Uncut(m.msg);
    }
  }

  lemma ProbeIsSound(d: HostDef, n: Naming)
    requires ValidDef(d) && ValidNaming(d, n) && |d.services| + 2 <= MAX_ENTRIES
    requires Size(ProbeMsg(d, n)) <= DATA_MAX
    ensures SoundMsg(ProbeMsg(d, n))
  {
    hide EntryRecords, AllEntries, AllQuestions, SoundRecord, ValidNaming, ValidDef, QuestionsBytes, RecordsBytes;
    FitsCounts(ProbeMsg(d, n));
  }
}
