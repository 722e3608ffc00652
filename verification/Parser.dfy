/** Parsing a DNS message (parse_resource and mdns_parse_message in
    mdns/mdns.c), and the round trip with the writer. */
module Parser {
  import opened Bytes
  import opened Names
  import opened Packet

  datatype ParsedQuestion = ParsedQuestion(at: nat, qtype: u16, qclass: u16)
  datatype ParsedRecord = ParsedRecord(at: nat, rtype: u16, rclass: u16, ttl: u32, rdataAt: nat, rdlength: u16)
  datatype ParsedMsg = ParsedMsg(
    id: u16, response: bool,
    questions: seq<ParsedQuestion>, answers: seq<ParsedRecord>, authorities: seq<ParsedRecord>)

  /** Bad is the code's refusal; Lost is a walk that left the data array or was
      still running after the allowed number of passes. */
  datatype Parse<+T> = Good(value: T, cur: nat) | Bad | Lost {
    predicate IsFailure() { !Good? }
    function PropagateFailure<U>(): Parse<U>
      requires IsFailure()
    {
      if Bad? then Bad else Lost
    }
    function Extract(): (T, nat)
      requires Good?
    {
      (value, cur)
    }
  }

  function Verdict<T>(s: Scan, value: T, cur: nat): Parse<T> {
    match s
    case InRange => Good(value, cur)
    case Overruns => Bad
    case _ => Lost
  }

  // ----- one entry -----

  /** The size of the name at cur, checked against the end of the message. */
  function ParseName(data: seq<byte>, end: nat, cur: nat, fuel: nat): (r: Parse<nat>)
    requires end < |data|
    ensures r.Good? ==> r.cur == cur + r.value <= end + 1
  {
    match SizeFrom(data, cur)
    case Fault => Lost
    case Ok(len) =>
      if len > MAX_NAME || end + 1 < cur + len then Bad
      else Verdict(ScanFrom(data, end, cur, fuel), len, cur + len)
  }

  function ParseQuestion(data: seq<byte>, end: nat, cur: nat, fuel: nat): (r: Parse<ParsedQuestion>)
    requires end < |data|
  {
    var (_, p) :- ParseName(data, end, cur, fuel);
    if end + 1 < p + 4 then Bad
    else Good(ParsedQuestion(cur, Get16(data, p), Get16(data, p + 2)), p + 4)
  }

  function ParseRecord(data: seq<byte>, end: nat, cur: nat, fuel: nat): (r: Parse<ParsedRecord>)
    requires end < |data|
  {
    var (_, p) :- ParseName(data, end, cur, fuel);
    if end + 1 < p + 10 then Bad
    else
      var r := ParsedRecord(cur, Get16(data, p), Get16(data, p + 2), Get32(data, p + 4), p + 10, Get16(data, p + 8));
      if end + 1 < r.rdataAt + r.rdlength then Bad
      else CheckRData(data, end, r, fuel)
  }

  /** Four octets for an address, and a name that stays in the message for a
      pointer.  The check of a service record starts at its priority field. */
  function CheckRData(data: seq<byte>, end: nat, r: ParsedRecord, fuel: nat): (c: Parse<ParsedRecord>)
  {
    var cur := r.rdataAt + r.rdlength;
    if r.rtype == T_A && r.rdlength != 4 then Bad
    else if r.rtype == T_SRV || r.rtype == T_PTR then
      Verdict(ScanFrom(data, end, r.rdataAt, fuel), r, cur)
    else Good(r, cur)
  }

  // ----- sections -----

  function ParseQuestions(data: seq<byte>, end: nat, cur: nat, n: nat, fuel: nat): (r: Parse<seq<ParsedQuestion>>)
    requires end < |data|
    decreases n
  {
    if n == 0 then Good([], cur)
    else
      var (q, p) :- ParseQuestion(data, end, cur, fuel);
      var (qs, p') :- ParseQuestions(data, end, p, n - 1, fuel);
      Good([q] + qs, p')
  }

  function ParseRecords(data: seq<byte>, end: nat, cur: nat, n: nat, fuel: nat): (r: Parse<seq<ParsedRecord>>)
    requires end < |data|
    decreases n
  {
    if n == 0 then Good([], cur)
    else
      var (q, p) :- ParseRecord(data, end, cur, fuel);
      var (qs, p') :- ParseRecords(data, end, p, n - 1, fuel);
      Good([q] + qs, p')
  }

  /** Only the first entries of an overlong section are parsed. */
  function Capped(n: nat): nat {
    if n > MAX_ENTRIES then MAX_ENTRIES else n
  }

  function ParseMessage(data: seq<byte>, len: nat, fuel: nat): (r: Parse<ParsedMsg>)
    requires len <= |data|
  {
    if len < HEADER_SIZE || data[2] / 8 % 16 != 0 then Bad
    else
      var (qs, p) :- ParseQuestions(data, len - 1, HEADER_SIZE, Capped(Get16(data, 4)), fuel);
      var (ans, p') :- ParseRecords(data, len - 1, p, Capped(Get16(data, 6)), fuel);
      var (auths, p'') :- ParseRecords(data, len - 1, p', Capped(Get16(data, 8)), fuel);
      Good(ParsedMsg(Get16(data, 0), data[2] >= 0x80, qs, ans, auths), p'')
  }

  // ----- the parser -----

  method ReadName(data: seq<byte>, end: nat, cur: nat, fuel: nat) returns (r: Parse<nat>)
    requires end < |data|
    ensures r == ParseName(data, end, cur, fuel)
  {
    var size := NameSize(data, cur);
    if size.Fault? { return Lost; }
    var len := size.value;
    if len > MAX_NAME { return Bad; }
    if end + 1 < cur + len { return Bad; }
    var s := NameOverruns(data, end, cur, fuel);
    return Verdict(s, len, cur + len);
  }

  method ReadRecord(data: seq<byte>, end: nat, cur: nat, fuel: nat) returns (r: Parse<ParsedRecord>)
    requires end < |data|
    ensures r == ParseRecord(data, end, cur, fuel)
  {
    var name := ReadName(data, end, cur, fuel);
    if !name.Good? { return name.PropagateFailure(); }
    var p := name.cur;
    if end + 1 < p + 10 { return Bad; }
    var rec := ParsedRecord(cur, Get16(data, p), Get16(data, p + 2), Get32(data, p + 4), p + 10, Get16(data, p + 8));
    if end + 1 < rec.rdataAt + rec.rdlength { return Bad; }
    match rec.rtype {
      case 1 =>
        if rec.rdlength != 4 { return Bad; }
      case 33 | 12 =>
        var s := NameOverruns(data, end, rec.rdataAt, fuel);
        return Verdict(s, rec, rec.rdataAt + rec.rdlength);
      case _ =>
    }
    return Good(rec, rec.rdataAt + rec.rdlength);
  }

  /** What remains to be parsed, behind what has been. */
  function Behind<T>(done: seq<T>, r: Parse<seq<T>>): Parse<seq<T>> {
    match r
    case Good(rest, p) => Good(done + rest, p)
    case Bad => Bad
    case Lost => Lost
  }

  lemma BehindBoth<T>(a: seq<T>, b: seq<T>, r: Parse<seq<T>>)
    ensures Behind(a, Behind(b, r)) == Behind(a + b, r)
    ensures Behind([], r) == r
  {
    if r.Good? {
      assert a + (b + r.value) == a + b + r.value && [] + r.value == r.value;
    }
  }

  method ReadQuestions(data: seq<byte>, end: nat, start: nat, n: nat, fuel: nat) returns (r: Parse<seq<ParsedQuestion>>)
    requires end < |data|
    ensures r == ParseQuestions(data, end, start, n, fuel)
  {
    hide ParseName, Get16;
    var cur, done: seq<ParsedQuestion> := start, [];
    BehindBoth([], [], ParseQuestions(data, end, start, n, fuel));
    for i := 0 to n
      invariant ParseQuestions(data, end, start, n, fuel) == Behind(done, ParseQuestions(data, end, cur, n - i, fuel))
    {
      var name := ReadName(data, end, cur, fuel);
      if !name.Good? { return name.PropagateFailure(); }
      var p := name.cur;
      if end + 1 < p + 4 { return Bad; }
      var q := ParsedQuestion(cur, Get16(data, p), Get16(data, p + 2));
      BehindBoth(done, [q], ParseQuestions(data, end, p + 4, n - i - 1, fuel));
      done := done + [q];
      cur := p + 4;
    }
    assert done + [] == done;
    return Good(done, cur);
  }

  method ReadRecords(data: seq<byte>, end: nat, start: nat, n: nat, fuel: nat) returns (r: Parse<seq<ParsedRecord>>)
    requires end < |data|
    ensures r == ParseRecords(data, end, start, n, fuel)
  {
    hide ParseRecord;
    var cur, done: seq<ParsedRecord> := start, [];
    BehindBoth([], [], ParseRecords(data, end, start, n, fuel));
    for i := 0 to n
      invariant ParseRecords(data, end, start, n, fuel) == Behind(done, ParseRecords(data, end, cur, n - i, fuel))
    {
      var rec := ReadRecord(data, end, cur, fuel);
      if !rec.Good? { return rec.PropagateFailure(); }
      BehindBoth(done, [rec.value], ParseRecords(data, end, rec.cur, n - i - 1, fuel));
      done := done + [rec.value];
      cur := rec.cur;
    }
    assert done + [] == done;
    return Good(done, cur);
  }

  method ReadMessage(data: seq<byte>, len: nat, fuel: nat) returns (r: Parse<ParsedMsg>)
    requires len <= |data|
    ensures r == ParseMessage(data, len, fuel)
  {
    hide ParseQuestions, ParseRecords, Get16, Capped;
    if len < HEADER_SIZE || data[2] / 8 % 16 != 0 { return Bad; }
    var qs := ReadQuestions(data, len - 1, HEADER_SIZE, Capped(Get16(data, 4)), fuel);
    if !qs.Good? { return qs.PropagateFailure(); }
    var ans := ReadRecords(data, len - 1, qs.cur, Capped(Get16(data, 6)), fuel);
    if !ans.Good? { return ans.PropagateFailure(); }
    var auths := ReadRecords(data, len - 1, ans.cur, Capped(Get16(data, 8)), fuel);
    if !auths.Good? { return auths.PropagateFailure(); }
    return Good(ParsedMsg(Get16(data, 0), data[2] >= 0x80, qs.value, ans.value, auths.value), auths.cur);
  }

  // ----- the round trip -----

  /** A parsed entry means the question or record it was made from. */
  predicate MeansQuestion(data: seq<byte>, p: ParsedQuestion, q: Question) {
    && NameAt(data, p.at) && LabelsAt(data, p.at) == q.name
    && p.qtype == q.qtype && p.qclass == q.qclass
  }

  predicate MeansRecord(data: seq<byte>, p: ParsedRecord, r: Record) {
    && NameAt(data, p.at) && LabelsAt(data, p.at) == r.name
    && p.rtype == r.rtype && p.rclass == r.rclass && p.ttl == r.ttl
    && p.rdlength == |r.rdata| && At(data, p.rdataAt, r.rdata)
  }

  predicate MeansQuestions(data: seq<byte>, ps: seq<ParsedQuestion>, qs: seq<Question>) {
    |ps| == |qs| && forall i :: 0 <= i < |ps| ==> MeansQuestion(data, ps[i], qs[i])
  }

  predicate MeansRecords(data: seq<byte>, ps: seq<ParsedRecord>, rs: seq<Record>) {
    |ps| == |rs| && forall i :: 0 <= i < |ps| ==> MeansRecord(data, ps[i], rs[i])
  }

  predicate MeansMsg(data: seq<byte>, p: ParsedMsg, m: Msg) {
    && p.id == m.id && p.response == m.response
    && MeansQuestions(data, p.questions, m.questions)
    && MeansRecords(data, p.answers, m.answers)
    && MeansRecords(data, p.authorities, m.authorities)
  }

  /** Names within the limit of RFC 1035. */
  predicate ShortName(n: Name) {
    ValidName(n) && |Encode(n)| <= MAX_NAME
  }

  /** Data the parser lets through: addresses of four octets, names for
      pointers, and service records of priority below 256. */
  ghost predicate SoundRecord(r: Record) {
    && ValidRecord(r) && ShortName(r.name)
    && (r.rtype == T_A ==> |r.rdata| == 4)
    && (r.rtype == T_PTR ==> exists n :: ShortName(n) && r.rdata == Encode(n))
    && (r.rtype == T_SRV ==> r.rdata != [] && r.rdata[0] == 0)
  }

  /** Nothing follows a section of more than 32 entries, whose end the parser would
      not find. */
  predicate LastOver(m: Msg) {
    && (|m.questions| > MAX_ENTRIES ==> m.answers == [] && m.authorities == [])
    && (|m.answers| > MAX_ENTRIES ==> m.authorities == [])
  }

  /** What the parser can see of a message: 32 entries of each section. */
  function Head(m: Msg): Msg {
    m.(questions := m.questions[..Capped(|m.questions|)], answers := m.answers[..Capped(|m.answers|)],
       authorities := m.authorities[..Capped(|m.authorities|)])
  }

  ghost predicate SoundMsg(m: Msg) {
    && ValidMsg(m) && LastOver(m)
    && (forall i :: 0 <= i < |m.questions| ==> ShortName(m.questions[i].name))
    && (forall i :: 0 <= i < |m.answers| ==> SoundRecord(m.answers[i]))
    && (forall i :: 0 <= i < |m.authorities| ==> SoundRecord(m.authorities[i]))
  }

  /** The range check accepts the wire form of a name inside the message. */
  lemma {:induction false} EncodedScan(b: seq<byte>, end: nat, k: nat, n: Name, fuel: nat)
    requires ValidName(n) && At(b, k, Encode(n)) && k + |Encode(n)| <= end + 1 && fuel > |n|
    ensures ScanFrom(b, end, k, fuel) == InRange
    decreases |n|
  {
    if n == [] {
      AtIndex(b, k, Encode(n), 0);
    } else {
      EncodedAt(b, k, n);
      AtIndex(b, k, [|n[0]|], 0);
      EncodedScan(b, end, k + |n[0]| + 1, n[1..], fuel - 1);
    }
  }

  lemma {:induction false} FewLabels(n: Name)
    requires ValidName(n)
    ensures |n| <= |LabelBytes(n)|
  {
    if n != [] { FewLabels(n[1..]); }
  }

  lemma NameParses(b: seq<byte>, end: nat, k: nat, n: Name, fuel: nat)
    requires end < |b| && ShortName(n) && At(b, k, Encode(n)) && k + |Encode(n)| <= end + 1 && fuel > MAX_NAME
    ensures ParseName(b, end, k, fuel) == Good(|Encode(n)|, k + |Encode(n)|)
    ensures NameAt(b, k) && LabelsAt(b, k) == n
  {
    EncodedNameAt(b, k, k, n);
    EncodedSize(b, k, n);
    FewLabels(n);
    EncodedScan(b, end, k, n, fuel);
  }

  lemma TupleParses(b: seq<byte>, end: nat, k: nat, n: Name, t: u16, c: u16, ttl: u32, fuel: nat)
    requires end < |b| && ShortName(n) && fuel > MAX_NAME
    requires At(b, k, TupleBytes(n, t, c, ttl)) && k + |TupleBytes(n, t, c, ttl)| <= end + 1
    ensures NameAt(b, k) && LabelsAt(b, k) == n
    ensures var p := k + |Encode(n)|;
            && ParseName(b, end, k, fuel) == Good(|Encode(n)|, p)
            && p + 4 <= end + 1 && Get16(b, p) == t && Get16(b, p + 2) == c
            && (ttl != NO_TTL ==> p + 8 <= end + 1 && Get32(b, p + 4) == ttl)
  {
    hide Encode, At;
    var rest: seq<byte> := if ttl == NO_TTL then [] else Be32(ttl);
    AtParts(b, k, Encode(n) + Be16(t) + Be16(c), rest);
    AtParts(b, k, Encode(n) + Be16(t), Be16(c));
    AtParts(b, k, Encode(n), Be16(t));
    NameParses(b, end, k, n, fuel);
    var p := k + |Encode(n)|;
    Get16AfterBe16(b, p, t);
    Get16AfterBe16(b, p + 2, c);
    if ttl != NO_TTL { Get32AfterBe32(b, p + 4, ttl); }
  }

  lemma QuestionParses(b: seq<byte>, end: nat, k: nat, q: Question, fuel: nat)
    requires end < |b| && ShortName(q.name) && fuel > MAX_NAME
    requires At(b, k, QuestionBytes(q)) && k + |QuestionBytes(q)| <= end + 1
    ensures var r := ParseQuestion(b, end, k, fuel);
            r.Good? && r.cur == k + |QuestionBytes(q)| && MeansQuestion(b, r.value, q)
  {
    TupleParses(b, end, k, q.name, q.qtype, q.qclass, NO_TTL, fuel);
  }

  lemma RecordParses(b: seq<byte>, end: nat, k: nat, r: Record, fuel: nat)
    requires end < |b| && SoundRecord(r) && fuel > MAX_NAME
    requires At(b, k, RecordBytes(r)) && k + |RecordBytes(r)| <= end + 1
    ensures var p := ParseRecord(b, end, k, fuel);
            p.Good? && p.cur == k + |RecordBytes(r)| && MeansRecord(b, p.value, r)
  {
    hide Encode, At, Be16, Be32, Get16, Get32;
    var tuple := TupleBytes(r.name, r.rtype, r.rclass, r.ttl);
    var d := k + |tuple|;
    AtParts(b, k, tuple, Be16(|r.rdata|) + r.rdata);
    AtParts(b, d, Be16(|r.rdata|), r.rdata);
    TupleParses(b, end, k, r.name, r.rtype, r.rclass, r.ttl, fuel);
    Get16AfterBe16(b, d, |r.rdata|);
    var p := ParsedRecord(k, r.rtype, r.rclass, r.ttl, d + 2, |r.rdata|);
    RDataPasses(b, end, p, r, fuel);
  }

  lemma RDataPasses(b: seq<byte>, end: nat, p: ParsedRecord, r: Record, fuel: nat)
    requires SoundRecord(r) && fuel > MAX_NAME && end < |b|
    requires p.rtype == r.rtype && p.rdlength == |r.rdata|
    requires At(b, p.rdataAt, r.rdata) && p.rdataAt + |r.rdata| <= end + 1
    ensures CheckRData(b, end, p, fuel) == Good(p, p.rdataAt + |r.rdata|)
  {
    if r.rtype == T_PTR {
      var n :| ShortName(n) && r.rdata == Encode(n);
      FewLabels(n);
      EncodedScan(b, end, p.rdataAt, n, fuel);
    } else if r.rtype == T_SRV {
      AtIndex(b, p.rdataAt, r.rdata, 0);
    }
  }

  lemma {:induction false} QuestionsFront(qs: seq<Question>)
    requires ValidQuestions(qs) && qs != []
    ensures QuestionsBytes(qs) == QuestionBytes(qs[0]) + QuestionsBytes(qs[1..])
    decreases |qs|
  {
    hide QuestionBytes, ValidQuestion;
    var n := |qs| - 1;
    if n > 0 {
      QuestionsFront(qs[..n]);
      assert qs[..n][1..] == qs[1..][..n - 1];
    } else {
      assert qs[1..] == [] && qs[..0] == [];
    }
  }

  lemma {:induction false} RecordsFront(rs: seq<Record>)
    requires ValidRecords(rs) && rs != []
    ensures RecordsBytes(rs) == RecordBytes(rs[0]) + RecordsBytes(rs[1..])
    decreases |rs|
  {
    hide RecordBytes, ValidRecord;
    var n := |rs| - 1;
    if n > 0 {
      RecordsFront(rs[..n]);
      assert rs[..n][1..] == rs[1..][..n - 1];
    } else {
      assert rs[1..] == [] && rs[..0] == [];
    }
  }

  lemma {:induction false} QuestionsParse(b: seq<byte>, end: nat, k: nat, qs: seq<Question>, fuel: nat)
    requires end < |b| && fuel > MAX_NAME
    requires ValidQuestions(qs) && forall i :: 0 <= i < |qs| ==> ShortName(qs[i].name)
    requires At(b, k, QuestionsBytes(qs)) && k + |QuestionsBytes(qs)| <= end + 1
    ensures var r := ParseQuestions(b, end, k, |qs|, fuel);
            r.Good? && r.cur == k + |QuestionsBytes(qs)| && MeansQuestions(b, r.value, qs)
    decreases |qs|
  {
    hide QuestionBytes, ParseQuestion, MeansQuestion, ShortName, At, ValidQuestion;
    if qs != [] {
      QuestionsFront(qs);
      AtParts(b, k, QuestionBytes(qs[0]), QuestionsBytes(qs[1..]));
      QuestionParses(b, end, k, qs[0], fuel);
      QuestionsParse(b, end, k + |QuestionBytes(qs[0])|, qs[1..], fuel);
    }
  }

  lemma {:induction false} RecordsParse(b: seq<byte>, end: nat, k: nat, rs: seq<Record>, fuel: nat)
    requires end < |b| && fuel > MAX_NAME
    requires ValidRecords(rs) && forall i :: 0 <= i < |rs| ==> SoundRecord(rs[i])
    requires At(b, k, RecordsBytes(rs)) && k + |RecordsBytes(rs)| <= end + 1
    ensures var r := ParseRecords(b, end, k, |rs|, fuel);
            r.Good? && r.cur == k + |RecordsBytes(rs)| && MeansRecords(b, r.value, rs)
    decreases |rs|
  {
    hide RecordBytes, ParseRecord, MeansRecord, SoundRecord, At, ValidRecord;
    if rs != [] {
      RecordsFront(rs);
      AtParts(b, k, RecordBytes(rs[0]), RecordsBytes(rs[1..]));
      RecordParses(b, end, k, rs[0], fuel);
      RecordsParse(b, end, k + |RecordBytes(rs[0])|, rs[1..], fuel);
    }
  }

  lemma HeaderParses(b: seq<byte>, id: u16, response: bool, q: u16, a: u16, n: u16)
    requires At(b, 0, Header(id, response, q, a, n))
    ensures Get16(b, 0) == id && Get16(b, 4) == q && Get16(b, 6) == a && Get16(b, 8) == n
    ensures b[2] == if response then 0x84 else 0
  {
    hide At, Be16;
    var flags: seq<byte> := [if response then 0x84 else 0, 0];
    AtParts(b, 0, Be16(id) + flags + Be16(q) + Be16(a) + Be16(n), [0, 0]);
    AtParts(b, 0, Be16(id) + flags + Be16(q) + Be16(a), Be16(n));
    AtParts(b, 0, Be16(id) + flags + Be16(q), Be16(a));
    AtParts(b, 0, Be16(id) + flags, Be16(q));
    AtParts(b, 0, Be16(id), flags);
    Get16AfterBe16(b, 0, id);
    Get16AfterBe16(b, 4, q);
    Get16AfterBe16(b, 6, a);
    Get16AfterBe16(b, 8, n);
    AtIndex(b, 2, flags, 0);
  }

  lemma {:induction false} RecordsSplit(rs: seq<Record>, k: nat)
    requires ValidRecords(rs) && k <= |rs|
    ensures RecordsBytes(rs) == RecordsBytes(rs[..k]) + RecordsBytes(rs[k..])
    ensures k < |rs| ==> RecordsBytes(rs[k..]) != []
    decreases |rs|
  {
    hide RecordBytes, ValidRecord;
    if k == |rs| {
      assert rs[..k] == rs && rs[k..] == [];
    } else {
      var n := |rs| - 1;
      RecordsSplit(rs[..n], k);
      assert rs[..n][..k] == rs[..k] && rs[k..][..n - k] == rs[..n][k..];
      SomeBytes(rs[n]);
    }
  }

  lemma SomeBytes(r: Record)
    requires ValidRecord(r)
    ensures RecordBytes(r) != []
  {
  }

  lemma {:induction false} QuestionsSplit(qs: seq<Question>, k: nat)
    requires ValidQuestions(qs) && k <= |qs|
    ensures QuestionsBytes(qs) == QuestionsBytes(qs[..k]) + QuestionsBytes(qs[k..])
    ensures k < |qs| ==> QuestionsBytes(qs[k..]) != []
    decreases |qs|
  {
    hide QuestionBytes, ValidQuestion;
    if k == |qs| {
      assert qs[..k] == qs && qs[k..] == [];
    } else {
      var n := |qs| - 1;
      QuestionsSplit(qs[..n], k);
      assert qs[..n][..k] == qs[..k] && qs[k..][..n - k] == qs[..n][k..];
      SomeQuestionBytes(qs[n]);
    }
  }

  lemma SomeQuestionBytes(q: Question)
    requires ValidQuestion(q)
    ensures QuestionBytes(q) != []
  {
  }

  lemma QuestionSection(b: seq<byte>, end: nat, k: nat, qs: seq<Question>, fuel: nat)
    requires end < |b| && fuel > MAX_NAME
    requires ValidQuestions(qs) && forall i :: 0 <= i < |qs| ==> ShortName(qs[i].name)
    requires At(b, k, QuestionsBytes(qs)) && k + |QuestionsBytes(qs)| <= end + 1
    ensures var c := Capped(|qs|);
            var r := ParseQuestions(b, end, k, c, fuel);
            && r.Good? && r.cur == k + |QuestionsBytes(qs[..c])| <= end + 1 && MeansQuestions(b, r.value, qs[..c])
            && (|QuestionsBytes(qs[..c])| == |QuestionsBytes(qs)| <==> |qs| <= MAX_ENTRIES)
  {
    hide QuestionsBytes, ParseQuestions, MeansQuestions, At, ShortName;
    var c := Capped(|qs|);
    QuestionsSplit(qs, c);
    AtParts(b, k, QuestionsBytes(qs[..c]), QuestionsBytes(qs[c..]));
    QuestionsParse(b, end, k, qs[..c], fuel);
    if c == |qs| {
      assert qs[..c] == qs;
    }
  }

  lemma RecordSection(b: seq<byte>, end: nat, k: nat, rs: seq<Record>, fuel: nat)
    requires end < |b| && fuel > MAX_NAME
    requires ValidRecords(rs) && forall i :: 0 <= i < |rs| ==> SoundRecord(rs[i])
    requires At(b, k, RecordsBytes(rs)) && k + |RecordsBytes(rs)| <= end + 1
    ensures var c := Capped(|rs|);
            var r := ParseRecords(b, end, k, c, fuel);
            && r.Good? && r.cur == k + |RecordsBytes(rs[..c])| <= end + 1 && MeansRecords(b, r.value, rs[..c])
            && (|RecordsBytes(rs[..c])| == |RecordsBytes(rs)| <==> |rs| <= MAX_ENTRIES)
  {
    hide RecordsBytes, ParseRecords, MeansRecords, At, SoundRecord;
    var c := Capped(|rs|);
    RecordsSplit(rs, c);
    AtParts(b, k, RecordsBytes(rs[..c]), RecordsBytes(rs[c..]));
    RecordsParse(b, end, k, rs[..c], fuel);
    if c == |rs| {
      assert rs[..c] == rs;
    }
  }

  lemma NothingThere(b: seq<byte>, k: nat)
    requires k <= |b|
    ensures RecordsBytes([]) == [] && At(b, k, [])
  {
  }

  lemma HeadSize(m: Msg)
    requires ValidMsg(m)
    ensures ValidMsg(Head(m))
    ensures |Wire(Head(m))| == HEADER_SIZE + |QuestionsBytes(Head(m).questions)| + |RecordsBytes(Head(m).answers)| +
                               |RecordsBytes(Head(m).authorities)|
  {
    hide QuestionsBytes, RecordsBytes, Header, ValidQuestion, ValidRecord;
  }

  /** Whatever was written is read back: the same questions, answers and
      authorities, up to the limit of 32 each, the parser ending behind the last it
      read, which is the end of what was written exactly when the limit was kept. */
  lemma RoundTrip(m: Msg, b: seq<byte>, fuel: nat)
    requires SoundMsg(m) && Wire(m) <= b && fuel > MAX_NAME
    ensures var r := ParseMessage(b, |Wire(m)|, fuel);
            && r.Good? && MeansMsg(b, r.value, Head(m))
            && ValidMsg(Head(m)) && r.cur == |Wire(Head(m))|
            && (r.cur == |Wire(m)| <==> Head(m) == m)
  {
    hide Header, QuestionsBytes, RecordsBytes, ParseQuestions, ParseRecords, MeansQuestions, MeansRecords,
         At, ShortName, SoundRecord, ValidQuestions, ValidRecords;
    var end, h := |Wire(m)| - 1, Head(m);
    WireAt(m, b);
    HeadSize(m);
    HeaderParses(b, m.id, m.response, |m.questions|, |m.answers|, |m.authorities|);
    QuestionSection(b, end, HEADER_SIZE, m.questions, fuel);
    var p := HEADER_SIZE + |QuestionsBytes(h.questions)|;
    NothingThere(b, p);
    RecordSection(b, end, p, m.answers, fuel);
    var p' := p + |RecordsBytes(h.answers)|;
    NothingThere(b, p');
    RecordSection(b, end, p', m.authorities, fuel);
    Uncut(m);
  }

  lemma Uncut(m: Msg)
    ensures Head(m) == m <==>
            |m.questions| <= MAX_ENTRIES && |m.answers| <= MAX_ENTRIES && |m.authorities| <= MAX_ENTRIES
  {
  }

  lemma WireAt(m: Msg, b: seq<byte>)
    requires ValidMsg(m) && Wire(m) <= b
    ensures At(b, 0, Header(m.id, m.response, |m.questions|, |m.answers|, |m.authorities|))
    ensures At(b, 12, QuestionsBytes(m.questions))
    ensures At(b, 12 + |QuestionsBytes(m.questions)|, RecordsBytes(m.answers))
    ensures At(b, 12 + |QuestionsBytes(m.questions)| + |RecordsBytes(m.answers)|, RecordsBytes(m.authorities))
  {
    hide Header, QuestionsBytes, RecordsBytes, ValidQuestions, ValidRecords;
    assert b[0..|Wire(m)|] == b[..|Wire(m)|];
    var qs, ans, auths := QuestionsBytes(m.questions), RecordsBytes(m.answers), RecordsBytes(m.authorities);
    AtParts(b, 0, HeaderBytes(m), BodyBytes(m));
    AtParts(b, 12, qs + ans, auths);
    AtParts(b, 12, qs, ans);
  }

  /** The records libmdns itself writes are sound. */
  lemma WrittenRecordIsSound(n: Name, t: u16, ttl: u32, d: RData)
    requires ShortName(n) && ValidRData(d) && ttl != NO_TTL
    requires match d
             case Address(_) => t == T_A
             case Pointer(target) => t == T_PTR && ShortName(target)
             case Service(_, _) => t == T_SRV
             case Txt(_) => t == T_TXT
    ensures SoundRecord(Record(n, t, C_FLUSH, ttl, RDataBytes(d)))
  {
    match d
    case Pointer(target) => assert ShortName(target) && RDataBytes(d) == Encode(target);
    case _ =>
  }

  /** A record, its head written as __mdns_add_tuple does, is read back exactly when its time to
      live is not the sentinel: with the sentinel it has no lifetime on the wire, and
      what follows its class is taken for one. */
  lemma SentinelIff(b: seq<byte>, end: nat, k: nat, r: Record, fuel: nat)
    requires SoundRecord(r.(ttl := 0)) && |r.rdata| <= DATA_MAX && end < |b| && fuel > MAX_NAME
    requires var written := TupleBytes(r.name, r.rtype, r.rclass, r.ttl) + (Be16(|r.rdata|) + r.rdata);
             At(b, k, written) && k + |written| <= end + 1
    ensures (var p := ParseRecord(b, end, k, fuel); p.Good? && MeansRecord(b, p.value, r)) <==> r.ttl != NO_TTL
  {
    if r.ttl != NO_TTL {
      RecordParses(b, end, k, r, fuel);
    } else {
      hide SoundRecord, At, MeansRecord, Encode;
      var tuple := TupleBytes(r.name, r.rtype, r.rclass, r.ttl);
      AtParts(b, k, tuple, Be16(|r.rdata|) + r.rdata);
      AtParts(b, k + |tuple|, Be16(|r.rdata|), r.rdata);
      SentinelTaken(b, end, k, r, fuel);
    }
  }

  lemma SentinelTaken(b: seq<byte>, end: nat, k: nat, r: Record, fuel: nat)
    requires end < |b| && ShortName(r.name) && |r.rdata| <= DATA_MAX && r.ttl == NO_TTL && fuel > MAX_NAME
    requires var tuple := TupleBytes(r.name, r.rtype, r.rclass, r.ttl);
             At(b, k, tuple) && At(b, k + |tuple|, Be16(|r.rdata|)) && k + |tuple| <= end + 1
    ensures var p := ParseRecord(b, end, k, fuel); p.Good? ==> p.value.ttl != r.ttl
  {
    hide At, Encode, CheckRData;
    var tuple := TupleBytes(r.name, r.rtype, r.rclass, r.ttl);
    TupleParses(b, end, k, r.name, r.rtype, r.rclass, r.ttl, fuel);
    Get16AfterBe16(b, k + |tuple|, |r.rdata|);
    var p := ParseRecord(b, end, k, fuel);
    if p.Good? {
      CheckedSame(b, end, ParsedRecord(k, Get16(b, k + |tuple| - 4), Get16(b, k + |tuple| - 2), Get32(b, k + |tuple|),
                                       k + |tuple| + 6, Get16(b, k + |tuple| + 4)), fuel);
    }
  }

  lemma CheckedSame(b: seq<byte>, end: nat, r: ParsedRecord, fuel: nat)
    ensures CheckRData(b, end, r, fuel).Good? ==> CheckRData(b, end, r, fuel).value == r
  {
  }
}
