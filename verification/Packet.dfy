/** DNS messages (mdns/mdns.c): the writer that fills a packet piece by piece,
    the parser, and the proof that the parser reads back what was written.
    Formats are those of sections 4.1.1 to 4.1.3 of RFC 1035. */
module Packet {
  import opened Bytes
  import opened Names

  const DATA_MAX := 1472
  const HEADER_SIZE := 12
  const MAX_ENTRIES := 32

  const T_A: u16 := 1
  const T_CNAME: u16 := 5
  const T_PTR: u16 := 12
  const T_TXT: u16 := 16
  const T_SRV: u16 := 33
  const T_ANY: u16 := 255
  const C_IN: u16 := 0x0001
  const C_FLUSH: u16 := 0x8001

  /** The time to live that the writer takes to mean "none". */
  const NO_TTL: u32 := U32_MAX

  datatype Question = Question(name: Name, qtype: u16, qclass: u16)
  datatype Record = Record(name: Name, rtype: u16, rclass: u16, ttl: u32, rdata: seq<byte>)
  datatype Msg = Msg(id: u16, response: bool, questions: seq<Question>, answers: seq<Record>, authorities: seq<Record>)

  // ----- wire form -----

  function TupleBytes(n: Name, t: u16, c: u16, ttl: u32): seq<byte>
    requires ValidName(n)
  {
    Encode(n) + Be16(t) + Be16(c) + if ttl == NO_TTL then [] else Be32(ttl)
  }

  predicate ValidQuestion(q: Question) {
    ValidName(q.name)
  }

  predicate ValidRecord(r: Record) {
    ValidName(r.name) && r.ttl != NO_TTL && |r.rdata| < 0x1_0000
  }

  function QuestionBytes(q: Question): seq<byte>
    requires ValidQuestion(q)
  {
    TupleBytes(q.name, q.qtype, q.qclass, NO_TTL)
  }

  function RecordBytes(r: Record): seq<byte>
    requires ValidRecord(r)
  {
    TupleBytes(r.name, r.rtype, r.rclass, r.ttl) + (Be16(|r.rdata|) + r.rdata)
  }

  predicate ValidQuestions(qs: seq<Question>) {
    forall i :: 0 <= i < |qs| ==> ValidQuestion(qs[i])
  }

  predicate ValidRecords(rs: seq<Record>) {
    forall i :: 0 <= i < |rs| ==> ValidRecord(rs[i])
  }

  function QuestionsBytes(qs: seq<Question>): seq<byte>
    requires ValidQuestions(qs)
  {
    if qs == [] then [] else QuestionsBytes(qs[..|qs| - 1]) + QuestionBytes(qs[|qs| - 1])
  }

  function RecordsBytes(rs: seq<Record>): seq<byte>
    requires ValidRecords(rs)
  {
    if rs == [] then [] else RecordsBytes(rs[..|rs| - 1]) + RecordBytes(rs[|rs| - 1])
  }

  predicate ValidMsg(m: Msg) {
    && ValidQuestions(m.questions) && ValidRecords(m.answers) && ValidRecords(m.authorities)
    && |m.questions| < 0x1_0000 && |m.answers| < 0x1_0000 && |m.authorities| < 0x1_0000
  }

  function Header(id: u16, response: bool, q: u16, a: u16, n: u16): (b: seq<byte>)
    ensures |b| == HEADER_SIZE
  {
    Be16(id) + [if response then 0x84 else 0, 0] + Be16(q) + Be16(a) + Be16(n) + [0, 0]
  }

  function HeaderBytes(m: Msg): (b: seq<byte>)
    requires ValidMsg(m)
    ensures |b| == HEADER_SIZE
  {
    Header(m.id, m.response, |m.questions|, |m.answers|, |m.authorities|)
  }

  function BodyBytes(m: Msg): seq<byte>
    requires ValidMsg(m)
  {
    QuestionsBytes(m.questions) + RecordsBytes(m.answers) + RecordsBytes(m.authorities)
  }

  function Wire(m: Msg): (b: seq<byte>)
    requires ValidMsg(m)
    ensures |b| >= HEADER_SIZE
  {
    HeaderBytes(m) + BodyBytes(m)
  }

  function Empty(response: bool): (m: Msg)
    ensures ValidMsg(m)
  {
    Msg(0, response, [], [], [])
  }

  datatype Section = Questions | Answers | Authorities

  /** Entries go to the last section in use, so the packet only grows. */
  predicate CanAdd(m: Msg, section: Section) {
    && ValidMsg(m)
    && match section
       case Questions => m.answers == [] && m.authorities == [] && |m.questions| < 0xFFFF
       case Answers => m.authorities == [] && |m.answers| < 0xFFFF
       case Authorities => |m.authorities| < 0xFFFF
  }

  function WithQuestion(m: Msg, q: Question): Msg {
    m.(questions := m.questions + [q])
  }

  function WithRecord(m: Msg, section: Section, r: Record): Msg {
    if section == Answers then m.(answers := m.answers + [r])
    else m.(authorities := m.authorities + [r])
  }

  function CountOffset(section: Section): nat {
    match section case Questions => 4 case Answers => 6 case Authorities => 8
  }

  /** The sixteen-bit count at an offset, plus one. */
  function Bump(b: seq<byte>, off: nat): (r: seq<byte>)
    requires off + 2 <= |b|
    ensures |r| == |b|
  {
    b[..off] + Be16((Get16(b, off) as int + 1) % 0x1_0000) + b[off + 2..]
  }

  lemma BumpMiddle(x: seq<byte>, v: u16, y: seq<byte>)
    requires v < 0xFFFF
    ensures Bump(x + Be16(v) + y, |x|) == x + Be16(v + 1) + y
  {
    var b := x + Be16(v) + y;
    assert b[|x|..|x| + 2] == Be16(v);
    Get16AfterBe16(b, |x|, v);
    assert b[..|x|] == x && b[|x| + 2..] == y;
  }

  lemma HeaderBumped(id: u16, response: bool, q: u16, a: u16, n: u16)
    ensures q < 0xFFFF ==> Bump(Header(id, response, q, a, n), 4) == Header(id, response, q + 1, a, n)
    ensures a < 0xFFFF ==> Bump(Header(id, response, q, a, n), 6) == Header(id, response, q, a + 1, n)
    ensures n < 0xFFFF ==> Bump(Header(id, response, q, a, n), 8) == Header(id, response, q, a, n + 1)
  {
    hide Bump, Be16;
    var x: seq<byte> := Be16(id) + [if response then 0x84 else 0, 0];
    var z: seq<byte> := [0, 0];
    Associate(x, Be16(q), Be16(a), Be16(n), z);
    if q < 0xFFFF {
      BumpMiddle(x, q, Be16(a) + Be16(n) + z);
      Associate(x, Be16(q + 1), Be16(a), Be16(n), z);
    }
    if a < 0xFFFF {
      BumpMiddle(x + Be16(q), a, Be16(n) + z);
      Associate(x, Be16(q), Be16(a + 1), Be16(n), z);
    }
    if n < 0xFFFF { BumpMiddle(x + Be16(q) + Be16(a), n, z); }
  }

  lemma Associate(x: seq<byte>, a: seq<byte>, b: seq<byte>, c: seq<byte>, d: seq<byte>)
    ensures x + a + (b + c + d) == x + a + b + c + d
    ensures x + a + b + (c + d) == x + a + b + c + d
    ensures x + (a + b + c + d) == x + a + b + c + d
  {
  }

  lemma BumpAppend(h: seq<byte>, b: seq<byte>, off: nat)
    requires off + 2 <= |h|
    ensures Bump(h + b, off) == Bump(h, off) + b
  {
  }

  lemma BodyWithQuestion(m: Msg, q: Question)
    requires CanAdd(m, Questions) && ValidQuestion(q)
    ensures ValidMsg(WithQuestion(m, q))
    ensures BodyBytes(WithQuestion(m, q)) == BodyBytes(m) + QuestionBytes(q)
  {
    assert (m.questions + [q])[..|m.questions|] == m.questions;
  }

  lemma BodyWithRecord(m: Msg, section: Section, r: Record)
    requires section != Questions && CanAdd(m, section) && ValidRecord(r)
    ensures ValidMsg(WithRecord(m, section, r))
    ensures BodyBytes(WithRecord(m, section, r)) == BodyBytes(m) + RecordBytes(r)
  {
    hide RecordBytes, QuestionsBytes;
    var qs := QuestionsBytes(m.questions);
    if section == Answers {
      assert (m.answers + [r])[..|m.answers|] == m.answers;
      assert qs + (RecordsBytes(m.answers) + RecordBytes(r)) + [] == qs + RecordsBytes(m.answers) + [] + RecordBytes(r);
    } else {
      assert (m.authorities + [r])[..|m.authorities|] == m.authorities;
      var x := qs + RecordsBytes(m.answers);
      assert x + (RecordsBytes(m.authorities) + RecordBytes(r)) == x + RecordsBytes(m.authorities) + RecordBytes(r);
    }
  }

  /** The octets after writing one more entry and counting it. */
  lemma WireWithQuestion(m: Msg, q: Question)
    requires CanAdd(m, Questions) && ValidQuestion(q)
    ensures ValidMsg(WithQuestion(m, q))
    ensures Bump(Wire(m) + QuestionBytes(q), 4) == Wire(WithQuestion(m, q))
  {
    hide Header, BodyBytes, QuestionBytes, Bump;
    BodyWithQuestion(m, q);
    HeaderBumped(m.id, m.response, |m.questions|, |m.answers|, |m.authorities|);
    BumpAppend(HeaderBytes(m), BodyBytes(m) + QuestionBytes(q), 4);
    assert Wire(m) + QuestionBytes(q) == HeaderBytes(m) + (BodyBytes(m) + QuestionBytes(q));
  }

  lemma WireWithRecord(m: Msg, section: Section, r: Record)
    requires section != Questions && CanAdd(m, section) && ValidRecord(r)
    ensures ValidMsg(WithRecord(m, section, r))
    ensures Bump(Wire(m) + RecordBytes(r), CountOffset(section)) == Wire(WithRecord(m, section, r))
  {
    hide Header, BodyBytes, RecordBytes, Bump, ValidRecords, ValidQuestions;
    BodyWithRecord(m, section, r);
    HeaderBumped(m.id, m.response, |m.questions|, |m.answers|, |m.authorities|);
    BumpAppend(HeaderBytes(m), BodyBytes(m) + RecordBytes(r), CountOffset(section));
    assert Wire(m) + RecordBytes(r) == HeaderBytes(m) + (BodyBytes(m) + RecordBytes(r));
  }

  // ----- the writer -----

  /** The data of the records that libmdns writes. */
  datatype RData =
    | Address(ip: u32)
    | Pointer(name: Name)
    | Service(port: u16, target: Name)
    | Txt(text: seq<byte>)

  predicate ValidRData(d: RData) {
    match d
    case Address(_) => true
    case Pointer(n) => ValidName(n) && |Encode(n)| < 0x1_0000
    case Service(_, n) => ValidName(n) && |Encode(n)| + 6 < 0x1_0000
    case Txt(t) => |t| < 0x1_0000
  }

  function RDataBytes(d: RData): (b: seq<byte>)
    requires ValidRData(d)
    ensures |b| < 0x1_0000
  {
    match d
    case Address(ip) => Be32(ip)
    case Pointer(n) => Encode(n)
    case Service(port, n) => Be16(0) + Be16(0) + Be16(port) + Encode(n)
    case Txt(t) => t
  }

  lemma Patched(b: seq<byte>, off: nat, w: seq<byte>, n: nat)
    requires off + |w| <= n <= |b|
    ensures (b[..off] + w + b[off + |w|..])[..n] == b[..n][..off] + w + b[..n][off + |w|..]
  {
  }

  lemma Renumbered(m: Msg, id: u16)
    requires ValidMsg(m)
    ensures Wire(m)[..0] + Be16(id) + Wire(m)[2..] == Wire(m.(id := id))
  {
    hide BodyBytes, Be16;
    var h := Header(m.id, m.response, |m.questions|, |m.answers|, |m.authorities|);
    assert h[2..] == Header(id, m.response, |m.questions|, |m.answers|, |m.authorities|)[2..];
    assert Wire(m)[2..] == h[2..] + BodyBytes(m);
    var h' := Header(id, m.response, |m.questions|, |m.answers|, |m.authorities|);
    assert h' == Be16(id) + h'[2..];
    assert Wire(m)[..0] == [];
    assert [] + Be16(id) + (h'[2..] + BodyBytes(m)) == Be16(id) + h'[2..] + BodyBytes(m);
    assert BodyBytes(m) == BodyBytes(m.(id := id)) by {
      BodyIgnoresId(m, id);
    }
  }

  lemma BodyIgnoresId(m: Msg, id: u16)
    requires ValidMsg(m)
    ensures BodyBytes(m.(id := id)) == BodyBytes(m)
  {
  }

  class Message {
    const data: array<byte>
    var cur: nat
    ghost var msg: Msg

    ghost predicate Valid()
      reads this
    {
      data.Length == DATA_MAX && HEADER_SIZE <= cur <= DATA_MAX
    }

    /** The packet is complete: its octets are the wire form of msg. */
    ghost predicate Holds()
      reads this, data
    {
      Valid() && ValidMsg(msg) && data[..cur] == Wire(msg)
    }

    constructor ()
      ensures Holds() && fresh(data) && msg == Empty(false)
    {
      data := new byte[DATA_MAX](_ => 0);
      cur := HEADER_SIZE;
      msg := Empty(false);
      new;
      assert data[..cur] == Wire(msg);
    }

    /** mdns_query_init and mdns_response_init. */
    method Init(response: bool)
      requires Valid()
      modifies this, data
      ensures Holds() && msg == Empty(response)
    {
      msg := Empty(response);
      cur := 0;
      var flags := if response then 0x84 else 0;
      CopyOctets(data, 0, [0, 0, flags, 0, 0, 0, 0, 0, 0, 0, 0, 0]);
      cur := HEADER_SIZE;
      assert data[..cur] == Wire(msg);
    }

    /** The answer to a query carries the query's identifier. */
    method SetId(id: u16)
      requires Holds()
      modifies this, data
      ensures Holds() && msg == old(msg).(id := id)
    {
      ghost var was := data[..];
      CopyOctets(data, 0, Be16(id));
      Patched(was, 0, Be16(id), cur);
      Renumbered(msg, id);
      msg := msg.(id := id);
    }

    method Put(b: seq<byte>)
      requires Valid() && cur + |b| <= DATA_MAX
      modifies this`cur, data
      ensures Valid() && cur == old(cur) + |b|
      ensures data[..cur] == old(data[..cur]) + b
    {
      CopyOctets(data, cur, b);
      cur := cur + |b|;
    }

    method Count(section: Section)
      requires Valid()
      modifies data
      ensures data[..cur] == Bump(old(data[..cur]), CountOffset(section))
    {
      var off := CountOffset(section);
      var n := (data[off] as int * 0x100 + data[off + 1] as int + 1) % 0x1_0000;
      ghost var was := data[..];
      CopyOctets(data, off, Be16(n));
      Patched(was, off, Be16(n), cur);
    }

    /** Name, type, class and, unless it is the sentinel, time to live. */
    method AddTuple(n: Name, t: u16, c: u16, ttl: u32) returns (ok: bool)
      requires Valid() && ValidName(n) && |Encode(n)| < 0x1_0000
      modifies this`cur, data
      ensures Valid()
      ensures ok <==> old(cur) + |TupleBytes(n, t, c, ttl)| <= DATA_MAX
      ensures ok ==> data[..cur] == old(data[..cur]) + TupleBytes(n, t, c, ttl)
      ensures !ok ==> cur == old(cur) && data[..] == old(data[..])
    {
      hide Encode, Be16, Be32;
      ghost var was := data[..cur];
      var buf := Encode(n);
      var size := NameSize(buf, 0);
      EncodedSize(buf, 0, n);
      var len := size.value;
      var need := if ttl == NO_TTL then len + 4 else len + 8;
      if DATA_MAX - cur < need { return false; }
      Put(buf[..len]);
      Put(Be16(t));
      Put(Be16(c));
      if ttl != NO_TTL {
        Put(Be32(ttl));
      }
      Associate(was, buf, Be16(t), Be16(c), if ttl == NO_TTL then [] else Be32(ttl));
      return true;
    }

    method AddQuestion(n: Name, t: u16, c: u16) returns (ok: bool)
      requires Holds() && CanAdd(msg, Questions) && ValidName(n) && |Encode(n)| < 0x1_0000
      modifies this, data
      ensures Valid()
      ensures ok <==> |Wire(old(msg))| + |QuestionBytes(Question(n, t, c))| <= DATA_MAX
      ensures ok ==> Holds() && msg == WithQuestion(old(msg), Question(n, t, c))
      ensures !ok ==> Holds() && msg == old(msg) && data[..] == old(data[..])
    {
      ok := AddTuple(n, t, c, NO_TTL);
      if !ok { return; }
      Count(Questions);
      WireWithQuestion(msg, Question(n, t, c));
      msg := WithQuestion(msg, Question(n, t, c));
    }

    method AddAddress(ip: u32) returns (ok: bool)
      requires Valid()
      modifies this`cur, data
      ensures Valid()
      ensures ok <==> old(cur) + 6 <= DATA_MAX
      ensures ok ==> data[..cur] == old(data[..cur]) + (Be16(4) + Be32(ip))
      ensures !ok ==> cur == old(cur) && data[..] == old(data[..])
    {
      ghost var was := data[..cur];
      if DATA_MAX - cur < 6 { return false; }
      Put(Be16(4));
      Put(Be32(ip));
      assert was + Be16(4) + Be32(ip) == was + (Be16(4) + Be32(ip));
      return true;
    }

    method AddName(n: Name) returns (ok: bool)
      requires Valid() && ValidName(n) && |Encode(n)| < 0x1_0000
      modifies this`cur, data
      ensures Valid()
      ensures ok <==> old(cur) + 2 + |Encode(n)| <= DATA_MAX
      ensures ok ==> data[..cur] == old(data[..cur]) + (Be16(|Encode(n)|) + Encode(n))
      ensures !ok ==> cur == old(cur) && data[..] == old(data[..])
    {
      hide Encode;
      ghost var was := data[..cur];
      var buf := Encode(n);
      var size := NameSize(buf, 0);
      EncodedSize(buf, 0, n);
      if DATA_MAX - cur < size.value + 2 { return false; }
      Put(Be16(size.value));
      Put(buf[..size.value]);
      assert was + Be16(|buf|) + buf == was + (Be16(|buf|) + buf);
      return true;
    }

    method AddSrv(port: u16, n: Name) returns (ok: bool)
      requires Valid() && ValidName(n) && |Encode(n)| + 6 < 0x1_0000
      modifies this`cur, data
      ensures Valid()
      ensures ok <==> old(cur) + 8 + |Encode(n)| <= DATA_MAX
      ensures ok ==> data[..cur] == old(data[..cur]) + (Be16(|Encode(n)| + 6) + RDataBytes(Service(port, n)))
      ensures !ok ==> cur == old(cur) && data[..] == old(data[..])
    {
      hide Encode;
      ghost var was := data[..cur];
      var buf := Encode(n);
      var size := NameSize(buf, 0);
      EncodedSize(buf, 0, n);
      var len := size.value;
      if DATA_MAX - cur < len + 8 { return false; }
      Put(Be16(len + 6));
      Put(Be16(0));
      Put(Be16(0));
      Put(Be16(port));
      Put(buf[..len]);
      assert was + Be16(len + 6) + Be16(0) + Be16(0) + Be16(port) + buf
          == was + (Be16(len + 6) + (Be16(0) + Be16(0) + Be16(port) + buf));
      return true;
    }

    method AddTxt(t: seq<byte>) returns (ok: bool)
      requires Valid() && |t| < 0x1_0000
      modifies this`cur, data
      ensures Valid()
      ensures ok <==> old(cur) + 2 + |t| <= DATA_MAX
      ensures ok ==> data[..cur] == old(data[..cur]) + (Be16(|t|) + t)
      ensures !ok ==> cur == old(cur) && data[..] == old(data[..])
    {
      ghost var was := data[..cur];
      if DATA_MAX - cur < |t| + 2 { return false; }
      Put(Be16(|t|));
      Put(t);
      assert was + Be16(|t|) + t == was + (Be16(|t|) + t);
      return true;
    }

    /** The length and the data of a record. */
    method AddRData(d: RData) returns (ok: bool)
      requires Valid() && ValidRData(d)
      modifies this`cur, data
      ensures Valid()
      ensures ok <==> old(cur) + 2 + |RDataBytes(d)| <= DATA_MAX
      ensures ok ==> data[..cur] == old(data[..cur]) + (Be16(|RDataBytes(d)|) + RDataBytes(d))
      ensures !ok ==> cur == old(cur) && data[..] == old(data[..])
    {
      match d {
        case Address(ip) => ok := AddAddress(ip);
        case Pointer(n) => ok := AddName(n);
        case Service(port, n) => ok := AddSrv(port, n);
        case Txt(t) => ok := AddTxt(t);
      }
    }

    /** One answer or authority.  When it does not fit, its head has been written and
        counted if there was room for that. */
    method AddRecord(section: Section, n: Name, t: u16, ttl: u32, d: RData) returns (ok: bool)
      requires Holds() && section != Questions && CanAdd(msg, section)
      requires ValidName(n) && |Encode(n)| < 0x1_0000 && ttl != NO_TTL && ValidRData(d)
      modifies this, data
      ensures Valid()
      ensures var r := Record(n, t, C_FLUSH, ttl, RDataBytes(d));
              (ok <==> |Wire(old(msg))| + |RecordBytes(r)| <= DATA_MAX) &&
              (ok ==> Holds() && msg == WithRecord(old(msg), section, r))
      ensures var head := TupleBytes(n, t, C_FLUSH, ttl);
              !ok ==>
                data[..cur] ==
                if old(cur) + |head| <= DATA_MAX then Bump(old(data[..cur]) + head, CountOffset(section))
                else old(data[..cur])
    {
      hide RDataBytes, ValidRData, TupleBytes, Encode, Wire, Bump;
      ghost var r := Record(n, t, C_FLUSH, ttl, RDataBytes(d));
      ghost var was := data[..cur];
      ok := AddTuple(n, t, C_FLUSH, ttl);
      if !ok { return; }
      Count(section);
      ok := AddRData(d);
      if !ok { return; }
      BumpAppend(was + TupleBytes(n, t, C_FLUSH, ttl), Be16(|r.rdata|) + r.rdata, CountOffset(section));
      assert was + TupleBytes(n, t, C_FLUSH, ttl) + (Be16(|r.rdata|) + r.rdata) == was + RecordBytes(r);
      WireWithRecord(msg, section, r);
      msg := WithRecord(msg, section, r);
    }
  }
}
