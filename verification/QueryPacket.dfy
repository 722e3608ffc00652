/** The packet that a timer pass leaves (prepare_query and add_known_answers in
    mdns/mdns_query.c): its questions, and the known answers of the monitors that
    asked. */
module QueryPacket {
  import opened Bytes
  import opened Names
  import Packet
  import opened Slist
  import opened Pools
  import opened Cache
  import opened CacheInv
  import opened CacheSteps
  import opened CacheNames
  import K = KnownAnswers
  import Wakeup

  // ----- questions -----

  function QueryMsg(q: Query): Packet.Msg {
    Packet.Msg(0, false, q.questions, [], [])
  }

  /** A query as far as it is written counts its octets. */
  predicate Written(q: Query) {
    && Packet.ValidQuestions(q.questions)
    && q.used == Packet.HEADER_SIZE + |Packet.QuestionsBytes(q.questions)| <= Packet.DATA_MAX
    && |q.questions| <= q.used
  }

  /** The question about a type stands at an offset. */
  predicate AskedAt(q: Query, n: Name, off: nat) {
    exists j: nat ::
      && j < |q.questions| && q.questions[j] == Packet.Question(n, Packet.T_ANY, Packet.C_IN)
      && Packet.ValidQuestions(q.questions[..j])
      && off == Packet.HEADER_SIZE + |Packet.QuestionsBytes(q.questions[..j])|
  }

  lemma QuestionsSnoc(qs: seq<Packet.Question>, x: Packet.Question)
    requires Packet.ValidQuestions(qs) && Packet.ValidQuestion(x)
    ensures Packet.QuestionsBytes(qs + [x]) == Packet.QuestionsBytes(qs) + Packet.QuestionBytes(x)
    ensures |Packet.QuestionBytes(x)| >= 1
  {
    assert (qs + [x])[..|qs|] == qs;
  }

  /** A question that fits stands where the query ended. */
  lemma AskWrites(q: Query, n: Name, t: u16)
    requires Written(q) && Carried(n)
    ensures var (q', ok) := Ask(q, n, t);
            && Written(q') && q.questions <= q'.questions
            && (ok ==> q'.questions == q.questions + [Packet.Question(n, t, Packet.C_IN)])
            && (ok && t == Packet.T_ANY ==> AskedAt(q', n, q.used))
  {
    AskFits(q, n, t);
    var x := Packet.Question(n, t, Packet.C_IN);
    hide WireSize, Carried, Packet.QuestionBytes, Packet.QuestionsBytes;
    QuestionsSnoc(q.questions, x);
    assert (q.questions + [x])[..|q.questions|] == q.questions;
  }

  lemma AskedStays(q: Query, q': Query, n: Name, off: nat)
    requires q.questions <= q'.questions && AskedAt(q, n, off)
    ensures AskedAt(q', n, off)
  {
    hide Packet.QuestionsBytes, Packet.ValidQuestions;
    var j: nat :|
      && j < |q.questions| && q.questions[j] == Packet.Question(n, Packet.T_ANY, Packet.C_IN)
      && Packet.ValidQuestions(q.questions[..j])
      && off == Packet.HEADER_SIZE + |Packet.QuestionsBytes(q.questions[..j])|;
    assert q'.questions[..j] == q.questions[..j];
  }

  // ----- the walks -----

  /** The query has only grown. */
  predicate Grown(w: Walk, r: Walk) {
    Written(r.q) && w.q.questions <= r.q.questions
  }

  lemma AgeRecordGrows(w: Walk, a: nat, elapsed: u32)
    requires Slot(w.c, a) && Named(w.c) && Written(w.q)
    ensures Grown(w, AgeRecord(w, a, elapsed))
  {
    hide Evict, Written, Ask, Carried, Share;
    AskWrites(w.q, w.c.fqdn[a], Packet.T_A);
  }

  lemma AgeInstanceGrows(w: Walk, i: nat, elapsed: u32)
    requires Slot(w.c, i) && Named(w.c) && Written(w.q)
    ensures var r := AgeInstance(w, i, elapsed);
            Grown(w, r) && r.c.smons == w.c.smons && r.c.g.watched == w.c.g.watched && r.failed == w.failed
  {
    hide Written, Ask, Carried, Share, Sized, Below, Without;
    AskWrites(w.q, w.c.fqsn[i], Packet.T_ANY);
  }

  lemma {:induction false} AgeRecordsGrow(w: Walk, list: seq<nat>, elapsed: u32)
    requires Fits(w.c) && Named(w.c) && Written(w.q) && Below(list, |w.c.g.owner|)
    ensures Grown(w, AgeRecords(w, list, elapsed))
    decreases |list|
  {
    if list != [] {
      hide AgeRecord, Named, Keeps, Written;
      AgeRecordGrows(w, list[0], elapsed);
      AgeRecordKeeps(w, list[0], elapsed);
      var w1 := AgeRecord(w, list[0], elapsed);
      KeepsNamed(w.c, w1.c);
      AgeRecordsGrow(w1.(next := Min(w1.next, w1.c.arecs[list[0]].nextRefresh)), list[1..], elapsed);
    }
  }

  lemma {:induction false} AgeInstancesGrow(w: Walk, list: seq<nat>, elapsed: u32)
    requires Fits(w.c) && Named(w.c) && Written(w.q) && Below(list, |w.c.g.owner|)
    ensures var r := AgeInstances(w, list, elapsed);
            Grown(w, r) && r.c.smons == w.c.smons && r.c.g.watched == w.c.g.watched && r.failed == w.failed
    decreases |list|
  {
    if list != [] {
      hide AgeInstance, Named, Keeps, Written;
      AgeInstanceGrows(w, list[0], elapsed);
      AgeInstanceKeeps(w, list[0], elapsed);
      var w1 := AgeInstance(w, list[0], elapsed);
      KeepsNamed(w.c, w1.c);
      AgeInstancesGrow(w1.(next := Min(w1.next, w1.c.sinsts[list[0]].nextRefresh)), list[1..], elapsed);
    }
  }

  /** A monitor is due exactly if its time had come, and then its question is in the
      packet where it says. */
  predicate DueIffAsked(s: Monitor, fqst: Name, r: Walk, k: nat, elapsed: u32)
    requires k < |r.c.smons|
  {
    && (r.c.smons[k].nextRefresh == 0 <==> s.nextRefresh <= elapsed)
    && (r.c.smons[k].nextRefresh == 0 ==> AskedAt(r.q, fqst, r.c.smons[k].offset))
  }

  lemma AgeMonitorAsks(w: Walk, k: nat, elapsed: u32)
    requires Fits(w.c) && Named(w.c) && Written(w.q) && k < |w.c.g.held| && !w.failed
    ensures var r := AgeMonitor(w, k, elapsed);
            && Grown(w, r) && r.c.g == w.c.g
            && (!r.failed ==> DueIffAsked(w.c.smons[k], w.c.fqst[k], r, k, elapsed))
            && (forall j: nat :: j < |w.c.smons| && j != k ==> r.c.smons[j] == w.c.smons[j])
  {
    hide Written, Ask, Carried, AskedAt;
    AskWrites(w.q, w.c.fqst[k], Packet.T_ANY);
  }

  lemma {:induction false} MonitorsAsk(w: Walk, ks: seq<nat>, elapsed: u32)
    requires Fits(w.c) && Named(w.c) && Written(w.q) && NoDup(ks) && Below(ks, |w.c.g.held|) && !w.failed
    ensures var r := AgeMonitors(w, ks, elapsed);
            && Grown(w, r) && r.c.g.watched == w.c.g.watched
            && (forall k {:trigger k in ks} :: k in ks && !r.failed ==> DueIffAsked(w.c.smons[k], w.c.fqst[k], r, k, elapsed))
            && (forall k {:trigger r.c.smons[k]} :: 0 <= k < |w.c.smons| && k !in ks ==> r.c.smons[k] == w.c.smons[k])
    decreases |ks|
  {
    if ks != [] {
      var k := ks[0];
      TailNoDup(ks);
      hide AgeMonitor, AgeInstances, Named, Keeps, Written, DueIffAsked;
      AgeMonitorAsks(w, k, elapsed);
      AgeMonitorKeeps(w, k, elapsed);
      var w1 := AgeMonitor(w, k, elapsed);
      KeepsNamed(w.c, w1.c);
      if !w1.failed {
        AgeInstancesGrow(w1, w1.c.g.held[k], elapsed);
        AgeInstancesKeeps(w1, w1.c.g.held[k], elapsed);
        var w2 := AgeInstances(w1, w1.c.g.held[k], elapsed);
        KeepsNamed(w1.c, w2.c);
        MonitorsAsk(w2, ks[1..], elapsed);
        SameTypes(w, w1, w2);
        FirstAsked(w, w1, w2, AgeMonitors(w2, ks[1..], elapsed), k, elapsed);
      }
    }
  }

  lemma SameTypes(w: Walk, w1: Walk, w2: Walk)
    requires Fits(w.c) && Fits(w1.c) && Fits(w2.c) && Keeps(w.c, w1.c) && Keeps(w1.c, w2.c)
    ensures w2.c.fqst == w.c.fqst
  {
  }

  /** What holds of the first monitor when it has been passed holds to the end. */
  lemma FirstAsked(w: Walk, w1: Walk, w2: Walk, r: Walk, k: nat, elapsed: u32)
    requires k < |w.c.smons| && k < |w.c.fqst| && k < |w1.c.smons| && k < |w2.c.smons| && k < |r.c.smons|
    requires DueIffAsked(w.c.smons[k], w.c.fqst[k], w1, k, elapsed)
    requires w2.c.smons == w1.c.smons && r.c.smons[k] == w2.c.smons[k] && Grown(w1, w2) && Grown(w2, r)
    ensures DueIffAsked(w.c.smons[k], w.c.fqst[k], r, k, elapsed)
  {
    hide Written, AskedAt;
    if w1.c.smons[k].nextRefresh == 0 {
      AskedStays(w1.q, r.q, w.c.fqst[k], w1.c.smons[k].offset);
    }
  }

  /** A pass up to its known answers. */
  function Questions(c: Cache, elapsed: u32): (r: Walk)
    requires Fits(c)
    ensures Fits(r.c) && SameSize(r.c, c)
  {
    var w := AgeRecords(Walk(c, Query([], Packet.HEADER_SIZE), 0, U32_MAX, false), c.g.live, elapsed);
    AgeMonitors(w, w.c.g.watched, elapsed)
  }

  /** After the first pass over the monitors, those due are exactly those whose time
      had come, and each has a question in this very packet at its offset. */
  lemma DueMeansAsked(c: Cache, elapsed: u32, k: nat)
    requires Good(c) && Named(c) && k in c.g.watched && k < |c.smons| && !Questions(c, elapsed).failed
    ensures var r := Questions(c, elapsed);
            r.c.g.watched == c.g.watched && DueIffAsked(c.smons[k], c.fqst[k], r, k, elapsed)
  {
    var w0 := Walk(c, Query([], Packet.HEADER_SIZE), 0, U32_MAX, false);
    hide AgeRecords, AgeMonitors, Named, Keeps, Written, DueIffAsked, Coherent, Keys, Logged, SafeLog, NoOrphans, Crossed, Placed;
    NothingWritten();
    Wakeup.AgeRecordsPass(w0, c.g.live, elapsed);
    AgeRecordsGrow(w0, c.g.live, elapsed);
    AgeRecordsKeeps(w0, c.g.live, elapsed);
    var w1 := AgeRecords(w0, c.g.live, elapsed);
    LeavesMonitors(c, w1.c);
    KeepsNamed(c, w1.c);
    SameTypes(w0, w1, w1);
    MonitorsAsk(w1, w1.c.g.watched, elapsed);
  }

  lemma LeavesMonitors(c: Cache, d: Cache)
    requires Fits(c) && Fits(d) && Wakeup.OnlyLoses(c, d)
    ensures d.g.watched == c.g.watched && d.smons == c.smons
  {
  }

  lemma NothingWritten()
    ensures Written(Query([], Packet.HEADER_SIZE))
  {
  }

  // ----- known answers -----

  /** The first label of an instance name. */
  function Servname(n: Name): Label {
    if n == [] then [] else n[0]
  }

  function AnswerOf(c: Cache, i: nat): K.Answer
    requires Slot(c, i)
  {
    K.Answer(Servname(c.fqsn[i]), c.sinsts[i].ptrTtl)
  }

  function AnswersOf(c: Cache, list: seq<nat>): (r: seq<K.Answer>)
    requires Fits(c) && Below(list, |c.g.owner|)
    ensures |r| == |list| && forall j :: 0 <= j < |list| ==> r[j] == AnswerOf(c, list[j])
  {
    seq(|list|, j requires 0 <= j < |list| => AnswerOf(c, list[j]))
  }

  /** A monitor with what is known of its instances. */
  function DueOf(c: Cache, k: nat): K.Due
    requires Fits(c) && k < |c.g.held|
  {
    K.Due(c.fqst[k], c.smons[k].offset, AnswersOf(c, c.g.held[k]))
  }

  /** The monitors on a list that are due. */
  function Dues(c: Cache, ks: seq<nat>): seq<K.Due>
    requires Fits(c) && Below(ks, |c.g.held|)
  {
    if ks == [] then []
    else
      var k := ks[|ks| - 1];
      Dues(c, ks[..|ks| - 1]) + if c.smons[k].nextRefresh == 0 then [DueOf(c, k)] else []
  }

  lemma DuesSnoc(c: Cache, ks: seq<nat>, k: nat)
    requires Fits(c) && Below(ks, |c.g.held|) && k < |c.g.held|
    ensures Dues(c, ks + [k]) == Dues(c, ks) + if c.smons[k].nextRefresh == 0 then [DueOf(c, k)] else []
  {
    hide DueOf;
    assert (ks + [k])[..|ks|] == ks;
  }

  lemma HeldAnswers(c: Cache, k: nat)
    requires Fits(c) && Named(c) && k < |c.g.held|
    ensures K.ValidAnswers(AnswersOf(c, c.g.held[k]))
  {
    hide WireSize;
    var list := c.g.held[k];
    forall j | 0 <= j < |list| ensures K.ValidAnswer(AnswersOf(c, list)[j]) {
      assert list[j] in list;
      assert ServInfo(c.fqsn[list[j]]) && Carried(c.fqsn[list[j]]);
    }
  }

  /** A question asked at an offset has its name there on the wire. */
  lemma AskedOnWire(q: Query, n: Name, off: nat)
    requires Written(q) && AskedAt(q, n, off) && ValidName(n)
    ensures Packet.ValidMsg(QueryMsg(q)) && |Packet.Wire(QueryMsg(q))| == q.used
    ensures Packet.HEADER_SIZE <= off < q.used && At(Packet.Wire(QueryMsg(q)), off, Encode(n))
  {
    hide Packet.QuestionsBytes, Packet.QuestionBytes, Encode;
    var qs, h := q.questions, Packet.HeaderBytes(QueryMsg(q));
    var j: nat :|
      && j < |qs| && qs[j] == Packet.Question(n, Packet.T_ANY, Packet.C_IN)
      && Packet.ValidQuestions(qs[..j]) && off == Packet.HEADER_SIZE + |Packet.QuestionsBytes(qs[..j])|;
    QuestionAt(qs, j);
    NoRecords();
    var all, front := Packet.QuestionsBytes(qs), Packet.QuestionsBytes(qs[..j]);
    var x := Packet.QuestionBytes(qs[j]);
    assert Packet.Wire(QueryMsg(q)) == h + (all + [] + []) == h + all;
    K.PrefixAt(h, front, x, all);
    NameLeads(n, h + all, off);
  }

  lemma NoRecords()
    ensures Packet.RecordsBytes([]) == []
  {
  }

  lemma NameLeads(n: Name, b: seq<byte>, k: nat)
    requires ValidName(n) && At(b, k, Packet.QuestionBytes(Packet.Question(n, Packet.T_ANY, Packet.C_IN)))
    ensures At(b, k, Encode(n)) && |Packet.QuestionBytes(Packet.Question(n, Packet.T_ANY, Packet.C_IN))| > 0
  {
    hide Encode, At;
    AtParts(b, k, Encode(n) + Be16(Packet.T_ANY), Be16(Packet.C_IN));
    AtParts(b, k, Encode(n), Be16(Packet.T_ANY));
    assert Encode(n) + Be16(Packet.T_ANY) + Be16(Packet.C_IN) + [] == Encode(n) + Be16(Packet.T_ANY) + Be16(Packet.C_IN);
  }

  lemma {:induction false} QuestionAt(qs: seq<Packet.Question>, j: nat)
    requires Packet.ValidQuestions(qs) && j < |qs|
    ensures Packet.QuestionsBytes(qs[..j]) + Packet.QuestionBytes(qs[j]) <= Packet.QuestionsBytes(qs)
    decreases |qs|
  {
    hide Packet.QuestionBytes;
    var n := |qs| - 1;
    QuestionsSnoc(qs[..n], qs[n]);
    assert qs[..n] + [qs[n]] == qs;
    if j < n {
      QuestionAt(qs[..n], j);
      assert qs[..n][..j] == qs[..j];
    }
  }

  /** The monitors due have their questions on the wire. */
  lemma {:induction false} DuesAsked(c: Cache, ks: seq<nat>, q: Query)
    requires Fits(c) && Named(c) && Below(ks, |c.g.held|) && Written(q)
    requires forall k {:trigger k in ks} :: k in ks && c.smons[k].nextRefresh == 0 ==> AskedAt(q, c.fqst[k], c.smons[k].offset)
    ensures Packet.ValidMsg(QueryMsg(q)) && K.AllAsked(Packet.Wire(QueryMsg(q)), Dues(c, ks))
    decreases |ks|
  {
    if ks != [] {
      hide Packet.Wire, AskedAt, Encode, At, Packet.QuestionsBytes, WireSize, ServInfo;
      var n := |ks| - 1;
      var k := ks[n];
      assert k in ks && forall j :: j in ks[..n] ==> j in ks;
      DuesAsked(c, ks[..n], q);
      HeldAnswers(c, k);
      assert Carried(c.fqst[k]);
      if c.smons[k].nextRefresh == 0 {
        AskedOnWire(q, c.fqst[k], c.smons[k].offset);
        assert K.Asked(Packet.Wire(QueryMsg(q)), DueOf(c, k));
      }
    } else {
      SmallMsg(q);
    }
  }

  lemma SmallMsg(q: Query)
    requires Written(q)
    ensures Packet.ValidMsg(QueryMsg(q)) && |Packet.Wire(QueryMsg(q))| == q.used
  {
    hide Packet.QuestionsBytes;
    NoRecords();
  }

  /** The packet of a pass: its questions, with those of the monitors due where
      their offsets say, and behind them as many known answers as fit. */
  predicate PacketOf(b: seq<byte>, w: Walk, written: seq<seq<K.Answer>>)
    requires Fits(w.c) && Packet.ValidMsg(QueryMsg(w.q))
  {
    var q, dues := Packet.Wire(QueryMsg(w.q)), Dues(w.c, w.c.g.watched);
    K.AllAsked(q, dues) && K.Answered(b, q, dues, written) && K.AsManyAsFit(q, dues, written)
  }

  /** In it, the answers for each monitor due are complete PTR records, from its
      type to its instances by their first label, with what was left of each PTR. */
  lemma PacketDecodes(b: seq<byte>, w: Walk, written: seq<seq<K.Answer>>, i: nat)
    requires Fits(w.c) && Packet.ValidMsg(QueryMsg(w.q)) && PacketOf(b, w, written) && i < |Dues(w.c, w.c.g.watched)|
    ensures var dues := Dues(w.c, w.c.g.watched);
            && K.Prefixes(dues[..i], written[..i]) && K.ValidAnswers(written[i]) && written[i] <= K.Known(dues[i].instances)
            && K.AnswersAt(b, |Packet.Wire(QueryMsg(w.q))| + |K.KnownBytes(dues[..i], written[..i])|, dues[i].fqst, written[i])
  {
    hide Packet.Wire, Dues, K.AllAsked, K.AsManyAsFit, K.AnswersAt, K.KnownBytes, K.Known, K.ValidAnswers, K.Counted;
    K.KnownAnswersDecode(b, Packet.Wire(QueryMsg(w.q)), Dues(w.c, w.c.g.watched), written, i);
  }

  /** All is ready for the known answers of a pass. */
  lemma ReadyToAnswer(c: Cache, elapsed: u32)
    requires Good(c) && Named(c) && !Questions(c, elapsed).failed
    ensures var w := Questions(c, elapsed);
            && Good(w.c) && Named(w.c) && Written(w.q) && Packet.ValidMsg(QueryMsg(w.q)) && w.c.g.watched == c.g.watched
            && K.AllAsked(Packet.Wire(QueryMsg(w.q)), Dues(w.c, w.c.g.watched))
  {
    var w0 := Walk(c, Query([], Packet.HEADER_SIZE), 0, U32_MAX, false);
    assert NoDup(c.g.live) && NoDup(c.g.watched);
    hide AgeRecords, AgeMonitors, Named, Keeps, Written, DueIffAsked, Sound, NoOrphans, Dues, K.AllAsked;
    NothingWritten();
    Wakeup.AgeRecordsPass(w0, c.g.live, elapsed);
    AgeRecordsGrow(w0, c.g.live, elapsed);
    AgeRecordsKeeps(w0, c.g.live, elapsed);
    var w1 := AgeRecords(w0, c.g.live, elapsed);
    LeavesMonitors(c, w1.c);
    KeepsNamed(c, w1.c);
    MonitorsAsk(w1, w1.c.g.watched, elapsed);
    Wakeup.AgeMonitorsPass(w1, w1.c.g.watched, elapsed);
    AgeMonitorsKeeps(w1, w1.c.g.watched, elapsed);
    var w2 := AgeMonitors(w1, w1.c.g.watched, elapsed);
    KeepsNamed(w1.c, w2.c);
    SameTypes(w1, w2, w2);
    AllDueAsked(w1.c, w2, elapsed);
    DuesAsked(w2.c, w2.c.g.watched, w2.q);
  }

  lemma AllDueAsked(c: Cache, r: Walk, elapsed: u32)
    requires Fits(c) && Fits(r.c) && SameSize(c, r.c) && r.c.g.watched == c.g.watched && r.c.fqst == c.fqst
    requires forall k {:trigger k in c.g.watched} :: k in c.g.watched ==> DueIffAsked(c.smons[k], c.fqst[k], r, k, elapsed)
    ensures forall k {:trigger k in r.c.g.watched} ::
              k in r.c.g.watched && r.c.smons[k].nextRefresh == 0 ==> AskedAt(r.q, r.c.fqst[k], r.c.smons[k].offset)
  {
    hide AskedAt;
  }

  // ----- a packet under construction -----

  /** The packet holds the questions so far. */
  ghost predicate Open(m: Packet.Message, q: Query)
    reads m, m.data
  {
    m.Holds() && m.msg == QueryMsg(q) && m.cur == q.used && Written(q)
  }

  method Begin(m: Packet.Message)
    requires m.Valid()
    modifies m, m.data
    ensures Open(m, Query([], Packet.HEADER_SIZE))
  {
    hide Packet.Wire;
    m.Init(false);
    NothingWritten();
    SmallMsg(Query([], Packet.HEADER_SIZE));
  }

  /** mdns_add_question does to the packet what asking does to the query. */
  method AskIn(m: Packet.Message, n: Name, t: u16, ghost q: Query) returns (ok: bool)
    requires Open(m, q) && Carried(n)
    modifies m, m.data
    ensures Open(m, Ask(q, n, t).0) && ok == Ask(q, n, t).1
  {
    AskWrites(q, n, t);
    AskFits(q, n, t);
    WireSizeIs(n);
    SmallMsg(q);
    hide Packet.Wire, Ask, WireSize, Packet.QuestionBytes, Packet.QuestionsBytes, Encode;
    ok := m.AddQuestion(n, t, Packet.C_IN);
    SmallMsg(Ask(q, n, t).0);
  }

  lemma DueAmong(c: Cache, ks: seq<nat>, k: nat)
    requires Fits(c) && Below(ks, |c.g.held|) && k in ks && k < |c.g.held| && c.smons[k].nextRefresh == 0
    ensures DueOf(c, k) in Dues(c, ks)
    decreases |ks|
  {
    hide DueOf;
    var n := |ks| - 1;
    if ks[n] != k {
      assert k in ks[..n];
      DueAmong(c, ks[..n], k);
    }
  }

  /** The answers do not depend on the monitors' clocks. */
  lemma AnswersSame(c: Cache, smons: seq<Monitor>, k: nat)
    requires Fits(c) && |smons| == |c.smons| && k < |c.g.held|
    ensures var d := c.(smons := smons);
            AnswersOf(d, d.g.held[k]) == AnswersOf(c, c.g.held[k]) && (smons[k] == c.smons[k] ==> DueOf(d, k) == DueOf(c, k))
  {
    var d, list := c.(smons := smons), c.g.held[k];
    assert forall j :: 0 <= j < |list| ==> AnswerOf(d, list[j]) == AnswerOf(c, list[j]);
  }

}
