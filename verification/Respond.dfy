/** Answering a query (prepare_response in mdns/mdns_respond.c). */
module Respond {
  import opened Bytes
  import opened Names
  import opened Rename
  import opened Packet
  import opened Parser
  import opened Host

  /** Failed is RS_ERROR; nothing to send is Prepared(false, false). */
  datatype Outcome = Failed | Prepared(send: bool, delay: bool)

  /** The question asks for the entry. */
  predicate Asks(d: HostDef, n: Naming, q: Question, e: Entry)
    requires ValidDef(d) && ValidNaming(d, n)
  {
    && HasEntry(d, e)
    && match e
       case HostAddress => (q.qtype == T_ANY || q.qtype == T_A) && q.name == Fqdn(d, n)
       case ReversePointer => (q.qtype == T_ANY || q.qtype == T_PTR) && q.name == ArpaName(d.ip)
       case ServicePointer(i) => AsksService(d, n, q, i)
       case Srv(i) => AsksService(d, n, q, i) || (q.qtype == T_SRV && q.name == Fqsn(d, n, i))
       case KeyVals(i) => AsksService(d, n, q, i) || (q.qtype == T_TXT && q.name == Fqsn(d, n, i))
  }

  predicate AsksService(d: HostDef, n: Naming, q: Question, i: nat)
    requires ValidDef(d) && ValidNaming(d, n) && i < |d.services|
  {
    && (q.qtype == T_ANY || q.qtype == T_PTR)
    && (q.name == PtrName(d, i) || q.name == Fqsn(d, n, i))
  }

  /** Only once, unless it is there already. */
  function Once(es: seq<Entry>, e: Entry): seq<Entry> {
    if e in es then es else es + [e]
  }

  function OnceKeyVals(d: HostDef, es: seq<Entry>, i: nat): seq<Entry>
    requires i < |d.services|
  {
    if d.services[i].keyvals.Some? then Once(es, KeyVals(i)) else es
  }

  /** What question q adds for the services below k. */
  function AnswerServices(d: HostDef, n: Naming, q: Question, es: seq<Entry>, k: nat): seq<Entry>
    requires ValidDef(d) && ValidNaming(d, n) && k <= |d.services|
  {
    if k == 0 then es
    else AnswerService(d, n, q, AnswerServices(d, n, q, es, k - 1), k - 1)
  }

  function AnswerService(d: HostDef, n: Naming, q: Question, es: seq<Entry>, i: nat): seq<Entry>
    requires ValidDef(d) && ValidNaming(d, n) && i < |d.services|
  {
    if AsksService(d, n, q, i) then OnceKeyVals(d, Once(es, Srv(i)) + [ServicePointer(i)], i)
    else if q.qtype == T_SRV && q.name == Fqsn(d, n, i) then Once(es, Srv(i))
    else if q.qtype == T_TXT && q.name == Fqsn(d, n, i) then OnceKeyVals(d, es, i)
    else es
  }

  function AnswerHost(d: HostDef, n: Naming, q: Question, es: seq<Entry>): seq<Entry>
    requires ValidDef(d) && ValidNaming(d, n)
  {
    var es' := if Asks(d, n, q, HostAddress) then es + [HostAddress] else es;
    if Asks(d, n, q, ReversePointer) then es' + [ReversePointer] else es'
  }

  /** The answers to the first k questions. */
  function Answering(d: HostDef, n: Naming, qs: seq<Question>, k: nat): seq<Entry>
    requires ValidDef(d) && ValidNaming(d, n) && k <= |qs|
  {
    if k == 0 then []
    else AnswerServices(d, n, qs[k - 1], AnswerHost(d, n, qs[k - 1], Answering(d, n, qs, k - 1)), |d.services|)
  }

  // ----- what is answered -----

  predicate OnceOnly(e: Entry) {
    e.Srv? || e.KeyVals?
  }

  /** How many of the first k questions ask for the entry. */
  function Asked(d: HostDef, n: Naming, qs: seq<Question>, k: nat, e: Entry): nat
    requires ValidDef(d) && ValidNaming(d, n) && k <= |qs|
  {
    if k == 0 then 0 else Asked(d, n, qs, k - 1, e) + if Asks(d, n, qs[k - 1], e) then 1 else 0
  }

  /** One question adds an address or a pointer it asks for, and a service or
      TXT record it asks for unless that is there. */
  function Added(m: nat, once: bool, asks: bool): nat {
    if !asks then m else if !once then m + 1 else if m == 0 then 1 else m
  }

  lemma OnceCount(es: seq<Entry>, x: Entry, e: Entry)
    ensures multiset(Once(es, x))[e] == if e == x && multiset(es)[e] == 0 then 1 else multiset(es)[e]
  {
  }

  predicate OfService(e: Entry, k: nat) {
    (e.Srv? || e.ServicePointer? || e.KeyVals?) && e.i < k
  }

  lemma AnswerServiceCount(d: HostDef, n: Naming, q: Question, es: seq<Entry>, i: nat, e: Entry)
    requires ValidDef(d) && ValidNaming(d, n) && i < |d.services|
    ensures multiset(AnswerService(d, n, q, es, i))[e] ==
            if OfService(e, i + 1) && e.i == i then Added(multiset(es)[e], OnceOnly(e), Asks(d, n, q, e))
            else multiset(es)[e]
  {
    hide Fqsn, PtrName, Fqdn, ArpaName, Once, ValidDef, ValidNaming;
    OnceCount(es, Srv(i), e);
    OnceCount(es, KeyVals(i), e);
    var es1 := Once(es, Srv(i)) + [ServicePointer(i)];
    assert multiset(es1) == multiset(Once(es, Srv(i))) + multiset{ServicePointer(i)};
    OnceCount(es1, KeyVals(i), e);
  }

  lemma {:induction false} AnswerServicesCount(d: HostDef, n: Naming, q: Question, es: seq<Entry>, k: nat, e: Entry)
    requires ValidDef(d) && ValidNaming(d, n) && k <= |d.services|
    ensures multiset(AnswerServices(d, n, q, es, k))[e] ==
            if OfService(e, k) then Added(multiset(es)[e], OnceOnly(e), Asks(d, n, q, e)) else multiset(es)[e]
  {
    hide AnswerService, Asks;
    if k > 0 {
      AnswerServicesCount(d, n, q, es, k - 1, e);
      AnswerServiceCount(d, n, q, AnswerServices(d, n, q, es, k - 1), k - 1, e);
    }
  }

  lemma AnswerHostCount(d: HostDef, n: Naming, q: Question, es: seq<Entry>, e: Entry)
    requires ValidDef(d) && ValidNaming(d, n)
    ensures multiset(AnswerHost(d, n, q, es))[e] ==
            multiset(es)[e] + if (e.HostAddress? || e.ReversePointer?) && Asks(d, n, q, e) then 1 else 0
  {
    hide Asks;
    var es' := if Asks(d, n, q, HostAddress) then es + [HostAddress] else es;
    assert multiset(es + [HostAddress]) == multiset(es) + multiset{HostAddress};
    assert multiset(es' + [ReversePointer]) == multiset(es') + multiset{ReversePointer};
  }

  /** The whole content of a response, entry by entry: a service or TXT record
      is there once if any question asks for it and not otherwise; an address or
      a pointer is there once for every question that asks for it. */
  lemma {:induction false} AnswerMultiplicity(d: HostDef, n: Naming, qs: seq<Question>, k: nat, e: Entry)
    requires ValidDef(d) && ValidNaming(d, n) && k <= |qs|
    ensures multiset(Answering(d, n, qs, k))[e] ==
            if OnceOnly(e) && Asked(d, n, qs, k, e) > 0 then 1 else Asked(d, n, qs, k, e)
  {
    hide AnswerServices, AnswerHost;
    if k > 0 {
      AnswerMultiplicity(d, n, qs, k - 1, e);
      var es := Answering(d, n, qs, k - 1);
      AnswerHostCount(d, n, qs[k - 1], es, e);
      AnswerServicesCount(d, n, qs[k - 1], AnswerHost(d, n, qs[k - 1], es), |d.services|, e);
    }
  }

  // ----- the responder -----

  function AnswerMsg(d: HostDef, n: Naming, id: u16, es: seq<Entry>): (m: Msg)
    requires ValidDef(d) && ValidNaming(d, n) && HasEntries(d, es)
    ensures ValidQuestions(m.questions) && ValidRecords(m.answers) && ValidRecords(m.authorities)
  {
    Msg(id, true, [], EntryRecords(d, n, 255, es), [])
  }

  lemma ServiceExtends(d: HostDef, n: Naming, q: Question, es: seq<Entry>, i: nat)
    requires ValidDef(d) && ValidNaming(d, n) && i < |d.services|
    ensures es <= AnswerService(d, n, q, es, i)
    ensures HasEntries(d, es) ==> HasEntries(d, AnswerService(d, n, q, es, i))
  {
    hide AsksService, Fqsn;
  }

  /** Answers only ever get appended. */
  lemma {:induction false} ServicesExtend(d: HostDef, n: Naming, q: Question, es: seq<Entry>, j: nat, k: nat)
    requires ValidDef(d) && ValidNaming(d, n) && j <= k <= |d.services|
    ensures AnswerServices(d, n, q, es, j) <= AnswerServices(d, n, q, es, k)
    ensures HasEntries(d, es) ==> HasEntries(d, AnswerServices(d, n, q, es, k))
    decreases k
  {
    hide AnswerService, HasEntries;
    if k > 0 {
      ServicesExtend(d, n, q, es, if j < k then j else k - 1, k - 1);
      ServiceExtends(d, n, q, AnswerServices(d, n, q, es, k - 1), k - 1);
    }
  }

  lemma {:induction false} AnsweringExtends(d: HostDef, n: Naming, qs: seq<Question>, j: nat, k: nat)
    requires ValidDef(d) && ValidNaming(d, n) && j <= k <= |qs|
    ensures Answering(d, n, qs, j) <= Answering(d, n, qs, k)
    ensures HasEntries(d, Answering(d, n, qs, k))
    decreases k
  {
    hide AnswerServices, Asks;
    if k > 0 {
      AnsweringExtends(d, n, qs, if j < k then j else k - 1, k - 1);
      var es := AnswerHost(d, n, qs[k - 1], Answering(d, n, qs, k - 1));
      ServicesExtend(d, n, qs[k - 1], es, 0, |d.services|);
      NoServices(d, n, qs[k - 1], es);
    }
  }

  lemma NoServices(d: HostDef, n: Naming, q: Question, es: seq<Entry>)
    requires ValidDef(d) && ValidNaming(d, n)
    ensures AnswerServices(d, n, q, es, 0) == es
  {
  }

  /** Add one entry on the way to the full list all; if it does not fit, neither
      does the full response. */
  method AddOne(tx: Message, d: HostDef, n: Naming, id: u16, ghost es: seq<Entry>, e: Entry, ghost all: seq<Entry>)
    returns (ok: bool)
    requires ValidDef(d) && ValidNaming(d, n) && HasEntries(d, all) && es + [e] <= all
    requires tx.Holds() && HasEntries(d, es) && tx.msg == AnswerMsg(d, n, id, es)
    modifies tx, tx.data
    ensures tx.Valid() && HasEntries(d, es + [e])
    ensures ok ==> tx.Holds() && tx.msg == AnswerMsg(d, n, id, es + [e])
    ensures !ok ==> Size(AnswerMsg(d, n, id, all)) > DATA_MAX
  {
    hide EntryRecords, EntryRecord, Size, RecordsBytes, ValidDef, ValidNaming;
    assert (es + [e])[|es|] == e;
    OneEntry(d, n, id, es, e, all);
    ok := AddEntries(tx, Answers, d, n, 255, [e]);
  }

  lemma OneEntry(d: HostDef, n: Naming, id: u16, es: seq<Entry>, e: Entry, all: seq<Entry>)
    requires ValidDef(d) && ValidNaming(d, n) && HasEntries(d, all) && es + [e] <= all && HasEntries(d, es)
    ensures HasEntry(d, e) && HasEntries(d, [e]) && HasEntries(d, es + [e])
    ensures WithRecords(AnswerMsg(d, n, id, es), Answers, EntryRecords(d, n, 255, [e])) == AnswerMsg(d, n, id, es + [e])
    ensures Size(AnswerMsg(d, n, id, es)) + |RecordsBytes(EntryRecords(d, n, 255, [e]))| <= Size(AnswerMsg(d, n, id, all))
  {
    hide EntryRecord, RecordBytes, HasEntry;
    var k := |es|;
    assert all[..k] == es && all[k] == e && all[..k + 1] == es + [e];
    OneMoreEntry(d, n, 255, all, k);
    assert [e][..0] == [] && [e][0] == e;
    var r := EntryRecord(d, n, 255, e);
    assert EntryRecords(d, n, 255, [e]) == [r];
    assert [r][..0] == [] && RecordsBytes([r]) == RecordBytes(r);
  }

  /** Which records have been added, as the flags of the services. */
  predicate Flagged(d: HostDef, es: seq<Entry>, srvAdded: seq<bool>, txtAdded: seq<bool>) {
    && |srvAdded| == |txtAdded| == |d.services|
    && (forall i :: 0 <= i < |d.services| ==> (srvAdded[i] <==> Srv(i) in es))
    && (forall i :: 0 <= i < |d.services| ==> (txtAdded[i] <==> KeyVals(i) in es))
  }

  predicate Sends(es: seq<Entry>) {
    exists k :: 0 <= k < |es| && (es[k].HostAddress? || es[k].ReversePointer?)
  }

  predicate Delays(es: seq<Entry>) {
    exists k :: 0 <= k < |es| && !(es[k].HostAddress? || es[k].ReversePointer?)
  }

  lemma FlagOf(d: HostDef, es: seq<Entry>, srvAdded: seq<bool>, txtAdded: seq<bool>, i: nat)
    requires Flagged(d, es, srvAdded, txtAdded) && i < |d.services|
    ensures |srvAdded| == |txtAdded| == |d.services|
    ensures srvAdded[i] <==> Srv(i) in es
    ensures txtAdded[i] <==> KeyVals(i) in es
  {
  }

  lemma FlagsAfter(d: HostDef, es: seq<Entry>, e: Entry, srvAdded: seq<bool>, txtAdded: seq<bool>)
    requires Flagged(d, es, srvAdded, txtAdded) && HasEntry(d, e)
    ensures |srvAdded| == |txtAdded| == |d.services|
    ensures Flagged(d, es + [e], if e.Srv? then srvAdded[e.i := true] else srvAdded,
                    if e.KeyVals? then txtAdded[e.i := true] else txtAdded)
    ensures Sends(es + [e]) <==> Sends(es) || e.HostAddress? || e.ReversePointer?
    ensures Delays(es + [e]) <==> Delays(es) || !(e.HostAddress? || e.ReversePointer?)
  {
    var es' := es + [e];
    assert es'[|es|] == e && forall k :: 0 <= k < |es| ==> es'[k] == es[k];
  }

  /** Add an entry for a service unless flagged, and flag it. */
  method AddUnlessFlagged(tx: Message, d: HostDef, n: Naming, id: u16, e: Entry,
                          srvAdded: seq<bool>, txtAdded: seq<bool>, delay: bool,
                          ghost es: seq<Entry>, ghost all: seq<Entry>)
    returns (ok: bool, srvAdded': seq<bool>, txtAdded': seq<bool>, delay': bool)
    requires ValidDef(d) && ValidNaming(d, n) && OfService(e, |d.services|) && HasEntry(d, e)
    requires HasEntries(d, es) && HasEntries(d, all) && (if OnceOnly(e) then Once(es, e) else es + [e]) <= all
    requires tx.Holds() && tx.msg == AnswerMsg(d, n, id, es)
    requires Flagged(d, es, srvAdded, txtAdded) && (delay <==> Delays(es))
    modifies tx, tx.data
    ensures tx.Valid()
    ensures !ok ==> Size(AnswerMsg(d, n, id, all)) > DATA_MAX
    ensures ok ==> tx.Holds() && var es' := if OnceOnly(e) then Once(es, e) else es + [e];
                   && HasEntries(d, es') && tx.msg == AnswerMsg(d, n, id, es')
                   && Flagged(d, es', srvAdded', txtAdded') && (delay' <==> Delays(es'))
                   && (Sends(es') <==> Sends(es))
  {
    hide AnswerMsg, Size, ValidDef, ValidNaming, Sends, Delays, Flagged;
    srvAdded', txtAdded', delay' := srvAdded, txtAdded, delay;
    FlagOf(d, es, srvAdded, txtAdded, e.i);
    if (e.Srv? && srvAdded[e.i]) || (e.KeyVals? && txtAdded[e.i]) {
      return true, srvAdded', txtAdded', delay';
    }
    FlagsAfter(d, es, e, srvAdded, txtAdded);
    ok := AddOne(tx, d, n, id, es, e, all);
    if e.Srv? { srvAdded' := srvAdded[e.i := true]; }
    if e.KeyVals? { txtAdded' := txtAdded[e.i := true]; }
    delay' := true;
  }

  /** The services part of one question. */
  method AnswerOneService(tx: Message, d: HostDef, n: Naming, id: u16, q: Question, i: nat,
                          srvAdded: seq<bool>, txtAdded: seq<bool>, delay: bool,
                          ghost es: seq<Entry>, ghost all: seq<Entry>)
    returns (ok: bool, srvAdded': seq<bool>, txtAdded': seq<bool>, delay': bool)
    requires ValidDef(d) && ValidNaming(d, n) && i < |d.services|
    requires HasEntries(d, es) && HasEntries(d, all) && AnswerService(d, n, q, es, i) <= all
    requires tx.Holds() && tx.msg == AnswerMsg(d, n, id, es)
    requires Flagged(d, es, srvAdded, txtAdded) && (delay <==> Delays(es))
    modifies tx, tx.data
    ensures tx.Valid()
    ensures !ok ==> Size(AnswerMsg(d, n, id, all)) > DATA_MAX
    ensures ok ==> tx.Holds() && var es' := AnswerService(d, n, q, es, i);
                   && HasEntries(d, es') && tx.msg == AnswerMsg(d, n, id, es')
                   && Flagged(d, es', srvAdded', txtAdded') && (delay' <==> Delays(es'))
                   && (Sends(es') <==> Sends(es))
  {
    hide AnswerMsg, Size, Fqsn, PtrName, ValidDef, ValidNaming, Sends, Delays, Flagged, HasEntries;
    srvAdded', txtAdded', delay' := srvAdded, txtAdded, delay;
    ok := true;
    if (q.qtype == T_ANY || q.qtype == T_PTR) && (q.name == PtrName(d, i) || q.name == Fqsn(d, n, i)) {
      ghost var es1 := Once(es, Srv(i));
      ghost var es2 := es1 + [ServicePointer(i)];
      ok, srvAdded', txtAdded', delay' := AddUnlessFlagged(tx, d, n, id, Srv(i), srvAdded', txtAdded', delay', es, all);
      if !ok { return; }
      ok, srvAdded', txtAdded', delay' :=
        AddUnlessFlagged(tx, d, n, id, ServicePointer(i), srvAdded', txtAdded', delay', es1, all);
      if !ok { return; }
      if d.services[i].keyvals.Some? {
        ok, srvAdded', txtAdded', delay' :=
          AddUnlessFlagged(tx, d, n, id, KeyVals(i), srvAdded', txtAdded', delay', es2, all);
      }
    } else if q.qtype == T_SRV && q.name == Fqsn(d, n, i) {
      ok, srvAdded', txtAdded', delay' := AddUnlessFlagged(tx, d, n, id, Srv(i), srvAdded', txtAdded', delay', es, all);
    } else if q.qtype == T_TXT && q.name == Fqsn(d, n, i) && d.services[i].keyvals.Some? {
      ok, srvAdded', txtAdded', delay' :=
        AddUnlessFlagged(tx, d, n, id, KeyVals(i), srvAdded', txtAdded', delay', es, all);
    }
  }

  /** The host part of one question. */
  method AnswerHostPart(tx: Message, d: HostDef, n: Naming, id: u16, q: Question, send: bool,
                        srvAdded: seq<bool>, txtAdded: seq<bool>, ghost es: seq<Entry>, ghost all: seq<Entry>)
    returns (ok: bool, send': bool)
    requires ValidDef(d) && ValidNaming(d, n)
    requires HasEntries(d, es) && HasEntries(d, all) && AnswerHost(d, n, q, es) <= all
    requires tx.Holds() && tx.msg == AnswerMsg(d, n, id, es)
    requires Flagged(d, es, srvAdded, txtAdded) && (send <==> Sends(es))
    modifies tx, tx.data
    ensures tx.Valid()
    ensures !ok ==> Size(AnswerMsg(d, n, id, all)) > DATA_MAX
    ensures ok ==> tx.Holds() && var es' := AnswerHost(d, n, q, es);
                   && HasEntries(d, es') && tx.msg == AnswerMsg(d, n, id, es')
                   && Flagged(d, es', srvAdded, txtAdded) && (send' <==> Sends(es'))
                   && (Delays(es') <==> Delays(es))
  {
    hide AnswerMsg, Size, Fqdn, ArpaName, ValidDef, ValidNaming, Sends, Delays;
    send' := send;
    ghost var acc := es;
    if (q.qtype == T_ANY || q.qtype == T_A) && q.name == Fqdn(d, n) {
      FlagsAfter(d, acc, HostAddress, srvAdded, txtAdded);
      ok := AddOne(tx, d, n, id, acc, HostAddress, all);
      if !ok { return; }
      acc, send' := acc + [HostAddress], true;
    }
    if (q.qtype == T_ANY || q.qtype == T_PTR) && q.name == ArpaName(d.ip) {
      FlagsAfter(d, acc, ReversePointer, srvAdded, txtAdded);
      ok := AddOne(tx, d, n, id, acc, ReversePointer, all);
      if !ok { return; }
      acc, send' := acc + [ReversePointer], true;
    }
    return true, send';
  }

  lemma NothingYet(d: HostDef, n: Naming, id: u16, qs: seq<Question>, none: seq<bool>)
    requires ValidDef(d) && ValidNaming(d, n) && |none| == |d.services| && true !in none
    ensures Answering(d, n, qs, 0) == [] && HasEntries(d, [])
    ensures AnswerMsg(d, n, id, []) == Empty(true).(id := id)
    ensures Flagged(d, [], none, none) && !Sends([]) && !Delays([])
  {
  }

  /** Where one question and one service stand on the way to the full list. */
  lemma OnTheWay(d: HostDef, n: Naming, qs: seq<Question>, k: nat, i: nat)
    requires ValidDef(d) && ValidNaming(d, n) && k < |qs| && i <= |d.services|
    ensures var host := AnswerHost(d, n, qs[k], Answering(d, n, qs, k));
            var all := Answering(d, n, qs, |qs|);
            && host <= all
            && AnswerServices(d, n, qs[k], host, 0) == host
            && AnswerServices(d, n, qs[k], host, |d.services|) == Answering(d, n, qs, k + 1)
            && (i < |d.services| ==>
                  AnswerServices(d, n, qs[k], host, i + 1) ==
                  AnswerService(d, n, qs[k], AnswerServices(d, n, qs[k], host, i), i) <= all)
  {
    hide AnswerHost, AnswerService;
    var host := AnswerHost(d, n, qs[k], Answering(d, n, qs, k));
    AnsweringExtends(d, n, qs, k + 1, |qs|);
    ServicesExtend(d, n, qs[k], host, 0, |d.services|);
    NoServices(d, n, qs[k], host);
    if i < |d.services| {
      ServicesExtend(d, n, qs[k], host, i + 1, |d.services|);
    }
  }

  /** A query is answered with exactly the entries its questions ask for, or not
      at all when they do not fit a packet; a response is not answered. */
  method PrepareResponse(tx: Message, d: HostDef, n: Naming, id: u16, isQuery: bool, qs: seq<Question>)
    returns (r: Outcome)
    requires tx.Valid() && ValidDef(d) && ValidNaming(d, n)
    modifies tx, tx.data
    ensures tx.Valid()
    ensures !isQuery ==> r == Prepared(false, false)
    ensures HasEntries(d, Answering(d, n, qs, |qs|))
    ensures isQuery ==>
              var es := Answering(d, n, qs, |qs|);
              if Size(AnswerMsg(d, n, id, es)) > DATA_MAX then r == Failed
              else r == Prepared(Sends(es), Delays(es)) && tx.Holds() && tx.msg == AnswerMsg(d, n, id, es)
  {
    hide AnswerMsg, Size, ValidDef, ValidNaming, Sends, Delays, Flagged, Wire,
         AnswerServices, AnswerService, AnswerHost, Answering, HasEntries;
    AnsweringExtends(d, n, qs, 0, |qs|);
    if !isQuery { return Prepared(false, false); }
    tx.Init(true);
    tx.SetId(id);
    var none := seq(|d.services|, _ => false);
    var srvAdded, txtAdded, send, delay := none, none, false, false;
    ghost var all := Answering(d, n, qs, |qs|);
    NothingYet(d, n, id, qs, none);
    for k := 0 to |qs|
      invariant tx.Holds() && HasEntries(d, Answering(d, n, qs, k))
      invariant tx.msg == AnswerMsg(d, n, id, Answering(d, n, qs, k))
      invariant Flagged(d, Answering(d, n, qs, k), srvAdded, txtAdded)
      invariant send <==> Sends(Answering(d, n, qs, k))
      invariant delay <==> Delays(Answering(d, n, qs, k))
    {
      var q := qs[k];
      ghost var host := AnswerHost(d, n, q, Answering(d, n, qs, k));
      OnTheWay(d, n, qs, k, 0);
      var ok;
      ok, send := AnswerHostPart(tx, d, n, id, q, send, srvAdded, txtAdded, Answering(d, n, qs, k), all);
      if !ok { return Failed; }
      for i := 0 to |d.services|
        invariant tx.Holds() && HasEntries(d, AnswerServices(d, n, q, host, i))
        invariant tx.msg == AnswerMsg(d, n, id, AnswerServices(d, n, q, host, i))
        invariant Flagged(d, AnswerServices(d, n, q, host, i), srvAdded, txtAdded)
        invariant send <==> Sends(AnswerServices(d, n, q, host, i))
        invariant delay <==> Delays(AnswerServices(d, n, q, host, i))
      {
        OnTheWay(d, n, qs, k, i);
        ok, srvAdded, txtAdded, delay :=
          AnswerOneService(tx, d, n, id, q, i, srvAdded, txtAdded, delay, AnswerServices(d, n, q, host, i), all);
        if !ok { return Failed; }
      }
    }
    SizeIsWire(tx.msg);
    return Prepared(send, delay);
  }

  /** Nothing is sent exactly when nothing was answered. */
  lemma SendsOrNot(es: seq<Entry>)
    ensures (!Sends(es) && !Delays(es)) <==> es == []
  {
    if es != [] {
      assert 0 <= 0 < |es|;
      assert (es[0].HostAddress? || es[0].ReversePointer?) || !(es[0].HostAddress? || es[0].ReversePointer?);
    }
  }
}
