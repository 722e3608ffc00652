/** Conflicts with other hosts' messages and the renaming they force
    (fix_response_conflicts in mdns/mdns_respond.c). */
module Conflict {
  import opened Bytes
  import opened Names
  import opened Rename
  import opened Packet
  import opened Host
  import opened Launch
  import opened TieBreak

  datatype HeardQuestion = HeardQuestion(name: Name, qtype: u16)
  datatype HeardAnswer = HeardAnswer(name: Name, rtype: u16)

  /** A message from the network, names decompressed. */
  datatype Heard = Heard(
    isQuery: bool, questions: seq<HeardQuestion>, answers: seq<HeardAnswer>, authorities: seq<Authority>)

  /** A query with authorities is somebody's probe; everything else is treated
      as a response. */
  predicate IsProbe(h: Heard) {
    h.isQuery && h.authorities != []
  }

  /** Their records for the name are greater than those of our probe. */
  predicate Beats(h: Heard, own: seq<Authority>, name: Name) {
    SetCmp(From(h.authorities, name, 0), From(own, name, 0)) == 1
  }

  /** Labels that can be renamed, for every name in use. */
  predicate RenamableNaming(d: HostDef, n: Naming) {
    && Renamable(n.host) && |n.services| == |d.services|
    && forall i :: 0 <= i < |n.services| ==> Renamable(n.services[i])
  }

  /** The names and the return value so far: 0 for no conflict, 1 for a renaming
      and -1 once the numbers of some name ran out. */
  datatype Verdict = Verdict(naming: Naming, ret: Ret)

  type Ret = x: int | -1 <= x <= 1

  function HitHost(d: HostDef, v: Verdict): (r: Verdict)
    requires ValidDef(d) && RenamableNaming(d, v.naming)
    ensures RenamableNaming(d, r.naming) && r.ret != 0 && r.naming.services == v.naming.services
  {
    match Next(v.naming.host)
    case Some(l) => Verdict(v.naming.(host := l), if v.ret == 0 then 1 else v.ret)
    case None => Verdict(v.naming.(host := d.hostname), -1)
  }

  function HitService(d: HostDef, v: Verdict, i: nat): (r: Verdict)
    requires ValidDef(d) && RenamableNaming(d, v.naming) && i < |d.services|
    ensures RenamableNaming(d, r.naming) && r.ret != 0 && r.naming.host == v.naming.host
  {
    assert ValidService(d.services[i]);
    match Next(v.naming.services[i])
    case Some(l) => Verdict(v.naming.(services := v.naming.services[i := l]), if v.ret == 0 then 1 else v.ret)
    case None => Verdict(v.naming.(services := v.naming.services[i := d.services[i].servname]), -1)
  }

  // ----- somebody's probe -----

  function HostQuestion(d: HostDef, own: seq<Authority>, h: Heard, q: HeardQuestion, v: Verdict): (r: Verdict)
    requires ValidDef(d) && RenamableNaming(d, v.naming)
    ensures RenamableNaming(d, r.naming)
  {
    if q.name == Fqdn(d, v.naming) && Beats(h, own, q.name) then HitHost(d, v) else v
  }

  datatype Checking = Checking(v: Verdict, checked: seq<bool>)

  /** The services below k against one question; each is compared only once per
      message. */
  function ServiceQuestions(d: HostDef, own: seq<Authority>, h: Heard, q: HeardQuestion, c: Checking, k: nat): (r: Checking)
    requires ValidDef(d) && RenamableNaming(d, c.v.naming) && |c.checked| == |d.services| && k <= |d.services|
    ensures RenamableNaming(d, r.v.naming) && |r.checked| == |d.services|
  {
    if k == 0 then c
    else ServiceQuestion(d, own, h, q, ServiceQuestions(d, own, h, q, c, k - 1), k - 1)
  }

  function ServiceQuestion(d: HostDef, own: seq<Authority>, h: Heard, q: HeardQuestion, c: Checking, i: nat): (r: Checking)
    requires ValidDef(d) && RenamableNaming(d, c.v.naming) && |c.checked| == |d.services| && i < |d.services|
    ensures RenamableNaming(d, r.v.naming) && |r.checked| == |d.services|
  {
    if c.checked[i] || q.name != Fqsn(d, c.v.naming, i) then c
    else Checking(if Beats(h, own, q.name) then HitService(d, c.v, i) else c.v, c.checked[i := true])
  }

  function OneQuestion(d: HostDef, own: seq<Authority>, h: Heard, q: HeardQuestion, c: Checking): (r: Checking)
    requires ValidDef(d) && RenamableNaming(d, c.v.naming) && |c.checked| == |d.services|
    ensures RenamableNaming(d, r.v.naming) && |r.checked| == |d.services|
  {
    if q.qtype == T_PTR then c
    else ServiceQuestions(d, own, h, q, c.(v := HostQuestion(d, own, h, q, c.v)), |d.services|)
  }

  function Questioned(d: HostDef, own: seq<Authority>, h: Heard, c: Checking, k: nat): (r: Checking)
    requires ValidDef(d) && RenamableNaming(d, c.v.naming) && |c.checked| == |d.services| && k <= |h.questions|
    ensures RenamableNaming(d, r.v.naming) && |r.checked| == |d.services|
  {
    if k == 0 then c
    else OneQuestion(d, own, h, h.questions[k - 1], Questioned(d, own, h, c, k - 1))
  }

  // ----- a response -----

  function HostAnswer(d: HostDef, a: HeardAnswer, v: Verdict): (r: Verdict)
    requires ValidDef(d) && RenamableNaming(d, v.naming)
    ensures RenamableNaming(d, r.naming)
  {
    if a.rtype == T_A && a.name == Fqdn(d, v.naming) then HitHost(d, v) else v
  }

  function ServiceAnswers(d: HostDef, a: HeardAnswer, v: Verdict, k: nat): (r: Verdict)
    requires ValidDef(d) && RenamableNaming(d, v.naming) && k <= |d.services|
    ensures RenamableNaming(d, r.naming)
  {
    if k == 0 then v
    else ServiceAnswer(d, a, ServiceAnswers(d, a, v, k - 1), k - 1)
  }

  function ServiceAnswer(d: HostDef, a: HeardAnswer, v: Verdict, i: nat): (r: Verdict)
    requires ValidDef(d) && RenamableNaming(d, v.naming) && i < |d.services|
    ensures RenamableNaming(d, r.naming)
  {
    if a.rtype == T_SRV && a.name == Fqsn(d, v.naming, i) then HitService(d, v, i) else v
  }

  function Answered(d: HostDef, h: Heard, v: Verdict, k: nat): (r: Verdict)
    requires ValidDef(d) && RenamableNaming(d, v.naming) && k <= |h.answers|
    ensures RenamableNaming(d, r.naming)
  {
    if k == 0 then v
    else
      var a := h.answers[k - 1];
      ServiceAnswers(d, a, HostAnswer(d, a, Answered(d, h, v, k - 1)), |d.services|)
  }

  /** Names and return value after a message, own being the authorities of our
      probe. */
  function Fixed(d: HostDef, own: seq<Authority>, n: Naming, h: Heard): (r: Verdict)
    requires ValidDef(d) && RenamableNaming(d, n)
    ensures RenamableNaming(d, r.naming)
  {
    if IsProbe(h) then
      Questioned(d, own, h, Checking(Verdict(n, 0), seq(|d.services|, _ => false)), |h.questions|).v
    else Answered(d, h, Verdict(n, 0), |h.answers|)
  }

  // ----- when there is a conflict -----

  /** Somebody probes for one of our names with greater records. */
  predicate QuestionConflicts(d: HostDef, own: seq<Authority>, n: Naming, h: Heard, q: HeardQuestion)
    requires ValidDef(d) && RenamableNaming(d, n)
  {
    q.qtype != T_PTR && Beats(h, own, q.name) &&
    (q.name == Fqdn(d, n) || exists i :: 0 <= i < |d.services| && q.name == Fqsn(d, n, i))
  }

  /** Somebody answers for one of our names. */
  predicate AnswerConflicts(d: HostDef, n: Naming, a: HeardAnswer)
    requires ValidDef(d) && RenamableNaming(d, n)
  {
    || (a.rtype == T_A && a.name == Fqdn(d, n))
    || (a.rtype == T_SRV && exists i :: 0 <= i < |d.services| && a.name == Fqsn(d, n, i))
  }

  predicate Conflicts(d: HostDef, own: seq<Authority>, n: Naming, h: Heard)
    requires ValidDef(d) && RenamableNaming(d, n)
  {
    if IsProbe(h) then
      exists k :: 0 <= k < |h.questions| && QuestionConflicts(d, own, n, h, h.questions[k])
    else
      exists k :: 0 <= k < |h.answers| && AnswerConflicts(d, n, h.answers[k])
  }

  lemma {:induction false} ServiceAnswersConflict(d: HostDef, a: HeardAnswer, v: Verdict, k: nat)
    requires ValidDef(d) && RenamableNaming(d, v.naming) && k <= |d.services|
    ensures var r := ServiceAnswers(d, a, v, k);
            && (v.ret != 0 ==> r.ret != 0)
            && (v.ret == 0 ==> (r.ret == 0 <==> !(a.rtype == T_SRV && exists i :: 0 <= i < k && a.name == Fqsn(d, v.naming, i))))
            && (r.ret == 0 ==> r == v)
  {
    hide Fqsn, HitService, ValidDef, RenamableNaming;
    if k > 0 {
      ServiceAnswersConflict(d, a, v, k - 1);
    }
  }

  lemma {:induction false} AnsweredConflict(d: HostDef, h: Heard, n: Naming, k: nat)
    requires ValidDef(d) && RenamableNaming(d, n) && k <= |h.answers|
    ensures var r := Answered(d, h, Verdict(n, 0), k);
            && (r.ret == 0 <==> !exists j :: 0 <= j < k && AnswerConflicts(d, n, h.answers[j]))
            && (r.ret == 0 ==> r.naming == n)
  {
    hide Fqsn, Fqdn, HitHost, ValidDef, RenamableNaming, ServiceAnswers;
    if k > 0 {
      AnsweredConflict(d, h, n, k - 1);
      var a := h.answers[k - 1];
      ServiceAnswersConflict(d, a, HostAnswer(d, a, Answered(d, h, Verdict(n, 0), k - 1)), |d.services|);
    }
  }

  /** The flag of a service is only set after a comparison that it did not lose,
      as long as nothing was renamed. */
  predicate CheckedFairly(d: HostDef, own: seq<Authority>, h: Heard, c: Checking)
    requires ValidDef(d) && RenamableNaming(d, c.v.naming) && |c.checked| == |d.services|
  {
    forall i :: 0 <= i < |d.services| && c.checked[i] ==> !Beats(h, own, Fqsn(d, c.v.naming, i))
  }

  lemma {:induction false} ServiceQuestionsConflict(d: HostDef, own: seq<Authority>, h: Heard, q: HeardQuestion, c: Checking, k: nat)
    requires ValidDef(d) && RenamableNaming(d, c.v.naming) && |c.checked| == |d.services| && k <= |d.services|
    requires c.v.ret == 0 ==> CheckedFairly(d, own, h, c)
    ensures var r := ServiceQuestions(d, own, h, q, c, k);
            && (c.v.ret != 0 ==> r.v.ret != 0)
            && (c.v.ret == 0 ==>
                  (r.v.ret == 0 <==> !(Beats(h, own, q.name) && exists i :: 0 <= i < k && q.name == Fqsn(d, c.v.naming, i))))
            && (r.v.ret == 0 ==> r.v == c.v && CheckedFairly(d, own, h, r))
  {
    hide Fqsn, HitService, ValidDef, RenamableNaming, Beats;
    if k > 0 {
      ServiceQuestionsConflict(d, own, h, q, c, k - 1);
    }
  }

  lemma {:induction false} QuestionedConflict(d: HostDef, own: seq<Authority>, n: Naming, h: Heard, k: nat)
    requires ValidDef(d) && RenamableNaming(d, n) && k <= |h.questions|
    ensures var r := Questioned(d, own, h, Checking(Verdict(n, 0), seq(|d.services|, _ => false)), k);
            && (r.v.ret == 0 <==> !exists j :: 0 <= j < k && QuestionConflicts(d, own, n, h, h.questions[j]))
            && (r.v.ret == 0 ==> r.v.naming == n && CheckedFairly(d, own, h, r))
  {
    hide Fqsn, Fqdn, HitHost, ValidDef, RenamableNaming, Beats, ServiceQuestions;
    if k > 0 {
      QuestionedConflict(d, own, n, h, k - 1);
      var c := Questioned(d, own, h, Checking(Verdict(n, 0), seq(|d.services|, _ => false)), k - 1);
      var q := h.questions[k - 1];
      if q.qtype != T_PTR {
        ServiceQuestionsConflict(d, own, h, q, c.(v := HostQuestion(d, own, h, q, c.v)), |d.services|);
      }
    }
  }

  /** The return value tells the truth: it is 0 exactly when no name conflicts,
      and then no name was changed. */
  lemma FixedIffConflicts(d: HostDef, own: seq<Authority>, n: Naming, h: Heard)
    requires ValidDef(d) && RenamableNaming(d, n)
    ensures Fixed(d, own, n, h).ret == 0 <==> !Conflicts(d, own, n, h)
    ensures Fixed(d, own, n, h).ret == 0 ==> Fixed(d, own, n, h).naming == n
  {
    hide Questioned, Answered, QuestionConflicts, AnswerConflicts, RenamableNaming, ValidDef;
    if IsProbe(h) {
      QuestionedConflict(d, own, n, h, |h.questions|);
    } else {
      AnsweredConflict(d, h, n, |h.answers|);
    }
  }

  // ----- names stay derived from the original ones -----

  lemma DerivedNext(base: Label, l: Label)
    requires Renamable(base) && Derived(base, l)
    ensures Renamable(l) && (Next(l).Some? ==> Derived(base, Next(l).value))
    ensures Derived(base, base)
  {
    var k :| 0 <= k <= 8 && After(base, k) == Some(l);
    assert After(base, 0) == Some(base);
    if Next(l).Some? {
      assert After(base, k + 1) == Next(l);
      RenamingExhausts(base);
    }
  }

  /** Every name in use is derived from the one given at launch. */
  ghost predicate DerivedNaming(d: HostDef, n: Naming)
    requires ValidDef(d)
  {
    RenamableNaming(d, n) && Reachable(d, n)
  }

  lemma RenamableWhenDerived(d: HostDef, n: Naming)
    requires ValidDef(d) && DerivedNaming(d, n)
    ensures RenamableNaming(d, n)
  {
  }

  lemma HitHostReachable(d: HostDef, v: Verdict)
    requires ValidDef(d) && DerivedNaming(d, v.naming)
    ensures DerivedNaming(d, HitHost(d, v).naming)
  {
    DerivedNext(d.hostname, v.naming.host);
  }

  lemma HitServiceReachable(d: HostDef, v: Verdict, i: nat)
    requires ValidDef(d) && DerivedNaming(d, v.naming) && i < |d.services|
    ensures DerivedNaming(d, HitService(d, v, i).naming)
  {
    assert ValidService(d.services[i]);
    DerivedNext(d.services[i].servname, v.naming.services[i]);
  }

  lemma {:induction false} ServiceAnswersReachable(d: HostDef, a: HeardAnswer, v: Verdict, k: nat)
    requires ValidDef(d) && DerivedNaming(d, v.naming) && k <= |d.services|
    ensures DerivedNaming(d, ServiceAnswers(d, a, v, k).naming)
  {
    hide DerivedNaming, RenamableNaming, ValidDef, Fqsn, HitService;
    RenamableWhenDerived(d, v.naming);
    if k > 0 {
      ServiceAnswersReachable(d, a, v, k - 1);
      HitServiceReachable(d, ServiceAnswers(d, a, v, k - 1), k - 1);
    }
  }

  lemma {:induction false} AnsweredReachable(d: HostDef, h: Heard, v: Verdict, k: nat)
    requires ValidDef(d) && DerivedNaming(d, v.naming) && k <= |h.answers|
    ensures DerivedNaming(d, Answered(d, h, v, k).naming)
  {
    if k > 0 {
      AnsweredReachable(d, h, v, k - 1);
      var a, v' := h.answers[k - 1], Answered(d, h, v, k - 1);
      HitHostReachable(d, v');
      ServiceAnswersReachable(d, a, HostAnswer(d, a, v'), |d.services|);
    }
  }

  lemma {:induction false} ServiceQuestionsReachable(d: HostDef, own: seq<Authority>, h: Heard, q: HeardQuestion, c: Checking, k: nat)
    requires ValidDef(d) && DerivedNaming(d, c.v.naming) && |c.checked| == |d.services| && k <= |d.services|
    ensures DerivedNaming(d, ServiceQuestions(d, own, h, q, c, k).v.naming)
  {
    hide DerivedNaming, RenamableNaming, ValidDef, Fqsn, HitService, Beats;
    RenamableWhenDerived(d, c.v.naming);
    if k > 0 {
      ServiceQuestionsReachable(d, own, h, q, c, k - 1);
      HitServiceReachable(d, ServiceQuestions(d, own, h, q, c, k - 1).v, k - 1);
    }
  }

  lemma {:induction false} QuestionedReachable(d: HostDef, own: seq<Authority>, h: Heard, c: Checking, k: nat)
    requires ValidDef(d) && DerivedNaming(d, c.v.naming) && |c.checked| == |d.services| && k <= |h.questions|
    ensures DerivedNaming(d, Questioned(d, own, h, c, k).v.naming)
  {
    if k > 0 {
      QuestionedReachable(d, own, h, c, k - 1);
      var c', q := Questioned(d, own, h, c, k - 1), h.questions[k - 1];
      HitHostReachable(d, c'.v);
      ServiceQuestionsReachable(d, own, h, q, c'.(v := HostQuestion(d, own, h, q, c'.v)), |d.services|);
    }
  }

  /** Whatever is heard, the names stay among those the launch check covers. */
  lemma FixedReachable(d: HostDef, own: seq<Authority>, n: Naming, h: Heard)
    requires ValidDef(d) && DerivedNaming(d, n)
    ensures DerivedNaming(d, Fixed(d, own, n, h).naming)
  {
    if IsProbe(h) {
      QuestionedReachable(d, own, h, Checking(Verdict(n, 0), seq(|d.services|, _ => false)), |h.questions|);
    } else {
      AnsweredReachable(d, h, Verdict(n, 0), |h.answers|);
    }
  }
}
