/** A host that passes the launch check and whose probe outgrows a packet once its
    names are contested (prepare_probe and do_responder in mdns/mdns_respond.c):
    exactly when the claim protocol fails, and a run in which it does. */
module Overgrown {
  import opened Bytes
  import opened Names
  import opened Rename
  import opened Packet
  import opened Host
  import opened Launch
  import opened TieBreak
  import opened Conflict
  import opened OwnProbe
  import opened Claim

  // ----- one message that lets every name grow -----

  function RivalService(d: HostDef, i: nat): HeardAnswer
    requires ValidDef(d) && i < |d.services|
  {
    HeardAnswer(Fqsn(d, BaseNaming(d), i), if Grows(d.services[i].servname) then T_SRV else T_TXT)
  }

  /** A response that holds every name of ours that has room to grow. */
  function Rival(d: HostDef): (h: Heard)
    requires ValidDef(d)
    ensures |h.answers| == |d.services| + 1 && !IsProbe(h)
  {
    Heard(false, [],
          [HeardAnswer(Fqdn(d, BaseNaming(d)), if Grows(d.hostname) then T_A else T_TXT)]
          + seq(|d.services|, i requires 0 <= i < |d.services| => RivalService(d, i)),
          [])
  }

  /** The host name and the first m service names have grown, the others may
      have. */
  predicate Growing(d: HostDef, v: Verdict, m: nat)
    requires ValidDef(d)
  {
    && RenamableNaming(d, v.naming) && v.ret >= 0 && v.naming.host == Longest(d.hostname)
    && (forall i :: 0 <= i < |d.services| ==> Kept(d, v.naming, i) || Grown(d, v.naming, i))
    && (forall i :: 0 <= i < m && i < |d.services| ==> Grown(d, v.naming, i))
  }

  predicate Kept(d: HostDef, n: Naming, i: nat)
    requires ValidDef(d) && i < |d.services| == |n.services|
  {
    n.services[i] == d.services[i].servname
  }

  predicate Grown(d: HostDef, n: Naming, i: nat)
    requires ValidDef(d) && i < |d.services| == |n.services|
  {
    assert ValidService(d.services[i]);
    n.services[i] == Longest(d.services[i].servname)
  }

  lemma BaseRenamable(d: HostDef)
    requires ValidDef(d)
    ensures RenamableNaming(d, BaseNaming(d))
  {
    forall i | 0 <= i < |d.services| ensures Renamable(BaseNaming(d).services[i]) {
      assert ValidService(d.services[i]);
    }
  }

  lemma NextOfGrowing(l: Label)
    requires Renamable(l)
    ensures Grows(l) ==> Next(l) == Some(Longest(l)) && Numbered(Longest(l)) && Longest(l) != l
    ensures !Grows(l) ==> Longest(l) == l
  {
  }

  /** The answer for service j against service i. */
  lemma OneRival(d: HostDef, j: nat, v: Verdict, i: nat)
    requires ValidDef(d) && j < |d.services| && i < |d.services| && Growing(d, v, j)
    ensures var r := ServiceAnswer(d, RivalService(d, j), v, i);
            Growing(d, r, j) && (i == j ==> Grown(d, r.naming, j)) && (Grown(d, v.naming, j) ==> Grown(d, r.naming, j))
  {
    assert ValidService(d.services[i]) && ValidService(d.services[j]);
    NextOfGrowing(d.services[i].servname);
    NextOfGrowing(d.services[j].servname);
    FirstLabels(d, BaseNaming(d), j, v.naming, i);
    if RivalService(d, j).rtype == T_SRV && RivalService(d, j).name == Fqsn(d, v.naming, i) {
      RivalHits(d, j, v, i);
    }
  }

  lemma RivalHits(d: HostDef, j: nat, v: Verdict, i: nat)
    requires ValidDef(d) && j < |d.services| && i < |d.services| && Growing(d, v, j)
    requires Grows(d.services[j].servname) && v.naming.services[i] == d.services[j].servname
    ensures var r := HitService(d, v, i);
            Growing(d, r, j) && (i == j ==> Grown(d, r.naming, j)) && (Grown(d, v.naming, j) ==> Grown(d, r.naming, j))
  {
    assert ValidService(d.services[i]) && ValidService(d.services[j]);
    NextOfGrowing(d.services[i].servname);
    NextOfGrowing(d.services[j].servname);
    assert Kept(d, v.naming, i);
    var r := HitService(d, v, i);
    hide ValidDef, ValidService, Next, Longest, Grows, Renamable;
    assert r.naming.services == v.naming.services[i := Longest(d.services[i].servname)];
    forall x | 0 <= x < |d.services| ensures Kept(d, r.naming, x) || Grown(d, r.naming, x) {
      assert Kept(d, v.naming, x) || Grown(d, v.naming, x);
    }
    forall x | 0 <= x < j && x < |d.services| ensures Grown(d, r.naming, x) {
      assert Grown(d, v.naming, x);
    }
  }

  lemma FirstLabels(d: HostDef, n: Naming, j: nat, n': Naming, i: nat)
    requires ValidDef(d) && ValidNaming(d, n) && ValidNaming(d, n') && i < |d.services| && j < |d.services|
    ensures Fqsn(d, n, j) == Fqsn(d, n', i) ==> n.services[j] == n'.services[i]
    ensures i == j && n.services[j] == n'.services[i] ==> Fqsn(d, n, j) == Fqsn(d, n', i)
  {
    hide PtrName;
    assert Fqsn(d, n, j)[0] == n.services[j] && Fqsn(d, n', i)[0] == n'.services[i];
  }

  lemma {:induction false} RivalServices(d: HostDef, j: nat, v: Verdict, k: nat)
    requires ValidDef(d) && j < |d.services| && k <= |d.services| && Growing(d, v, j)
    ensures var r := ServiceAnswers(d, RivalService(d, j), v, k);
            Growing(d, r, j) && (k > j ==> Grown(d, r.naming, j))
  {
    hide ValidDef, RivalService, ServiceAnswer, Grown, Kept;
    if k > 0 {
      RivalServices(d, j, v, k - 1);
      OneRival(d, j, ServiceAnswers(d, RivalService(d, j), v, k - 1), k - 1);
    }
  }

  lemma {:induction false} NoService(d: HostDef, a: HeardAnswer, v: Verdict, k: nat)
    requires ValidDef(d) && RenamableNaming(d, v.naming) && k <= |d.services| && a.rtype != T_SRV
    ensures ServiceAnswers(d, a, v, k) == v
  {
    if k > 0 {
      NoService(d, a, v, k - 1);
    }
  }

  lemma RivalHost(d: HostDef)
    requires ValidDef(d)
    ensures RenamableNaming(d, BaseNaming(d)) && Growing(d, Answered(d, Rival(d), Verdict(BaseNaming(d), 0), 1), 0)
  {
    BaseRenamable(d);
    NextOfGrowing(d.hostname);
    var h, v := Rival(d), Verdict(BaseNaming(d), 0);
    hide Fqdn, Fqsn, Longest, Grows, Next;
    assert Answered(d, h, v, 0) == v;
    var v1 := HostAnswer(d, h.answers[0], v);
    NoService(d, h.answers[0], v1, |d.services|);
    assert Answered(d, h, v, 1) == ServiceAnswers(d, h.answers[0], HostAnswer(d, h.answers[0], Answered(d, h, v, 0)), |d.services|);
  }

  lemma {:induction false} RivalGrows(d: HostDef, m: nat)
    requires ValidDef(d) && m <= |d.services|
    ensures RenamableNaming(d, BaseNaming(d)) && Growing(d, Answered(d, Rival(d), Verdict(BaseNaming(d), 0), m + 1), m)
  {
    hide ValidDef, Grown, Kept, RivalService, BaseNaming, ServiceAnswers, RenamableNaming;
    if m == 0 {
      RivalHost(d);
    } else {
      RivalGrows(d, m - 1);
      var h, v := Rival(d), Verdict(BaseNaming(d), 0);
      var a, w := h.answers[m], Answered(d, h, v, m);
      assert a == RivalService(d, m - 1);
      NotAddress(d, m - 1);
      assert Answered(d, h, v, m + 1) == ServiceAnswers(d, a, HostAnswer(d, a, w), |d.services|);
      RivalServices(d, m - 1, w, |d.services|);
    }
  }

  lemma NotAddress(d: HostDef, i: nat)
    requires ValidDef(d) && i < |d.services|
    ensures RivalService(d, i).rtype != T_A
  {
  }

  lemma AllGrown(d: HostDef, v: Verdict)
    requires ValidDef(d) && Growing(d, v, |d.services|)
    ensures v.naming == LongestNaming(d) && v.ret >= 0
  {
    forall i | 0 <= i < |d.services| ensures v.naming.services[i] == LongestNaming(d).services[i] {
      assert Grown(d, v.naming, i);
    }
  }

  /** After that message every name is at its longest. */
  lemma RivalRenames(d: HostDef, own: seq<Authority>)
    requires ValidDef(d) && LongestNaming(d) != BaseNaming(d)
    ensures RenamableNaming(d, BaseNaming(d))
    ensures Fixed(d, own, BaseNaming(d), Rival(d)) == Verdict(LongestNaming(d), 1)
  {
    RivalGrows(d, |d.services|);
    var r := Fixed(d, own, BaseNaming(d), Rival(d));
    AllGrown(d, r);
    hide Fixed, Conflicts, LongestNaming, BaseNaming, RenamableNaming, ValidDef;
    FixedIffConflicts(d, own, BaseNaming(d), Rival(d));
  }

  // ----- the run -----

  /** What wakes the responder in a run that announces names it has never probed
      for: the first probe, the rival, and four timeouts. */
  function Story(d: HostDef): (ws: seq<Wakeup>)
    requires ValidDef(d)
    ensures |ws| == 6
  {
    [TimedOut(0, 0, []), Wakeup.Packet(0, Rival(d), false, 0), TimedOut(0, 0, []), TimedOut(250, 0, []), TimedOut(250, 0, []),
     TimedOut(250, 0, [])]
  }

  /** The log of that run. */
  function Unprobed(d: HostDef): seq<Event>
    requires ValidDef(d)
  {
    [Probe(0, BaseNaming(d)), Conflicting(0), Garbled(0), Garbled(250), Garbled(500), Announce(750, LongestNaming(d))]
  }

  /** The state after k wakeups of the story. */
  function At(d: HostDef, k: nat): State
    requires ValidDef(d) && k <= 6
  {
    var b, l, log := BaseNaming(d), LongestNaming(d), Unprobed(d);
    var own := OwnAuthorities(d, b);
    match k
    case 0 => Start(d, 0, 0)
    case 1 => State(FirstProbeSent, b, own, [], Some(250), 0, log[..1])
    case 2 => State(Initial, l, own, [], Some(0), 0, log[..2])
    case 3 => State(FirstProbeSent, l, [], [], Some(250), 0, log[..3])
    case 4 => State(SecondProbeSent, l, [], [], Some(250), 250, log[..4])
    case 5 => State(ThirdProbeSent, l, [], [], Some(250), 500, log[..5])
    case 6 => State(Ready, l, [], [], None, 750, log)
  }

  /** The host passed the launch check, and its longest probe does not fit. */
  predicate Outgrows(d: HostDef) {
    Launched(d) && Size(ProbeMsg(d, LongestNaming(d))) > DATA_MAX
  }

  lemma OutgrowsFacts(d: HostDef)
    requires Outgrows(d)
    ensures ValidDef(d) && ProbeFits(d, BaseNaming(d)) && !ProbeFits(d, LongestNaming(d)) && LongestNaming(d) != BaseNaming(d)
    ensures RenamableNaming(d, BaseNaming(d)) && RenamableNaming(d, LongestNaming(d))
    ensures Size(AnnounceMsg(d, LongestNaming(d), 255)) <= DATA_MAX
  {
    LongestReachable(d);
    LaunchCoversAnnouncements(d, LongestNaming(d), 255);
    RivalRenames(d, []);
  }

  lemma StoryMoves(d: HostDef, k: nat)
    requires Outgrows(d) && k < 6
    ensures Moves(d, At(d, k), Story(d)[k], At(d, k + 1))
  {
    hide Outgrows, ValidDef, ProbeFits, Size, AnnounceMsg, ProbeMsg, RenamableNaming, LongestNaming, BaseNaming, Step, Rival,
         OwnAuthorities, CanWake, Unprobed;
    OutgrowsFacts(d);
    match k
    case 0 => Beginning(d);
    case 1 => Contested(d);
    case 2 => NextAttempt(d, 2);
    case 3 => NextAttempt(d, 3);
    case 4 => NextAttempt(d, 4);
    case 5 => Announced(d);
  }

  lemma Beginning(d: HostDef)
    requires Outgrows(d)
    ensures ValidDef(d) && Moves(d, At(d, 0), TimedOut(0, 0, []), At(d, 1))
  {
    hide Outgrows, ValidDef, ProbeFits, RenamableNaming, LongestNaming, BaseNaming, OwnAuthorities, Launched, ProbeAccepted, ResponseAccepted, Answer, HandleProbeResponse;
    OutgrowsFacts(d);
    assert Unprobed(d)[..1] == [Probe(0, BaseNaming(d))];
  }

  lemma Contested(d: HostDef)
    requires Outgrows(d)
    ensures ValidDef(d) && Moves(d, At(d, 1), Wakeup.Packet(0, Rival(d), false, 0), At(d, 2))
  {
    hide Outgrows, ValidDef, ProbeFits, RenamableNaming, LongestNaming, BaseNaming, OwnAuthorities, Fixed, Launched, ProbeAccepted, ResponseAccepted, Answer, OnTimeout;
    OutgrowsFacts(d);
    RivalRenames(d, OwnAuthorities(d, BaseNaming(d)));
    assert Unprobed(d)[..2] == Unprobed(d)[..1] + [Conflicting(0)];
  }

  lemma NextAttempt(d: HostDef, k: nat)
    requires Outgrows(d) && 2 <= k <= 4
    ensures ValidDef(d) && Moves(d, At(d, k), Story(d)[k], At(d, k + 1))
  {
    hide Outgrows, ValidDef, ProbeFits, RenamableNaming, LongestNaming, BaseNaming, OwnAuthorities, Rival, Launched, ProbeAccepted, ResponseAccepted, Answer, HandleProbeResponse;
    OutgrowsFacts(d);
    var log := Unprobed(d);
    assert log[..3] == log[..2] + [log[2]] && log[..4] == log[..3] + [log[3]] && log[..5] == log[..4] + [log[4]];
  }

  lemma Announced(d: HostDef)
    requires Outgrows(d)
    ensures ValidDef(d) && Moves(d, At(d, 5), TimedOut(250, 0, []), At(d, 6))
  {
    hide Outgrows, ValidDef, ProbeFits, RenamableNaming, LongestNaming, BaseNaming, OwnAuthorities, Size, AnnounceMsg, Launched, ProbeAccepted, ResponseAccepted, Answer, HandleProbeResponse;
    OutgrowsFacts(d);
    var log := Unprobed(d);
    assert log == log[..5] + [log[5]];
  }

  function States(d: HostDef): (states: seq<State>)
    requires ValidDef(d)
    ensures |states| == 7 && forall k :: 0 <= k < 7 ==> states[k] == At(d, k)
  {
    seq(7, k requires 0 <= k < 7 => At(d, k))
  }

  /** A run of any such host: conflicts with all its names, three packets cut off
      in the middle, and the announcement. */
  lemma AnnouncesUnprobed(d: HostDef)
    requires Outgrows(d)
    ensures IsRun(d, States(d), Story(d)) && States(d)[6].log == Unprobed(d) && !SafeLog(Unprobed(d))
  {
    hide Outgrows, Unprobed, At;
    OutgrowsFacts(d);
    StartsAtLaunch(d);
    forall k | 0 <= k < 6 ensures Moves(d, States(d)[k], Story(d)[k], States(d)[k + 1]) {
      StoryMoves(d, k);
    }
    NotEarned(d);
  }

  lemma StartsAtLaunch(d: HostDef)
    requires ValidDef(d)
    ensures At(d, 0) == Start(d, 0, 0) && At(d, 6).log == Unprobed(d)
  {
  }

  lemma NotEarned(d: HostDef)
    requires ValidDef(d)
    ensures !SafeLog(Unprobed(d))
  {
    var log := Unprobed(d);
    assert log[5].Announce? && !log[4].Probe?;
    assert !Earned(log, 5);
  }

  /** Exactly when the claim protocol is safe for a host that passed the launch
      check: in every run each announcement follows three probes for its names if
      and only if the probe fits a packet with all names at their longest. */
  lemma ClaimSafetyIff(d: HostDef)
    requires Launched(d)
    ensures (forall states: seq<State>, ws: seq<Wakeup> :: IsRun(d, states, ws) ==> |states| > 0 && SafeLog(states[|states| - 1].log)) <==>
            Size(ProbeMsg(d, LongestNaming(d))) <= DATA_MAX
  {
    hide SafeLog, Size, ProbeMsg, ProbeAccepted, ResponseAccepted, ValidDef, States, Unprobed;
    if Size(ProbeMsg(d, LongestNaming(d))) <= DATA_MAX {
      forall states: seq<State>, ws: seq<Wakeup> | IsRun(d, states, ws) ensures |states| > 0 && SafeLog(states[|states| - 1].log) {
        ClaimSafety(d, states, ws, |ws|);
      }
    } else {
      AnnouncesUnprobed(d);
      assert IsRun(d, States(d), Story(d));
    }
  }

  /** Such a host exists. */
  lemma UnprobedWitness() returns (d: HostDef)
    ensures Launched(d) && IsRun(d, States(d), Story(d)) && !SafeLog(States(d)[6].log)
  {
    d := ProbeBoundWitness();
    hide Launched, ProbeMsg, Size, LongestNaming, Reachable;
    AnnouncesUnprobed(d);
  }
}
