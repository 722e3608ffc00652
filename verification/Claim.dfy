/** Claiming names (process_probe_resp and do_responder in mdns/mdns_respond.c):
    three probes, then the announcement, by section 8.1 of RFC 6762. */
module Claim {
  import opened Bytes
  import opened Names
  import opened Rename
  import opened Packet
  import opened Host
  import opened Launch
  import opened TieBreak
  import opened Conflict
  import opened OwnProbe
  import opened Clock
  import opened Respond

  datatype Phase = Initial | FirstProbeSent | SecondProbeSent | ThirdProbeSent | Ready | ReadyToSend | Halted

  /** What the network saw of us and when, and the conflicts we handled.  A probe
      that does not fit a packet is sent all the same, without its last records, or
      cut off in the middle of one. */
  datatype Event =
    | Probe(at: nat, naming: Naming)
    | Garbled(at: nat)
    | Announce(at: nat, naming: Naming)
    | Conflicting(at: nat)
    | Response(at: nat, naming: Naming, entries: seq<Entry>)
    | Goodbye(at: nat, naming: Naming)

  /** own are the authorities of the probe in the transmit buffer, queued the
      entries of the response in it; wait is the timeout of the next select, if
      any. */
  datatype State = State(
    phase: Phase, naming: Naming, own: seq<Authority>, queued: seq<Entry>, wait: Option<nat>, now: nat, log: seq<Event>)

  /** Why select came back, e milliseconds after it was called.  On some systems
      it leaves the time not slept in the timeval it was given, on others not.
      A probe that was cut off is not parsed: stale are the authorities that the
      transmit buffer then seems to hold. */
  datatype Wakeup =
    | TimedOut(e: nat, left: nat, stale: seq<Authority>)
    | Packet(e: nat, heard: Heard, fromUs: bool, random: nat)
    | Unreadable(e: nat, left: nat)
    | Halt(e: nat)

  predicate CanWake(s: State, w: Wakeup) {
    && s.phase != Halted
    && match w
       case TimedOut(e, left, stale) => s.wait.Some? && e >= s.wait.value && left <= s.wait.value && AllShaped(stale)
       case Unreadable(e, left) => s.wait.Some? ==> s.wait.value - e <= left <= s.wait.value
       case Packet(e, h, _, random) => AllShaped(h.authorities) && random <= 100
       case Halt(_) => true
  }

  const PROBE_WAIT: u32 := 250

  function Start(d: HostDef, now: nat, delay: nat): State
    requires ValidDef(d)
  {
    State(Initial, BaseNaming(d), [], [], Some(delay), now, [])
  }

  /** The wait that is left of 250 milliseconds when a packet interrupted it. */
  function Again(now: nat, e: nat): nat {
    Recalc(Shown(now), Shown(now + e), PROBE_WAIT)
  }

  /** One pass of the responder's loop. */
  function Step(d: HostDef, s: State, w: Wakeup): State
    requires ValidDef(d) && RenamableNaming(d, s.naming) && CanWake(s, w)
  {
    var now := s.now + w.e;
    match w
    case Halt(_) => OnHalt(d, s.(now := now))
    case Unreadable(_, left) => s.(now := now, wait := if s.wait.Some? then Some(left) else None)
    case TimedOut(_, left, stale) => OnTimeout(d, s.(now := now), left, stale)
    case Packet(e, h, fromUs, random) =>
      if s.phase == Initial || (Probing(s.phase) && fromUs) then s.(now := now, wait := Some(Again(s.now, e)))
      else if Probing(s.phase) then HandleProbeResponse(d, s, e, h)
      else Answer(d, if s.phase == ReadyToSend then SendQueued(s.(now := now)) else s.(now := now), h, random)
  }

  predicate ProbeFits(d: HostDef, n: Naming)
    requires ValidDef(d) && ValidNaming(d, n)
  {
    Size(ProbeMsg(d, n)) <= DATA_MAX
  }

  /** What goes out as a probe. */
  function Attempt(d: HostDef, n: Naming, now: nat): Event
    requires ValidDef(d) && ValidNaming(d, n)
  {
    if ProbeFits(d, n) then Probe(now, n) else Garbled(now)
  }

  /** The last packet takes the announced names back, if it fits. */
  function OnHalt(d: HostDef, s: State): State
    requires ValidDef(d) && RenamableNaming(d, s.naming)
  {
    if Size(AnnounceMsg(d, s.naming, 0)) > DATA_MAX then s.(phase := Halted)
    else s.(phase := Halted, log := s.log + [Goodbye(s.now, s.naming)])
  }

  function OnTimeout(d: HostDef, s: State, left: nat, stale: seq<Authority>): State
    requires ValidDef(d) && RenamableNaming(d, s.naming)
  {
    match s.phase
    case Initial =>
      s.(phase := FirstProbeSent, own := if ProbeFits(d, s.naming) then OwnAuthorities(d, s.naming) else stale,
         wait := Some(250), log := s.log + [Attempt(d, s.naming, s.now)])
    case FirstProbeSent =>
      s.(phase := SecondProbeSent, wait := Some(250), log := s.log + [Attempt(d, s.naming, s.now)])
    case SecondProbeSent =>
      s.(phase := ThirdProbeSent, wait := Some(250), log := s.log + [Attempt(d, s.naming, s.now)])
    case ThirdProbeSent =>
      if Size(AnnounceMsg(d, s.naming, 255)) > DATA_MAX then s.(wait := Some(left))
      else s.(phase := Ready, wait := None, log := s.log + [Announce(s.now, s.naming)])
    case Ready => s
    case ReadyToSend => SendQueued(s)
    case Halted => s
  }

  function SendQueued(s: State): State {
    s.(phase := Ready, wait := None, log := s.log + [Response(s.now, s.naming, s.queued)], queued := [])
  }

  /** Send an answer about ourselves at once, and one about services after 20 to
      120 milliseconds. */
  function Answer(d: HostDef, s: State, h: Heard, random: nat): State
    requires ValidDef(d) && RenamableNaming(d, s.naming)
  {
    var qs := AsQuestions(h.questions);
    var es := Answering(d, s.naming, qs, |qs|);
    AnsweringExtends(d, s.naming, qs, 0, |qs|);
    if !h.isQuery || es == [] || Size(AnswerMsg(d, s.naming, 0, es)) > DATA_MAX then s
    else if Delays(es) then s.(phase := ReadyToSend, queued := es, wait := Some(20 + random))
    else s.(log := s.log + [Response(s.now, s.naming, es)])
  }

  function AsQuestions(qs: seq<HeardQuestion>): (r: seq<Question>)
    ensures |r| == |qs|
  {
    seq(|qs|, k requires 0 <= k < |qs| => Question(qs[k].name, qs[k].qtype, C_IN))
  }

  predicate Probing(p: Phase) {
    p == FirstProbeSent || p == SecondProbeSent || p == ThirdProbeSent
  }

  /** Start over after a conflict, at once or in five seconds. */
  function HandleProbeResponse(d: HostDef, s: State, e: nat, h: Heard): State
    requires ValidDef(d) && RenamableNaming(d, s.naming)
  {
    var v := Fixed(d, s.own, s.naming, h);
    var now := s.now + e;
    if v.ret == 1 then
      s.(phase := Initial, naming := v.naming, wait := Some(0), now := now, log := s.log + [Conflicting(now)])
    else if v.ret == -1 then
      s.(phase := Initial, naming := v.naming, wait := Some(5000), now := now, log := s.log + [Conflicting(now)])
    else s.(naming := v.naming, wait := Some(Again(s.now, e)), now := now)
  }

  // ----- what holds in every run -----

  /** The entries of log before position k end in m probes for the naming, each
      at least 250 milliseconds after the one before. */
  predicate EndsInProbes(log: seq<Event>, k: nat, m: nat, n: Naming) {
    && m <= k <= |log|
    && (forall i :: k - m <= i < k ==> log[i].Probe? && log[i].naming == n)
    && (forall i :: k - m <= i < k - 1 ==> log[i].at + 250 <= log[i + 1].at)
  }

  /** Likewise for attempts, which are probes exactly if probes for the naming fit
      a packet. */
  predicate EndsInAttempts(d: HostDef, log: seq<Event>, k: nat, m: nat, n: Naming)
    requires ValidDef(d) && ValidNaming(d, n)
  {
    && m <= k <= |log|
    && (forall i :: k - m <= i < k ==> log[i] == Attempt(d, n, log[i].at))
    && (forall i :: k - m <= i < k - 1 ==> log[i].at + 250 <= log[i + 1].at)
  }

  /** An announcement comes right after three probes for the same names, 250
      milliseconds or more after the last; nothing, in particular no conflict,
      came between them. */
  predicate Earned(log: seq<Event>, k: nat)
    requires k < |log| && log[k].Announce?
  {
    EndsInProbes(log, k, 3, log[k].naming) && log[k - 1].at + 250 <= log[k].at
  }

  /** Likewise after three attempts, for names that conflicts can lead to. */
  ghost predicate Tried(d: HostDef, log: seq<Event>, k: nat)
    requires ValidDef(d) && k < |log| && log[k].Announce?
  {
    && Reachable(d, log[k].naming)
    && EndsInAttempts(d, log, k, 3, log[k].naming) && log[k - 1].at + 250 <= log[k].at
  }

  /** From some announcement of the naming on, the log has only responses under
      it. */
  predicate Owning(log: seq<Event>, k: nat, n: Naming) {
    k <= |log| &&
    exists j :: 0 <= j < k && log[j].Announce? && log[j].naming == n &&
                forall i :: j < i < k ==> log[i].Response? && log[i].naming == n
  }

  predicate Responds(log: seq<Event>, k: nat)
    requires k < |log|
  {
    log[k].Response? ==> log[k].entries != [] && Owning(log, k, log[k].naming)
  }

  predicate SafeLog(log: seq<Event>) {
    forall k :: 0 <= k < |log| ==> Responds(log, k) && (log[k].Announce? ==> Earned(log, k))
  }

  ghost predicate TriedEntry(d: HostDef, log: seq<Event>, k: nat)
    requires ValidDef(d) && k < |log|
  {
    Responds(log, k) && (log[k].Announce? ==> Tried(d, log, k))
  }

  ghost predicate TriedLog(d: HostDef, log: seq<Event>)
    requires ValidDef(d)
  {
    forall k {:trigger TriedEntry(d, log, k)} :: 0 <= k < |log| ==> TriedEntry(d, log, k)
  }

  function ProbesSent(p: Phase): nat {
    match p case FirstProbeSent => 1 case SecondProbeSent => 2 case ThirdProbeSent => 3 case _ => 0
  }

  ghost predicate Inv(d: HostDef, s: State)
    requires ValidDef(d)
  {
    && DerivedNaming(d, s.naming) && AllShaped(s.own) && TriedLog(d, s.log)
    && (s.phase == Initial ==> s.wait.Some?)
    && (Probing(s.phase) ==>
          && (ProbeFits(d, s.naming) ==> s.own == OwnAuthorities(d, s.naming)) && s.wait.Some?
          && EndsInAttempts(d, s.log, |s.log|, ProbesSent(s.phase), s.naming)
          && s.log[|s.log| - 1].at <= s.now && s.log[|s.log| - 1].at + 250 <= s.now + s.wait.value)
    && (s.phase == Ready || s.phase == ReadyToSend ==> Owning(s.log, |s.log|, s.naming))
    && (s.phase == ReadyToSend ==> s.queued != [])
  }

  lemma StartInv(d: HostDef, now: nat, delay: nat)
    requires ValidDef(d)
    ensures Inv(d, Start(d, now, delay))
  {
    LongestReachable(d);
    assert forall i :: 0 <= i < |d.services| ==> ValidService(d.services[i]);
  }

  lemma OwningStays(log: seq<Event>, e: Event, k: nat, n: Naming)
    requires k <= |log| && Owning(log, k, n)
    ensures Owning(log + [e], k, n)
  {
    var log' := log + [e];
    var j :| 0 <= j < k && log[j].Announce? && log[j].naming == n &&
             forall i :: j < i < k ==> log[i].Response? && log[i].naming == n;
    assert log'[j].Announce? && forall i :: 0 <= i < |log| ==> log'[i] == log[i];
  }

  lemma AttemptsStay(d: HostDef, log: seq<Event>, e: Event, k: nat, m: nat, n: Naming)
    requires ValidDef(d) && ValidNaming(d, n) && k <= |log| && EndsInAttempts(d, log, k, m, n)
    ensures EndsInAttempts(d, log + [e], k, m, n) && m <= k
    ensures k > 0 ==> (log + [e])[k - 1] == log[k - 1]
  {
    hide Attempt;
    assert forall i :: 0 <= i < |log| ==> (log + [e])[i] == log[i];
  }

  lemma TriedAppend(d: HostDef, log: seq<Event>, e: Event)
    requires ValidDef(d) && TriedLog(d, log) && TriedEntry(d, log + [e], |log|)
    ensures TriedLog(d, log + [e])
  {
    hide Attempt, EndsInAttempts, Owning, Reachable, ValidDef;
    var log' := log + [e];
    forall k {:trigger TriedEntry(d, log', k)} | 0 <= k < |log'| ensures TriedEntry(d, log', k) {
      if k < |log| {
        assert TriedEntry(d, log, k) && log'[k] == log[k];
        if log[k].Announce? {
          ReachableValid(d, log[k].naming);
          AttemptsStay(d, log, e, k, 3, log[k].naming);
        } else if log[k].Response? {
          OwningStays(log, e, k, log[k].naming);
        }
      }
    }
  }

  lemma ReachableValid(d: HostDef, n: Naming)
    requires ValidDef(d) && Reachable(d, n)
    ensures ValidNaming(d, n)
  {
  }

  lemma AttemptAgain(d: HostDef, log: seq<Event>, m: nat, n: Naming, now: nat)
    requires ValidDef(d) && ValidNaming(d, n) && TriedLog(d, log)
    requires EndsInAttempts(d, log, |log|, m, n) && (m > 0 ==> log[|log| - 1].at + 250 <= now)
    ensures var log' := log + [Attempt(d, n, now)];
            TriedLog(d, log') && EndsInAttempts(d, log', |log| + 1, m + 1, n) && log'[|log|].at == now
  {
    hide TriedLog, ProbeFits, ValidDef, ValidNaming;
    var e := Attempt(d, n, now);
    var log' := log + [e];
    assert forall i :: 0 <= i < |log| ==> log'[i] == log[i];
    assert TriedEntry(d, log', |log|);
    TriedAppend(d, log, e);
  }

  lemma AnnounceNow(d: HostDef, log: seq<Event>, n: Naming, now: nat)
    requires ValidDef(d) && Reachable(d, n) && TriedLog(d, log)
    requires EndsInAttempts(d, log, |log|, 3, n) && log[|log| - 1].at + 250 <= now
    ensures TriedLog(d, log + [Announce(now, n)]) && Owning(log + [Announce(now, n)], |log| + 1, n)
  {
    ReachableValid(d, n);
    hide TriedLog, Reachable, EndsInAttempts, ValidDef, Attempt;
    var log' := log + [Announce(now, n)];
    AttemptsStay(d, log, Announce(now, n), |log|, 3, n);
    EnoughEntries(d, log, 3, n);
    assert log'[|log|].Announce? && log'[|log| - 1] == log[|log| - 1];
    assert TriedEntry(d, log', |log|);
    TriedAppend(d, log, Announce(now, n));
  }

  lemma EnoughEntries(d: HostDef, log: seq<Event>, m: nat, n: Naming)
    requires ValidDef(d) && ValidNaming(d, n) && EndsInAttempts(d, log, |log|, m, n)
    ensures |log| >= m
  {
  }

  lemma RespondNow(d: HostDef, log: seq<Event>, n: Naming, now: nat, es: seq<Entry>)
    requires ValidDef(d) && TriedLog(d, log) && Owning(log, |log|, n) && es != []
    ensures TriedLog(d, log + [Response(now, n, es)]) && Owning(log + [Response(now, n, es)], |log| + 1, n)
  {
    hide TriedLog, ValidDef;
    var log' := log + [Response(now, n, es)];
    OwningStays(log, Response(now, n, es), |log|, n);
    assert TriedEntry(d, log', |log|);
    TriedAppend(d, log, Response(now, n, es));
    var j :| 0 <= j < |log| && log[j].Announce? && log[j].naming == n &&
             forall i :: j < i < |log| ==> log[i].Response? && log[i].naming == n;
    assert log'[j].Announce? && forall i :: j < i < |log| ==> log'[i] == log[i];
  }

  lemma OtherNow(d: HostDef, log: seq<Event>, e: Event)
    requires ValidDef(d) && TriedLog(d, log) && !e.Announce? && !e.Response?
    ensures TriedLog(d, log + [e])
  {
    hide TriedLog, ValidDef;
    assert TriedEntry(d, log + [e], |log|);
    TriedAppend(d, log, e);
  }

  lemma TimeoutKeepsInv(d: HostDef, s: State, e: nat, left: nat, stale: seq<Authority>)
    requires ValidDef(d) && Inv(d, s) && CanWake(s, TimedOut(e, left, stale))
    ensures RenamableNaming(d, s.naming) && Inv(d, OnTimeout(d, s.(now := s.now + e), left, stale))
  {
    hide DerivedNaming, TriedLog, EndsInAttempts, Owning, OwnAuthorities, AllShaped, ProbeFits, Size, ValidDef, AnnounceMsg,
         Attempt, Reachable, RenamableNaming, ValidNaming;
    DerivedReachable(d, s.naming);
    var now := s.now + e;
    match s.phase
    case Initial =>
      NoAttempts(d, s.log, s.naming);
      AttemptAgain(d, s.log, 0, s.naming, now);
    case FirstProbeSent => AttemptAgain(d, s.log, 1, s.naming, now);
    case SecondProbeSent => AttemptAgain(d, s.log, 2, s.naming, now);
    case ThirdProbeSent => AnnounceNow(d, s.log, s.naming, now);
    case Ready =>
    case ReadyToSend => RespondNow(d, s.log, s.naming, now, s.queued);
    case Halted =>
  }

  lemma DerivedReachable(d: HostDef, n: Naming)
    requires ValidDef(d) && DerivedNaming(d, n)
    ensures RenamableNaming(d, n) && Reachable(d, n) && ValidNaming(d, n)
  {
  }

  lemma NoAttempts(d: HostDef, log: seq<Event>, n: Naming)
    requires ValidDef(d) && ValidNaming(d, n)
    ensures EndsInAttempts(d, log, |log|, 0, n)
  {
  }

  /** In a probe phase a message starts the claim over exactly when it conflicts
      with the names being claimed; otherwise names and probes stay. */
  lemma ConflictRestarts(d: HostDef, s: State, e: nat, h: Heard)
    requires ValidDef(d) && RenamableNaming(d, s.naming) && Probing(s.phase)
    ensures var s' := HandleProbeResponse(d, s, e, h);
            && (Conflicts(d, s.own, s.naming, h) <==> s'.phase == Initial)
            && (Conflicts(d, s.own, s.naming, h) ==> s'.log == s.log + [Conflicting(s.now + e)])
            && (!Conflicts(d, s.own, s.naming, h) ==> s'.naming == s.naming && s'.log == s.log && s'.phase == s.phase)
  {
    hide Conflicts, Fixed, ValidDef, RenamableNaming;
    FixedIffConflicts(d, s.own, s.naming, h);
  }

  lemma AnswerKeepsInv(d: HostDef, s: State, h: Heard, random: nat)
    requires ValidDef(d) && Inv(d, s) && RenamableNaming(d, s.naming) && s.phase == Ready
    ensures Inv(d, Answer(d, s, h, random))
  {
    hide DerivedNaming, TriedLog, Owning, AllShaped, Size, ValidDef, AnswerMsg, Answering, Delays;
    var qs := AsQuestions(h.questions);
    var es := Answering(d, s.naming, qs, |qs|);
    if es != [] {
      RespondNow(d, s.log, s.naming, s.now, es);
    }
  }

  lemma ProbeResponseKeepsInv(d: HostDef, s: State, e: nat, h: Heard)
    requires ValidDef(d) && Inv(d, s) && RenamableNaming(d, s.naming) && Probing(s.phase)
    ensures Inv(d, HandleProbeResponse(d, s, e, h))
  {
    hide DerivedNaming, TriedLog, AllShaped, ValidDef, Fixed, OwnAuthorities, RenamableNaming, Conflicts, ProbeFits,
         EndsInAttempts;
    FixedIffConflicts(d, s.own, s.naming, h);
    FixedReachable(d, s.own, s.naming, h);
    RecalcEnough(s.now, e, PROBE_WAIT);
    OtherNow(d, s.log, Conflicting(s.now + e));
  }

  lemma PacketKeepsInv(d: HostDef, s: State, e: nat, h: Heard, fromUs: bool, random: nat)
    requires ValidDef(d) && Inv(d, s) && RenamableNaming(d, s.naming) && CanWake(s, Packet(e, h, fromUs, random))
    ensures Inv(d, Step(d, s, Packet(e, h, fromUs, random)))
  {
    hide DerivedNaming, TriedLog, AllShaped, ValidDef, OwnAuthorities, RenamableNaming, Owning, EndsInAttempts,
         HandleProbeResponse, Answer, ProbeFits;
    RecalcEnough(s.now, e, PROBE_WAIT);
    if Probing(s.phase) && !fromUs {
      ProbeResponseKeepsInv(d, s, e, h);
    } else if s.phase == Ready {
      AnswerKeepsInv(d, s.(now := s.now + e), h, random);
    } else if s.phase == ReadyToSend {
      RespondNow(d, s.log, s.naming, s.now + e, s.queued);
      AnswerKeepsInv(d, SendQueued(s.(now := s.now + e)), h, random);
    }
  }

  /** Every pass of the loop keeps the invariant. */
  lemma StepKeepsInv(d: HostDef, s: State, w: Wakeup)
    requires ValidDef(d) && Inv(d, s) && CanWake(s, w)
    ensures RenamableNaming(d, s.naming) && Inv(d, Step(d, s, w))
  {
    hide Inv, OnTimeout, OnHalt, HandleProbeResponse, Answer, RenamableNaming, ValidDef;
    InvRenamable(d, s);
    match w
    case TimedOut(e, left, stale) => TimeoutKeepsInv(d, s, e, left, stale);
    case Packet(e, h, fromUs, random) => PacketKeepsInv(d, s, e, h, fromUs, random);
    case Unreadable(e, left) => QuietKeepsInv(d, s, w);
    case Halt(e) => QuietKeepsInv(d, s, w);
  }

  lemma InvRenamable(d: HostDef, s: State)
    requires ValidDef(d) && Inv(d, s)
    ensures RenamableNaming(d, s.naming)
  {
    RenamableWhenDerived(d, s.naming);
  }

  lemma QuietKeepsInv(d: HostDef, s: State, w: Wakeup)
    requires ValidDef(d) && Inv(d, s) && RenamableNaming(d, s.naming) && CanWake(s, w) && (w.Unreadable? || w.Halt?)
    ensures Inv(d, Step(d, s, w))
  {
    hide DerivedNaming, TriedLog, AllShaped, ValidDef, OwnAuthorities, RenamableNaming, Owning, EndsInAttempts, ProbeFits,
         Size, AnnounceMsg;
    OtherNow(d, s.log, Goodbye(s.now + w.e, s.naming));
  }

  /** A run from launch: the states passed through and what woke the responder. */
  ghost predicate IsRun(d: HostDef, states: seq<State>, ws: seq<Wakeup>)
    requires ValidDef(d)
  {
    && |states| == |ws| + 1
    && (exists now, delay :: states[0] == Start(d, now, delay))
    && forall i :: 0 <= i < |ws| ==> Moves(d, states[i], ws[i], states[i + 1])
  }

  ghost predicate Moves(d: HostDef, s: State, w: Wakeup, s': State)
    requires ValidDef(d)
  {
    RenamableNaming(d, s.naming) && CanWake(s, w) && s' == Step(d, s, w)
  }

  lemma {:induction false} RunInv(d: HostDef, states: seq<State>, ws: seq<Wakeup>, k: nat)
    requires ValidDef(d) && IsRun(d, states, ws) && k <= |ws|
    ensures Inv(d, states[k])
  {
    hide Inv, ValidDef, Step, CanWake, RenamableNaming, Start;
    if k == 0 {
      var now, delay :| states[0] == Start(d, now, delay);
      StartInv(d, now, delay);
    } else {
      RunInv(d, states, ws, k - 1);
      assert Moves(d, states[k - 1], ws[k - 1], states[k - 1 + 1]);
      StepKeepsInv(d, states[k - 1], ws[k - 1]);
    }
  }

  /** In every run and at every moment: each announcement follows three attempts
      to probe for exactly the announced names, each at least 250 milliseconds
      before the next and the last as long before the announcement, with no conflict
      handled in between; responses are given only under names so announced; and the
      names are among those that conflicts can lead to. */
  lemma ClaimAttempts(d: HostDef, states: seq<State>, ws: seq<Wakeup>, k: nat)
    requires ValidDef(d) && IsRun(d, states, ws) && k <= |ws|
    ensures Reachable(d, states[k].naming) && TriedLog(d, states[k].log)
  {
    RunInv(d, states, ws, k);
  }

  /** Claim safety: if the probe fits a packet with all names at their longest,
      every announcement in every run follows three probes for exactly its names. */
  lemma ClaimSafety(d: HostDef, states: seq<State>, ws: seq<Wakeup>, k: nat)
    requires ValidDef(d) && IsRun(d, states, ws) && k <= |ws|
    requires Size(ProbeMsg(d, LongestNaming(d))) <= DATA_MAX
    ensures Reachable(d, states[k].naming) && SafeLog(states[k].log)
  {
    hide Reachable, TriedEntry, EndsInProbes, Size, ProbeMsg, ValidDef, Moves, Owning;
    ClaimAttempts(d, states, ws, k);
    ProbesFitIff(d);
    var log := states[k].log;
    forall j | 0 <= j < |log| ensures Responds(log, j) && (log[j].Announce? ==> Earned(log, j)) {
      assert TriedEntry(d, log, j);
      AttemptsAreProbes(d, log, j);
    }
  }

  /** Attempts for names whose probe fits are probes. */
  lemma AttemptsAreProbes(d: HostDef, log: seq<Event>, j: nat)
    requires ValidDef(d) && j < |log| && TriedEntry(d, log, j)
    requires log[j].Announce? && Reachable(d, log[j].naming) ==> Size(ProbeMsg(d, log[j].naming)) <= DATA_MAX
    ensures Responds(log, j) && (log[j].Announce? ==> Earned(log, j))
  {
    hide Reachable, Size, ProbeMsg, ValidDef, Owning;
  }

  /** After a successful launch the announcement never gets stuck: in the third
      probe phase a timeout leads to it. */
  lemma LaunchedHostsClaim(d: HostDef, s: State, e: nat, left: nat, stale: seq<Authority>)
    requires ValidDef(d) && ResponseAccepted(d) && Inv(d, s)
    requires s.phase == ThirdProbeSent && CanWake(s, TimedOut(e, left, stale))
    ensures RenamableNaming(d, s.naming)
    ensures var s' := Step(d, s, TimedOut(e, left, stale));
            s'.phase == Ready && s'.log == s.log + [Announce(s.now + e, s.naming)]
  {
    hide ResponseAccepted, Size, AnnounceMsg, ValidDef, RenamableNaming, ValidNaming, DerivedNaming, Reachable, TriedLog,
         EndsInAttempts, AllShaped, OwnAuthorities, ProbeFits;
    DerivedReachable(d, s.naming);
    LaunchCoversAnnouncements(d, s.naming, 255);
  }

  // ----- the responder's memory -----

  /** The mutable part of the responder: the first labels of its names, for each
      service the offset at which its type begins in the name buffer (ptrname),
      and the marks that keep a service from being compared twice. */
  class Responder {
    const d: HostDef
    var host: Label
    var servs: seq<Label>
    var ptrs: seq<nat>
    var checked: seq<bool>

    // the locals of do_responder, and the records of its transmit buffer
    var phase: Phase
    var wait: Option<nat>
    var own: seq<Authority>
    var queued: seq<Entry>
    ghost var now: nat
    ghost var log: seq<Event>

    ghost function View(): State
      reads this
    {
      State(phase, Naming(host, servs), own, queued, wait, now, log)
    }

    ghost predicate Valid()
      reads this
    {
      && ValidDef(d) && DerivedNaming(d, Naming(host, servs)) && |checked| == |ptrs| == |d.services|
      && forall i :: 0 <= i < |d.services| ==> ptrs[i] == |servs[i]| + 1
    }

    constructor (d: HostDef, ghost t: nat, delay: nat)
      requires Launched(d)
      ensures Valid() && this.d == d && View() == Start(d, t, delay)
    {
      hide ProbeAccepted, ResponseAccepted, TriedLog, Reachable, ValidService;
      this.d := d;
      phase, wait, own, queued := Initial, Some(delay), [], [];
      now, log := t, [];
      host := d.hostname;
      servs := BaseNaming(d).services;
      ptrs := seq(|d.services|, i requires 0 <= i < |d.services| => |d.services[i].servname| + 1);
      checked := seq(|d.services|, _ => false);
      new;
      StartInv(d, 0, 0);
    }

    method RenameHost(ret: Ret) returns (ret': Ret)
      requires Valid()
      modifies this`host
      ensures Valid() && Verdict(Naming(host, servs), ret') == HitHost(d, Verdict(Naming(old(host), servs), ret))
    {
      HitHostReachable(d, Verdict(Naming(host, servs), ret));
      ret' := if ret == 0 then 1 else ret;
      var next := Next(host);
      if next == None {
        host := d.hostname;
        ret' := -1;
      } else {
        host := next.value;
      }
    }

    /** Rename service i; when its name grew, its type moves by two octets. */
    method RenameService(i: nat, ret: Ret) returns (ret': Ret)
      requires Valid() && i < |d.services|
      modifies this`servs, this`ptrs
      ensures Valid()
      ensures Verdict(Naming(host, servs), ret') == HitService(d, Verdict(Naming(host, old(servs)), ret), i)
    {
      hide Encode, ValidName, Next;
      ghost var n := Naming(host, servs);
      HitServiceReachable(d, Verdict(n, ret), i);
      RenamableWhenDerived(d, n);
      assert ValidService(d.services[i]);
      DerivedLength(d.services[i].servname, servs[i]);
      GrowsByTwo(d.services[i].servname, servs[i]);
      ret' := if ret == 0 then 1 else ret;
      var buf := Encode(Fqsn(d, Naming(host, servs), i));
      var size := NameSize(buf, 0);
      EncodedSize(buf, 0, Fqsn(d, Naming(host, servs), i));
      var next := Next(servs[i]);
      if next == None {
        servs := servs[i := d.services[i].servname];
        ptrs := ptrs[i := |d.services[i].servname| + 1];
        ret' := -1;
      } else {
        servs := servs[i := next.value];
      }
      var buf' := Encode(Fqsn(d, Naming(host, servs), i));
      var size' := NameSize(buf', 0);
      EncodedSize(buf', 0, Fqsn(d, Naming(host, servs), i));
      if size'.value > size.value {
        ptrs := ptrs[i := ptrs[i] + 2];
      }
    }

    /** The services against one question. */
    method CheckServices(own: seq<Authority>, h: Heard, q: HeardQuestion, ret: Ret) returns (ret': Ret)
      requires Valid() && AllShaped(own) && AllShaped(h.authorities) && RenamableNaming(d, Naming(host, servs))
      modifies this`servs, this`ptrs, this`checked
      ensures Valid()
      ensures Checking(Verdict(Naming(host, servs), ret'), checked) ==
              Conflict.ServiceQuestions(d, own, h, q, old(Checking(Verdict(Naming(host, servs), ret), checked)), |d.services|)
    {
      hide DerivedNaming, ValidDef, AllShaped, HitService, Fqsn, SetCmp, From, RenamableNaming;
      ghost var c := Checking(Verdict(Naming(host, servs), ret), checked);
      ret' := ret;
      for i := 0 to |d.services|
        invariant Valid()
        invariant Checking(Verdict(Naming(host, servs), ret'), checked) == Conflict.ServiceQuestions(d, own, h, q, c, i)
      {
        ValidRenamable();
        if checked[i] { continue; }
        if q.name == Fqsn(d, Naming(host, servs), i) {
          var cmp := CompareAuthorities(h.authorities, own, q.name);
          if cmp == 1 { ret' := RenameService(i, ret'); }
          checked := checked[i := true];
        }
      }
    }

    /** A probe from somebody else. */
    method FixProbe(own: seq<Authority>, h: Heard) returns (ret: Ret)
      requires Valid() && IsProbe(h) && AllShaped(own) && AllShaped(h.authorities)
      modifies this`host, this`servs, this`ptrs, this`checked
      ensures Valid() && Verdict(Naming(host, servs), ret) == Fixed(d, own, old(Naming(host, servs)), h)
    {
      hide DerivedNaming, ValidDef, AllShaped, HitHost, Fqdn, SetCmp, From, RenamableNaming, Conflict.ServiceQuestions;
      ValidRenamable();
      ghost var n := Naming(host, servs);
      checked := seq(|d.services|, _ => false);
      ghost var start := Checking(Verdict(n, 0), checked);
      ret := 0;
      for k := 0 to |h.questions|
        invariant Valid() && RenamableNaming(d, n)
        invariant Checking(Verdict(Naming(host, servs), ret), checked) == Questioned(d, own, h, start, k)
      {
        var q := h.questions[k];
        if q.qtype == T_PTR { continue; }
        ValidRenamable();
        if q.name == Fqdn(d, Naming(host, servs)) {
          var cmp := CompareAuthorities(h.authorities, own, q.name);
          if cmp == 1 { ret := RenameHost(ret); }
        }
        ValidRenamable();
        ret := CheckServices(own, h, q, ret);
      }
    }

    /** A response, or anything else. */
    method FixAnswers(h: Heard) returns (ret: Ret)
      requires Valid() && !IsProbe(h)
      modifies this`host, this`servs, this`ptrs
      ensures Valid() && Verdict(Naming(host, servs), ret) == Fixed(d, [], old(Naming(host, servs)), h)
    {
      hide DerivedNaming, ValidDef, HitHost, HitService, Fqdn, Fqsn;
      ValidRenamable();
      ghost var n := Naming(host, servs);
      ret := 0;
      for k := 0 to |h.answers|
        invariant Valid() && RenamableNaming(d, n)
        invariant Verdict(Naming(host, servs), ret) == Answered(d, h, Verdict(n, 0), k)
      {
        var a := h.answers[k];
        ValidRenamable();
        if a.rtype == T_A && a.name == Fqdn(d, Naming(host, servs)) {
          ret := RenameHost(ret);
        }
        ghost var v := Verdict(Naming(host, servs), ret);
        ValidRenamable();
        for i := 0 to |d.services|
          invariant Valid() && RenamableNaming(d, v.naming)
          invariant Verdict(Naming(host, servs), ret) == ServiceAnswers(d, a, v, i)
        {
          ValidRenamable();
          if a.rtype == T_SRV && a.name == Fqsn(d, Naming(host, servs), i) {
            ret := RenameService(i, ret);
          }
        }
      }
    }

    lemma ValidRenamable()
      requires Valid()
      ensures ValidDef(d) && RenamableNaming(d, Naming(host, servs)) && ValidNaming(d, Naming(host, servs))
      ensures |checked| == |d.services|
    {
      RenamableWhenDerived(d, Naming(host, servs));
    }

    /** One pass of do_responder after select came back; start and stop are what
        the clock showed around it. */
    method Pass(w: Wakeup, start: u32, stop: u32, tx: Message)
      requires Valid() && CanWake(View(), w) && AllShaped(own) && Launched(d) && tx.Valid()
      requires start == Shown(now) && stop == Shown(now + w.e)
      modifies this, tx, tx.data
      ensures Valid() && View() == Step(d, old(View()), w) && tx.Valid()
    {
      hide DerivedNaming, ValidDef, RenamableNaming, AllShaped, OnTimeout, OnHalt, Answer, HandleProbeResponse, Again, Launched, ProbeFits,
           ProbeMsg, AnnounceMsg, Wire;
      ValidRenamable();
      match w {
        case Halt(e) =>
          now := now + e;
          SayGoodbye(tx);
        case Unreadable(e, left) =>
          now := now + e;
          if wait.Some? { wait := Some(left); }
        case TimedOut(e, left, stale) =>
          now := now + e;
          OnTimer(left, stale, tx);
        case Packet(e, h, fromUs, random) =>
          OnPacket(h, fromUs, random, start, stop, e, tx);
      }
    }

    method OnPacket(h: Heard, fromUs: bool, random: nat, start: u32, stop: u32, ghost e: nat, tx: Message)
      requires Valid() && CanWake(View(), Packet(e, h, fromUs, random)) && AllShaped(own) && tx.Valid()
      requires start == Shown(now) && stop == Shown(now + e)
      requires RenamableNaming(d, Naming(host, servs))
      modifies this, tx, tx.data
      ensures tx.Valid()
      ensures Valid() && View() == Step(d, old(View()), Packet(e, h, fromUs, random))
    {
      hide DerivedNaming, ValidDef, RenamableNaming, AllShaped, Recalc, OnTimeout, Answer, HandleProbeResponse;
      if phase == Initial || (Probing(phase) && fromUs) {
        now, wait := now + e, Some(Recalc(start, stop, PROBE_WAIT));
      } else if Probing(phase) {
        ProcessProbeResponse(h, start, stop, e);
      } else {
        now := now + e;
        if phase == ReadyToSend {
          Flush();
        }
        Reply(h, random, tx);
      }
    }

    /** Send the queued response. */
    method Flush()
      requires Valid()
      modifies this`phase, this`wait, this`log, this`queued
      ensures Valid() && View() == SendQueued(old(View()))
    {
      log := log + [Response(now, Naming(host, servs), queued)];
      wait, phase, queued := None, Ready, [];
    }

    /** process_probe_resp. */
    method ProcessProbeResponse(h: Heard, start: u32, stop: u32, ghost e: nat)
      requires Valid() && AllShaped(own) && AllShaped(h.authorities)
      requires start == Shown(now) && stop == Shown(now + e)
      requires RenamableNaming(d, Naming(host, servs))
      modifies this
      ensures Valid() && View() == HandleProbeResponse(d, old(View()), e, h)
    {
      hide DerivedNaming, ValidDef, RenamableNaming, AllShaped, Recalc, Fixed;
      var ret := FixConflicts(own, h);
      now := now + e;
      if ret == 1 {
        wait, phase, log := Some(0), Initial, log + [Conflicting(now)];
      } else if ret == -1 {
        wait, phase, log := Some(5000), Initial, log + [Conflicting(now)];
      } else {
        wait := Some(Recalc(start, stop, PROBE_WAIT));
      }
    }

    /** Take the names back and stop. */
    method SayGoodbye(tx: Message)
      requires Valid() && tx.Valid()
      modifies this`phase, this`log, tx, tx.data
      ensures Valid() && RenamableNaming(d, Naming(host, servs)) && tx.Valid()
      ensures View() == OnHalt(d, old(View()))
      ensures log != old(log) ==> tx.Holds() && tx.msg == AnnounceMsg(d, Naming(host, servs), 0)
    {
      hide DerivedNaming, ValidDef, Size, AnnounceMsg, RenamableNaming, Wire;
      ValidRenamable();
      var n := Naming(host, servs);
      var ok := PrepareAnnouncement(tx, d, n, 0);
      if ok {
        log := log + [Goodbye(now, n)];
      }
      phase := Halted;
    }

    /** The first probe is prepared and sent whether or not that succeeded; the
        second and the third are the same packet. */
    method OnTimer(left: nat, stale: seq<Authority>, tx: Message)
      requires Valid() && Launched(d) && tx.Valid()
      modifies this`phase, this`own, this`wait, this`log, this`queued, tx, tx.data
      ensures Valid() && RenamableNaming(d, Naming(host, servs)) && tx.Valid()
      ensures View() == OnTimeout(d, old(View()), left, stale)
      ensures var n := Naming(host, servs);
              && (old(phase) == Initial && ProbeFits(d, n) ==> tx.Holds() && tx.msg == ProbeMsg(d, n))
              && (old(phase) == ThirdProbeSent && phase == Ready ==> tx.Holds() && tx.msg == AnnounceMsg(d, n, 255))
    {
      hide DerivedNaming, ValidDef, Size, AnnounceMsg, ProbeMsg, OwnAuthorities, RenamableNaming, Launched, Wire;
      ValidRenamable();
      var n := Naming(host, servs);
      match phase {
        case Initial =>
          var ok, parsed := FirstProbe(tx, d, n);
          own := if ok then parsed else stale;
          phase, wait, log := FirstProbeSent, Some(250), log + [Attempt(d, n, now)];
        case FirstProbeSent =>
          phase, wait, log := SecondProbeSent, Some(250), log + [Attempt(d, n, now)];
        case SecondProbeSent =>
          phase, wait, log := ThirdProbeSent, Some(250), log + [Attempt(d, n, now)];
        case ThirdProbeSent =>
          var ok := PrepareAnnouncement(tx, d, n, 255);
          if !ok {
            wait := Some(left);
          } else {
            phase, wait, log := Ready, None, log + [Announce(now, n)];
          }
        case ReadyToSend =>
          Flush();
        case _ =>
      }
    }

    /** Answer a query now or queue the answer. */
    method Reply(h: Heard, random: nat, tx: Message)
      requires Valid() && tx.Valid()
      modifies this`phase, this`wait, this`log, this`queued, tx, tx.data
      ensures Valid() && RenamableNaming(d, Naming(host, servs)) && tx.Valid()
      ensures View() == Answer(d, old(View()), h, random)
      ensures log != old(log) || (phase == ReadyToSend && old(phase) != ReadyToSend) ==>
                var n, qs := Naming(host, servs), AsQuestions(h.questions);
                var es := Answering(d, n, qs, |qs|);
                HasEntries(d, es) && tx.Holds() && tx.msg == AnswerMsg(d, n, 0, es)
    {
      hide DerivedNaming, ValidDef, Size, AnswerMsg, Answering, Sends, Delays, RenamableNaming, HasEntries, Wire;
      ValidRenamable();
      var n, qs := Naming(host, servs), AsQuestions(h.questions);
      AnsweringExtends(d, n, qs, 0, |qs|);
      ghost var was := log;
      var es := Answering(d, n, qs, |qs|);
      var r := PrepareResponse(tx, d, n, 0, h.isQuery, qs);
      SendsOrNot(es);
      if r == Failed || (!r.send && !r.delay) { return; }
      if r.delay {
        phase, queued, wait := ReadyToSend, es, Some(20 + random);
      } else {
        log := log + [Response(now, n, es)];
        assert |log| > |was|;
      }
    }

    /** fix_response_conflicts. */
    method FixConflicts(own: seq<Authority>, h: Heard) returns (ret: Ret)
      requires Valid() && AllShaped(own) && AllShaped(h.authorities)
      modifies this`host, this`servs, this`ptrs, this`checked
      ensures Valid() && Verdict(Naming(host, servs), ret) == Fixed(d, own, old(Naming(host, servs)), h)
    {
      if IsProbe(h) {
        ret := FixProbe(own, h);
      } else {
        ret := FixAnswers(h);
      }
    }
  }

  /** The offset kept for a service is where its type begins. */
  lemma TypeOffset(d: HostDef, n: Naming, i: nat)
    requires ValidDef(d) && ValidNaming(d, n) && i < |d.services|
    ensures var b := Encode(Fqsn(d, n, i));
            NameAt(b, |n.services[i]| + 1) && LabelsAt(b, |n.services[i]| + 1) == PtrName(d, i)
  {
    hide Encode;
    var name := Fqsn(d, n, i);
    var b := Encode(name);
    assert b[0..|b|] == b;
    EncodedAt(b, 0, name);
    assert name[1..] == PtrName(d, i);
    EncodedNameAt(b, |n.services[i]| + 1, |n.services[i]| + 1, PtrName(d, i));
  }

  /** A renamed label keeps its length or grows by two. */
  lemma GrowsByTwo(base: Label, l: Label)
    requires Renamable(base) && Derived(base, l)
    ensures Renamable(l) && (Next(l).Some? ==> |Next(l).value| == |l| || |Next(l).value| == |l| + 2)
  {
    DerivedNext(base, l);
  }
}
