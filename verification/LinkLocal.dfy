/** Claiming a link-local address by RFC 3927 (linklocal.c and sys_random of the
    8388V SDK application). */
module LinkLocal {
  import opened Bytes

  // ----- random addresses -----

  /** A random word scaled to floor..ceiling, in 32-bit arithmetic. */
  function Scaled(word: u32, floor: u16, ceiling: u16): u16
    requires floor <= ceiling
  {
    var rand := (word + 0x8000) % 0x1_0000_0000 / 0x1_0000;
    var wide := ((ceiling - floor) * rand) % 0x1_0000_0000;
    ((wide + 0x8000) % 0x1_0000_0000 / 65535 + floor) % 0x1_0000
  }

  lemma ScaledInRange(word: u32, floor: u16, ceiling: u16)
    requires floor <= ceiling
    ensures floor <= Scaled(word, floor, ceiling) <= ceiling
  {
    var rand := (word + 0x8000) % 0x1_0000_0000 / 0x1_0000;
    var range := ceiling - floor;
    Products(range, rand);
    var p := range * rand;
    assert p % 0x1_0000_0000 == p;
    assert (p + 0x8000) % 0x1_0000_0000 == p + 0x8000;
    assert p + 0x8000 < (range + 1) * 65535;
  }

  lemma Products(a: nat, b: nat)
    requires a <= 65535 && b <= 65535
    ensures 0 <= a * b <= a * 65535 <= 65535 * 65535
  {
  }

  method SysRandom(word: u32, floor: u16, ceiling: u16) returns (r: u16)
    requires floor <= ceiling
    ensures r == Scaled(word, floor, ceiling) && floor <= r <= ceiling
  {
    ScaledInRange(word, floor, ceiling);
    var rand := (word + 0x8000) % 0x1_0000_0000;
    rand := rand / 0x1_0000;
    rand := (ceiling - floor) * rand % 0x1_0000_0000;
    rand := (rand + 0x8000) % 0x1_0000_0000;
    rand := rand / 65535;
    rand := rand + floor;
    r := rand % 0x1_0000;
  }

  /** An address in network byte order, as a little-endian machine holds it. */
  function RandomIp(word1: u32, word2: u32): (ip: u32)
    ensures Eligible(ip)
  {
    ScaledInRange(word1, 0, 255);
    ScaledInRange(word2, 1, 254);
    var c: int, b: int := Scaled(word1, 0, 255), Scaled(word2, 1, 254);
    var ip := c * 0x100_0000 + b * 0x1_0000 + 254 * 0x100 + 169;
    Octets(c, b);
    ip
  }

  /** 169.254.1.0 to 169.254.254.255. */
  predicate Eligible(ip: u32) {
    ip % 0x100 == 169 && ip / 0x100 % 0x100 == 254 && 1 <= ip / 0x1_0000 % 0x100 <= 254
  }

  lemma Octets(c: int, b: int)
    requires 0 <= c <= 255 && 1 <= b <= 254
    ensures var ip := c * 0x100_0000 + b * 0x1_0000 + 254 * 0x100 + 169;
            0 <= ip < 0x1_0000_0000 && ip % 0x100 == 169 && ip / 0x100 % 0x100 == 254 && ip / 0x1_0000 % 0x100 == b
  {
    var ip := c * 0x100_0000 + b * 0x1_0000 + 254 * 0x100 + 169;
    assert ip / 0x100 == c * 0x1_0000 + b * 0x100 + 254;
    assert ip / 0x1_0000 == c * 0x100 + b;
  }

  // ----- conflicts -----

  /** A packet that somebody else sends about the address: it claims it, or
      probes for it. */
  datatype Arp = Arp(op: u16, sender: u32, target: u32)

  // ----- the protocol -----

  datatype Phase = NoAddress | Probing | Announcing | RateLimited | Stable

  /** What was done, with the wait asked for afterwards. */
  datatype Event =
    | Pick(ip: u32, counter: nat)
    | Probe(ip: u32, wait: nat)
    | Announce(ip: u32, wait: nat)
    | Init(ip: u32)
    | Conflict
    | Pause

  datatype State = State(phase: Phase, candidate: u32, probe: nat, announce: nat, conflicts: u32, log: seq<Event>)

  /** One wake-up: whether a conflict was flagged, and the random words drawn. */
  datatype Input = Input(conflict: bool, word1: u32, word2: u32, word3: u32)

  const PROBE_NUM := 3
  const ANNOUNCE_NUM := 2
  const MAX_CONFLICTS := 10

  function Step(s: State, i: Input): State {
    var s1 := if i.conflict then s.(conflicts := (s.conflicts + 1) % 0x1_0000_0000, log := s.log + [Conflict]) else s;
    match s.phase
    case NoAddress =>
      var ip := RandomIp(i.word1, i.word2);
      s1.(phase := Probing, candidate := ip, probe := 0, log := s1.log + [Pick(ip, 0)])
    case Probing =>
      if i.conflict then GiveUp(s1)
      else if s.probe == PROBE_NUM - 1 then
        s1.(phase := Announcing, announce := 0, log := s1.log + [Probe(s.candidate, 2000)])
      else if s.probe < PROBE_NUM - 1 then
        s1.(probe := s.probe + 1, log := s1.log + [Probe(s.candidate, Scaled(i.word3, 1000, 2000))])
      else s1
    case Announcing =>
      if i.conflict then GiveUp(s1)
      else if s.announce == ANNOUNCE_NUM - 1 then s1.(phase := Stable, log := s1.log + [Announce(s.candidate, 2000)])
      else if s.announce < ANNOUNCE_NUM - 1 then
        s1.(announce := s.announce + 1, log := s1.log + [Announce(s.candidate, 2000)])
      else s1
    case RateLimited =>
      if i.conflict then s1.(candidate := 0)
      else
        var ip := RandomIp(i.word1, i.word2);
        s1.(phase := Probing, candidate := ip, log := s1.log + [Pick(ip, s.probe)])
    case Stable =>
      if i.conflict then s1.(phase := NoAddress)
      else s1.(conflicts := 0, log := s1.log + [Init(s.candidate)])
  }

  /** After a conflict, try another address at once, or much later. */
  function GiveUp(s: State): State {
    if s.conflicts >= MAX_CONFLICTS then s.(phase := RateLimited, candidate := 0, log := s.log + [Pause])
    else s.(phase := NoAddress)
  }

  function Start(conflicts: u32): State {
    State(NoAddress, 0, 0, 0, conflicts, [])
  }

  function Run(s: State, inputs: seq<Input>): State {
    if inputs == [] then s else Step(Run(s, inputs[..|inputs| - 1]), inputs[|inputs| - 1])
  }

  // ----- what an address has been through -----

  /** From position j to k the log picks ip with the probe counter at c, sends
      probes for it until the counter would be at t, sends a announcements, and
      then only initializes the stack.  The last of three probes is followed by
      the longer wait. */
  predicate History(log: seq<Event>, j: nat, k: nat, ip: u32, c: nat, t: nat, a: nat) {
    && c <= t && j + 1 + t - c + a <= k <= |log|
    && log[j] == Pick(ip, c)
    && (forall i :: j < i <= j + t - c ==> log[i].Probe? && log[i].ip == ip && 1000 <= log[i].wait <= 2000)
    && (t == 3 && c < 3 ==> log[j + 3 - c].wait == 2000)
    && (forall i :: j + t - c < i <= j + t - c + a ==> log[i] == Announce(ip, 2000))
    && (forall i :: j + t - c + a < i < k ==> log[i] == Init(ip))
  }

  /** An initialization is earned by a history with both announcements and three
      probes, less those the counter already stood at. */
  ghost predicate Earned(log: seq<Event>, k: nat)
    requires k < |log| && log[k].Init?
  {
    Eligible(log[k].ip) && exists j, c :: 0 <= j < k && 0 <= c <= 2 && History(log, j, k, log[k].ip, c, 3, 2)
  }

  ghost predicate SafeLog(log: seq<Event>) {
    forall k :: 0 <= k < |log| && log[k].Init? ==> Earned(log, k)
  }

  /** The log ends in a history of the candidate. */
  predicate EndsIn(log: seq<Event>, ip: u32, j: nat, c: nat, t: nat, a: nat) {
    History(log, j, |log|, ip, c, t, a) && |log| == j + 1 + t - c + a
  }

  /** Only after a pause is an address picked with the counter above zero. */
  predicate FreshPicks(log: seq<Event>) {
    forall k :: 0 <= k < |log| && log[k].Pick? && log[k].counter > 0 ==> Pause in log[..k]
  }

  ghost predicate Inv(s: State) {
    && s.probe <= 2 && SafeLog(s.log) && FreshPicks(s.log)
    && match s.phase
       case NoAddress => true
       case RateLimited => Pause in s.log
       case Probing =>
         Eligible(s.candidate) && exists j, c :: 0 <= j && 0 <= c <= 2 && EndsIn(s.log, s.candidate, j, c, s.probe, 0)
       case Announcing =>
         Eligible(s.candidate) && s.announce <= 1 &&
         exists j, c :: 0 <= j && 0 <= c <= 2 && EndsIn(s.log, s.candidate, j, c, 3, s.announce)
       case Stable =>
         Eligible(s.candidate) &&
         exists j, c :: 0 <= j < |s.log| && 0 <= c <= 2 && History(s.log, j, |s.log|, s.candidate, c, 3, 2)
  }

  lemma SafeAppend(log: seq<Event>, e: Event)
    requires SafeLog(log)
    ensures !e.Init? ==> SafeLog(log + [e])
    ensures e.Init? && Earned(log + [e], |log|) ==> SafeLog(log + [e])
    ensures FreshPicks(log) && (e.Pick? && e.counter > 0 ==> Pause in log) ==> FreshPicks(log + [e])
  {
    hide History;
    FreshAppend(log, e);
    var log' := log + [e];
    forall k | 0 <= k < |log| && log'[k].Init? ensures Earned(log', k) {
      assert log'[k] == log[k] && Earned(log, k);
      var j, c :| 0 <= j < k && 0 <= c <= 2 && History(log, j, k, log[k].ip, c, 3, 2);
      HistoryStable(log, e, j, k, log[k].ip, c, 3, 2);
    }
  }

  lemma FreshAppend(log: seq<Event>, e: Event)
    ensures FreshPicks(log) && (e.Pick? && e.counter > 0 ==> Pause in log) ==> FreshPicks(log + [e])
  {
    var log' := log + [e];
    assert forall k :: 0 <= k <= |log| ==> log'[..k] == log[..k];
    assert log[..|log|] == log;
  }

  lemma HistoryStable(log: seq<Event>, e: Event, j: nat, k: nat, ip: u32, c: nat, t: nat, a: nat)
    requires History(log, j, k, ip, c, t, a)
    ensures History(log + [e], j, k, ip, c, t, a)
  {
    var log' := log + [e];
    assert forall i :: 0 <= i < |log| ==> log'[i] == log[i];
  }

  /** One more probe, announcement or initialization continues the history. */
  lemma HistoryGoesOn(log: seq<Event>, e: Event, j: nat, ip: u32, c: nat, t: nat, a: nat)
    requires History(log, j, |log|, ip, c, t, a)
    ensures (EndsIn(log, ip, j, c, t, a) && a == 0 && t <= 2 && e.Probe? && e.ip == ip && 1000 <= e.wait <= 2000
             && (t == 2 ==> e.wait == 2000))
            ==> EndsIn(log + [e], ip, j, c, t + 1, 0)
    ensures EndsIn(log, ip, j, c, t, a) && e == Announce(ip, 2000) ==> EndsIn(log + [e], ip, j, c, t, a + 1)
    ensures e == Init(ip) ==> History(log + [e], j, |log| + 1, ip, c, t, a)
  {
    var log' := log + [e];
    assert forall i :: 0 <= i < |log| ==> log'[i] == log[i];
    assert log'[|log|] == e;
  }

  lemma ProbeStep(s: State, i: Input)
    requires Inv(s) && s.phase == Probing && !i.conflict
    ensures Inv(Step(s, i))
  {
    hide SafeLog, History, Eligible, Scaled, FreshPicks;
    ScaledInRange(i.word3, 1000, 2000);
    var j, c :| 0 <= j && 0 <= c <= 2 && EndsIn(s.log, s.candidate, j, c, s.probe, 0);
    var e := if s.probe == 2 then Probe(s.candidate, 2000) else Probe(s.candidate, Scaled(i.word3, 1000, 2000));
    HistoryGoesOn(s.log, e, j, s.candidate, c, s.probe, 0);
    SafeAppend(s.log, e);
    assert EndsIn(s.log + [e], s.candidate, j, c, s.probe + 1, 0);
  }

  lemma AnnounceStep(s: State, i: Input)
    requires Inv(s) && s.phase == Announcing && !i.conflict
    ensures Inv(Step(s, i))
  {
    hide SafeLog, History, Eligible, FreshPicks;
    var j, c :| 0 <= j && 0 <= c <= 2 && EndsIn(s.log, s.candidate, j, c, 3, s.announce);
    var e := Announce(s.candidate, 2000);
    HistoryGoesOn(s.log, e, j, s.candidate, c, 3, s.announce);
    SafeAppend(s.log, e);
    assert EndsIn(s.log + [e], s.candidate, j, c, 3, s.announce + 1);
  }

  lemma StableStep(s: State, i: Input)
    requires Inv(s) && s.phase == Stable && !i.conflict
    ensures Inv(Step(s, i))
  {
    hide SafeLog, Eligible, History, FreshPicks;
    var j, c :| 0 <= j < |s.log| && 0 <= c <= 2 && History(s.log, j, |s.log|, s.candidate, c, 3, 2);
    var e := Init(s.candidate);
    HistoryGoesOn(s.log, e, j, s.candidate, c, 3, 2);
    HistoryStable(s.log, e, j, |s.log|, s.candidate, c, 3, 2);
    SafeAppend(s.log, e);
  }

  lemma PickStep(s: State, i: Input)
    requires Inv(s) && (s.phase == NoAddress || (s.phase == RateLimited && !i.conflict))
    ensures Inv(Step(s, i))
  {
    hide SafeLog, Eligible, RandomIp, FreshPicks;
    SafeAppend(s.log, Conflict);
    var ip := RandomIp(i.word1, i.word2);
    var c := if s.phase == NoAddress then 0 else s.probe;
    var log := if i.conflict then s.log + [Conflict] else s.log;
    SafeAppend(log, Pick(ip, c));
    assert EndsIn(log + [Pick(ip, c)], ip, |log|, c, c, 0);
  }

  lemma StepKeepsInv(s: State, i: Input)
    requires Inv(s)
    ensures Inv(Step(s, i))
  {
    hide SafeLog, EndsIn, History, Eligible, FreshPicks;
    if s.phase == NoAddress || (s.phase == RateLimited && !i.conflict) {
      PickStep(s, i);
    } else if i.conflict {
      SafeAppend(s.log, Conflict);
      SafeAppend(s.log + [Conflict], Pause);
    } else {
      match s.phase
      case Probing => ProbeStep(s, i);
      case Announcing => AnnounceStep(s, i);
      case Stable => StableStep(s, i);
    }
  }

  lemma {:induction false} RunInv(n0: u32, inputs: seq<Input>)
    ensures Inv(Run(Start(n0), inputs))
  {
    hide Inv, Step;
    if inputs != [] {
      var k := |inputs| - 1;
      RunInv(n0, inputs[..k]);
      StepKeepsInv(Run(Start(n0), inputs[..k]), inputs[k]);
    } else {
      StartInv(n0);
    }
  }

  lemma StartInv(n0: u32)
    ensures Inv(Start(n0))
  {
  }

  /** In every run, whatever the random words, the conflicts and the initial
      garbage of the conflict counter: the TCP/IP stack is only started on an
      address of the link-local range that was announced twice and probed for
      with no conflict since it was picked.  The number of its probes is three
      less what the probe counter stood at when it was picked, so it is three
      when the run had no pause for too many conflicts. */
  lemma ClaimSafety(n0: u32, inputs: seq<Input>, k: nat)
    requires k < |Run(Start(n0), inputs).log| && Run(Start(n0), inputs).log[k].Init?
    ensures var log := Run(Start(n0), inputs).log;
            && Eligible(log[k].ip)
            && exists j, c :: 0 <= j < k && 0 <= c <= 2 && History(log, j, k, log[k].ip, c, 3, 2) && (c > 0 ==> Pause in log[..j])
  {
    hide Inv, Eligible, Run;
    var log := Run(Start(n0), inputs).log;
    RunInv(n0, inputs);
    SafeOf(Run(Start(n0), inputs));
    assert Earned(log, k);
    var j, c :| 0 <= j < k && 0 <= c <= 2 && History(log, j, k, log[k].ip, c, 3, 2);
    assert log[j] == Pick(log[k].ip, c);
  }

  lemma SafeOf(s: State)
    requires Inv(s)
    ensures SafeLog(s.log) && FreshPicks(s.log)
  {
  }

  /** A run that starts the stack after a single probe for the address: the first
      candidate is contested after two probes, by the tenth conflict. */
  lemma OneProbeIsEnough(calm: Input, inputs: seq<Input>)
    requires !calm.conflict
    requires inputs == [calm, calm, calm, calm.(conflict := true), calm, calm, calm, calm, calm]
    ensures var log := Run(Start(9), inputs).log;
            |log| == 10 && log[9].Init? && History(log, 5, 9, log[9].ip, 2, 3, 2)
  {
    var s0 := Start(9);
    var ip := RandomIp(calm.word1, calm.word2);
    var s1 := Step(s0, calm);
    var s2 := Step(s1, calm);
    var s3 := Step(s2, calm);
    var s4 := Step(s3, calm.(conflict := true));
    assert s4.phase == RateLimited && s4.probe == 2;
    var s5 := Step(s4, calm);
    var s6 := Step(s5, calm);
    var s7 := Step(s6, calm);
    var s8 := Step(s7, calm);
    var s9 := Step(s8, calm);
    assert s9.log == [Pick(ip, 0), s2.log[1], s3.log[2], Conflict, Pause, Pick(ip, 2), Probe(ip, 2000),
                      Announce(ip, 2000), Announce(ip, 2000), Init(ip)];
    RunNine(s0, inputs);
  }

  lemma RunNine(s: State, inputs: seq<Input>)
    requires |inputs| == 9
    ensures Run(s, inputs) ==
            Step(Step(Step(Step(Step(Step(Step(Step(Step(s, inputs[0]), inputs[1]), inputs[2]), inputs[3]), inputs[4]),
                                     inputs[5]), inputs[6]), inputs[7]), inputs[8])
  {
    hide Step;
    RunThree(s, inputs[..3]);
    RunThree(Run(s, inputs[..3]), inputs[3..6]);
    RunThree(Run(Run(s, inputs[..3]), inputs[3..6]), inputs[6..]);
    RunAppend(s, inputs[..3], inputs[3..6]);
    RunAppend(s, inputs[..3] + inputs[3..6], inputs[6..]);
    assert inputs == inputs[..3] + inputs[3..6] + inputs[6..];
  }

  lemma RunThree(s: State, inputs: seq<Input>)
    requires |inputs| == 3
    ensures Run(s, inputs) == Step(Step(Step(s, inputs[0]), inputs[1]), inputs[2])
  {
    hide Step;
    assert inputs[..2][..1][..0] == [];
    assert Run(s, inputs[..2][..1]) == Step(s, inputs[0]);
    assert Run(s, inputs[..2]) == Step(Step(s, inputs[0]), inputs[1]);
  }

  lemma {:induction false} RunAppend(s: State, a: seq<Input>, b: seq<Input>)
    ensures Run(s, a + b) == Run(Run(s, a), b)
    decreases |b|
  {
    hide Step;
    if b == [] {
      assert a + b == a;
    } else {
      var k := |b| - 1;
      RunAppend(s, a, b[..k]);
      assert (a + b)[..|a| + k] == a + b[..k];
    }
  }

  // ----- the thread -----

  class Claimer {
    var phase: Phase
    var candidate: u32
    var probe: nat
    var announce: nat
    var conflicts: u32
    var timeout: nat
    ghost var log: seq<Event>

    ghost function View(): State
      reads this
    {
      State(phase, candidate, probe, announce, conflicts, log)
    }

    constructor (garbage: u32)
      ensures View() == Start(garbage)
    {
      phase, candidate, probe, announce, conflicts, timeout := NoAddress, 0, 0, 0, garbage, 0;
      log := [];
    }

    /** One pass of ll_main; up says whether the stack could be started. */
    method Pass(i: Input, up: bool)
      modifies this
      ensures View() == Step(old(View()), i)
      ensures phase == Probing && old(phase) == NoAddress ==> timeout <= 1000
    {
      hide Scaled, RandomIp;
      if i.conflict {
        conflicts := (conflicts + 1) % 0x1_0000_0000;
        log := log + [Conflict];
      }
      match phase {
        case NoAddress =>
          candidate := RandomIp(i.word1, i.word2);
          timeout := SysRandom(i.word3, 0, 1000);
          probe, phase, log := 0, Probing, log + [Pick(candidate, 0)];
        case Probing =>
          if i.conflict {
            Retreat();
          } else if probe == PROBE_NUM - 1 {
            phase, timeout, announce, log := Announcing, 2000, 0, log + [Probe(candidate, 2000)];
          } else if probe < PROBE_NUM - 1 {
            var wait := SysRandom(i.word3, 1000, 2000);
            probe, timeout, log := probe + 1, wait, log + [Probe(candidate, wait)];
          }
        case Announcing =>
          if i.conflict {
            Retreat();
          } else if announce == ANNOUNCE_NUM - 1 {
            phase, timeout, log := Stable, 2000, log + [Announce(candidate, 2000)];
          } else if announce < ANNOUNCE_NUM - 1 {
            announce, timeout, log := announce + 1, 2000, log + [Announce(candidate, 2000)];
          }
        case RateLimited =>
          if i.conflict {
            candidate, timeout := 0, 60000;
          } else {
            candidate := RandomIp(i.word1, i.word2);
            timeout, phase, log := 0, Probing, log + [Pick(candidate, probe)];
          }
        case Stable =>
          if i.conflict {
            phase, timeout := NoAddress, 0;
          } else {
            conflicts, log := 0, log + [Init(candidate)];
            timeout := if up then 0xFFFF_FFFF else 1000;
          }
      }
    }

    method Retreat()
      modifies this`phase, this`candidate, this`timeout, this`log
      ensures View() == GiveUp(old(View()))
    {
      if conflicts >= MAX_CONFLICTS {
        phase, candidate, timeout, log := RateLimited, 0, 60000, log + [Pause];
      } else {
        phase, timeout := NoAddress, 0;
      }
    }
  }
}
