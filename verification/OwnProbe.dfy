/** The probe in the transmit buffer (prepare_probe in mdns/mdns_respond.c): the
    authorities that the parser leaves of it are those the host claims. */
module OwnProbe {
  import opened Bytes
  import opened Names
  import opened Packet
  import opened Parser
  import opened Host
  import opened Launch
  import opened TieBreak

  /** The records a probe claims, as another host reads them. */
  function EntryAuthority(d: HostDef, n: Naming, e: Entry): (a: Authority)
    requires ValidDef(d) && ValidNaming(d, n) && HasEntry(d, e)
    ensures Shaped(a)
  {
    Authority(EntryName(d, n, e), EntryType(e), C_FLUSH,
              match EntryData(d, n, e)
              case Address(ip) => Addr(Be32(ip))
              case Pointer(t) => NameRef(t)
              case Service(port, t) => SrvRef(Be16(0) + Be16(0) + Be16(port), t)
              case Txt(t) => Text(t))
  }

  function OwnAuthorities(d: HostDef, n: Naming): (own: seq<Authority>)
    requires ValidDef(d) && ValidNaming(d, n)
    ensures AllShaped(own)
  {
    var es := AllEntries(d, Authorities);
    seq(|es|, k requires 0 <= k < |es| => EntryAuthority(d, n, es[k]))
  }

  // ----- records in a packet -----

  /** A parsed record whose data can be compared: its names are there. */
  predicate Readable(b: seq<byte>, p: ParsedRecord) {
    && NameAt(b, p.at) && p.rdataAt + p.rdlength <= |b|
    && (p.rtype == T_CNAME || p.rtype == T_PTR ==> NameAt(b, p.rdataAt))
    && (p.rtype == T_SRV ==> p.rdlength >= 6 && NameAt(b, p.rdataAt + 6))
  }

  /** What rr_cmp makes of it. */
  function ReadAuthority(b: seq<byte>, p: ParsedRecord): Authority
    requires Readable(b, p)
  {
    var at, end := p.rdataAt, p.rdataAt + p.rdlength;
    Authority(LabelsAt(b, p.at), p.rtype, p.rclass,
              if p.rtype == T_A then Addr(b[at..end])
              else if p.rtype == T_CNAME || p.rtype == T_PTR then NameRef(LabelsAt(b, at))
              else if p.rtype == T_SRV then SrvRef(b[at..at + 6], LabelsAt(b, at + 6))
              else Text(b[at..end]))
  }

  lemma ReadsEntry(d: HostDef, n: Naming, e: Entry, b: seq<byte>, p: ParsedRecord)
    requires ValidDef(d) && ValidNaming(d, n) && HasEntry(d, e) && MeansRecord(b, p, EntryRecord(d, n, 255, e))
    ensures Readable(b, p) && ReadAuthority(b, p) == EntryAuthority(d, n, e)
  {
    hide Encode, WellFormed, Labels, Be16, Be32, ValidDef, ValidNaming, Fqdn, Fqsn, PtrName, ArpaName;
    var data := EntryData(d, n, e);
    var at := p.rdataAt;
    match data
    case Address(ip) =>
    case Pointer(t) => EncodedNameAt(b, at, at, t);
    case Service(port, t) =>
      AtParts(b, at, Be16(0) + Be16(0) + Be16(port), Encode(t));
      EncodedNameAt(b, at + 6, at + 6, t);
    case Txt(t) =>
  }

  lemma {:induction false} EntryAt(d: HostDef, n: Naming, es: seq<Entry>, k: nat)
    requires ValidDef(d) && ValidNaming(d, n) && HasEntries(d, es) && k < |es|
    ensures EntryRecords(d, n, 255, es)[k] == EntryRecord(d, n, 255, es[k])
    decreases |es|
  {
    hide EntryRecord, ValidDef, ValidNaming;
    if k < |es| - 1 {
      EntryAt(d, n, es[..|es| - 1], k);
    }
  }

  /** The authorities of a probe that was read back are the host's own. */
  lemma OwnAreRead(d: HostDef, n: Naming, b: seq<byte>, p: ParsedMsg)
    requires ValidDef(d) && ValidNaming(d, n) && MeansMsg(b, p, ProbeMsg(d, n))
    ensures |p.authorities| == |OwnAuthorities(d, n)|
    ensures forall k :: 0 <= k < |p.authorities| ==>
              Readable(b, p.authorities[k]) && ReadAuthority(b, p.authorities[k]) == OwnAuthorities(d, n)[k]
  {
    hide EntryRecords, EntryRecord, EntryAuthority, ValidDef, ValidNaming, Readable, ReadAuthority, MeansRecord, AllQuestions, AllEntries,
         MeansQuestions;
    var es := AllEntries(d, Authorities);
    forall k | 0 <= k < |p.authorities|
      ensures Readable(b, p.authorities[k]) && ReadAuthority(b, p.authorities[k]) == OwnAuthorities(d, n)[k]
    {
      EntryAt(d, n, es, k);
      ReadsEntry(d, n, es[k], b, p.authorities[k]);
    }
  }

  /** Prepare the probe of a launched host and keep the authorities the parser finds
      in it: the packet and they are as they should be exactly when the probe fits. */
  method FirstProbe(m: Message, d: HostDef, n: Naming) returns (ok: bool, own: seq<Authority>)
    requires m.Valid() && Launched(d) && ValidNaming(d, n)
    modifies m, m.data
    ensures m.Valid()
    ensures ok <==> Size(ProbeMsg(d, n)) <= DATA_MAX
    ensures ok ==> m.Holds() && m.msg == ProbeMsg(d, n) && own == OwnAuthorities(d, n)
  {
    hide Size, ProbeMsg, ValidDef, ValidNaming, OwnAuthorities, MeansMsg, Wire, Readable, ReadAuthority, ProbeAccepted, ResponseAccepted;
    var parsed;
    ok, parsed := LaunchedProbe(m, d, n);
    own := [];
    if ok {
      var b, ps := m.data[..], parsed.value.authorities;
      OwnAreRead(d, n, b, parsed.value);
      for k := 0 to |ps|
        invariant own == OwnAuthorities(d, n)[..k]
      {
        own := own + [ReadAuthority(b, ps[k])];
      }
    }
  }
}
