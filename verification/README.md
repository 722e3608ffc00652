# libmdns in Dafny

A model of libmdns, a multicast DNS responder and querier for small devices, and
of the link-local address claimer beside it, with proofs of what they promise.

The model follows the C code branch by branch. Code that updates state in place
is a method or a class with the same loops; each is proved equal to a function on
values, and what the code promises is proved about those functions.

* **Names and texts** (`Bytes`, `Names`, `Rename`, `Text`): compressed names of
  section 4.1.4 of RFC 1035 as label sequences; measuring, comparing, copying and
  range-checking them; numbering a name after a conflict; strings to labels and
  TXT data to strings and back.
* **Packets** (`Packet`, `Parser`): the writers, as a class whose buffer is the
  wire form of a message, and the parser; what is written is read back.
* **The responder** (`Host`, `Respond`, `Launch`, `TieBreak`, `Conflict`,
  `OwnProbe`, `Clock`, `Claim`, `Overgrown`): probes, announcements and responses;
  the size check at launch; simultaneous probes (section 8.2 of RFC 6762); the claim protocol
  (sections 8.1 and 8.3) as a state machine with a clock and a log of packets.
* **The querier** (`Slist`, `Pools`, `Cache`, `CacheInv`, `CacheSteps`,
  `CacheRun`, `CacheNames`, `CacheView`, `Unreported`, `Refresh`, `Lifetimes`,
  `Wakeup`, `Silence`, `Pacing`, `Crowded`, `KnownAnswers`, `QueryPacket`,
  `Querier`). `Cache` gives each operation as a function on lists and a log of
  callbacks; `CacheInv` to `Crowded` prove what all runs keep, and when;
  `KnownAnswers` and `QueryPacket` give the octets of the query;
  `Querier` has the real links, relinked in place while they are walked, and the
  packet under construction, and shows that every operation does to them what
  `Cache` says it does to the lists and the query.
* **Link-local addresses** (`LinkLocal`): claiming an address after RFC 3927.

`dafny verify dfyconfig.toml` verifies everything.

## Where the code falls short

Each of these is a lemma, most with the exact condition under which the code is right.

* Copying a name steps past a root octet reached by a pointer (`Names.CopyExactIff`,
  `Names.CopyWitness`).
* Numbering a label of 62 octets overwrites the next label (`Rename.IncrementIff`,
  `Rename.SixtyTwoClobbers`).
* The documented key/value string ":" is refused (`Text.ColonAloneIsRefused`).
* Unpacking received key/value pairs does not count the colons it writes, nor a pair
  it leaves out, and so leaves its buffers (`Text.UnpackFaultsIff`,
  `Text.ManyPairsOverrun`, `Text.LongPairOverruns`).
* The growth allowed for probes at launch is 2n+2t octets too small
  (`Launch.ProbeBoundTooSmall`, `Launch.ProbeBoundWitness`). A probe that does not fit
  is sent incomplete, three times, and its names are announced
  (`Overgrown.ClaimSafetyIff`, `Overgrown.UnprobedWitness`).
* The comparison of TXT data repeats one direction, so two hosts can both give way
  (`TieBreak.WhoGivesWay`, `TieBreak.TextCmpIff`, `TieBreak.BothGiveWay`).
* An SRV that moves the last instance of a host to another one leaves a record active
  for nothing, or an instance on the list of a record it no longer names
  (`CacheInv.SrvKeepsGood`, `CacheInv.SrvKeepsSound`, `CacheRun.MovedTargetBreaks`).
* An instance whose claim to an address was withdrawn during a refresh does not get
  it back from the same address, and a port that changed meanwhile is not reported
  (`CacheRun.AddressReaches`, `CacheView.SrvToldIff`, `Unreported.PortUnreported`).
* A long TXT that extends a short one is not noticed (`CacheRun.TxtNoticed`,
  `CacheRun.TxtWitness`), and one that comes during a refresh is not reported
  (`CacheView.TxtToldIff`, `Unreported.TextUnreported`).
* A PTR to an instance of another type is cached and answered for under the monitored
  one (`Unreported.AnswerNamesIff`, `Unreported.ForeignAnswer`).
* Every sleep is charged with up to a millisecond more than it took, so with every packet
  heard cached records end earlier, and a burst ends them at once
  (`Lifetimes.InstanceLastsIff`, `Lifetimes.BurstEnds`). The time slept before an A
  record came is taken off its first wait as well (`Lifetimes.AddressPromiseIff`,
  `Lifetimes.GoneEarly`).
* A monitor whose question does not fit keeps the instances behind it from aging, and
  may let the querier sleep without limit (`Silence.EmptiesIff`,
  `Pacing.UnlimitedIff`, `Crowded.NeverEmptied`); by default there are too few
  monitors for that (`Pacing.FiveAlwaysEmpty`).
* The time slept before a packet that cannot be read is not charged at all
  (`Pacing.UnreadUncharged`).
* Above 53687091 ms the share of a lifetime wraps (`Refresh.ShareExact`).
* After the pause for too many conflicts a link-local address is claimed with fewer
  probes (`LinkLocal.OneProbeIsEnough`, `LinkLocal.ClaimSafety`).
* The comment on the refresh period promises one second at first; the period is
  doubled before it is first used (`Wakeup.PreparePass`, `Wakeup.PeriodDoubles`).

## Model

| member | source | states |
|---|---|---|
| `Bytes.Get16AfterBe16` | mdns/mdns_private.h:84-92 | the 16-bit reader gives back what the writer stored, wherever in the buffer |
| `Bytes.Get32AfterBe32` | mdns/mdns_private.h:85-98 | likewise for 32 bits |
| `Names.NameSize` | mdns/dname.c:56-72 | the loop measures a name up to its root or first pointer, or runs off the buffer |
| `Names.EncodedSize` | mdns/dname.c:56-72 | a pointer-free name measures exactly its wire form |
| `Names.EncodedNameAt` | mdns/mdns_private.h:113-117 | the wire form of any name, anywhere in a buffer, decodes to that name |
| `Names.NameStable` | mdns/mdns_private.h:113-117 | octets appended to a buffer do not change the names already in it |
| `Names.CompareLabels` | mdns/dname.c:75-103 | labels are compared octet by octet, then by length |
| `Names.CompareNames` | mdns/dname.c:122-162 | comparing two compressed names is comparing the label sequences they stand for |
| `Names.NameCmpZero` | mdns/dname.c:115-162 | the comparison is 0 exactly for equal names |
| `Names.NameCmpAntisymmetric` | mdns/dname.c:115-162 | swapping the names swaps the sign |
| `Names.NameCmpTransitive` | mdns/dname.c:115-162 | the order is transitive |
| `Names.CopyName` | mdns/dname.c:254-273 | the destination receives exactly the octets of the copy loop's outcome and nothing behind them changes |
| `Names.CopyKeepsName` | mdns/dname.c:254-273 | with no pointer to a root octet the copy is the pointer-free form, or -1 with the labels that fit, the limit being 255 octets of labels |
| `Names.CopyRunsPastRoot` | mdns/dname.c:254-273 | with a pointer to a root octet the copy runs past the end of the name |
| `Names.CopyExactIff` | mdns/dname.c:254-273 | a name that fits is copied exactly if and only if none of its pointers leads to a root octet |
| `Names.CopyWitness` | mdns/dname.c:254-273 | the three octets 0, 192, 0 read at the second are the root name, and no copy of them is its wire form |
| `Names.NameOverruns` | mdns/dname.c:340-356 | the range check follows the name as its loop does |
| `Names.ScanAccepts` | mdns/dname.c:340-356 | every well-formed name inside the packet without a pointer to a root passes the check |
| `Rename.IncrementName` | mdns/dname.c:169-196 | the buffer becomes what one numbering step makes of it, or stays as it was with -1 |
| `Rename.Increment` | mdns/dname.c:169-196 | called on the buffer of a name without zero octets: -1 exactly when the numbers of the label are used up, with the buffer left alone; otherwise the buffer holds the name with the next number if and only if the first label is not an unnumbered one of 62 octets |
| `Rename.IncrementRenames` | mdns/dname.c:164-196 | on the wire form of a name, the string length being that of its labels, the step gives the next numbered name with the other labels unchanged, and gives up exactly when no number is left |
| `Rename.RenamingExhausts` | mdns/dname.c:164-196 | repeated renaming gives at most eight pairwise distinct names, at most two octets longer, and then stops |
| `Rename.IncrementIff` | mdns/dname.c:169-196 | a step on the wire form that does not give up numbers the first label and keeps the rest if and only if the label is not an unnumbered one of 62 octets |
| `Rename.SixtyTwoClobbers` | mdns/dname.c:182-184 | after a 62-octet label the length octet of the next label is overwritten and the buffer holds no name |
| `Text.PackString` | mdns/dname.c:204-252 | in place or not, the string becomes the length-prefixed segments of its split and length plus one is returned; -1 exactly for the refused strings |
| `Text.JoinSplit` | mdns/dname.c:204-252 | joining the split of a string gives the string |
| `Text.SplitJoin` | mdns/dname.c:204-252 | splitting joined segments gives the segments |
| `Text.DottedNameDecodes` | mdns/dname.c:204-252 | a dotted type, closed by a root octet, decodes to its labels |
| `Text.UnpackText` | mdns/dname.c:307-335 | the text buffer receives what the copy loop writes, closed by a zero, as long as the loop leaves neither buffer |
| `Text.UnpackFaultsIff` | mdns/dname.c:303-335 | for any pairs, with nothing or an empty pair behind them, and a text buffer of any size: exactly when the loop leaves a buffer, and what it writes if not. Ending with a pair, the octets and colons copied must fit; ending at an empty pair, with one colon more; with a pair left out and neither, it reads on behind the data |
| `Text.UnpackWhole` | mdns/dname.c:303-335 | TXT data no longer than the text buffer are unpacked whole |
| `Text.ManyPairsOverrun` | mdns/mdns_query.c:479-480 | 129 pairs of one octet leave the querier's buffer of 256 octets |
| `Text.LongPairOverruns` | mdns/dname.c:316-320 | with two pairs of 200 octets the second is left out and what lies behind the data is read |
| `Text.TextRoundTrip` | mdns/dname.c:307-335 | key/value pairs of at most 254 octets with no empty pair survive packing and unpacking |
| `Text.ColonAloneIsRefused` | include/mdns.h:170-171 | a lone colon, documented as an empty TXT record, is refused |
| `Packet.Message.constructor` | mdns/mdns.c:206-217 | an empty query of twelve octets |
| `Packet.Message.Init` | mdns/mdns.c:206-233 | the packet is the wire form of an empty query or response |
| `Packet.Message.SetId` | mdns/mdns_respond.c:186 | the identifier is replaced, nothing else |
| `Packet.Message.AddTuple` | mdns/mdns.c:241-259 | written exactly when it fits; otherwise nothing changes |
| `Packet.Message.AddQuestion` | mdns/mdns.c:264-272 | a complete packet becomes the wire form of the message with one more question, exactly when that fits; otherwise nothing changes |
| `Packet.Message.AddAddress` | mdns/mdns.c:357-365 | length and address, exactly when they fit; otherwise nothing changes |
| `Packet.Message.AddName` | mdns/mdns.c:370-379 | length and pointer-free name, exactly when they fit; otherwise nothing changes |
| `Packet.Message.AddSrv` | mdns/mdns.c:415-431 | length, zero priority and weight, port and target, exactly when they fit; otherwise nothing changes |
| `Packet.Message.AddTxt` | mdns/mdns.c:402-410 | length and text, exactly when they fit; otherwise nothing changes |
| `Packet.Message.AddRecord` | mdns/mdns.c:278-286 | a complete packet becomes the wire form of the message with one more answer or authority, exactly when that fits; otherwise the head of the record is left in it and counted, if there was room for the head, and nothing if not |
| `Packet.WireWithQuestion` | mdns/mdns.c:264-272 | appending a question and raising the count in the header is the wire form of the longer message |
| `Packet.WireWithRecord` | mdns/mdns.c:278-352 | likewise for answers and authorities |
| `Parser.ReadName` | mdns/mdns.c:28-48 | a name is accepted exactly as size limit and range check say |
| `Parser.ReadRecord` | mdns/mdns.c:28-94 | one record, its data checked by type |
| `Parser.ReadQuestions` | mdns/mdns.c:134-169 | up to 32 questions |
| `Parser.ReadRecords` | mdns/mdns.c:28-201 | up to 32 records of a section |
| `Parser.ReadMessage` | mdns/mdns.c:99-201 | header, questions, answers and authorities, or a parse error |
| `Parser.RoundTrip` | mdns/mdns.c:99-201 | every message written with nothing behind a section of more than 32 entries is read back entry by entry, names, types, classes, lifetimes and data included, up to 32 of each section, and the parser stops at the end of what was written if and only if no section has more |
| `Parser.WrittenRecordIsSound` | mdns/mdns.c:278-475 | every record the writers produce is one that the parser accepts |
| `Parser.SentinelIff` | mdns/mdns.c:235-286 | a record written anywhere in a packet is read back as it was meant if and only if its lifetime is not the sentinel value |
| `Host.AddEntries` | mdns/mdns.c:436-475 | the records of the services are added one by one, all exactly when all fit |
| `Host.PrepareAnnouncement` | mdns/mdns_respond.c:119-131 | the packet is the announcement of the host under its present names, prepared exactly when it fits |
| `Host.PrepareProbe` | mdns/mdns_respond.c:93-117 | the packet is the probe for the present names, prepared exactly when it fits; its own parse succeeds, gives back the questions and up to 32 authorities and ends at its end if and only if there are no more |
| `Host.ProbeIsSound` | mdns/mdns_respond.c:93-117 | a probe that fits is one the parser reads back |
| `Respond.PrepareResponse` | mdns/mdns_respond.c:175-275 | the response holds exactly the answers the questions ask for, or the call fails exactly when they do not fit; a response is not answered |
| `Respond.AnswerMultiplicity` | mdns/mdns_respond.c:175-275 | an SRV or TXT is in the response once if any question asks for it and not otherwise; addresses and PTRs once per question that asks for them |
| `Respond.SendsOrNot` | mdns/mdns_respond.c:168-275 | nothing is sent exactly when there is no answer |
| `Launch.PacketGrowth` | mdns/mdns_respond.c:133-166 | renaming lets an announcement grow by at most 4+6n+2t octets and a probe by at most 6+6n+2t, and by exactly that when every label grows |
| `Launch.CheckCoversAnnouncement` | mdns/mdns_respond.c:280-302 | the response prepared for the check is at least as long as the announcement |
| `Launch.CheckMaxResponse` | mdns/mdns_respond.c:280-302 | the trial response is prepared exactly when it fits, and holds all records |
| `Launch.CheckSizes` | mdns/mdns_respond.c:986-1005 | the launch check succeeds exactly when probe and response leave the room the code wants |
| `Launch.LaunchCoversAnnouncements` | mdns/mdns_respond.c:986-1005 | after a successful check the announcement fits a packet under every naming the renaming can reach |
| `Launch.ProbesFitIff` | mdns/mdns_respond.c:133-144 | every reachable probe fits if and only if the one with all names at their longest does |
| `Launch.EnoughRoomForProbes` | mdns/mdns_respond.c:133-144 | 6+6n+2t octets to spare are enough for every reachable probe |
| `Launch.ProbeBoundTooSmall` | mdns/mdns_respond.c:133-144 | a host that passes the launch check comes to a probe that does not fit a packet if and only if its first probe leaves less room than all its names can grow by |
| `Launch.ProbeBoundWitness` | mdns/mdns_respond.c:133-144 | a host definition that passes both halves of the launch check for which this happens |
| `Launch.FewServices` | mdns/mdns_respond.c:93-117 | a probe that fits has at most 32 questions |
| `Launch.FewAuthorities` | mdns/mdns_respond.c:986-1005 | a host that passes the launch check has at most 32 authorities |
| `Launch.LaunchedProbe` | mdns/mdns_respond.c:93-117 | so every probe of such a host that fits is read back exactly as written, to its last octet |
| `Launch.LongestProbe` | mdns/mdns_respond.c:133-144 | with all names at their longest the probe grows by exactly three times the growth of the host name and that of the services |
| `TieBreak.FindAuthorities` | mdns/mdns_respond.c:323-361 | the last authority of each type for the name, and whether there is any |
| `TieBreak.CompareText` | mdns/mdns_respond.c:414-429 | TXT data are compared as the code does it, including the repeated comparison |
| `TieBreak.CompareRecords` | mdns/mdns_respond.c:366-434 | class, then type, then data |
| `TieBreak.CompareAuthorities` | mdns/mdns_respond.c:440-489 | two record sets in type order, the first difference deciding and the longer set winning otherwise |
| `TieBreak.TextCmpIff` | mdns/mdns_respond.c:414-429 | the coded TXT comparison is the lexicographic one if and only if it does not miss a lower octet |
| `TieBreak.WhoGivesWay` | mdns/mdns_respond.c:440-489 | of two hosts comparing each other's records for a name one gives way if and only if the records differ, and both do if and only if their TXT data clash: the first difference is downwards for one host, which has a greater octet elsewhere, or more octets, or as many and the greater record behind in the ideal order |
| `TieBreak.AgreeingTexts` | mdns/mdns_respond.c:440-489 | when no TXT data clash the code decides by the ideal order |
| `TieBreak.IdealSetOrder` | mdns/mdns_respond.c:436-489 | the ideal order is antisymmetric and 0 exactly for equal sets |
| `TieBreak.IdealSetTransitive` | mdns/mdns_respond.c:436-489 | the ideal order is transitive |
| `TieBreak.BothGiveWay` | mdns/mdns_respond.c:418-421 | two sets for which both hosts give way |
| `Conflict.FixedIffConflicts` | mdns/mdns_respond.c:495-608 | the return value is 0 if and only if the message conflicts with none of the names, and then no name changes |
| `Conflict.FixedReachable` | mdns/mdns_respond.c:495-608 | whatever is heard, the names stay among those that numbering the original ones gives |
| `Claim.Responder.constructor` | mdns/mdns_respond.c:645-669 | the initial state |
| `Claim.Responder.RenameHost` | mdns/mdns_respond.c:521-533 | the host name is renamed, or started over when its numbers are used up |
| `Claim.Responder.RenameService` | mdns/mdns_respond.c:540-597 | the service name is renamed and the offset of its type moves with it |
| `Claim.Responder.CheckServices` | mdns/mdns_respond.c:535-561 | the services are held against one question of a probe, each at most once |
| `Claim.Responder.FixProbe` | mdns/mdns_respond.c:503-564 | a foreign probe renames what loses the tie-break |
| `Claim.Responder.FixAnswers` | mdns/mdns_respond.c:566-607 | a response renames what it contradicts |
| `Claim.Responder.FixConflicts` | mdns/mdns_respond.c:495-608 | names and return value after any message |
| `Claim.Responder.ProcessProbeResponse` | mdns/mdns_respond.c:614-642 | a conflict sends the claim back to the start, anything else leaves it and waits on |
| `Claim.Responder.OnPacket` | mdns/mdns_respond.c:727-862 | what each state does with a packet |
| `Claim.Responder.OnTimer` | mdns/mdns_respond.c:727-862 | what each state does when its time is up, with the packet it prepares; a probe that could not be prepared is sent all the same |
| `Claim.Responder.Reply` | mdns/mdns_respond.c:796-862 | a query is answered now or after a delay, with the packet that holds the answers |
| `Claim.Responder.SayGoodbye` | mdns/mdns_respond.c:690-707 | the present names are announced with lifetime 0, exactly when that packet fits, and the responder stops |
| `Claim.Responder.Pass` | mdns/mdns_respond.c:645-862 | one pass of the loop is one step of the protocol |
| `OwnProbe.OwnAreRead` | mdns/mdns_respond.c:93-117 | the authorities that the parser leaves of a probe, decoded as the tie-break reads them, are the records the host claims, one by one |
| `OwnProbe.FirstProbe` | mdns/mdns_respond.c:727-735 | so the probe of a launched host is prepared exactly when it fits, and the tie-break then compares with those records |
| `Claim.StepKeepsInv` | mdns/mdns_respond.c:645-862 | every step keeps: attempts to probe for the present names, 250 ms between them counting the pending timeout, no conflict in between; an attempt is a probe if the probe fits a packet and an incomplete packet if not |
| `Claim.ClaimAttempts` | mdns/mdns_respond.c:614-862 | in every run each announcement follows three attempts to probe for exactly its names, 250 ms apart and before it, with no conflict handled since the first, whether or not they fitted; responses are given only under announced names |
| `Claim.ConflictRestarts` | mdns/mdns_respond.c:614-642 | in a probing state the claim starts over if and only if the message conflicts |
| `Claim.ClaimSafety` | mdns/mdns_respond.c:614-862 | if the probe with all names at their longest fits a packet, in every run each announcement follows three probes for exactly its names, 250 ms apart and before it, with no conflict handled since the first; responses are given only under announced names |
| `Overgrown.ClaimSafetyIff` | mdns/mdns_respond.c:727-794 | for a host that passed the launch check every announcement of every run follows three probes for its names if and only if the probe with all names at their longest fits a packet |
| `Overgrown.AnnouncesUnprobed` | mdns/mdns_respond.c:727-794 | for any host whose longest probe does not fit, a run with conflicts over all its names, three incomplete packets and the announcement |
| `Overgrown.RivalRenames` | mdns/mdns_respond.c:495-608 | one response that contradicts all names brings each to its longest |
| `Overgrown.UnprobedWitness` | mdns/mdns_respond.c:727-794 | a launched host that announces names for which no complete probe was ever sent |
| `Claim.LaunchedHostsClaim` | mdns/mdns_respond.c:775-794 | after a successful launch the third timeout leads to the announcement |
| `Claim.TypeOffset` | mdns/mdns_respond.c:58-73 | behind the first label of a service name lies the name of its type |
| `Claim.GrowsByTwo` | mdns/mdns_respond.c:547-557 | a renamed label is as long as before or two octets longer, as the offset assumes |
| `Clock.IntervalBound` | mdns/mdns.c:529-534 | the interval is never more than the time that went by, and at most one less below one wrap |
| `Clock.RecalcEnough` | mdns/mdns.c:540-552 | an interrupted wait is never cut short, across any number of wraps |
| `Clock.SleepTime` | mdns/mdns_query.c:1209-1213 | the sleep time is at least the time slept and at most one more, for sleeps below one wrap |
| `LinkLocal.ScaledInRange` | 8388V-SDK/Applications/customApp/src/sys_threadx_treck.c:236-252 | every random word is mapped between floor and ceiling |
| `LinkLocal.SysRandom` | 8388V-SDK/Applications/customApp/src/sys_threadx_treck.c:236-252 | the step-by-step computation does that without overflow |
| `LinkLocal.RandomIp` | 8388V-SDK/Applications/customApp/src/linklocal.c:86-93 | the candidate lies in 169.254.1.0 to 169.254.254.255 for every random word |
| `LinkLocal.Claimer.constructor` | 8388V-SDK/Applications/customApp/src/linklocal.c:188-200 | the initial state, whatever the conflict counter holds |
| `LinkLocal.Claimer.Pass` | 8388V-SDK/Applications/customApp/src/linklocal.c:188-333 | one pass of the loop is one step of the protocol |
| `LinkLocal.StepKeepsInv` | 8388V-SDK/Applications/customApp/src/linklocal.c:188-333 | every step keeps the claim's history in order |
| `LinkLocal.ClaimSafety` | 8388V-SDK/Applications/customApp/src/linklocal.c:188-333 | in every run the stack is started only on an eligible address that was probed for and announced twice with no conflict since it was picked; with three probes unless the run was rate limited before |
| `LinkLocal.OneProbeIsEnough` | 8388V-SDK/Applications/customApp/src/linklocal.c:295-307 | a rate-limited run that starts the stack after a single probe |
| `KnownAnswers.AddAnswerOffset` | mdns/mdns.c:320-338 | owner pointer, type, class and lifetime are written and counted, exactly when they fit; otherwise nothing changes |
| `KnownAnswers.AddNameLabelOffset` | mdns/mdns.c:384-396 | length, label and pointer are written, exactly when they fit; otherwise nothing changes |
| `KnownAnswers.AnswerDecodes` | mdns/mdns_query.c:1086-1097 | in any packet that holds the question the octets decode to a complete PTR from the type to the instance, of exactly the size checked for |
| `KnownAnswers.OneMoreDue` | mdns/mdns_query.c:1086-1103 | adding the answers of one more monitor and raising the count is the packet with that monitor's answers behind the others |
| `KnownAnswers.KnownAnswersDecode` | mdns/mdns_query.c:1073-1103 | in the finished packet the answers of every monitor due are complete PTR records from its type to its instances, one behind the other without gaps |
| `CacheNames.RunNamed` | mdns/mdns_query.c:907-1053 | whatever well-formed names packets and users bring, every stable run keeps this: every name in the cache has labels of 1 to 63 octets, and every cached instance a name that could be taken apart |
| `CacheNames.AlwaysNamed` | mdns/mdns_query.c:1188-1312 | so it holds after every stable run from launch on |
| `CacheNames.UpdateCacheNamed` | mdns/mdns_query.c:907-1053 | a packet keeps that |
| `QueryPacket.AskIn` | mdns/mdns.c:264-272 | a question is written into the packet exactly when the query takes it, and the packet stays the wire form of the query |
| `QueryPacket.MonitorsAsk` | mdns/mdns_query.c:1135-1163 | over any list of monitors: a walk that does not fail leaves due exactly those whose time had come, each with its question in the packet at its offset, however much was asked behind it |
| `QueryPacket.DueMeansAsked` | mdns/mdns_query.c:1135-1178 | so after the first pass over the monitors of any cache that is reached, a refresh time of 0 means that the monitor asked in this packet, at its offset |
| `QueryPacket.PacketDecodes` | mdns/mdns_query.c:1110-1185 | in the packet of a pass the answers of each monitor due decode to PTR records from its type to the first labels of its cached instances, with what is left of each PTR |
| `Slist.InsertHead` | mdns/queue.h:184-187 | the links hold the lists with the element in front of one of them |
| `Slist.RemoveHead` | mdns/queue.h:210-212 | the links hold the lists without the first element of one |
| `Slist.Remove` | mdns/queue.h:191-212 | a member is unlinked wherever it stands, and its own link still leads to what followed it |
| `Pools.FreeLinked` | mdns/mdns_query.c:321-337 | releasing a cached instance keeps every slot on exactly one list and the cross-references exact, and frees its record with the last instance |
| `Pools.AllocLinked` | mdns/mdns_query.c:942-947 | taking a slot keeps them |
| `Pools.AttachLinked` | mdns/mdns_query.c:504-530 | giving an instance an active record keeps them |
| `Pools.AttachOrphans` | mdns/mdns_query.c:504-530 | no record is left active without an instance if and only if the one left behind has another |
| `Pools.GrabLinked` | mdns/mdns_query.c:559-573 | activating a record keeps them |
| `Pools.WatchLinked` | mdns/mdns_query.c:300-314 | taking a monitor keeps them |
| `Pools.UnwatchLinked` | mdns/mdns_query.c:360-383 | releasing a monitor without instances keeps them |
| `Pools.Pigeonhole` | mdns/mdns_query.c:559-567 | an instance without a record always finds a free one |
| `Pools.SharedPigeonhole` | mdns/mdns_query.c:559-567 | and so does one that shares its record |
| `Pools.Conserved` | mdns/mdns_query.c:353-369 | with no monitor active every slot of the three pools is free |
| `Cache.AskFits` | mdns/mdns.c:264-272 | a question enters the query exactly when its octets fit the packet, and takes up as many |
| `CacheInv.ReactSound` | mdns/mdns_query.c:653-744 | the reaction to a change keeps cross-references, addresses and the language of callbacks |
| `CacheInv.LostSound` | mdns/mdns_query.c:653-744 | a lost instance is released and the user told, if told of it before |
| `CacheInv.UnmonitoredSound` | mdns/mdns_query.c:321-348 | unmonitoring releases silently |
| `CacheInv.KnownPtrSound` | mdns/mdns_query.c:924-939 | a PTR goodbye tells the user and releases |
| `CacheInv.NewInstanceSound` | mdns/mdns_query.c:941-956 | a new instance takes a slot, or gives it back when its name cannot be kept |
| `CacheInv.SetArecSound` | mdns/mdns_query.c:504-530 | the instance has the record's address exactly while it claims one |
| `CacheInv.NewRecordSound` | mdns/mdns_query.c:559-573 | a new record is for a host that had none |
| `CacheInv.SrvKeepsSound` | mdns/mdns_query.c:536-586 | an SRV keeps the cross-references right if and only if it does not find the records used up while the instance has another one |
| `CacheInv.SrvKeepsGood` | mdns/mdns_query.c:536-586 | it also leaves no record active for nothing if and only if the host is the same, or none was known, or another instance stays with the old one |
| `CacheSteps.TellAllSound` | mdns/mdns_query.c:749-760 | the walk that moves each instance to the front visits each once and leaves the list reversed |
| `CacheSteps.RevSame` | mdns/mdns_query.c:749-760 | the reversed list is a permutation |
| `CacheSteps.SetIpSound` | mdns/mdns_query.c:749-766 | a new address reaches all instances of the record |
| `CacheSteps.EvictSound` | mdns/mdns_query.c:771-788 | the plain walk releases every instance of the record, its list is empty behind it, and the record is free |
| `CacheSteps.GotAddrSound` | mdns/mdns_query.c:795-899 | an A record, or its goodbye, keeps the invariant |
| `CacheSteps.UpdateCacheGood` | mdns/mdns_query.c:907-1053 | a packet none of whose SRVs moves the last instance of a host keeps the invariant |
| `CacheSteps.PrepareSound` | mdns/mdns_query.c:1110-1185 | a timer pass keeps it |
| `CacheSteps.AddServiceSound` | mdns/mdns_query.c:286-315 | a new monitor keeps it |
| `CacheSteps.RemoveServiceSound` | mdns/mdns_query.c:353-384 | and so does unmonitoring one type or all |
| `CacheRun.LaunchGood` | mdns/mdns_query.c:1286-1312 | the launch state has it |
| `CacheRun.RunGood` | mdns/mdns_query.c:1188-1283 | every run in which no SRV moves the last instance of a host to another one keeps it |
| `CacheRun.PoolsKept` | mdns/mdns_query.c:1188-1283 | after every such run each instance, record and monitor is on exactly one list, `s` is on the list of `a` if and only if it is cached and refers to it, and a record is active if and only if it has an instance |
| `CacheRun.RecordAlways` | mdns/mdns_query.c:559-567 | the branch for an exhausted record pool is never taken in such a run |
| `CacheRun.Conservation` | mdns/mdns_query.c:353-369 | unmonitoring everything after any such run frees every slot of the three pools |
| `CacheRun.CallbackLanguage` | mdns/mdns_query.c:637-744 | at every moment of every such run the callbacks of a tenure are a prefix of DISCOVERED UPDATED* DISAPPEARED |
| `CacheRun.Farewells` | mdns/mdns_query.c:637-744 | between turns a finished tenure that was shown ends with DISAPPEARED if and only if it was not ended by unmonitoring |
| `CacheRun.FullMeansFull` | mdns/mdns_query.c:958-1005 | CACHE_FULL is reported only when every slot holds an instance |
| `CacheRun.AddressesCoherent` | mdns/mdns_query.c:504-530 | an instance that claims an address has that of its record; every DISCOVERED and UPDATED was given with both records known and that address |
| `CacheRun.AddressReaches` | mdns/mdns_query.c:749-766 | after an A record an instance claims an address if and only if it did before or the address is new |
| `CacheRun.TxtNoticed` | mdns/mdns_query.c:463-485 | a TXT whose text fits the text buffer is noticed exactly if what is kept of it differs, except one of 256 octets or more that extends a shorter one |
| `CacheRun.TxtWitness` | mdns/mdns_query.c:463-485 | 256 zero octets after a single one: kept they would differ, and they are not noticed |
| `CacheRun.MovedTargetBreaks` | mdns/mdns_query.c:504-586 | in a launched cache of any size, moving the only instance of a host breaks the invariant |
| `CacheView.UserKnows` | mdns/mdns_query.c:637-744 | after every such run a clean instance was last shown exactly as it is, one being updated has been shown, and so has every complete one with a non-zero address |
| `CacheView.TxtToldIff` | mdns/mdns_query.c:463-744 | a TXT leaves the user of a shown instance up to date if and only if it changes nothing or both other records are known |
| `CacheView.SrvToldIff` | mdns/mdns_query.c:536-744 | an SRV does if and only if the port is the same or the record of its host is resolved |
| `CacheView.AddrToldIff` | mdns/mdns_query.c:749-766 | an A record does if and only if the record or the instance has that address already or the SRV of the instance is known |
| `CacheView.UserUpToDate` | mdns/mdns_query.c:637-744 | after every such run all of whose records meet these conditions when they come, the user last saw every shown instance exactly as it is |
| `Unreported.PortUnreported` | mdns/mdns_query.c:536-766 | a run from launch in which the port changes while the address is being refreshed: at its end the record is resolved, its instance claims no address, and the user last saw the old port |
| `Unreported.TextUnreported` | mdns/mdns_query.c:463-744 | a run from launch in which a text arrives while the SRV is being refreshed: at its end the instance is complete and the user has not been told of the text |
| `Unreported.SomeSetting` | mdns/mdns_query.c:423-458 | there are names for which these runs are possible |
| `Unreported.AnswerNamesIff` | mdns/mdns_query.c:1086-1097 | a known answer names the cached instance if and only if its name continues with the type of its monitor |
| `Unreported.ForeignAnswer` | mdns/mdns_query.c:918-956 | a PTR from the monitored type to an instance of another type is cached, and known answers then name an instance that is not |
| `CacheView.UpdateCacheCurrent` | mdns/mdns_query.c:907-1053 | a packet keeps what the user was told up to date, strictly so if each of its records is reported |
| `CacheView.PrepareCurrent` | mdns/mdns_query.c:1110-1185 | and so does a timer pass |
| `Refresh.ShareExact` | mdns/mdns_query.c:583 | a share of a lifetime is exact if and only if the product fits 32 bits |
| `Refresh.ShareWraps` | mdns/mdns_query.c:583 | a lifetime for which it wraps to zero |
| `Refresh.AgeInstanceTicks` | mdns/mdns_query.c:593-631 | aging an instance is one tick of its clockwork, asks for it with every attempt for which the packet has room, and releases it exactly when the clockwork ends |
| `Refresh.LifeExact` | mdns/mdns_query.c:593-631 | with nothing heard an instance is given up after exactly the attempts left, each asked for if the packet had room, and not before the waits scheduled for them have been charged |
| `Refresh.LifeEnds` | mdns/mdns_query.c:593-631 | and it is given up after boundedly many passes |
| `Refresh.TickLowers` | mdns/mdns_query.c:593-631 | every pass strictly lowers the share and the time left, in lexicographic order |
| `Refresh.InstanceLife` | mdns/mdns_query.c:580-631 | from the receipt of an SRV: three attempts, and no end before 80, 80, 10 and 5 percent of the lifetime have been charged |
| `Refresh.AgeRecordTicks` | mdns/mdns_query.c:809-899 | aging a record is one tick of its clockwork, and it asks exactly when the clockwork does |
| `Refresh.RecordLifeExact` | mdns/mdns_query.c:809-899 | a record is given up after exactly the attempts left, and not before their waits |
| `Refresh.RecordLifeEnds` | mdns/mdns_query.c:809-899 | and after boundedly many passes |
| `Refresh.AddressLife` | mdns/mdns_query.c:761-899 | from the turn in which an A record was received: three attempts, and no end before what the charge before it left of the first 80 percent, and 10, 5 and 2 percent of the lifetime have been charged |
| `Refresh.LeavesTurn` | mdns/mdns_query.c:761-899 | the turn that receives an A record leaves its wait shorter by the time charged for the sleep before the receipt, and asks for it again at once if and only if that was 80 percent of the lifetime |
| `Refresh.UnansweredLife` | mdns/mdns_query.c:810-874 | a record never resolved is asked for three times, and charged with at least 870 ms |
| `Refresh.ElapsedCancels` | mdns/mdns_query.c:576-583 | augmenting a lifetime by the elapsed time is undone by the pass exactly if the sum fits |
| `Refresh.ReceivedBeforePass` | mdns/mdns_query.c:576-631 | so an SRV or PTR received in a turn leaves it with its full lifetime |
| `Lifetimes.ChargedAtMost` | mdns/mdns_query.c:1209-1213 | however often the querier wakes up, it never charges more than the time that went by and a millisecond for every sleep |
| `Lifetimes.LastsIff` | mdns/mdns_query.c:1209-1213 | any waits, one after the other, last for x milliseconds of time through every n sleeps if and only if there are fewer sleeps than waits, or x and n together are no more than the waits |
| `Lifetimes.InstanceLastsIff` | mdns/mdns_query.c:576-631 | so an instance received with a lifetime is kept for x milliseconds through every n sleeps if and only if n is less than 4 or x and n together are at most 80, 80, 10 and 5 percent of the lifetime |
| `Lifetimes.BurstEnds` | mdns/mdns_query.c:1209-1213 | for every instance a burst of packets that ends it in no time at all |
| `Lifetimes.AddressLastsIff` | mdns/mdns_query.c:761-899 | an address is kept for x milliseconds from its receipt on if and only if there are too few sleeps to end it, or x and their number are at most what is left of the first 80 percent, and 10, 5 and 2 percent |
| `Lifetimes.AddressPromiseIff` | mdns/mdns_query.c:761-765 | so 80, 10, 5 and 2 percent are kept only while there are too few sleeps to end it at all |
| `Lifetimes.GoneEarly` | mdns/mdns_query.c:761-765 | ten seconds received after a sleep charged with eight, gone 1697 ms later |
| `Lifetimes.UnansweredTime` | mdns/mdns_query.c:810-874 | a record never resolved is asked for three times, over at least 871 ms less one for every sleep |
| `Wakeup.PreparePass` | mdns/mdns_query.c:1110-1185 | after a pass that returns 0 or 1 every record and instance has ticked exactly once, every monitor has waited on or asked, and the next event is no later than any of their refreshes |
| `Wakeup.PeriodDoubles` | mdns/mdns_query.c:1141-1143 | the period of a monitor doubles from one second with every query, up to a minute |
| `Wakeup.PassLowers` | mdns/mdns_query.c:1110-1185 | every pass brings the end of every instance and record nearer |
| `Wakeup.AddressReceived` | mdns/mdns_query.c:749-766 | an A record with a lifetime leaves its record resolved with that address and lifetime, whatever was there |
| `Wakeup.SilenceEmpties` | mdns/mdns_query.c:1110-1185 | with nothing heard and no pass failed, as many passes as the longest timer allows leave no instance cached and no record active |
| `Silence.AlwaysEmpties` | mdns/mdns_query.c:1110-1185 | with nothing heard and room in a packet for the questions of the monitors, that many passes for the records and as many for each monitor leave the cache empty, failed or not |
| `Silence.NeverEmpties` | mdns/mdns_query.c:1145-1148 | when the monitors before the last are to ask, have no instances, and their questions do not fit, no pass ever ages what is behind them |
| `Silence.EmptiesIff` | mdns/mdns_query.c:1110-1185 | for every cache with the invariant: some number of passes is enough to empty it, whatever time goes by, if and only if every instance without an address record belongs to a monitor that a pass gets to even if all of them ask |
| `Pacing.FiveAlwaysEmpty` | include/mdns.h:89-90 | after every stable run with at most five monitors, one more than there are by default, silence empties the cache |
| `Pacing.RunPaced` | mdns/mdns_query.c:1137-1183 | no run lets a monitor wait for more than a minute, or makes a type longer than users can |
| `Pacing.SleepIff` | mdns/mdns_query.c:1264-1276 | a pass that does not fail lets the querier sleep for at most a minute if something is monitored, and without limit if not |
| `Pacing.UnlimitedIff` | mdns/mdns_query.c:1137-1148 | one that fails at a monitor lets it sleep without limit if and only if every record is given up in it, and the monitors before that one ask and have no instance that is not given up |
| `Pacing.UnreadUncharged` | mdns/mdns_query.c:1251-1259 | turns whose packet cannot be read age nothing, whatever time goes by |
| `Crowded.NeverEmptied` | mdns/mdns_query.c:1137-1152 | a run from launch: six long types are monitored, an instance of the first is found, and a minute later all of them are to ask. From then on no passes empty the cache, and every pass lets the querier sleep without limit |
| `Querier.Querier.constructor` | mdns/mdns_query.c:1286-1312 | the links hold the launch state: every slot on its free list |
| `Querier.Search` | mdns/queue.h:160-163 | a walk along the links finds the first element of the list with the name |
| `Querier.Querier.FindServiceMonitor` | mdns/mdns_query.c:271-281 | the first active monitor for the type |
| `Querier.Querier.FindServiceInstance` | mdns/mdns_query.c:390-401 | the first instance of a monitor with the name |
| `Querier.Querier.FindArec` | mdns/mdns_query.c:490-499 | the first active record for the host |
| `Querier.Querier.CleanupSinst` | mdns/mdns_query.c:321-337 | the links hold the cache without the instance, its own cross-reference link left in place |
| `Querier.Querier.Notify` | mdns/mdns_query.c:653-744 | the callback of an update and the next state |
| `Querier.Querier.GotTxtEvent` | mdns/mdns_query.c:463-485 | the cache after a TXT |
| `Querier.Querier.LinkArec` | mdns/mdns_query.c:504-530 | the links hold the instance in front of the record's list; reports whether anything changed |
| `Querier.Querier.GotArecEvent` | mdns/mdns_query.c:637-744 | the cache after a new address for an instance |
| `Querier.Querier.LostArecEvent` | mdns/mdns_query.c:655-722 | the cache after an instance lost its record |
| `Querier.Querier.ArecFor` | mdns/mdns_query.c:558-574 | the record there is for a target, one from the free list, or none |
| `Querier.Querier.TakeSrvRecord` | mdns/mdns_query.c:552-586 | the instance after an SRV with a lifetime; reports whether anything changed |
| `Querier.Querier.GotSrvEvent` | mdns/mdns_query.c:536-744 | the cache after an SRV, or its goodbye |
| `Querier.Querier.SetAddress` | mdns/mdns_query.c:749-766 | the walk that relinks what it stands on makes of the links what telling every instance makes of the cache |
| `Querier.Querier.EvictArec` | mdns/mdns_query.c:771-788 | the walk that unlinks what it stands on, without looking ahead, still releases every instance and leaves the list empty |
| `Querier.Querier.GotAddress` | mdns/mdns_query.c:795-899 | the cache after an A record, or its goodbye |
| `Querier.Querier.KnownPtrRecord` | mdns/mdns_query.c:924-939 | the cache after a PTR for a known instance |
| `Querier.Querier.NewSinst` | mdns/mdns_query.c:941-956 | the cache after a PTR for a new instance with a slot free |
| `Querier.Querier.TakePtrRecord` | mdns/mdns_query.c:918-1006 | cache and packet after a PTR, including the overflow path |
| `Querier.CollectOverflow` | mdns/mdns_query.c:966-1005 | what the packet says of an instance without a slot, and the packet without it |
| `Querier.Querier.TakeTxtRecord` | mdns/mdns_query.c:1016-1027 | the cache after one TXT of a packet |
| `Querier.Querier.TakeSrvAnswer` | mdns/mdns_query.c:1029-1040 | the cache after one SRV of a packet |
| `Querier.Querier.TakeAddrRecord` | mdns/mdns_query.c:1042-1050 | the cache after one A record of a packet |
| `Querier.Querier.UpdateServiceCache` | mdns/mdns_query.c:907-1053 | the cache after a packet, with the invariant kept |
| `Querier.Querier.AgeArec` | mdns/mdns_query.c:809-899 | the cache and the packet after a record was aged |
| `Querier.Querier.AgeArecs` | mdns/mdns_query.c:1125-1128 | the walk over the active records, which may unlink the one it stands on, ages each of them once |
| `Querier.Querier.AgeSinst` | mdns/mdns_query.c:593-631 | the cache and the packet after an instance was aged |
| `Querier.Querier.AgeSinsts` | mdns/mdns_query.c:1158-1162 | likewise the walk over the instances of a monitor |
| `Querier.Querier.AgeSmon` | mdns/mdns_query.c:1137-1156 | a monitor asks, its offset that of its question, or waits on |
| `Querier.Querier.AgeSmons` | mdns/mdns_query.c:1135-1163 | the walk over the monitors, ended by a question that does not fit |
| `Querier.Querier.AddKnownAnswers` | mdns/mdns_query.c:1073-1103 | the walk over a monitor's instances writes a prefix of those with a live PTR, whole and counted, and stops only where the next does not fit |
| `Querier.Querier.RearmSmon` | mdns/mdns_query.c:1178-1182 | a monitor due is answered for and armed again |
| `Querier.Querier.RearmSmons` | mdns/mdns_query.c:1177-1183 | the monitors that asked, and no others, are answered for and armed again |
| `Querier.Querier.PrepareQuery` | mdns/mdns_query.c:1110-1185 | cache, packet, return value and next event of a whole pass: the packet holds the questions of the pass, those of the monitors due where their offsets say, and behind them as many known answers as fit |
| `Querier.Querier.Monitored` | mdns/mdns_query.c:286-315 | the cache with one more monitor, or INUSE or NOMEM exactly when the type is known or no slot is left |
| `Querier.Querier.CleanupService` | mdns/mdns_query.c:342-348 | every instance of the monitor is released |
| `Querier.Querier.DropMonitor` | mdns/mdns_query.c:372-383 | the monitor is released with its instances |
| `Querier.Querier.Unmonitored` | mdns/mdns_query.c:353-384 | one type or all types unmonitored |
| `Querier.Querier.Go` | mdns/mdns_query.c:1188-1270 | a turn of the loop is a step of the run, keeps the invariants, leaves the packet of its pass and never schedules the next wake-up late |

## Left out

- Sockets, select, threads, the control socket's transport and the launch and halt
  plumbing: a turn of each loop takes what select reported as its input; the clock
  and the random numbers are parameters.
- The bodies of user callbacks: a callback is an entry in a log.
- Malformed packets. Names are taken to be well formed: every pointer leads before
  the run of labels that ends in it. Loops that a cyclic pointer would keep going
  have a bound on their passes as a parameter, and outcomes of their own for a bound
  used up.
- Owners of SRV and TXT records with fewer than two labels, PTR targets with fewer
  than two labels, and SRV targets of 255 octets or more, in the querier.
- Header bit fields: the flags are one octet, and the parser's byte swap of them in
  place is not modelled.
- The lists by record type that the parser builds: a received packet of the querier
  holds them as sequences in the order they are walked.
- The strings split from an instance name (service name, type, domain) and the text
  of its key/value pairs: the cache keeps the decoded name and the raw TXT data. The
  text is that of `Text.UnpackText`. Service names are taken to be free of zero octets.
- Log output, `mdns/debug.c`, the tests inside the sources and the example program.
- The other files of the SDK tree: vendor glue, ring buffers, and an older copy of
  the responder without conflict handling. They would only add easy members.
- CacheRun.TxtNoticed: takes it that unpacking a text stays in its buffer, as that of at
  most 256 octets does (`Text.UnpackWhole`), because the octets kept for comparison lie
  behind that buffer.
- CacheView.TxtToldIff: takes the same, and so does what follows from it.
- The authorities that an incomplete probe leaves for later comparisons: any records of
  the right shape, as a parameter of the step, because the code does not parse that
  packet and compares with what an earlier one left behind.
- Querier.Querier.UpdateServiceCache: takes it that no SRV moves the last instance of a
  host, because the code does not keep its lists intact otherwise
  (`CacheRun.MovedTargetBreaks`); GotSrvEvent does not.
- Querier.Querier.DropMonitor: unlinks the monitor after releasing its instances, where
  the code does it before; the two touch different links.
- Parser.RoundTrip: leaves out messages with something behind a section of more than 32
  entries, where the parser takes the 33rd entry for the first of the next section.
- CacheNames.RunNamed: takes it that names from packets and users have labels of 1 to 63
  octets and fit 16 bits, as every well-formed name in a packet does.
