# HawkGate: a verified model

HawkGate is a captive portal: two eBPF hooks on a bridge share a dozen maps, `hgctl` mutates those maps, a
reader reports from them, and a small HTTP server answers redirected clients. This project models these
parts in Dafny and proves what every run of them keeps.

The model has two layers. The specification layer is values and functions: `Datapath` makes the hooks and
the `hgctl` actions one transition system over the maps, whose steps are frames on any CPU, actions,
conntrack evictions and table updates, each carrying its own clock samples. The imperative layer is the
program's own form: `Gateway.Gateway` holds the maps as fields and rewrites packet words in place,
`Parser.HgParser`, `Connection.HgConnection` and `Server.HgServer` are the daemon's classes with their loops,
`Rules` and `Report` are the table-building and reporting loops. Each imperative method is proved to do what
its specification function says; `Gateway.Gateway.PerformAll` carries this to whole runs.

| file | subject |
|---|---|
| `Net`, `Checksum`, `Frames` | words, addresses, ones'-complement checksums, frames and their rewriting |
| `Edt` | the earliest-departure-time shaper under every interleaving of CPUs |
| `History`, `Garden`, `Rules` | bounded hash tables as histories, the walled garden, the pre-auth table |
| `Datapath`, `Gateway` | hooks and actions as a transition system, and as mutable maps and packets |
| `Translation`, `Sessions`, `Bindings`, `Accounting`, `Billing`, `InFlight`, `Guests` | theorems over runs of the datapath |
| `Reader`, `Report` | the one-client reader, its agreement with the datapath, the all-clients report |
| `Parser`, `Connection`, `Server`, `Progress` | the HTTP front end |

## Where the code and its promises part

The model follows the code. These are proved, each with the exact condition under which the promise holds.

- The documentation says a session survives an address change. It does exactly when a counter already exists
  for the new address (`Sessions.SurvivesIpChangeIff`).
- The login removes the client's conntrack entry only when the two bytes of its port are equal
  (`Translation.LoginRemovesEntryIff`); the round trip therefore never relies on that removal.
- Rate profiles are keyed by a last octet or byte. Deleting or adding one client changes the profile of every
  client with the same id, and id 0 is shared by all clients without a full pair of limits
  (`Sessions.DeleteUnshapesNeighbours`, `Sessions.AddReshapesNeighbours`).
- An add whose counter does not fit rolls back by deleting the client, also when the MAC already had a
  session: exactly when that MAC has one and the counter of the resolved address is missing and does not fit
  (`Sessions.FailedAddEndsSessionIff`; `Sessions.ClientsAreSessions` counts it as an end of the session).
- The reader treats `expiry == now` as expired and the datapath does not; they differ at that instant only
  (`Reader.ReaderAgrees`). Egress does not look at expiry at all (`Sessions.DownloadsOverRuns`).
- An add by MAC and address (`hgctl add -m <mac> -c <ip>`) before the MAC's first frame leaves the reader without a
  binding. The daemon would issue it if a caller filled in the MAC (`hawkgated/src/bpf/hg_bpf_ctrl.cpp:277-290`);
  its login fills in the address only. Past the session's end the reader still reports AUTH_OK and the portal
  `captive:false` (`Reader.EarlyAddFoolsReader`), exactly when the MAC was not seen and the session expires
  (`Reader.EarlyAddIff`). A del before the first frame does not find the counter, and the reader reports AUTH_OK for
  ever (`Reader.EarlyDelFoolsReader`, `Reader.EarlyDelIff`). `Reader.ReaderAgrees` has the exact condition over
  whole runs.
- `map-del` of a client leaves its counter behind, and the reader reports AUTH_OK for it: it agrees afterwards exactly
  when there was neither a session nor a counter already left behind (`Reader.MapDelIff`).
- `ip_mac` is not the map of latest senders when a MAC silently returns to an address another one took
  (`Bindings.IpMacIsEveryFrameIff`).
- A stale time sample lets the shaper shoot a packet that a leaky bucket would admit (`Edt.StaleSampleDiffers`).
- The exactly-once answer rests on epoll reporting only registered readiness (`Server.MisdeliveryRoutesAgain`).

## Reading the model

Words are 16-bit numbers in network order; a frame is its words and its length in bytes. Clocks are one
monotone clock sampled anew by each reader; samples of different CPUs may arrive in any order, and theorems that
need order say so (`CpuClocksInOrder`, `Monotone`). Map updates fail when a hash is full; conntrack is an LRU map,
so its updates succeed and `Evict` may remove any entry at any time. `stoul` is any partial function. The HTTP
verb field is called `verb` because `method` is a Dafny word.

## Model

| member | source | states |
|---|---|---|
| `Edt.ClosedForm` | kernel/hg_tc.bpf.c:143-160 | after every upload or download run the stored stamp is the maximum of the initial stamp plus all accepted delays and, over every accepted packet, its time sample plus the delays accepted from it on |
| `Edt.ExactDrop` | kernel/hg_tc.bpf.c:149-155 | a packet is shot exactly when one of those candidates, extended by the packet itself, lies beyond its sample plus the horizon |
| `Edt.DropsLeaveNoTrace` | kernel/hg_tc.bpf.c:151-160 | replaying only the accepted packets drops nothing and writes the same stamps and final state |
| `Edt.StampSpacing` | kernel/hg_tc.bpf.c:148-163 | in both directions consecutive departure stamps are at least the later packet's delay apart, never before sample plus delay, and on upload never beyond the horizon |
| `Edt.LoadBound` | kernel/hg_tc.bpf.c:148-160 | the delays accepted between any two accepted uploads fit in the time between their samples plus the horizon, whatever the rates |
| `Edt.BytesVersusLoad` | kernel/hg_tc.bpf.c:144 | flooring the delay loses at most rate - 1 byte-nanoseconds a packet, in both directions of the inequality |
| `Edt.RateBound` | kernel/hg_tc.bpf.c:143-160 | bytes accepted between any two accepted uploads, in lock order and for arbitrary (stale) samples, times 1e9, are at most rate * (time between samples + horizon) + (packets) * (rate - 1) |
| `Edt.PickedRateBound` | kernel/hg_tc.bpf.c:143-160 | the same bound for any selection of the accepted uploads, over the time between the samples of the first and the last selected |
| `Edt.EveryInterleaving` | kernel/hg_tc.bpf.c:143-161 | for every interleaving of time passing, samples taken before the lock and critical sections on any number of CPUs, the shaper's state is that of the packets in lock order |
| `Edt.RateBoundEveryInterleaving` | kernel/hg_tc.bpf.c:143-161 | the rate bound for every such interleaving, also with the commit time of the last packet as the end of the window |
| `Edt.UploadHeadroom` | kernel/hg_tc.bpf.c:143-160 | if clock + horizon + longest delay stays below 2^64, the wrapping 64-bit arithmetic of the program computes the same stamps over every upload run, and they stay within the horizon of the clock |
| `Edt.DownloadHeadroom` | kernel/hg_tc.bpf.c:143-160 | the same for download, where nothing is dropped and the headroom must cover the sum of all delays |
| `Edt.BucketRefinement` | kernel/hg_tc.bpf.c:148-160 | with nondecreasing samples the stamp shaper is, after every run, a bucket that drains one unit a nanosecond and is filled by the delays |
| `Edt.BucketDecides` | kernel/hg_tc.bpf.c:148-155 | and both take the same accept or drop decision on the next packet of every run |
| `Edt.StaleSampleDiffers` | kernel/hg_tc.bpf.c:143-155 | without that hypothesis the two decisions differ exactly when the sample is older than both the last one and the backlog and the drained backlog would fit; a concrete packet is shot that the bucket admits |
| `Checksum.VerifiesIffDivisible` | kernel/hg_tc.bpf.c:508-535 | a folded ones'-complement sum is all ones exactly when the plain sum is positive and divisible by 65535; the all-zero case of section 3 of RFC 1624 is the positivity |
| `Checksum.UpdateIpBalances` | kernel/hg_tc.bpf.c:508-509 | the incremental update of equation 3, section 3 of RFC 1624 compensates the exchanged address modulo 65535 |
| `Checksum.UpdateIpIsTwoWords` | kernel/hg_tc.bpf.c:508-531 | one 32-bit update equals two 16-bit updates, bit for bit |
| `Frames.Classify` | kernel/hg_tc.bpf.h:34-93 | a frame classified as IPv4 carries a full IP header and its protocol; a TCP key carries exactly the ports at ihl * 4; every complete TCP frame is classified |
| `Frames.AssembledIsRead` | kernel/hg_tc.bpf.h:34-93 | a frame laid out as MACs, EtherType and an IPv4 header of ihl words (section 3.1 of RFC 791) is read back field by field; its key has the two ports of TCP and UDP in order and none for any other protocol, and it is invalid exactly when a TCP or UDP header is cut short |
| `Frames.OtherFramesAreRead` | kernel/hg_tc.bpf.h:66-80 | frames cut short of an Ethernet or IPv4 header are invalid, others told by the EtherType at byte 12 |
| `Frames.RewriteFields` | kernel/hg_tc.bpf.c:508-537 | the rewrite sets one end's address and port and the two checksums, and leaves every other word and the length alone |
| `Frames.RewriteKeepsOtherEnd` | kernel/hg_tc.bpf.c:508-537 | the other end keeps its address and port |
| `Frames.RewriteKeepsIpChecksum` | kernel/hg_tc.bpf.c:508-511 | for every header, address and port, with or without options, the IPv4 header checksum (section 3.1 of RFC 791) verifies after the rewrite exactly when it verified before |
| `Frames.RewriteKeepsTcpChecksum` | kernel/hg_tc.bpf.c:530-537 | the same for the TCP checksum over pseudo-header and whole segment (section 3.1 of RFC 9293), odd lengths included |
| `History.PresentIffStanding` | kernel/hg_control.c:1103-1153 | after every run of updates and deletes on a bounded hash, a key is present exactly when some successful put of it was not removed since |
| `History.WithinCapacity` | kernel/hg_tc.bpf.c:70 | as many puts as the capacity never fail |
| `History.OneOperation` | kernel/hg_control.c:1103-1153 | what one update or delete does and answers, by the number of keys already there |
| `Garden.MaskTruncates` | kernel/hg_control.c:1196-1199 | and-ing with the shifted mask is truncation to a multiple of 2^k, for every k up to 32 |
| `Garden.MaskKeepsPrefixBits` | kernel/hg_control.c:1190-1200 | masking in network byte order is truncation of the host-order address to a multiple of 2^(32 - prefix), written as a shift right and back by 32 - prefix |
| `Garden.MaskIsIdempotent` | kernel/hg_control.c:1196-1199 | masking twice is masking once |
| `Garden.SameKeyIffSameNetwork` | kernel/hg_control.c:1159-1203 | two CIDRs are stored under one key exactly when their prefixes and the addresses shifted right by 32 - prefix are equal, so wg-del removes what wg-add stored whatever the host bits |
| `Garden.KeyMatchesCover` | kernel/hg_control.c:1196-1200 | the stored key matches exactly the addresses that agree with the CIDR after a right shift by 32 - prefix |
| `Garden.LookupIsPrefixCover` | kernel/hg_control.c:1206-1259 | after every sequence of wg-add and wg-del, failures at capacity included, the /32 lookup succeeds exactly when a CIDR added and not since deleted covers the address, that is, agrees with it after a right shift by 32 - prefix |
| `Sessions.GardenSize` | kernel/hg_control.c:1206-1231 | wg-add fails exactly for a bad prefix, or for a new network when 64 are stored |
| `Datapath.ApplyEdt` | kernel/hg_tc.bpf.c:129-165 | shaping changes only the stamp of its own direction in the client entry; which stamps are written is `Billing.UploadsAreSpaced` and `Billing.DownloadsAreSpaced` |
| `Datapath.Ingress` | kernel/hg_tc.bpf.c:184-317 | an ingress frame changes bindings, clients, counters and conntrack only, and those only as its path says; unless it was redirected the frame is unchanged; a frame that is not IPv4 changes nothing |
| `Datapath.Egress` | kernel/hg_tc.bpf.c:333-415 | the same for egress, which never expires a session and never writes bindings or conntrack |
| `Datapath.Add` | kernel/hg_control.c:400-568 | an add either changes nothing, or rolls back and thereby removes the client when the counter does not fit, or sets the entry of the resolved MAC and fresh counters at the resolved address |
| `Datapath.Del` | kernel/hg_control.c:571-633 | a delete removes the client and the counter of its bound address |
| `Datapath.Take` | kernel/hg_tc.bpf.c:184-415 | no step changes the portal configuration, the IFB index or the number of CPUs |
| `Translation.RedirectedIff` | kernel/hg_tc.bpf.c:212-315 | exactly which frames are redirected: complete TCP to port 80 of another host, sound IP header, source not bypassed, MAC without session, no pre-auth rule, not in the walled garden |
| `Translation.RedirectEffect` | kernel/hg_tc.bpf.c:493-539 | whatever is redirected is TCP to port 80 of another host; it goes to the portal's address and port, and the original destination is remembered under the client's address and port |
| `Translation.RedirectedFrame` | kernel/hg_tc.bpf.c:508-537 | the redirected frame keeps its source, all words but destination and checksums, and both checksums verify exactly when they did |
| `Translation.ConntrackStep` | kernel/hg_tc.bpf.c:527-528 | nothing but a redirect, an eviction or a map-del changes conntrack |
| `Translation.EntryPersistsOverRun` | kernel/hg_tc.bpf.c:493-528 | an entry survives any run in which its flow is not redirected again, evicted or deleted |
| `Translation.ReplyTranslated` | kernel/hg_tc.bpf.c:578-616 | a portal reply that meets an entry at most 120 s old reaches the client with the original destination as its source, everything else but checksums unchanged and checksums as good as before |
| `Translation.PortalFrames` | kernel/hg_tc.bpf.c:553-621 | whatever the portal sends passes unless its IP header is unsound; only TCP whose flow has an entry at most 120 s old is translated, and everything else (no entry, an old one, not TCP) leaves as it came |
| `Translation.RoundTrip` | kernel/hg_tc.bpf.c:466-616 | redirect, then any run that leaves the flow alone, then the portal's reply within 120 s: the client sees a reply to the frame it sent |
| `Translation.DirectReply` | kernel/hg_tc.bpf.c:578-591 | after every run from the start in which no frame of its flow was redirected, the portal's reply to a client that talks to it directly leaves egress as it came |
| `Translation.ReachableFlows` | kernel/hg_tc.bpf.c:306-317 | in every reachable state each entry holds original port 80 and an original address other than the portal's |
| `Translation.LoginRemovesEntryIff` | kernel/hg_control.c:1016-1033 | the login's map-del, which does not convert the port to network order, removes the flow's entry exactly when the two bytes of the port are equal |
| `Sessions.ClientsStep` | kernel/hg_tc.bpf.c:252-281 | what one step of any kind does to one client entry, told from the step's outcome alone |
| `Sessions.ClientsAreSessions` | kernel/hg_control.c:491-556 | in every run a MAC has a client entry exactly when its last successful add is later than its last delete, map-del, rolled-back add and expiry, and the entry has that add's terms |
| `Sessions.TablesAreHistories` | kernel/hg_control.c:871-970 | frames and client actions never touch the rule tables: each is the run of its own updates |
| `Sessions.IngressDecides` | kernel/hg_tc.bpf.c:210-315 | one frame against one state: which frames leave ingress as they came |
| `Sessions.PortalPort` | kernel/hg_tc.bpf.c:234-248 | a frame to the portal's address without IP options leaves exactly when it is complete TCP to the portal's port |
| `Sessions.OnlySessionsUseIfb` | kernel/hg_tc.bpf.c:283-291 | an authenticated upload that leaves goes to the IFB exactly when one is configured, and nothing else does |
| `Sessions.SafetyOverRuns` | kernel/hg_tc.bpf.c:193-317 | after every run an IPv4 frame leaves ingress undiverted exactly when the history says so: bypassed source, portal address and port, a session that is not past its expiry with a counter added and not deleted since at its source address and within the horizon of the stored stamp, a pre-auth rule, or the walled garden |
| `Sessions.OthersAreDiverted` | kernel/hg_tc.bpf.c:306-317 | every other frame is dropped or rewritten to the portal's address and port |
| `Sessions.OtherFramesOverRuns` | kernel/hg_tc.bpf.c:196-212 | frames that are not IPv4 pass both hooks exactly when their EtherType stands in the level-2 table; truncated ones are dropped; neither changes a map |
| `Sessions.EgressDecides` | kernel/hg_tc.bpf.c:358-415 | one frame against one state: which downloads pass; portal frames leave through the translation |
| `Sessions.DownloadsOverRuns` | kernel/hg_tc.bpf.c:369-415 | over runs, with bindings, sessions, counters and tables all told by the history: a download to an address bound to a MAC with a session passes exactly when the address has a counter, past the expiry too; others by the tables |
| `Sessions.PastExpiry` | kernel/hg_tc.bpf.c:252-266 | a frame that reaches the auth step with now past expiry is shot and ends the session |
| `Sessions.ExpiryIsFinal` | kernel/hg_tc.bpf.c:255-266 | after that no frame in either direction takes the authenticated path for the MAC until a new successful add |
| `Sessions.SurvivesIpChangeIff` | kernel/hg_tc.bpf.c:274-278 | a session's frame from a new address passes exactly when a counter exists for that address, against the documentation's promise that sessions survive address changes |
| `Sessions.AddOutcomes` | kernel/hg_control.c:515-556 | an add succeeds exactly when its pair resolves and client and counter fit, and rolls back exactly when the counter alone does not fit |
| `Sessions.AddsGrant` | kernel/hg_control.c:400-556 | an add by MAC and address, by address alone or by MAC alone gives a session and zeroed counters to the pair as given or as completed by the bindings, with the requested end, whenever both entries fit in 4096; without a binding it fails and changes nothing |
| `Sessions.NewSessionStartsEmpty` | kernel/hg_control.c:494-500 | the first packet of a new session, sampled no earlier than the add, is stamped with its own delay and shot only if that alone exceeds the horizon |
| `Sessions.FailedAddEndsSessionIff` | kernel/hg_control.c:537-550 | an add ends a session exactly when its MAC has one and the counter of the resolved address is missing and does not fit |
| `Sessions.DeleteUnshapesNeighbours` | kernel/hg_control.c:601-611 | deleting one client leaves another shaped exactly when the two do not share a profile id |
| `Sessions.AddReshapesNeighbours` | kernel/hg_control.c:553-556 | adding one client replaces the profile in force of exactly the clients with the same id, unless the rate map (256) is full: 125 bytes a second for each kbit/s and a burst depth of 100 ms; id 0 is shared by all clients without a full pair of limits |
| `Sessions.LimitedAddsKeepApart` | kernel/hg_cli.c:142-165 | two limited adds by addresses with different last octets, or by MAC alone with different last bytes, leave each other's profile alone |
| `Sessions.DelByAddress` | kernel/hg_cli.c:215-225 | del by address ends the session of the MAC bound to it, with its profile and the counter of its own address, and fails without a binding |
| `Sessions.MapDelTwice` | kernel/hg_control.c:998-1054 | map-del fails exactly when there is no entry, and so the second time |
| `Sessions.TableSizes` | kernel/hg_tc.bpf.c:11-71 | a new bypass address, EtherType or protocol rule is refused exactly when its table holds 256, 16 or 64 entries |
| `Accounting.AggregatePercpu` | kernel/hg_reader.c:47-62 | the loop computes the sums and maxima over the CPUs' slots |
| `Accounting.TotalUpdate` | kernel/hg_reader.c:53-61 | replacing one CPU's slot moves each total by that slot's difference |
| `Accounting.CounterStep` | kernel/hg_tc.bpf.c:269-281 | what one step of any kind does to the counters of one address |
| `Accounting.Conservation` | kernel/hg_tc.bpf.c:269-281 | after every run, for every order of whole frames on all CPUs and any clock samples, the aggregated counters are exactly the packets and bytes of the frames that left by the authenticated path since the last reset, and the state is EXPIRE exactly if an expiry hit since |
| `Accounting.LastSeenIsLatest` | kernel/hg_tc.bpf.c:269-281 | where each CPU's own clock samples are in order, last_seen is the largest ingress time among those frames |
| `Accounting.CountersAreHistory` | kernel/hg_control.c:529-540 | in every run an address has a counter exactly when its last successful add is later than the last delete of a client bound to it |
| `Billing.SessionIsShaperRun` | kernel/hg_tc.bpf.c:143-164 | throughout a session under one profile the uploads let through are exactly those the shaper run over the uploads presented accepts, from whatever addresses, counted or shot for a missing counter, and the stamps written on them are the stamps of that run |
| `Billing.UploadsAreSpaced` | kernel/hg_tc.bpf.c:148-164 | so the departure stamps on the uploads of a session are at least each packet's own delay apart, never before sample plus delay and never beyond the horizon |
| `Billing.UnshapedIsUntouched` | kernel/hg_tc.bpf.c:134-141 | a client without a profile, or with rate 0 in the direction, has its frames neither stamped nor shot by the shaper, and its entry left alone |
| `Billing.SessionRate` | kernel/hg_tc.bpf.c:268-281 | and obey the rate bound between any two of them |
| `Billing.GainIsCounted` | kernel/hg_tc.bpf.c:280-281 | what the counter of an address gains, while it is neither reset nor deleted, is what was counted there |
| `Billing.CountedRate` | kernel/hg_tc.bpf.c:268-281 | the uploads of the session counted at one address obey the rate between any two of them |
| `Billing.CounterGainObeysRate` | kernel/hg_tc.bpf.c:268-281 | in a session under one profile, at an address whose counter is kept and where only the session's MAC is counted, the upload bytes a reader sees added obey the profile's rate over the time between the first and the last frame counted there; the MAC may send from other addresses too |
| `InFlight.ShaperRuns` | kernel/hg_tc.bpf.c:143-161 | the shaper below the granularity of frames is the shaper of its own events |
| `InFlight.ConservedInFlight` | kernel/hg_tc.bpf.c:257-281 | at every instant of every interleaving of expiry sample, shaper sample, critical section and counter increment on any number of CPUs, what the counters gained together with what passed the shaper and is not yet counted is exactly what the shaper let through |
| `InFlight.GainInFlightObeysRate` | kernel/hg_tc.bpf.c:257-281 | so at every such instant the upload bytes counted obey the rate bound |
| `InFlight.Uninterrupted` | kernel/hg_tc.bpf.c:257-281 | a frame that nothing interrupts does what a whole step does to stamp and counter |
| `Billing.SessionIsDownloadRun` | kernel/hg_tc.bpf.c:380-395 | throughout a session under one download rate no download is shot by the shaper, and the stamps written are those of the download run |
| `Billing.DownloadsAreSpaced` | kernel/hg_tc.bpf.c:384-395 | so they are at least each packet's own delay apart |
| `Bindings.MacIpIsEveryFrame` | kernel/hg_tc.bpf.c:226-231 | mac_ip always equals the map written on every frame |
| `Bindings.IpMacIsLatestChange` | kernel/hg_tc.bpf.c:226-231 | ip_mac[ip] is the sender of the latest frame from ip whose sender's recorded address differed from ip |
| `Bindings.MapsCoverEachOther` | kernel/hg_tc.bpf.c:226-231 | every MAC in ip_mac is bound in mac_ip and every address in mac_ip is a key of ip_mac |
| `Bindings.IpMacIsEveryFrameIff` | kernel/hg_tc.bpf.c:226-231 | ip_mac equals the always-written map throughout a run exactly when no MAC whose address was taken by another returns to it without having sent from elsewhere |
| `Bindings.BindingStep` | kernel/hg_tc.bpf.c:222-231 | only a frame that reaches the binding step changes the two maps |
| `Bindings.DatapathBindings` | kernel/hg_tc.bpf.c:214-231 | the datapath's bindings after every run, failed updates of full maps included, are those of the frames that reached the binding step |
| `Bindings.WrittenIsBound` | kernel/hg_tc.bpf.c:52-71 | up to 4096 MACs and addresses no update fails, so the results above hold of the datapath's bindings |
| `Reader.LawfulRun` | kernel/hg_reader.c:393-412 | with static one-to-one leases, frames from leased addresses and adds by MAC and address of leased pairs, every run keeps, map-del and full binding maps included: a pair is in both binding maps or neither, a session has a counter that reads AUTH_OK, and without one the counter is gone, reads EXPIRE or is orphaned by a map-del or by a del before the first frame |
| `Reader.ReaderAgrees` | kernel/hg_reader.c:103-156 | in every such run and at every time the three agree on a leased address exactly when its counter is not orphaned and its MAC is bound (seen), or has no session, or has one that has not reached its expiry; to agree is that hg_read_one reports AUTH_OK exactly when the client entry exists and expiry is 0 or later than now, that captive:false (section 5 of RFC 8908, hawkgated/src/portal/hg_portal.cpp:116-132) implies the datapath's expiry check admits the client, the two differing only at the instant of expiry, and that a session has its counter |
| `Reader.SeenFirstAgrees` | kernel/hg_reader.c:103-156 | so they always agree in those of these runs that have no map-del and in which an add by MAC and address names a MAC already seen |
| `Reader.EarlyAddIff` | kernel/hg_control.c:409-423 | an add by MAC and address leaves a reader that will agree at every time exactly when the MAC has been seen or the session never expires |
| `Reader.EarlyDelIff` | kernel/hg_control.c:613-623 | after a del the counter stays exactly when it was there and the MAC is not bound; the reader agrees exactly when the MAC is bound, or there was neither session nor orphaned counter |
| `Reader.EarlyAddFoolsReader` | kernel/hg_control.c:409-423 | the failing input: after an add before the first frame, past its end, the portal says captive:false and the datapath's expiry check refuses |
| `Reader.EarlyDelFoolsReader` | kernel/hg_control.c:613-623 | after such an add and a del the client is gone and the reader reports AUTH_OK for ever |
| `Reader.NeverWithoutCounter` | kernel/hg_tc.bpf.c:270-278 | in every such state no frame, up or down, is shot for a missing counter |
| `Reader.MapDelIff` | kernel/hg_control.c:1036-1054 | after a map-del of a leased client the reader agrees exactly when there was neither a session nor an orphaned counter; otherwise it goes on saying captive:false for a client the datapath no longer knows |
| `Reader.ExpiryIsReported` | kernel/hg_reader.c:53-61 | after an expiry the reader reports EXPIRE at every later time until re-add or delete, although only one CPU's slot was written |
| `Reader.AddThenRead` | kernel/hg_control.c:482-556 | a successful add read back: empty counters; for an address bound to the MAC EXPIRE from the requested end on and the requested kbit rates, or none when the derived id is 0 or the rate map is full; for an unbound address AUTH_OK for ever; for one bound to another MAC that MAC's expiry |
| `Reader.HalfAddsGrant` | hawkgated/src/bpf/hg_bpf_ctrl.cpp:291-301 | the daemon's login adds by address alone: with static leases, once a MAC has been bound, an add naming only its address, or only it, gives it a session at its leased address when both entries fit; before that it fails and changes nothing |
| `Reader.OutcomeMatchesLease` | kernel/hg_cli.c:93-170 | an add or delete by MAC, by address or by both concerns a leased pair |
| `Report.Sort` | kernel/hg_reader.c:310-319 | the order is descending and the entries are the same, which is all the rest uses of qsort |
| `Report.Keep` | kernel/hg_reader.c:328-353 | the in-place filter leaves exactly the entries that pass, in order, at the front |
| `Report.KeptBag` | kernel/hg_reader.c:328-353 | filtering keeps every copy of what passes and nothing else |
| `Report.SumsPermute` | kernel/hg_reader.c:275-296 | the totals do not depend on the kernel's order of enumeration |
| `Report.CountsAreFilters` | kernel/hg_reader.c:275-296 | active, expired and blocked counts are the lengths of the lists the filters return |
| `Report.Fill` | kernel/hg_reader.c:249-302 | one row per counter key, each as the one-client reader would fill it, and the totals over all of them |
| `Report.ReadAll` | kernel/hg_reader.c:189-362 | the report is descending, drawn from the matching rows, of length min(limit, matching) for a positive limit, and nothing omitted outweighs it; the summary covers all clients whatever filter and limit |
| `Report.TopClients` | kernel/hg_reader.c:310-361 | in terms of clients: reported entries are what the one-client reader says of distinct clients that pass, in descending order of the chosen byte count and at most limit; a passing client is missing only when the limit is used up by clients with at least as many bytes |
| `Report.SummaryIsHistory` | kernel/hg_reader.c:275-296 | after every run, for any clock samples, the totals are the bytes and packets of the frames of the authenticated path since each reset, and every client counts as active or expired, none as blocked |
| `Rules.ProbesAccept` | kernel/hg_tc.bpf.c:426-458 | for any table the five probes accept exactly the matching rules that do not leave open both the protocol and a port |
| `Rules.RepliesAllowed` | kernel/hg_tc.bpf.c:426-458 | in a table closed under swapping ports a packet is allowed exactly when its reply is |
| `Rules.L4Names` | hawkgated/src/bpf/hg_bpf_ctrl.cpp:122-144 | every name's rules come with their replies |
| `Rules.AddRules` | kernel/hg_control.c:893-917 | adding a name's rules never fails and adds exactly them |
| `Rules.ApplyL3` | hawkgated/src/bpf/hg_bpf_ctrl.cpp:166-184 | the table after the level-3 loop holds exactly the rules of the known names |
| `Rules.ApplyL4` | hawkgated/src/bpf/hg_bpf_ctrl.cpp:186-207 | the same for the level-4 loop on top of it |
| `Rules.ApplyPreauth` | hawkgated/src/bpf/hg_bpf_ctrl.cpp:166-207 | the loops build exactly the configured rules for every list of names |
| `Rules.ConfiguredTable` | hawkgated/src/bpf/hg_bpf_ctrl.cpp:96-144 | for every list of names the table has at most 28 keys (capacity 64), is closed under swapping ports, and the probes read it as a plain wildcard match |
| `Rules.AddsMakeConfigured` | hawkgated/src/bpf/hg_bpf_ctrl.cpp:166-207 | a run of the adds the two loops issue leaves the map with exactly the configured rules |
| `Guests.GardenIsCover` | kernel/hg_tc.bpf.c:299-304 | after every run the hooks' lookup succeeds exactly when a CIDR of the run's wg-add steps, not deleted since, covers the address |
| `Guests.GuestsOverRuns` | kernel/hg_tc.bpf.c:294-310 | after every run with exactly the configured rules loaded, a frame of a MAC without a session, from a source that is not bypassed and not to the portal, leaves ingress as it came exactly when a rule of a configured name matches it or a standing CIDR covers its destination |
| `Guests.ServicePackets` | hawkgated/src/bpf/hg_bpf_ctrl.cpp:122-144 | which packets each level-4 name lets through: dns exactly UDP with port 53 at either end, and so on for every name; dhcp exactly UDP between 67 and 68 |
| `Guests.ProtocolPackets` | hawkgated/src/bpf/hg_bpf_ctrl.cpp:96-120 | which packets each level-3 name lets through: those of its protocol number |
| `Guests.NamesTogether` | hawkgated/src/bpf/hg_bpf_ctrl.cpp:166-207 | a list of names lets through exactly what one of its names does, and an unknown name nothing |
| `Guests.AnswersPass` | kernel/hg_tc.bpf.c:294-411 | under a configured table a guest's packet passes ingress by the pre-auth rules exactly when its answer passes egress by them |
| `Parser.Find` | hawkgated/src/http/hg_parser.cpp:25-33 | the first occurrence from a position on, or none anywhere |
| `Parser.TurnConsumes` | hawkgated/src/http/hg_parser.cpp:17-104 | every turn of the loop takes a prefix off the buffer and lowers the measure (buffer length, state rank), so feed terminates |
| `Parser.DriveConsumes` | hawkgated/src/http/hg_parser.cpp:15-106 | the consumed bytes followed by the buffer are always the input |
| `Parser.TurnAppended` | hawkgated/src/http/hg_parser.cpp:17-104 | bytes that arrive later do not change a turn, with CRLF split across chunks included |
| `Parser.ChunkInvariance` | hawkgated/src/http/hg_parser.cpp:15-106 | for every stream and every cut into feed calls the final state, request and residual buffer are those of one feed, bytes after COMPLETE or ERROR included |
| `Parser.RoundTrip` | hawkgated/src/http/hg_parser.cpp:21-100 | a well-formed message followed by anything parses back field by field and leaves exactly what follows |
| `Parser.RoundTripInChunks` | hawkgated/src/http/hg_parser.cpp:15-106 | the same in any chunks |
| `Parser.PrintedRoundTrip` | hawkgated/src/http/hg_parser.cpp:21-100 | a request printed from fields, each `key: value` or `key:value`, and fed in any chunks completes with the same verb, path, version and body, with exactly the value last written for each written key and no other key, and leaves exactly what follows it |
| `Parser.DeclaredByFields` | hawkgated/src/http/hg_parser.cpp:73-85 | the length declared by a printed header section is what stoul reads in the value of its last Content-Length field, space or no space, and stays as it was without one |
| `Parser.LastValueWins` | hawkgated/src/http/hg_parser.cpp:68-73 | the header map has exactly the message's keys, each with the last of its values; what a written value comes out as is `Parser.PrintedRoundTrip` |
| `Parser.Soundness` | hawkgated/src/http/hg_parser.cpp:21-100 | whatever completes began with a well-formed message |
| `Parser.CompletesIff` | hawkgated/src/http/hg_parser.cpp:15-106 | exactly the streams that begin with a well-formed message complete, in whatever chunks |
| `Parser.HgParser.Feed` | hawkgated/src/http/hg_parser.cpp:15-106 | the loop over the fields does what the value-level machine does |
| `Parser.HgParser.Reset` | hawkgated/src/http/hg_parser.cpp:3-8 | back to the fresh parser |
| `Connection.ReadsAreOneFeed` | hawkgated/src/http/hg_connection.cpp:6-38 | however reads cut the bytes, the parser ends as after one feed of all of them, and the connection turns to writing exactly on a complete request |
| `Connection.FirstStopDecides` | hawkgated/src/http/hg_connection.cpp:6-38 | unless the request is complete or wrong before it, the first read that is not data decides: a hang-up or an error closes, EAGAIN waits |
| `Connection.WritesAreInOrder` | hawkgated/src/http/hg_connection.cpp:40-57 | every schedule of short writes sends the next piece of the response, and the connection closes exactly on a write error or at the end |
| `Connection.FirstStallDecides` | hawkgated/src/http/hg_connection.cpp:40-57 | before the end of the response the first write that is not a count decides: an error closes and fails, EAGAIN leaves the connection writing; at the end it closes without failure |
| `Connection.HgConnection.Readable` | hawkgated/src/http/hg_connection.cpp:6-38 | the read loop on a socket does what the value-level function does, and takes no more reads than it needs |
| `Connection.HgConnection.Writable` | hawkgated/src/http/hg_connection.cpp:40-57 | the write loop on a socket does what the value-level function does |
| `Connection.HgConnection.QueueResponse` | hawkgated/src/http/hg_connection.cpp:59-64 | queues the response from its first byte |
| `Server.ExactlyOnce` | hawkgated/src/http/hg_server.cpp:171-218 | where the kernel accepts only unused descriptors and reports only registered readiness, for every schedule of accepts, readiness, partial reads and short writes: route is called at most once per accepted connection, with the peer's address and port and the request one feed of the received bytes yields; what was sent is a prefix of that response; a connection gone without a write error sent all of it; READING goes with EPOLLIN and WRITING with EPOLLOUT |
| `Progress.ReadsDrain` | hawkgated/src/http/hg_connection.cpp:6-38 | a connection that goes on reading has taken all that arrived, so the next arrival is a new edge |
| `Progress.WritesFill` | hawkgated/src/http/hg_connection.cpp:40-57 | a connection that goes on writing has filled all the room there was |
| `Progress.AnsweredInFull` | hawkgated/src/http/hg_server.cpp:103-218 | in every such run, once the bytes that read events brought begin with a well-formed message it has been routed, and once the write events since had room for the response the connection is closed, the response sent in full unless a write failed |
| `Server.RoutedIsTheMessage` | hawkgated/src/http/hg_server.cpp:180-188 | the routed request is the well-formed message at the start of the received bytes |
| `Server.PeerOfAccept` | hawkgated/src/http/hg_server.cpp:150-166 | the address and port routed are those of the descriptor's last accept |
| `Server.MisdeliveryRoutesAgain` | hawkgated/src/http/hg_server.cpp:171-188 | a readable event on a writing connection calls route again unless the read fails or the peer closed, so the re-registration is what makes it once |
| `Server.HgServer.AcceptConnection` | hawkgated/src/http/hg_server.cpp:150-166 | a new connection object, registered for input |
| `Server.HgServer.Readable` | hawkgated/src/http/hg_server.cpp:171-193 | handle_readable on the map of connection objects, and that no other connection changes |
| `Server.HgServer.Writable` | hawkgated/src/http/hg_server.cpp:195-208 | handle_writable likewise |
| `Server.HgServer.RemoveConnection` | hawkgated/src/http/hg_server.cpp:210-218 | connection and registration go together |
| `Server.HgServer.Dispatch` | hawkgated/src/http/hg_server.cpp:103-118 | input is looked at before output; new state, call to route, and bytes received and sent |
| `Gateway.FilterProto` | kernel/hg_tc.bpf.h:66-93 | the out-parameters are the classification |
| `Gateway.ParseUdpTcp` | kernel/hg_tc.bpf.h:34-60 | ports of UDP and TCP at ihl * 4, or truncated |
| `Gateway.Skb.StoreIp` | kernel/hg_tc.bpf.c:508-511 | checksum first, then the two words of the address, in place |
| `Gateway.Skb.StorePort` | kernel/hg_tc.bpf.c:530-537 | two updates of one checksum field, then the port, in place |
| `Gateway.Gateway.ApplyEdtShaping` | kernel/hg_tc.bpf.c:129-165 | the critical section on the shared client entry and the stamp on the buffer |
| `Gateway.Gateway.Allowed` | kernel/hg_tc.bpf.c:426-458 | the five probes with one mutated key |
| `Gateway.Gateway.RedirectToPortal` | kernel/hg_tc.bpf.c:466-544 | bytes rewritten in place and the conntrack entry inserted as the specification says, on every early exit too |
| `Gateway.Gateway.SnatFromConntrack` | kernel/hg_tc.bpf.c:546-621 | the reply rewritten in place, or left alone on each early exit |
| `Gateway.Gateway.AuthenticatedUpload` | kernel/hg_tc.bpf.c:250-292 | expiry, shaping, accounting and the IFB verdict |
| `Gateway.Gateway.TcIngress` | kernel/hg_tc.bpf.c:184-317 | the whole ingress hook, frame bytes, maps, verdict and stamp |
| `Gateway.Gateway.TcEgress` | kernel/hg_tc.bpf.c:333-415 | the whole egress hook |
| `Gateway.Gateway.ResolvePair` | kernel/hg_control.c:409-476 | the missing half of the pair from the bindings |
| `Gateway.Gateway.AddAction` | kernel/hg_control.c:400-568 | the pair resolved, then client, counters and rate inserted with rollback |
| `Gateway.Gateway.DelAction` | kernel/hg_control.c:571-633 | rate, client and counter deleted |
| `Gateway.Gateway.MapDelConntracks` | kernel/hg_control.c:998-1033 | the key with the unconverted port |
| `Gateway.Gateway.BypassAdd` | kernel/hg_control.c:1103-1127 | insert, failing when full or unparsed |
| `Gateway.Gateway.BypassDel` | kernel/hg_control.c:1130-1153 | delete, failing when absent or unparsed |
| `Gateway.Gateway.UpdateL2` | kernel/hg_control.c:871-970 | level-2 rules added and deleted |
| `Gateway.Gateway.UpdateProto` | kernel/hg_control.c:871-970 | level-3 and level-4 rules added and deleted |
| `Gateway.WgParseCidr` | kernel/hg_control.c:1159-1203 | default and bad prefixes, and the masked key |
| `Gateway.Gateway.WgAddAction` | kernel/hg_control.c:1206-1231 | parse, then insert; the runs of PerformAll perform it |
| `Gateway.Gateway.WgDelAction` | kernel/hg_control.c:1234-1259 | parse, then delete; the runs of PerformAll perform it |
| `Gateway.Gateway.Perform` | kernel/hg_tc.bpf.c:184-415 | one step of any kind on the mutable maps is one step of the transition system |
| `Gateway.Gateway.PerformAll` | kernel/hg_tc.bpf.c:184-415 | so every run of the imperative program is a run of the transition system, and every theorem about runs holds of it |

## Left out

- Datapath.Take: one hook call or action is one atomic step; the upload path from expiry sample to counter increment is proved over finer interleavings in `Edt` and `InFlight`, for one client with a fixed profile and counter. An `add` between the expiry check and the delete of one frame is not modelled.
- Datapath.ApplyEdt: stamps and counters are unbounded in the datapath model; `Edt.UploadHeadroom` and `Edt.DownloadHeadroom` say when the 64-bit arithmetic agrees, counters are not modelled as wrapping.
- Gateway.Gateway.AddAction: a failing `calloc` and maps that cannot be opened are not modelled.
- Gateway.Gateway.RedirectToPortal: `bpf_skb_pull_data` succeeds and the buffer is linear; partial-offload checksums are not modelled.
- Report.ReadAll: reads one snapshot of the maps; only the two byte orders are modelled, not last-seen and age, whose comparators truncate a time difference to `int`; `qsort` is one sorting loop of which only order and permutation are used.
- Reader.ReadOne: wall-clock times, the MAC text and the horizon of a row, and `seconds-remaining` of the CAPPORT answer.
- Server.HgServer.Dispatch: `epoll_ctl`, `fcntl` and `accept` failures (a connection that fails them is closed before it is registered); `route` is any string; sockets are scripts of what `read` and `write` return, and that the kernel reports each edge is a hypothesis of the progress theorem, not proved.
- Rules.ApplyPreauth: names are translated to parsed rules directly; the text passed to `hgctl` and `strtok` are not modelled, nor is the level-2 name list.
- Gateway.WgParseCidr: starts from the parsed address and number; `inet_pton`, `atoi` and the split at the slash are not modelled.
- Parser.HgParser.Feed: memory limits on the buffer.
- Start and stop of the gateway: only the resulting initial maps; the portal and IFB maps are arrays, so their lookup never fails.
- FQ and IFB: theorems are about stamps, not departure times.
- IPv6, idle timeout, quota and the BLOCK and IDLE states: declared in the source but not enforced by it.
- HTML pages, form fields, the authentication provider, the configuration file, logging, help texts and option parsing: string handling outside the five parts modelled here.
