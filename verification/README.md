# Conntrack dumps, messages, filters and the TCP tracker

A Dafny model of the `vgw` kernel module (a fork of the Linux conntrack netlink code with a TCP sequence
tracker) and of the client command that resets a connection from what the module exports.

Verify everything with `dafny verify dfyconfig.toml`.

| files | part |
|---|---|
| `Conntrack`, `Chains` | identities, tuples, zones, words; order in a chain |
| `TableDump`, `DumpScan`, `DumpRuns`, `DumpRefs`, `DumpCoverage`, `DumpOnce`, `DumpStrand`, `DumpEvict`, `DumpBytes`, `DumpCallback` | the resumable dump of the connection table: a machine whose steps are the stretches between two points where another thread can get in, the callback as imperative code that refines it, and its properties over whole runs |
| `ListWalk`, `ExpectDump`, `ExpectCoverage`, `DyingDump`, `DyingCoverage`, `ListBytes` | the dumps of expectations and of the dying list, on static and on changing lists |
| `Netlink`, `CtMessage`, `Skb`, `EventSize` | attributes as bytes, the content of messages, the writers on a bounded buffer, the predicted size of an event |
| `CtParse`, `RoundTrip` | the parsers of tuples and zones, and the round trip of dump and event messages |
| `Contents`, `MessageSays`, `EventSays` | what dump and event messages say, read from their bytes by the numbers on the wire |
| `Filters`, `FilterRequests`, `PlainRequests`, `ZoneDumps` | filters from request to verdict, dumps of zones, flushes |
| `Tracker`, `TrackerRuns`, `TrackerStates`, `Snapshot`, `RepeatTest`, `SerialTracker` | the tracker per packet, over whole histories and under concurrency |
| `Reset`, `ResetRun` | the client: decoding the export, choosing a flow, and the command from packets to the two resets |
| `Requests` | the handlers that create connections and expectations, with their answers |

Three things are worth knowing before reading.

* **Interference.** In the table dump a run is any sequence of events: the callback is entered with any
  buffer, takes a step (one bucket under its lock, one eviction, closing), or some other thread unlinks a
  node, links one at the head of a chain, expires or changes an entry, or takes and puts references. Exactly
  once is stated for a table that only the dump itself touches, at least once and the reference account for
  every run.
* **Unions.** A member of a union carries the kind it was written as, so that a comparison of two members of
  different kinds is visible as the verdict `Fault`, which is then proved impossible.
* **Numbers.** Words are bounded integers, sums modulo 2^32 are written out, header bytes are host order
  (little endian) where the code uses host order.

## Where the code does not do what one would expect

The model follows the code. In these places a property one would want is false of it; each comes with an
input that shows it and with the exact condition under which the property holds.

* A table-dump call that stops at the very entry it resumed from forgets one reference:
  `DumpStrand.StrandingExample`, from the start of a dump. Without interference it happens exactly when
  `DumpStrand.StrandsIffStuck` says, which can be read off before the call; under any interference as often as
  `DumpStrand.HeldIffStopped` counts, which can be read off before each bucket is visited.
* A filter on an IPv6 address refuses that address and accepts all others, and a filter on a port of a
  protocol other than TCP and UDP ignores the port: `FilterRequests.Ipv6Request` and
  `FilterRequests.SctpRequest`, from the bytes of a request on; exactly when by `Filters.ExactlyWhen`.
* A mask without its mark or status is an error next to anything else, but by itself the request has no filter, so
  that such a flush is for everything: `PlainRequests.MaskAlone`; when a request is refused and what it is about
  otherwise, exactly: `PlainRequests.PlainRequest`.
* The dying-list dump ends early when the entry under its cursor has left the list: `DyingCoverage.LossExample`.
  If every resumed call finds its cursor, each entry that stays listed is sent (`DyingCoverage.AtLeastOnce`).
  When the entry under the cursor leaves, exactly the waiting entries listed behind it are lost, which can be read
  off the list at that moment: `DyingCoverage.LostIffBehind`.
* The tracker's `last_end` is stale after a bare acknowledgement followed by data, because the data repeat its
  two numbers and are skipped: `TrackerRuns.DataAfterAckIsSkipped`. It is right exactly if the last stored packet
  and the latest one are equally long: `TrackerRuns.EndIsLatestIff`, and `TrackerRuns.FirstEndIsLatestIff` if
  nothing was stored.
* The tracker's test for repeats reads outside the lock, so it can pair the sequence number of one packet with
  the acknowledgement number of another and skip a packet that repeats neither: `RepeatTest.TornTest`. What it
  tests under every schedule is `RepeatTest.SkippedIff`; it compares with one stored pair if nobody writes at its
  two moments and nothing is committed between them (`RepeatTest.RepeatTestIff`), and it can go wrong only
  otherwise (`RepeatTest.TornOnlyInRace`).
* The tracker reads the state and writes it outside the lock, so two packets at once can leave a state that
  neither order of them gives: `SerialTracker.StateLost`. As long as no two tracker threads are at work at once,
  state and numbers are those of the packets one after the other, whatever exporters do:
  `SerialTracker.SerialIsSequential`.

## Model

| member | source | states |
|---|---|---|
| `TableDump.AdvanceDecreases` | kmod/vgw_ct_netlink.c:1223-1281 | every step of a table-dump call goes down in a lexicographic measure (phase, remaining buckets, cursor set or not, evictions waiting), so the restart edge cannot loop |
| `DumpScan.ScanFresh` | kmod/vgw_ct_netlink.c:1239-1276 | without a cursor, a pass over a chain sends exactly the selected entries up to the first that does not fit, and that one becomes the cursor |
| `DumpScan.ScanMisses` | kmod/vgw_ct_netlink.c:1256-1281 | a pass that does not meet its cursor sends nothing and leaves the cursor set, which triggers the restart |
| `DumpScan.ScanResumes` | kmod/vgw_ct_netlink.c:1256-1276 | a pass that meets its cursor does what a fresh pass does from that node on |
| `DumpScan.ScanRefs` | kmod/vgw_ct_netlink.c:1242-1273 | the references a pass takes are those of the slots it fills and of the new cursor, and no slot overflows |
| `DumpRefs.EventKeeps` | kmod/vgw_ct_netlink.c:1214-1300 | every step of the dump and of any other thread keeps the account of references: one for the cursor, one for the entry resumed from, one per occupied slot of at most 8, plus what was stranded; at most one restart per call |
| `DumpRefs.RunKeepsAccount` | kmod/vgw_ct_netlink.c:1208-1300 | over any run with any interference the account balances in every state, and the number of stranded references is the number of calls closed while stopped at the entry they resumed from |
| `DumpRefs.DoneHoldsNothing` | kmod/vgw_ct_netlink.c:881-887 | after done the dump holds nothing, if and only if no call of the run stranded a reference |
| `DumpStrand.StrandsIffStuck` | kmod/vgw_ct_netlink.c:1269-1290 | an undisturbed call strands one reference exactly when, before it, the cursor entry is linked, selected, and longer than the empty buffer |
| `DumpStrand.HeldIffStopped` | kmod/vgw_ct_netlink.c:1256-1290 | under any interference a finished dump still holds as many references as there were bucket visits whose first selected entry that did not fit was the one resumed from |
| `DumpStrand.FittingVisitGoesOn` | kmod/vgw_ct_netlink.c:1256-1276 | no visit is such if the entry resumed from fits where it is met, and is not met again after a restart |
| `DumpStrand.StrandingExample` | kmod/vgw_ct_netlink.c:1269-1290 | a concrete dump whose second call strands a reference |
| `DumpCoverage.EventCovers` | kmod/vgw_ct_netlink.c:1239-1281 | each step of the dump, deletion, head insertion, expiry or change keeps this: an entry that stays live and matching is already sent or still ahead of the dump |
| `DumpCoverage.AtLeastOnce` | kmod/vgw_ct_netlink.c:1208-1300 | under any interference with a fixed bucket count, an entry that stays live, linked and matching is sent at least once by a dump that walked all buckets |
| `DumpCoverage.EmptyCallEndsComplete` | kmod/vgw_ct_netlink.c:1208-1300 | when netlink stops after a call that sent nothing although each message fitted, every such entry has been sent |
| `DumpOnce.CallSplits` | kmod/vgw_ct_netlink.c:1208-1300 | one call splits what was left into what it sends and what is left after it; it sends nothing only if nothing was left |
| `DumpOnce.ExactlyOnce` | kmod/vgw_ct_netlink.c:1208-1300 | for any buffer sizes in which each message fits, the calls have sent a prefix of the one-pass list, and all of it after one call more than there are entries |
| `DumpOnce.NothingLeft` | kmod/vgw_ct_netlink.c:1208-1300 | once nothing is left, further calls send nothing |
| `DumpOnce.DumpSendsEachOnce` | kmod/vgw_ct_netlink.c:1208-1300 | a finished dump has sent, in bucket order, each live entry of the namespace that is linked in the original direction and matches, once, and nothing else |
| `DumpBytes.CallFits` | kmod/vgw_ct_netlink.c:1263-1276 | the messages of a call together fit its buffer, and it stops before the end of the table only at a live entry of the namespace that matches and whose message exceeds what they leave |
| `DumpEvict.CallEvicts` | kmod/vgw_ct_netlink.c:1226-1231 | an undisturbed call, from any state between two calls, marks dying only entries that were expired, confirmed and not dying, unlinks exactly those, and drops the table's reference on each of them that was linked and no other reference but its own |
| `DumpEvict.SlotsAreCollected` | kmod/vgw_ct_netlink.c:1291-1297 | an entry remembered in a slot that was expired, confirmed and not dying is dying and linked nowhere when the call returns |
| `DumpEvict.CallCollects` | kmod/vgw_ct_netlink.c:1242-1248 | in every bucket a call walks to its end, if that has at most 8 expired nodes, no entry is left linked that is expired, confirmed and not dying |
| `DumpEvict.SlotsAreCounted` | kmod/vgw_ct_netlink.c:1242-1248 | an entry whose count is zero is never remembered |
| `DumpCallback.Callback.Look` | kmod/vgw_ct_netlink.c:1239-1276 | the code for one node of a chain does one step of the walk, and takes exactly the references it accounts for |
| `DumpCallback.Callback.Drain` | kmod/vgw_ct_netlink.c:1226-1231 | the eviction array is emptied from the top, never under a bucket lock, as the machine does whose evictions `DumpEvict` describes |
| `DumpCallback.Callback.DumpTable` | kmod/vgw_ct_netlink.c:1208-1300 | the callback as written refines a call of the machine, keeps the account of references, takes the restart edge at most once, and holds no lock on return |
| `DumpCallback.Callback.Done` | kmod/vgw_ct_netlink.c:881-887 | the cursor's reference is put, and only what was stranded remains held |
| `ExpectDump.CallsKeepRefs` | kmod/vgw_ct_netlink.c:3188-3288 | whatever each pass sees, and however often the same expectation does not fit, one reference is held when the cursor is set and none otherwise, through done |
| `ExpectDump.ExactlyOnce` | kmod/vgw_ct_netlink.c:3195-3242 | on a static table with fitting messages the calls send each selected expectation once, in order |
| `ExpectDump.MeetsCursor` | kmod/vgw_ct_netlink.c:3206-3236 | a pass that meets the expectation it resumes from never takes the restart edge, even if that expectation does not fit and is on its way out |
| `ExpectCoverage.AtLeastOnce` | kmod/vgw_ct_netlink.c:3195-3242 | an expectation that stays listed is sent by a dump that walked all buckets, while others unlink anywhere and link at the head between passes and calls, and also if the one under the cursor goes, which is what the restart edge is for |
| `ExpectCoverage.EditsKeepOrder` | kmod/vgw_ct_netlink.c:3206-3230 | unlinking anywhere and linking at the head, any number of times, bring nothing behind an expectation that was not behind it |
| `ListBytes.ExpectCallFits` | kmod/vgw_ct_netlink.c:3206-3230 | whatever the passes of a call see, its messages were asked for and together fit its buffer |
| `ExpectDump.Callback.DumpTable` | kmod/vgw_ct_netlink.c:3195-3242 | the callback as written does one call of the specification |
| `ExpectDump.Callback.DumpOfConnection` | kmod/vgw_ct_netlink.c:3244-3288 | the dump of one connection's expectations is the table dump on one bucket |
| `DyingDump.CallsKeepRefs` | kmod/vgw_ct_netlink.c:1747-1852 | whatever the list is at each call, one reference is held when the cursor is set and none otherwise, through done |
| `DyingDump.ExactlyOnce` | kmod/vgw_ct_netlink.c:1758-1852 | on a static list with live entries and fitting messages each selected entry is sent once, in order |
| `ListBytes.DyingCallFits` | kmod/vgw_ct_netlink.c:1758-1797 | whatever the list is, the messages of a call were asked for and together fit its buffer, and the entry it stops at was asked for and does not fit after them |
| `DyingCoverage.AtLeastOnce` | kmod/vgw_ct_netlink.c:1806-1852 | over any run in which entries leave the list and join it at its head, if each resumed call finds its cursor, every entry asked for that stays listed is sent by the time the dump is done |
| `DyingCoverage.LossIsFinal` | kmod/vgw_ct_netlink.c:1826-1849 | after a resumed call that does not find its cursor nothing is ever sent again |
| `DyingCoverage.UnsentIffBehind` | kmod/vgw_ct_netlink.c:1806-1852 | at every moment at which the entry under the cursor is listed, an entry asked for that stayed listed is unsent exactly if the cursor does not come after it in the list |
| `DyingCoverage.LostIffBehind` | kmod/vgw_ct_netlink.c:1822-1849 | when the entry under the cursor leaves the list, exactly the entries it did not come after are never sent, whatever happens afterwards |
| `DyingCoverage.LossExample` | kmod/vgw_ct_netlink.c:1822-1849 | a dump of three entries, from its start, that loses two of them |
| `DyingDump.ResumesIffListed` | kmod/vgw_ct_netlink.c:1822-1849 | with room for every message, a resumed call sends something exactly if its cursor entry is still listed |
| `DyingDump.Callback.DumpDying` | kmod/vgw_ct_netlink.c:1806-1852 | the callback as written does one call of the specification |
| `DyingDump.Callback.DumpOneEntry` | kmod/vgw_ct_netlink.c:1758-1797 | one entry is sent, skipped, or becomes the cursor with a reference |
| `Skb.NestWritten` | kmod/vgw_ct_netlink.c:77-161 | opening a nest, writing children and patching the length gives a nest whose length covers exactly its children |
| `Skb.Buffer.FillRecord` | kmod/tcp_session.c:147-165 | the record is a copy of the fields the connection object has, and can be taken only while its lock is held |
| `Skb.Buffer.TcpToNlattr` | kmod/tcp_session.c:114-179 | the tracker's nest, with the connection object's fields read under its lock, is appended exactly when it fits; the lock is free again on every path |
| `Skb.Buffer.DumpTcpProtoinfo` | kmod/tcp_session.c:181-204 | the protocol-information nest around it likewise |
| `Skb.Buffer.DumpTuples` | kmod/vgw_ct_netlink.c:77-161 | the writers of a tuple append its attributes exactly when they fit |
| `Skb.Buffer.DumpZoneId` | kmod/vgw_ct_netlink.c:163-174 | the zone is written only where its direction says, and never for the default zone |
| `Skb.Buffer.DumpInfo` | kmod/vgw_ct_netlink.c:572-588 | the common part of a message, in order, with timeout and protocol information only if the connection is not offloaded |
| `Skb.Buffer.DumpExtinfo` | kmod/vgw_ct_netlink.c:558-570 | the extension part of a message, in order |
| `Skb.Buffer.FillInfo` | kmod/vgw_ct_netlink.c:590-645 | all or nothing: one whole message, with its head, is appended exactly when it fits, otherwise the buffer is as it was |
| `MessageSays.DumpHeadSays` | kmod/vgw_ct_netlink.c:590-606 | in the bytes of a dump message: its length, the type of a new connection, the flags of a filtered dump and of one message of many, sequence number, port id and family |
| `MessageSays.DumpSaysInfo` | kmod/vgw_ct_netlink.c:572-588 | read from the bytes of a dump message, status, mark, identifier, use count, security label and timeout are the connection's, the timeout absent exactly if it is offloaded |
| `MessageSays.DumpSaysNests` | kmod/vgw_ct_netlink.c:207-238 | the master's tuple is there exactly if the connection was expected and parses as that tuple; the protocol part is the tracker's nest in filtered dumps with the export on, the protocol's own otherwise, and absent if offloaded |
| `MessageSays.DumpSaysExt` | kmod/vgw_ct_netlink.c:558-570 | counters and sequence adjustments of each direction, timestamps, helper name, labels and synproxy come back from their own nests, each there exactly if the connection has it and the message carries extensions |
| `MessageSays.TcpSays` | kmod/tcp_session.c:114-179 | the attributes of the tracker's nest, of which a destroy event has only the state |
| `Contents.LabelWord` | kmod/vgw_ct_netlink.c:412-436 | each word of the labels is read at its place |
| `EventSize.TupleSizes` | kmod/vgw_ct_netlink.c:655-672 | each tuple leaves at least 16 of the bytes counted for it, those of the other address family |
| `EventSize.EventFits` | kmod/vgw_ct_netlink.c:655-741 | for every connection and event mask the attributes of the event fit the predicted size, although the synproxy nest is not counted |
| `EventSize.ConntrackEvent` | kmod/vgw_ct_netlink.c:743-879 | the exits for a message that does not fit are never taken: whenever there is something to say and the event's group has a listener or a report was asked for, the whole message is sent to that group |
| `MessageSays.EventHeadSays` | kmod/vgw_ct_netlink.c:756-781 | in the bytes of an event: deletion exactly for the destroy bit, else news, with the create flags exactly for the new and related bits; length, port id and family; and the group of each kind |
| `EventSays.EventSaysInfo` | kmod/vgw_ct_netlink.c:810-819 | every event says identifier and status, the mark if its bit is set or it is not zero, and the timeout except a zero one in a destroy event; none says the use count |
| `EventSays.DestroySays` | kmod/vgw_ct_netlink.c:816-824 | a destroy event says counters, timestamps and the protocol's last words, each exactly if the connection has them, and none of helper, master, adjustments, label, labels and synproxy |
| `EventSays.UpdateSays` | kmod/vgw_ct_netlink.c:825-843 | any other event says the protocol part for its bit, the helper name whenever there is one, the security label for its bit or a mark, and no counters or timestamps |
| `EventSays.UpdateSaysMore` | kmod/vgw_ct_netlink.c:844-860 | and labels, the master of a related connection, sequence adjustments and synproxy, each exactly for its bit and if the connection has it |
| `EventSays.EventThenParse` | kmod/vgw_ct_netlink.c:786-811 | an event's message parsed as a request gives back both tuples and the zone of its connection |
| `EventSize.EventFitsTightly` | kmod/vgw_ct_netlink.c:712-741 | the bound is reached, by a generic-protocol connection with an ICMPv6 master |
| `Netlink.ParseEncoded` | kmod/vgw_ct_netlink.c:1344-1380 | a run of attributes is read back as the table of the last attribute of each kind |
| `RoundTrip.ParseUnderEncoded` | kmod/vgw_ct_netlink.c:1344-1411 | attributes that obey a policy are read back under it |
| `RoundTrip.TupleReads` | kmod/vgw_ct_netlink.c:1468-1536 | a written tuple nest is parsed as that tuple, and its zone attribute as the zone |
| `RoundTrip.DumpThenParse` | kmod/vgw_ct_netlink.c:607-631 | a dump message parsed as a request to create gives back both tuples and the zone id and direction; the zone is in one attribute, or in none and read as the default zone when its id is 0 |
| `RoundTrip.OneZoneOnly` | kmod/vgw_ct_netlink.c:1413-1450 | every accepted request to create names a zone other than the default in at most one of the three places, and gets that zone in the direction of its place |
| `RoundTrip.ZoneReads` | kmod/vgw_ct_netlink.c:1413-1449 | the three places a zone can be written in are read, in a request's order, as the same zone |
| `CtParse.ParseUnder` | kmod/vgw_ct_netlink.c:1344-1360 | a table that was parsed under a policy obeys it |
| `Filters.ParsedFills` | kmod/vgw_ct_netlink.c:1468-1527 | a parsed filter tuple has exactly those union members written that its flags ask for |
| `Filters.AllocFills` | kmod/vgw_ct_netlink.c:987-1059 | a filter that asks for tuple fields is of a known family, and both its tuples are filled as asked |
| `Filters.NeverFaults` | kmod/vgw_ct_netlink.c:1085-1206 | no filter a request can produce compares union members of different kinds on any connection |
| `Filters.ExactlyWhen` | kmod/vgw_ct_netlink.c:1085-1152 | a filter tuple accepts exactly the tuples that agree with it if and only if it asks neither for an IPv6 address nor for a port of a protocol other than TCP and UDP |
| `Filters.MatchMissesAgrees` | kmod/vgw_ct_netlink.c:1099-1127 | every filter tuple that asks for one of those has a tuple on which code and request disagree |
| `Filters.Ipv6Example` | kmod/vgw_ct_netlink.c:1099-1109 | a filter on an IPv6 source refuses that source and accepts any other |
| `FilterRequests.Ipv6Request` | kmod/vgw_ct_netlink.c:1099-1109 | a request, from its bytes on, for the IPv6 connections from an address gets exactly the IPv6 connections that are not from it |
| `FilterRequests.SctpRequest` | kmod/vgw_ct_netlink.c:1117-1127 | a request for the SCTP connections from a port gets those from every port |
| `Filters.FilterMeans` | kmod/vgw_ct_netlink.c:1154-1206 | a whole filter without those passes a connection exactly if family, both tuples, zone, mark and status agree |
| `Filters.FlagWordReads` | kmod/vgw_ct_netlink.c:924-934 | each of the twelve flags of a filter request is read from its own bit |
| `Filters.FlagWeights` | kmod/nf_internals.h:10-22 | the weights of the twelve flags |
| `PlainRequests.BothFlagsRead` | kmod/vgw_ct_netlink.c:913-937 | the flags of each direction are read from their own attribute |
| `PlainRequests.ConnectionRequest` | kmod/vgw_ct_netlink.c:987-1059 | a request for two IPv4 tuples of TCP or UDP, from its bytes on, gets exactly the connections with these tuples, each in its own direction |
| `PlainRequests.PlainRequest` | kmod/vgw_ct_netlink.c:1061-1083 | every request without tuples, for a dump and for a flush: refused exactly if it asks for something and has a mask without its value or a status of which no bit counts; else it passes exactly the connections whose family, masked mark, masked status and zone are those its attributes name |
| `PlainRequests.MaskAlone` | kmod/vgw_ct_netlink.c:1061-1083 | a mask alone is refused if a family is given and otherwise gives no filter, for a dump and for a flush |
| `PlainRequests.TupleFlushRefused` | kmod/vgw_ct_netlink.c:1597-1614 | a flush with a tuple filter is refused as not supported |
| `Filters.MaskedMeans` | kmod/vgw_ct_netlink.c:1193-1199 | a masked comparison accepts a word exactly if it agrees with the value bit by bit where the mask has a bit, and the value has no other bits |
| `Filters.MarkMeans` | kmod/vgw_ct_netlink.c:947-963 | a mark without a mask asks for exactly that mark, and no mark asks for nothing |
| `Filters.StatusMeans` | kmod/vgw_ct_netlink.c:965-985 | a status without a mask must be nonzero and asks for all of its bits to be set |
| `ZoneDumps.ZoneRequestMatches` | kmod/vgw_ct_netlink.c:1061-1083 | a request that names only a zone is accepted, for a dump and for a flush, and passes exactly the connections whose original-direction zone it is |
| `ZoneDumps.EmptyRequestMatches` | kmod/vgw_ct_netlink.c:1061-1083 | a request that names nothing has no filter and passes everything |
| `ZoneDumps.MessageLenIs` | kmod/vgw_ct_netlink.c:590-645 | the length by which dumps of the table decide whether a message fits is the length of what is written |
| `ZoneDumps.ZonesPartition` | kmod/vgw_ct_netlink.c:1154-1206 | whatever the buffers, a dump of a zone sends what a dump of everything sends, restricted to that zone, in the same order; so the zones' dumps are disjoint and add up |
| `ZoneDumps.FlushListHolds` | kmod/vgw_ct_netlink.c:1589-1623 | the walk of a flush meets, once each, the linked connections of the namespace that pass its filter and are not offloaded |
| `ZoneDumps.FlushRemoves` | kmod/vgw_ct_netlink.c:1589-1623 | after a flush any dump sends what it would have sent without those the walk met that were not already dying, and the table has given back one reference on each of these |
| `ZoneDumps.FlushZoneExactly` | kmod/vgw_ct_netlink.c:1589-1623 | flushing a zone leaves of its dump exactly the connections that are offloaded or were already dying, and every other zone's and namespace's dump unchanged |
| `Tracker.L4Offset` | kmod/tcp_track.c:112-138 | the transport offset is -1 or lies within the packet, not before the network header |
| `Tracker.BuiltPacketPasses` | kmod/tcp_track.c:327-362 | a packet made of an IPv4 header, a TCP header with any options and a payload passes every check and is read as the segment it carries |
| `TrackerStates.PassesIff` | kmod/tcp_track.c:310-360 | from the bytes: a packet passes exactly if tracking is on, its zone is in the range when the zone filter is on, its IPv4 header is of a first fragment of TCP and ends within it, and its TCP header is whole; the code says which of these failed |
| `TrackerStates.PassReads` | kmod/tcp_track.c:361-375 | the fields of the segment, byte by byte |
| `TrackerStates.TrackedIff` | kmod/kprobe.c:57-79 | an arrival is tracked exactly if the call succeeded, outside recirculation, and the checks pass |
| `Tracker.EndIsReal` | kmod/tcp_track.c:156-163 | past the checks the wrapping arithmetic gives the sequence number after the segment |
| `Tracker.TrackedLength` | kmod/tcp_track.c:141-163 | for a tracked packet the modular difference of end and sequence number is its SEG.LEN (section 3.4 of RFC 9293) |
| `Tracker.AdjustKey` | kmod/tcp_track.c:398-406 | an established packet's flow key ends established and not invalid |
| `TrackerStates.KeyKeeps` | kmod/tcp_track.c:398-406 | the key of an established packet gets bit 1, loses bit 4 and keeps all others, and any other packet's key stays |
| `Tracker.Session.SetState` | kmod/tcp_track.c:296-307 | the state is set, and its timeout applied exactly if it changed |
| `Tracker.Session.Move` | kmod/tcp_track.c:380-395 | at most one of the four state changes happens, the one that `TrackerStates` describes over histories |
| `Tracker.TrackOn` | kmod/tcp_track.c:380-434 | the connection ends as one packet makes it; a repeat still moves the state; the lock is free |
| `Tracker.Track` | kmod/tcp_track.c:310-447 | a packet that fails a check changes nothing and gets that check's code; otherwise only its own connection changes; the reference of a lookup is put back |
| `Tracker.OnReturn` | kmod/kprobe.c:57-79 | only successful calls outside recirculation are tracked, and only then the key changes |
| `TrackerRuns.RunRefinesHistory` | kmod/tcp_track.c:408-430 | after any history the two numbers are the sequence number of the latest tracked packet and the latest nonzero acknowledgement, although repeats are skipped and zeros not stored |
| `TrackerRuns.LatestIsLast` | kmod/tcp_track.c:361-375 | which packet that sequence number belongs to, by position |
| `TrackerRuns.LatestAckIsLast` | kmod/tcp_track.c:426-430 | which packet that acknowledgement belongs to, by position |
| `TrackerRuns.EndIsOfLastStored` | kmod/tcp_track.c:408-427 | the end is that of the last stored packet, whose sequence number is the stored one, and their difference is that packet's SEG.LEN |
| `TrackerRuns.NothingStored` | kmod/tcp_track.c:408-418 | as long as nothing was stored the numbers are the first ones |
| `TrackerRuns.EndIsLatestIff` | kmod/tcp_track.c:408-427 | the end is that of the latest tracked packet exactly if the last stored packet has the same length, both having the same sequence number |
| `TrackerRuns.FirstEndIsLatestIff` | kmod/tcp_track.c:408-418 | if nothing was stored, exactly if the first end is as far from the first sequence number as the latest packet is long |
| `TrackerRuns.DataAfterAckIsSkipped` | kmod/tcp_track.c:408-418 | data after a bare acknowledgement with the same two numbers leave the end stale |
| `TrackerRuns.EstablishedIffOpened` | kmod/tcp_track.c:380-395 | without FIN and RST a connection not yet established ends established exactly if some tracked packet had ACK without SYN |
| `TrackerRuns.EstablishedAgainOnly` | kmod/tcp_track.c:380-395 | from past established it is established again only after a SYN and a later ACK without SYN |
| `TrackerRuns.EstablishedAgainIff` | kmod/tcp_track.c:380-395 | and without FIN and RST exactly then |
| `TrackerStates.EstablishedCloses` | kmod/tcp_track.c:380-395 | from established, with no SYN after a FIN or RST, the state after any history is 3 exactly if there was none of these, 5 exactly if the last of them had FIN, and 8 exactly if it had RST without FIN |
| `TrackerStates.ClosedByLast` | kmod/tcp_track.c:380-395 | the same from any state past established: the last FIN or RST decides, and acknowledgements do not matter |
| `TrackerStates.OpenedByFirst` | kmod/tcp_track.c:380-395 | before established the first packet with a flag decides: SYN leads to 2 whatever else it has, else ACK to 3 even with FIN or RST, else FIN to 5 and RST alone to 8; the rest of the history goes on from there |
| `TrackerStates.OpenState` | kmod/tcp_track.c:380-395 | without FIN and RST, the number of the state after any history, from before and from past established |
| `Snapshot.ExecuteKeeps` | kmod/tcp_track.c:408-434 | under every schedule of any threads: the lock excludes, the shared numbers are those of the committed packets or a known point of one write, each packet is committed once |
| `Snapshot.ExportsAreSnapshots` | kmod/tcp_session.c:120-171 | every export carries the numbers that storing the packets committed when it took the lock gives one after the other, so sequence number and end are of one packet; later exports are not older |
| `Snapshot.BranchesAreNextState` | kmod/tcp_track.c:380-395 | the state is read up to three times; if it stays the same, the branches lead where the packet by itself leads |
| `RepeatTest.SkippedIff` | kmod/tcp_track.c:408-416 | under every schedule a packet is skipped exactly if its sequence number was stored at the one moment and its acknowledgement number at the other at which its thread looked |
| `RepeatTest.RepeatTestIff` | kmod/tcp_track.c:408-434 | if nobody is in the middle of writing at these moments and no packet is committed between them, it is skipped exactly if it repeats the pair that the committed packets, stored one after the other, give |
| `RepeatTest.TornOnlyInRace` | kmod/tcp_track.c:408-434 | a skipped packet whose pair was never in force was tested during a write or on both sides of a commit |
| `RepeatTest.OneTrackerIsRight` | kmod/tcp_track.c:408-416 | a packet whose thread is alone with any exporters is skipped exactly if it repeats the first pair |
| `SerialTracker.SerialIsSequential` | kmod/tcp_track.c:380-434 | in every schedule in which no two tracker threads are busy at once, with any exporters, the state and the numbers are those of the sequential run of the packets in the order in which their threads ended |
| `SerialTracker.TakeIsAbsorb` | kmod/tcp_track.c:380-434 | what threads do to the shared fields is what the tracker does to a connection, and what a commit stores |
| `SerialTracker.StateLost` | kmod/tcp_track.c:380-395 | a schedule of a SYN and an acknowledgement that ends in SYN_RECV, though either order of the two packets ends established |
| `RepeatTest.TornTest` | kmod/tcp_track.c:408-416 | a schedule in which a packet is skipped although its two numbers were never stored together |
| `Reset.UnmarshalSeen` | cli/vendor/github.com/ti-mo/conntrack/attribute_types.go:190-211 | the client's reading of one direction's window |
| `Reset.UnmarshalSeqTrack` | cli/vendor/github.com/ti-mo/conntrack/attribute_types.go:214-254 | the client's reading of the record, which fails exactly if it does not have 64 bytes |
| `Reset.RecordRoundTrip` | kmod/tcp_session.c:147-168 | the client decodes exactly the record the kernel wrote |
| `Reset.RecordLayout` | kmod/tcp_session.c:147-168 | the offset of each field in the record's 64 bytes |
| `Reset.ExportReads` | kmod/tcp_session.c:114-204 | from a filtered dump message of a TCP connection the client reads the kernel's record |
| `Reset.GetTcpInfo` | cli/cmd/conntrack.go:274-317 | the first flow with a record, TCP and the ports asked for is chosen, or none exactly if there is none |
| `Reset.BuildMirror` | cli/cmd/conntrack.go:168-175 | the second reset exchanges both endpoints and both numbers; doing it twice gives the first back |
| `ResetRun.ReadsConnection` | cli/cmd/conntrack.go:287-300 | the loop stops at a connection's message exactly if the connection is TCP, not offloaded and has the ports asked for, and then has the kernel's record |
| `ResetRun.CtReset` | cli/cmd/conntrack.go:168-178 | on the messages of a dump the command makes resets exactly if some connection can be reset, and for the first of those: to the original source with the latest nonzero acknowledgement of its history (section 3.2 of RFC 5961), and the mirror to the destination with the latest sequence number |
| `ResetRun.ResetZone` | cli/cmd/conntrack.go:274-317 | the whole way: the zone is dumped in any buffers that hold its messages, they are written and taken apart, and resets are made exactly if the zone has a live connection that can be reset, for one of those and from its history |
| `ResetRun.ResetNumbers` | cli/cmd/conntrack.go:302-311 | by position: the last packet of the history with an acknowledgement, and the last tracked one |
| `ResetRun.DumpedInZone` | cli/cmd/conntrack.go:274-283 | the connections of a finished dump by zone are that zone's |
| `Requests.Subsystem.ParseNatSetup` | kmod/vgw_ct_netlink.c:1884-1931 | RCU and the mutex are held again on every path, though both are let go to load a module; the answer is the hook's verdict, -EAGAIN after a module was loaded for it, or -EOPNOTSUPP |
| `Requests.Subsystem.ChangeSeqAdj` | kmod/vgw_ct_netlink.c:2114-2147 | the connection's lock is free on every path, and the answer is the first error of the two directions |
| `Requests.Subsystem.ChangeHelper` | kmod/vgw_ct_netlink.c:1962-2026 | RCU depth is as before on every path; no error exactly if the helper is the one the connection has, or none is named |
| `Requests.Subsystem.ChangeConntrack` | kmod/vgw_ct_netlink.c:2209-2267 | a change takes and keeps nothing, and answers with the first of its parts that fails |
| `Requests.ChangesIff` | kmod/vgw_ct_netlink.c:2209-2267 | a change succeeds exactly if it asks for nothing unsupported and each part succeeds |
| `Requests.Subsystem.AssignHelper` | kmod/vgw_ct_netlink.c:2290-2342 | the label an error lands at matches the RCU depth it is reached with; the answer is that of the helper's lookup |
| `Requests.Subsystem.InsertWithMaster` | kmod/vgw_ct_netlink.c:2391-2427 | the master's reference is owned by the inserted entry, or put back if the insertion fails; the answer is the first failure of the two |
| `Requests.Subsystem.CreateConntrack` | kmod/vgw_ct_netlink.c:2269-2431 | the creation succeeds exactly if every part of it does, and else answers with the first that fails; on error nothing has changed at all, the new entry being freed once and unreferenced; on success it is in the table with two references and owns one on its master |
| `Requests.CreatesIff` | kmod/vgw_ct_netlink.c:2269-2431 | the parts: allocation, timeout, helper, both NAT answers, status, adjustments, protocol information, synproxy, master parsed and found, insertion |
| `Requests.Subsystem.NewConntrack` | kmod/vgw_ct_netlink.c:2433-2529 | the answer to every request, by its parts: the first parse error, -EEXIST, -ENOENT, -EINVAL, or that of the creation or the change; locks and counts are as before, except after a creation, which leaves exactly the table's reference and the one on the master |
| `Requests.Subsystem.AllocExpectation` | kmod/vgw_ct_netlink.c:3544-3604 | a new expectation with one reference, or nothing and the first error |
| `Requests.Subsystem.CreateExpect` | kmod/vgw_ct_netlink.c:3606-3679 | the master's count and RCU are as before on every path; the expectation is inserted with two references exactly if every part succeeds, else gone, and the answer is the first failure |
| `Requests.ExpectsIff` | kmod/vgw_ct_netlink.c:3606-3679 | the parts: three tuples, master, helper, extension, class, allocation, function, NAT part, insertion |
| `Requests.Subsystem.NewExpectation` | kmod/vgw_ct_netlink.c:3681-3724 | the expectation lock is free on every path, and module loading never happens under it; the answer to every request by its parts, with an insertion exactly if there is none yet and the answer is no error |
| `Requests.CreationKeepsOwned` | kmod/vgw_ct_netlink.c:2391-2424 | if every reference had an owner before a creation (the table, an entry whose master it is, somebody else), every reference has one after it |

## Left out

- Resizing of the hash table: the bucket count is fixed during a run, so the test for it under the lock is never true.
- Interference inside one bucket walk: an entry does not expire or change while its bucket is locked, although the code's clock goes on.
- `DumpOnce.ExactlyOnce`: for tables that only the dump itself changes; under interference the claim is at least once.
- `RoundTrip.DumpThenParse`: for messages below 64 KiB, the range of a netlink length field, and at most 16 bytes of labels, the kernel's maximum.
- `EventSays.UpdateSays`, `EventSays.DestroySays`, `MessageSays.DumpSaysExt`: likewise for messages below 64 KiB.
- `Requests.Subsystem.ChangeConntrack`: what a change writes into the connection is not modelled, only its answer, its locks and its references.
- `EventSize.EventFits`: assumes protocol hooks within their declared sizes, no private helper data, and security text within its reported length.
- `ResetRun.CtReset`: that the acknowledgements were sent by the original source holds when only that direction passes the tracker; the direction of a packet is not in the model. The attribute walk of the client's library is taken to read tuples as the kernel's request parser does; its decoding of the record is modelled from its own code.
- `TrackerRuns.RunRefinesHistory`: the kernel's own TCP tracking may write the same `last_*` fields of a connection; histories assume that it does not.
- `ZoneDumps.FlushRemoves`: the walk of the flush is the kernel's, taken as visiting every original-direction node once.
- `Filters.NeverFaults`: an allocation failure of the filter, and the check that the filter attribute carries the nested flag, are not modelled.
- `ExpectCoverage.AtLeastOnce`: a pass sees its chain as it is at one moment; a chain that changes under the pass is not modelled.
- `DyingCoverage.LostIffBehind`: assumes that the entry under the cursor, on which the dump holds a reference, does not join the list again.
- The layer-4 hooks are modelled after the kernel's generic ones: ports, ICMP type, code and identifier; other hooks are parameters.
- Counters that are zeroed when dumped, and 64-bit padding attributes, which x86 does not emit.
- Helper private data, and the message contents of expectations.
- The queue glue path and its size prediction, per-CPU statistics, identifier hashing, deletion and lookup of single entries.
- The generic-netlink path, probe registration, packet serialisation and sending, command-line handling, printing.
- Events other threads receive about a created connection, and the replay of a request after -EAGAIN.
