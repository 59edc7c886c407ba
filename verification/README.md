# satip-lab: a verified model of its stream, lab and session logic

satip-lab is a SAT>IP test server. It replays one finite MPEG transport stream for ever and makes it look live, it hands
out a fixed number of tuners to RTSP sessions, it injects faults on request ("scenarios"), and it reports derived tuner
telemetry. This project models that logic in Dafny and proves what the program is for, over all inputs and whole runs.

- **The loop engine** (`Bytes`, `Arithmetic`, `Transport`, `Stamps`, `Timestamps`, `Tracks`, `CycleDuration`,
  `Continuity`, `PacketLayout`, `LoopEngine`, `LoopRuns`, `LoopClock`, `PcrTimeline`): packets and their PCR, PTS and DTS
  fields, the same packets assembled bit by bit as the standard lays them out, the rewriting of timestamps and of
  continuity counters in place, the measured cycle length, the object that cuts a looped payload into chunks, and what a
  receiver sees over any run of it (sections 2.4.3.2 to 2.4.3.7 of ISO/IEC 13818-1).
- **PSI** (`Bits`, `Crc`, `Sections`, `Tables`, `Mutators`): section builders, what a receiver reads out of the sections,
  the MPEG CRC-32 (Annex A of ISO/IEC 13818-1) and the two scenario mutators.
- **The catalog** (`Text`, `Catalog`, `Tuning`): the loader's validation, mux ids, the tuning query a channel advertises
  and the lookup that answers it.
- **The lab manager** (`Pids`, `Scenarios`, `Allocation`, `Frontends`, `Telemetry`, `LabManager`, `LabRuns`): PID sets,
  scenario timelines, the tuner allocator, frontends and what they must show case by case, the manager object and its
  runs.
- **The RTSP layer** (`RtspServer`, `ServerRuns`, `StreamControl`, `Rtp`, `StreamLoop`, `PayloadCache`, `Requests`,
  `RequestText`, `Rtcp`): the second session table and the life of a session over whole runs, the ownership of stop
  channels and sockets, RTP numbering and impairments, the payload cache, the reading of requests among interleaved
  frames and of the text they are written in, and the RTCP compound packet.

Code that works in place is modelled in place: `TimestampLoop`, `Track`, `Manager`, `Server`, `SessionStream`, `Stream`,
`RTPSender`, `RTCPStatusSender`, `PayloadProvider` and `Reader` are classes, and the packet, section and counter rewriting
loops write arrays. Each is tied to a specification function, and the properties are lemmas about those functions over
every input or every run. Clocks, randomness-free map orders, the answers of the network and of the file system are
parameters, so a statement holds for all of them.

Where a property that one would expect fails of the code, one lemma gives the exact condition under which it holds and
another an input for which it does not:

- offsets that cancel: `Timestamps.RetimedAction`, `Timestamps.CancelledShiftDiffers`;
- a service hidden by an earlier one: `Tuning.TuneOwn`, `Tuning.LatterHidden`;
- entries with more than five PIDs: `Tuning.CatalogRoundTrip`, `Tuning.SixthPidLost`;
- signal recovery in a timeline that no lock loss times: `LabRuns.TimelineDetermined`, `LabRuns.PollTimesShow`;
- frames of 65536 bytes or more: `Requests.FrameSkipped`, `Requests.LongFrameNotSkipped`;
- status texts as long: `Rtcp.TextRead`, `Rtcp.LongTextNotRead`.

Some definitions are called by the modelled code itself, such as where a packet carries its clock, which frontend a tuner
shows or how a header is folded. Each of these has a counterpart written from the other side, without calling it: packets
are assembled from bits (`PacketLayout`), frontends are listed by state and number (`Telemetry`), sections and status
texts are read by a receiver (`Tables`, `Rtcp.ReadStatus`), requests are written as text (`RequestText`), and a session's
life is told from the history of requests (`ServerRuns`). Lemmas tie the two together for all inputs.

In the SDT the code sets bit 1 of a service's flags for what it calls present and following events; section 5.2.3 of
ETSI EN 300 468 makes that bit the schedule flag. The model does what the code does, and `Tables.SdtRead` says so.

## Model

| member | source | states |
|---|---|---|
| Transport.PcrCodec | internal/ts/loop.go:236-250 | reading and writing a PCR base are inverse on all 33-bit values, a second write replaces the first, and the seven bits beside the base are kept |
| Transport.PesCodec | internal/ts/loop.go:252-267 | reading gives back what was written; a write sets the three marker bits, so writing back what was read is the identity exactly where they were set |
| Stamps.RegionsApart | internal/ts/loop.go:200-234 | in a packet with a PCR the payload begins at byte 12 or later, so PCR, PTS and DTS never overlap |
| Stamps.ShiftPacketSpec | internal/ts/loop.go:177-184 | visiting a packet's timestamps in place adds the offset to each of them modulo 2^33 and changes no byte outside the fields |
| Stamps.ShiftedStamps | internal/ts/loop.go:188-234 | visiting the shifted packet again finds the same pids and kinds in the same order, each value moved by the offset |
| Stamps.ShiftedCompose | internal/ts/loop.go:172-186 | shifting a packet by a and then by b is shifting it by a + b |
| Stamps.ShiftedByNothing | internal/ts/loop.go:260-267 | a shift by a multiple of 2^33 is the identity exactly on packets whose marker bits are set |
| Timestamps.RetimedStamps | internal/ts/loop.go:172-186 | revisiting a rewritten payload gives the same (pid, kind) sequence with every raw value shifted |
| Timestamps.ShiftedFrame | internal/ts/loop.go:188-198 | every packet is the original one outside its timestamp fields, and the bytes after the last whole packet are untouched |
| Timestamps.RetimedAction | internal/ts/loop.go:172-186 | rewriting by a then b equals rewriting by a + b mod 2^33 if and only if both are zero, or they do not cancel, or the marker bits were set |
| Timestamps.CancelledShiftDiffers | internal/ts/loop.go:172-186 | a packet without marker bits, shifted on by one tick and back, is not given back, though rewriting by the sum 0 is the identity |
| Timestamps.WritePcrBase | internal/ts/loop.go:244-250 | the byte-by-byte write is the codec's, and no other byte of the buffer changes |
| Timestamps.WritePesTimestamp | internal/ts/loop.go:260-267 | the byte-by-byte write is the codec's, and no other byte of the buffer changes |
| Timestamps.RewriteTimestamps | internal/ts/loop.go:172-186 | the loop over a fresh copy yields exactly the retimed payload and does not write the payload |
| PacketLayout.HeaderRead | internal/ts/loop.go:137-198 | of a packet assembled bit by bit, sync, pid, unit start, counter and the kind (payload, adaptation field, both) are read as laid out |
| PacketLayout.StampsFound | internal/ts/loop.go:200-258 | of such a packet exactly the times it was assembled with are found: the PCR's 33 bits if its flag is set, the PTS for flags 10, PTS and DTS for flags 11, and none otherwise |
| PacketLayout.AssembledRetimed | internal/ts/loop.go:172-267 | rewriting such a packet's timestamps by an offset gives the packet assembled from the same bits with each time moved on modulo 2^33 |
| Tracks.Track.Observe | internal/ts/loop.go:106-132 | after any raw values the track holds the unwrapped time of the last, the extremes of all and the smallest positive step |
| Tracks.UnwrapExact | internal/ts/loop.go:117-121 | unwrapping the readings of a clock whose steps lie in [-2^32, 2^32) gives the true times, up to the turns before the first |
| CycleDuration.MeasuresExact | internal/ts/loop.go:123-131 | the folded minimum, maximum and step are the least element, the greatest element and the least positive step of the series |
| CycleDuration.KindDurationLargest | internal/ts/loop.go:88-104 | the duration of a kind is the largest any of its tracks offers, and some track offers it |
| CycleDuration.DurationForKind | internal/ts/loop.go:88-104 | walking the track map in whatever order yields that duration |
| CycleDuration.MeasureCycle | internal/ts/loop.go:68-86 | the visit with its map of tracks computes the duration of the stream's timestamps, PCR before DTS before PTS |
| CycleDuration.DurationChoice | internal/ts/loop.go:76-86 | the duration is one a PCR offers if any does, else a DTS, else a PTS, else 3600 |
| CycleDuration.DurationInvariant | internal/ts/loop.go:68-132 | the cycle duration of a payload rewritten by any offset is that of the payload |
| Continuity.OnlyCounterHeader | internal/ts/loop.go:164-168 | a packet changed in its counter alone keeps its pid, its kind, its layout and its timestamps |
| Continuity.RenumberPacketLaw | internal/ts/loop.go:137-168 | one packet continues the counter its pid carries, and the map goes on describing the log of what was sent |
| Continuity.RenumberLaw | internal/ts/loop.go:134-170 | so does any stretch of packets, in either mode |
| Continuity.RenumberSplit | internal/ts/loop.go:134-170 | renumbering in two pieces with the carried map is renumbering once |
| Continuity.RenumberStamps | internal/ts/loop.go:164-168 | renumbering moves no timestamp |
| Continuity.RewriteContinuityCounters | internal/ts/loop.go:134-170 | the in-place loop over a slice of a buffer renumbers that slice, returns the carried map and touches no other byte |
| LoopEngine.ChunkAt | internal/ts/source.go:118-131 | the chunk is a stretch of the payload, from the start when the offset is outside it, and the next offset is 0 exactly at the end of a pass |
| LoopEngine.NextSpec | internal/ts/loop.go:23-51 | a call keeps the loop's invariant and returns the next stretch of the shifted payload, renumbered from the carried map |
| LoopEngine.TimestampLoop.Next | internal/ts/loop.go:23-51 | the object does what the call function says, the returned slice shares its bytes with `rendered`, and the caller's payload is not written |
| LoopRuns.ReachableInv | internal/ts/loop.go:27-50 | after any run the offset is a multiple of 1316 inside the payload and what is unsent is the untouched shifted payload |
| LoopRuns.CountersLawful | internal/ts/loop.go:43-50 | over every run, with any payload switches and any mix of modes, each emitted packet continues the counter its pid carries and the map is that counter plus one |
| LoopRuns.CallLogFaithful | internal/ts/loop.go:43-50 | the log this law speaks of holds exactly the packets of the returned chunks |
| LoopRuns.PartOfPass | internal/ts/loop.go:36-50 | the first k chunks of a pass are the first k chunks' worth of the shifted payload renumbered once |
| LoopRuns.OnePass | internal/ts/loop.go:36-50 | one pass concatenates to the whole shifted payload renumbered once from the carried map, and takes exactly ceil(n / 1316) calls |
| LoopRuns.OnePassOfKey | internal/ts/loop.go:27-50 | so does a pass of calls under one key, whatever non-empty payloads they bring |
| LoopClock.EmittedTimeline | internal/ts/loop.go:36-50 | over every run of payloads with one clock, all timestamps sent are whole passes, each moved on by the cycle duration, and the beginning of the next |
| PcrTimeline.GapIsAStep | internal/ts/loop.go:88-104 | the step over a pass boundary is at least the clock's smallest step, and equal to it when no other pid carries a PCR |
| PcrTimeline.PcrNeverStepsBack | internal/ts/loop.go:23-51 | a receiver unwraps the PCRs of any run as strictly increasing, with the payload's own steps inside a pass and one constant gap between passes |
| PcrTimeline.OneClockLoops | internal/ts/loop.go:23-51 | with the PCRs on one pid the gap is exactly the smallest step of the payload's clock, through every boundary and every wrap |
| PcrTimeline.OffsetsKept | internal/ts/loop.go:172-186 | in every pass the distance between any two timestamps (PTS and PCR, say) modulo 2^33 is that of the payload |
| Crc.MpegCrc32 | internal/ts/service.go:385-398 | the bitwise loop computes the CRC function the lemmas are about |
| Crc.ResidueZero | internal/ts/service.go:380-398 | the CRC of any bytes with their CRC appended is 0 |
| Crc.BurstDetected | internal/ts/service.go:385-398 | strings that differ only within four consecutive bytes have different CRCs |
| Crc.DamageDetected | internal/ts/service.go:380-398 | damage within four consecutive bytes of a closed section never leaves a zero residue |
| Crc.CheckValue | internal/ts/service.go:385-398 | the CRC of "123456789" is the published 0x0376E6E7 |
| Sections.PatWellFormed | internal/ts/service.go:164-176 | the PAT has an exact section_length, a zero residue, fits one packet with its pointer byte, and names the PMT pid |
| Sections.PmtWellFormed | internal/ts/service.go:178-192 | the PMT has an exact section_length, a zero residue and fits one packet |
| Sections.SiWellFormed | internal/ts/service.go:194-319 | for every service, provider, network and event name, however long, SDT, NIT and EIT do too |
| Sections.SectionReadBack | internal/ts/service.go:366-417 | a packet built around a well-formed section is on its pid, has its counter and gives the section back |
| Tables.PatRead | internal/ts/service.go:164-176 | a receiver reads one program from the PAT: the service's number, on its PMT pid |
| Tables.PmtRead | internal/ts/service.go:178-192 | a receiver reads the service's number from the PMT, the video pid as the one with the PCR and with MPEG-2 video, and the audio pid with MPEG-1 audio |
| Tables.SdtRead | internal/ts/service.go:194-220 | a receiver reads service, provider and name, cut at 32 and 64 bytes, from the SDT, running status 4, and the schedule flag set for present and following events |
| Tables.NitRead | internal/ts/service.go:222-263 | a receiver reads the network's name, cut at 64 bytes, from the NIT |
| Tables.EitRead | internal/ts/service.go:273-319 | a receiver reads service, section numbers, event, running status and title, cut at 146 bytes, from the EIT |
| PacketLayout.TableIdFound | internal/ts/service.go:138-162 | in a packet assembled bit by bit the table id is found behind the pointer and the bytes it passes over, with or without an adaptation field |
| PacketLayout.PatFound | internal/ts/service.go:105-136 | such a packet is taken for a PAT exactly on pid 0 with table id 0 and room for a program, and for a PMT exactly on its pid with table id 2 |
| Mutators.CorruptPat | internal/ts/service.go:105-120 | in place, the first PAT's table id becomes 0xFF and the PMT pid read from it is returned; nothing changes when there is none |
| Mutators.CorruptPmt | internal/ts/service.go:122-136 | in place, the table id of the first PMT on the pid becomes 0xFF; nothing changes when there is none |
| Mutators.MalformedPSI | internal/ts/service.go:78-85 | works on a fresh copy and yields the mutated payload of the next two rows |
| Mutators.OnlyTableIds | internal/ts/service.go:78-136 | at most two bytes change: the table id of one PAT on pid 0 and of one PMT on the pid that PAT names; none exactly when there is no PAT |
| Mutators.BrokenTableFails | internal/ts/service.go:105-149 | a well-formed section whose table id was broken fails its CRC |
| Mutators.ServiceStreamFails | internal/ts/service.go:78-136 | in the stream of a built service exactly the PAT and the PMT are hit, whatever its pids, and both fail their CRC |
| Mutators.CounterErrorsKeepClock | internal/ts/service.go:87-103 | the counter errors leave every timestamp, and with them the cycle duration, as it was |
| Mutators.CounterErrorsExact | internal/ts/service.go:87-103 | exactly the first, third, fifth packet of every pid, and so on, gets a wrong counter, and no packet changes elsewhere |
| Mutators.CountersAllOff | internal/ts/service.go:87-103 | over the whole payload those packets' counters are 7 more modulo 16, and the bytes after the last packet are kept |
| Mutators.ContinuityCounterErrors | internal/ts/service.go:87-103 | the in-place loop works on a fresh copy and yields the payload of the previous two rows |
| Catalog.ValidateChannel | internal/channels/loader.go:94-141 | reports no problem exactly for a valid entry |
| Catalog.LoadChannels | internal/channels/loader.go:49-92 | a list is accepted exactly when every normalized entry is valid and no two share an id, a number or a tvg id: the map-based checks miss no duplicate |
| Catalog.NormalizedIs | internal/channels/loader.go:59-71 | text fields with blanks around them are normalized to the text alone, polarization and delivery in any case to lower case |
| Catalog.MuxIDInjective | internal/lab/catalog.go:152-154 | two validated tunings have one mux id exactly when they are the same tuning |
| Catalog.CatalogFromChannels | internal/lab/catalog.go:43-76 | the loop with its map yields one mux per tuning in order of first appearance and one service per channel |
| Catalog.ServiceMatchesPids | internal/lab/catalog.go:179-203 | the marked map answers whether PMT, video and audio PID all occur among the numbers in the list |
| Tuning.MuxesListed | internal/lab/catalog.go:48-60 | the muxes of a catalog are those of its channels, each once |
| Tuning.TuneOwn | internal/lab/catalog.go:96-122 | for every accepted list, a channel's own query finds its own mux, and its own service if and only if no earlier service of that mux has its three PIDs inside the query's list |
| Tuning.MatchExactly | internal/lab/catalog.go:96-122 | for every catalog and query: invalid exactly when one of the three numbers is none, else the first service mux by mux that answers in all five values and the PIDs, else not found exactly when none does |
| Tuning.ServiceListed | internal/lab/catalog.go:43-76 | each channel's service has a thousand more than its number, its third, fourth and fifth PID, and its tuning's mux |
| Tuning.MuxIDText | internal/lab/catalog.go:152-154 | src 1, 11494 h, 22000, dvbs2 is src1-11494h-22000-dvbs2 |
| Tuning.LatterHidden | internal/lab/catalog.go:96-122 | two accepted channels of one tuning with the same PIDs: the later one's query finds the earlier service |
| Tuning.CatalogRoundTrip | internal/lab/catalog.go:124-150 | for every accepted list, the catalog gives its channels back if and only if each lists exactly five PIDs |
| Tuning.SixthPidLost | internal/lab/catalog.go:124-150 | an accepted channel with six PIDs does not come back |
| Tuning.QueryPids | internal/channels/channel.go:22-36 | the advertised PID list is read back as exactly the channel's PIDs |
| Pids.ParsePidList | internal/lab/manager.go:521-543 | parses exactly the parseable lists, into a sorted duplicate-free list, or all-mode with none, that means what was written |
| Pids.PrintParse | internal/rtsp/server.go:523-532 | what an RTCP report prints for any such list parses, and only to that list |
| Pids.RemoveInPlace | internal/lab/manager.go:554-562 | the in-place filter keeps exactly the other PIDs, in order |
| Pids.AddInPlace | internal/lab/manager.go:545-552 | a PID already listed changes nothing; another is appended, in the buffer while there is room |
| Pids.UpdateStored | internal/lab/manager.go:355-395 | an update succeeds exactly when the set algebra (replacement or old, plus additions, minus deletions, "all" on top) does, and yields its result in order; additions and removals write a copy, never the stored list |
| Pids.UpdateList | internal/lab/manager.go:355-395 | the same from a list that is a value: sorted and without duplicates when that had none |
| Scenarios.ValidateSteps | internal/lab/manager.go:640-677 | accepts exactly the timelines that begin at 0, rise strictly, and whose steps are known, targetable and never wedge a tuner |
| Scenarios.TargetedExactly | internal/lab/manager.go:576-611 | a choice is valid exactly when the name is known, a target is listed and the name not one of the eight that concern the whole lab, and a duration comes only with an EPG gap |
| Scenarios.ScanReaches | internal/lab/manager.go:746-751 | the scan ends with the step of largest start not after the elapsed time, whatever index it begins with |
| Allocation.SeatConsistent | internal/lab/manager.go:224-246 | seating a fresh session keeps tuners and sessions consistent: a tuner is idle iff it has no sessions and no mux, each session is listed once, on its own tuner and mux, and no two tuned tuners share a mux |
| Allocation.VacateConsistent | internal/lab/manager.go:850-872 | any set of sessions leaving keeps them consistent |
| Allocation.VacateTwice | internal/lab/manager.go:424-432 | leaving one after the other, in any order, is leaving together |
| Allocation.AdmissionExact | internal/lab/manager.go:824-839 | a tuner is found if and only if the muxes of the live sessions together with the new one number at most the tuners |
| Allocation.RunConsistent | internal/lab/manager.go:193-493 | both hold in every state any sequence of set-ups, changes, departures and resets reaches |
| Frontends.OrderIrrelevant | internal/lab/manager.go:880-958 | a frontend does not depend on the order in which sessions joined the tuner |
| Frontends.ChangeTimeIrrelevant | internal/lab/manager.go:880-920 | taken alone, the computation of a frontend ignores the moment of the last scenario change if and only if it is not signal recovery without a timing lock loss |
| Frontends.RecomputeFrontend | internal/lab/manager.go:880-958 | the loops with their early exits compute that frontend |
| Telemetry.FrontendDisplayed | internal/lab/manager.go:880-1010 | that frontend, by state and numbers: idle; degraded, lost or slowly tuning under a scenario that hits a live session; recovering for 250 ms from the step that ended a lock loss or from the change to signal recovery, locked after; else tuning for 250 ms from the tuning time and locked after |
| Telemetry.AnswerPlays | internal/lab/manager.go:738-767 | a timeline answers with the scenario of the last step whose start lies not in the future |
| LabManager.Manager.constructor | internal/lab/manager.go:171-187 | a new lab has its tuners (at least one) idle, no sessions and the normal scenario |
| LabManager.Manager.ScenarioAt | internal/lab/manager.go:738-767 | a poll answers as script and clock alone say, moves to the reached step, and leaves script, sessions and allocation as they were |
| LabManager.Manager.StatusAt | internal/lab/manager.go:454-475 | after a status poll every tuner displays what the case list of `Telemetry` demands of its sessions, the scenario in force and the clock, the timeline is in its last begun step, and each frontend is a function of sessions, script (with the moment a scenario was set by hand) and clock, and of when a timeline was polled |
| LabManager.Manager.AllocateTuner | internal/lab/manager.go:824-839 | finds the tuner on the mux, else the first idle one and tunes it, else changes nothing |
| LabManager.Manager.Admit | internal/lab/manager.go:224-246 | a session is seated if and only if its mux fits beside those in use; otherwise nothing changes |
| LabManager.Manager.Setup | internal/lab/manager.go:193-250 | succeeds exactly when the tune resolves, no scenario blocks it, its PIDs parse and its mux fits; each refusal has its error and changes no session and no allocation |
| LabManager.RefusedExactly | internal/lab/manager.go:193-250 | which scenario refuses a SETUP that found its service with which error, and which error it gets without one |
| LabManager.DefaultPidsOwn | internal/lab/manager.go:517-519 | a SETUP without PIDs gets the first five of the channel |
| LabManager.Manager.Play | internal/lab/manager.go:252-269 | an existing session becomes playing; an unknown one changes nothing |
| LabManager.Manager.Pause | internal/lab/manager.go:321-334 | an existing session becomes paused; an unknown one changes nothing |
| LabManager.Manager.Touch | internal/lab/manager.go:403-414 | only the session's time of last use changes |
| LabManager.Manager.UpdatePIDs | internal/lab/manager.go:336-401 | a request without PID keys and a refused one change nothing; otherwise the session's list denotes the algebra's result, sorted and duplicate-free |
| LabManager.Manager.ExpireSessions | internal/lab/manager.go:416-435 | exactly the sessions unused for longer than the timeout leave, whatever the map order; none when the timeout is not positive |
| LabManager.Manager.LeaveTuner | internal/lab/manager.go:850-872 | the session leaves its tuner, which becomes idle when it was the last |
| LabManager.Manager.Teardown | internal/lab/manager.go:437-448 | exactly the named session leaves |
| LabManager.Manager.Reset | internal/lab/manager.go:477-493 | every session ends, every tuner is idle, and no scenario but a wedged tuner is cleared |
| LabManager.Manager.SetScenarioOptions | internal/lab/manager.go:576-611 | a valid choice becomes the script from this moment, an invalid one changes nothing; sessions and allocation stay |
| LabManager.Manager.SetScenarioTimeline | internal/lab/manager.go:617-638 | a valid timeline becomes the script from this moment, an invalid one changes nothing |
| LabRuns.Do | internal/lab/manager.go:193-677 | every command takes at most one step of the allocation machine and moves the script only as scenario commands and resets say |
| LabRuns.DoScript | internal/lab/manager.go:564-638 | polling and setting a script leave sessions and allocation alone |
| LabRuns.DoSession | internal/lab/manager.go:252-448 | commands about existing sessions leave the script alone and add none |
| LabRuns.Drive | internal/lab/manager.go:617-775 | after any interleaving of commands and polls, with clocks moving either way, a poll answers as the scenario commands alone determine, every tuner displays what `Telemetry` demands, every frontend is a function of the live sessions, the script and the times it was polled, and the allocation is a reachable one |
| LabRuns.HandSetDetermined | internal/lab/manager.go:738-741 | for a scenario set by hand no frontend depends on the polls |
| LabRuns.TimelineDetermined | internal/lab/manager.go:742-758 | for a timeline a frontend is the same however it was polled before, if and only if the timeline has one step or the frontend is not signal recovery without a timing lock loss |
| LabRuns.PollTimesShow | internal/lab/manager.go:752-756 | one timeline polled 1000 or 1200 ms after its start shows locked or recovering 1300 ms after it |
| RtspServer.SessionIDInjective | internal/rtsp/server.go:249-252 | no two session numbers print as the same id |
| RtspServer.FreshID | internal/rtsp/server.go:249-252 | the next id was never issued before |
| RtspServer.Server.Setup | internal/rtsp/server.go:248-327 | a SETUP enters a new id in both tables if and only if its transport is usable and the lab accepts it, and remembers it for its connection; otherwise both tables stay |
| RtspServer.Server.Play | internal/rtsp/server.go:333-375 | an unknown session or a refused PID update changes nothing in the lab; otherwise its session plays, with the PIDs the algebra gives, and no other session changes |
| RtspServer.Server.Pause | internal/rtsp/server.go:397-412 | a known session, and no other, is paused; an unknown one is answered 454 and changes nothing |
| RtspServer.Server.Teardown | internal/rtsp/server.go:631-644 | exactly the named session leaves both tables, whichever connection asks |
| RtspServer.Server.Expire | internal/rtsp/server.go:686-703 | exactly the stale sessions leave both tables |
| RtspServer.Server.CloseSession | internal/rtsp/server.go:377-380 | one session leaves both tables |
| RtspServer.Server.Close | internal/rtsp/server.go:382-395 | a closing connection ends exactly the interleaved sessions it set up, in both tables, and no other connection's |
| RtspServer.Server.ApiReset | internal/httpserver/server.go:518-528 | a reset empties both tables |
| RtspServer.Server.Choose | internal/httpserver/server.go:486-516 | choosing a scenario over the API touches neither table |
| RtspServer.Server.Schedule | internal/httpserver/server.go:486-516 | nor does setting a timeline |
| RtspServer.Server.Look | internal/lab/manager.go:454-475 | nor does a look at the status |
| RtspServer.Server.Handle | internal/rtsp/server.go:173-221 | a request first removes the sessions unused for more than a minute; the session it names has then been used now, plays with the PIDs of the algebra after a PLAY and is paused after a PAUSE, and every other one is unchanged; only a SETUP adds a session, under an id never used before and as its query asks, exactly when it is not turned away, its transport is usable and the lab admits it, and is otherwise answered with its refusal; only a TEARDOWN naming it removes one; each verb has its reply |
| ServerRuns.Serve | internal/rtsp/server.go:99-121 | over any sequence of requests, connections, expiries, lost streams, resets, scenario choices and status polls the tables hold the same sessions, every interleaved session's connection is open, and a session is live exactly when nothing ended it and no expiry came more than a minute after the last request that named it, which is its time of last use |
| ServerRuns.NamedEveryMinute | internal/rtsp/server.go:657-703 | with a clock that does not go back, a session that nothing ends and that is named in the minute before each expiry is never expired |
| StreamControl.RunSafe | internal/rtsp/server.go:779-798 | in every interleaving of starts, stops and self-finishes each stop channel is closed at most once, every started stream but the current was told to stop or has ended, and an open socket belongs to the current stream |
| StreamControl.OneRunning | internal/rtsp/server.go:779-789 | at most one stream still runs, and it is the current one |
| StreamControl.StaleFinish | internal/rtsp/server.go:993-1013 | the end of a stream that is not current disturbs nothing |
| StreamControl.SessionStream.StartStreaming | internal/rtsp/server.go:779-798 | stops the old stream and installs the new one, or none when no socket or connection is to be had |
| StreamControl.SessionStream.StopStreaming | internal/rtsp/server.go:1015-1030 | closes the live channel and socket, each open at that moment |
| StreamControl.SessionStream.FinishStreaming | internal/rtsp/server.go:993-1004 | gives up channel and socket only when they are still its own |
| StreamControl.SessionStream.FinishInterleavedStreaming | internal/rtsp/server.go:1006-1013 | gives up the channel only when it is still its own |
| Rtp.ReadBack | internal/rtsp/rtp.go:26-36 | a receiver reads version, payload type 33, sequence number, timestamp, source and the chunk back |
| Rtp.RTPSender.Packet | internal/rtsp/rtp.go:26-39 | the buffer filled in place is that packet, for the k-th chunk, and the sender moves to the next |
| Rtp.RTPSender.Skip | internal/rtsp/rtp.go:41-44 | a skipped chunk moves the sender on as a sent one does |
| StreamLoop.LogNumbered | internal/rtsp/server.go:836-855 | over every run, chunk k drawn by a stream carries k mod 2^16 and 3600 k mod 2^32, whether earlier ones were sent or dropped |
| StreamLoop.StretchAccount | internal/rtsp/server.go:888-945 | while a behaviour stays active its counters count exactly what was drawn and sent since it began, the drops are the scheduled ones, and the stream is over exactly when the limit is reached or a packet or a status report broke the connection |
| StreamLoop.ImpairmentExact | internal/rtsp/server.go:414-433 | of the n chunks drawn under a scenario that applies, rtp_loss drops exactly floor(n / 3), rtp_blackhole all, and rtp_stop none but ends the stream with the third sent; any other scenario, and one that does not apply, drops none; otherwise only a broken connection ends the stream |
| StreamLoop.TimingExact | internal/rtsp/server.go:888-945 | over every run, a running stream draws on every tick with a payload except in the first 80 ms of delayed tables, and jitter holds back every third packet of the stream by 40 ms and no other |
| StreamLoop.ReportsApart | internal/rtsp/server.go:492-497 | the first tick of a stream reports, except over UDP without a port; the next report is due exactly when its interval, 200 ms by default, has passed |
| StreamLoop.LogIsTheLoop | internal/rtsp/server.go:833-838 | the chunks drawn are those of the loop's run, one for one: an impairment never disturbs the transport stream and waiting never advances it |
| StreamLoop.Stream.Prepare | internal/rtsp/server.go:889-912 | the status report when due, which ends an interleaved stream when it cannot be written, then the change of behaviour and its startup delay |
| StreamLoop.Stream.OnTick | internal/rtsp/server.go:888-945 | the ticker body with its counters, loop and sender takes exactly that step, over UDP and interleaved |
| PayloadCache.KeyDetermines | internal/rtsp/server.go:589-625 | scenarios with one cache key play the same payload in the same mode, even where ids contain the separator |
| PayloadCache.PayloadProvider.Load | internal/rtsp/server.go:544-566 | a hit or a successful load gives what the scenario must play (next row); a failed one leaves the cache alone |
| PayloadCache.PayloadProvider.Next | internal/rtsp/server.go:571-625 | the current scenario, or while the source fails the last one at hand, decides key, payload and mode together: malformed_psi that applies breaks the tables (PAT and PMT of a built stream, whose CRCs fail), cc_errors that applies breaks exactly every other counter and preserves them, epg_gap that applies plays without EIT, and all else plays the plain payload |
| PayloadCache.LoopPlaysCurrent | internal/ts/loop.go:27-35 | after any history of scenarios the loop replays what the current one must play, although it ignores its payload argument while the key is unchanged |
| PayloadCache.ErrorsKeepClockRising | internal/rtsp/server.go:538-587 | however often a stream switches between its plain payload and counter errors, a receiver sees its clock rise through every boundary, by its smallest step there |
| Requests.FrameSkipped | internal/rtsp/server.go:1069-1080 | a frame is skipped to its last byte if and only if it is shorter than 65536 bytes |
| Requests.LongFrameNotSkipped | internal/rtsp/server.go:1069-1080 | a frame of 65536 bytes is not skipped |
| Requests.InterleavedFrame | internal/rtsp/server.go:1251-1259 | the buffer filled in place is the frame of its packet, channel truncated to a byte |
| Requests.OneRead | internal/rtsp/server.go:1038-1067 | a well-formed request with any frames before its lines is read exactly: head, frames and body are consumed to the last byte and nothing after |
| Requests.AllRead | internal/rtsp/server.go:1038-1067 | so is any stream of them |
| Requests.FramesChangeNothing | internal/rtsp/server.go:1045-1050 | taking the frames out changes no request that is read and nothing that is left |
| Requests.FrameInBody | internal/rtsp/server.go:1056-1065 | between head and body is no line boundary: a frame there is read as body and as many bytes are left over |
| Requests.Reader.ReadRequest | internal/rtsp/server.go:1038-1067 | the reading loop is that function of the connection's bytes, failures included |
| RequestText.TextRead | internal/rtsp/server.go:1038-1103 | a request written as verb, URI and headers, with frames before its lines, is read as that verb, that URI and under each folded name the last trimmed value; exactly n bytes of body are consumed when the last content-length is the decimal of n, none when there is no such number, and there is no request while the body is incomplete |
| RequestText.FoldedIs | internal/rtsp/server.go:1094-1095 | a header name in any case with blanks around it folds to the name in lower case |
| Text.Trimmed | internal/rtsp/server.go:1094-1095 | trimming takes blanks off both ends and nothing else |
| Rtcp.CompoundWalks | internal/rtsp/rtcp.go:37-80 | walking the compound by its length fields finds exactly report, description and application packet, ending at the last byte |
| Rtcp.NameRead | internal/rtsp/rtcp.go:54-66 | the canonical name is read back and a null terminates it |
| Rtcp.TextRead | internal/rtsp/rtcp.go:68-80 | the status text is read back whole if and only if it is shorter than 65536 bytes |
| Rtcp.LongTextNotRead | internal/rtsp/rtcp.go:77 | a text of 65536 bytes is not read back |
| Rtcp.PidsLength | internal/rtsp/server.go:523-532 | every duplicate-free PID list, at most 8192 of them, prints in at most 40960 characters |
| Rtcp.ReportComplete | internal/rtsp/rtcp.go:37-96 | for every PID list a session can have the packet is complete and fits the two-byte length of an interleaved frame |
| Rtcp.ReportRead | internal/rtsp/rtcp.go:82-96 | and from its text a receiver reads source, tuner, level, lock, quality, frequency, polarity, system, symbol rate and PIDs back, each in its place |
| Rtcp.RTCPStatusSender.SenderReportPacket | internal/rtsp/rtcp.go:45-52 | the buffer filled in place is the report |
| Rtcp.RTCPStatusSender.SourceDescriptionPacket | internal/rtsp/rtcp.go:54-66 | the buffer filled in place is the description, padded to whole words |
| Rtcp.RTCPStatusSender.AppStatusPacket | internal/rtsp/rtcp.go:68-80 | the buffer filled in place is the application packet, padded to whole words |
| Rtcp.RTCPStatusSender.Packet | internal/rtsp/rtcp.go:37-43 | the compound is the three in order |

## Left out

- LoopEngine.NextSpec: integers are unbounded; the 64-bit clock arithmetic would need payloads of more than 2^30 timestamps to overflow.
- PcrTimeline.PcrNeverStepsBack: asks for a run whose payloads keep one clock, since a switch to a payload no longer than the current offset restarts it without advancing the timeline, and a switch at a boundary already uses the new payload's duration; PTS and DTS on their own are not claimed to rise across passes.
- Sections.SiWellFormed: the ten bytes of event id, date, time and duration are opaque, because the code's date does not follow Annex C of ETSI EN 300 468; names are bytes cut at the code's limits.
- LabManager.Manager.Setup: the event log, the transport and RTP counters of a session and its advisory times are not modelled; a query is its already split first values per key; the session id is new, which `RtspServer.FreshID` supplies; sorted lists need a catalog whose five default PIDs are distinct.
- Scenarios.ValidateSteps: which of several errors a refused timeline is answered with is not modelled.
- LabManager.Manager.SetScenarioTimeline: which of several validation errors is reported is not modelled.
- LabManager.Manager.ExpireSessions: the result is a set; the code also sorts it.
- RtspServer.Server.Handle: each request, expiry pass, closing connection and reset is one atomic step at one instant; response texts are reduced to their kinds, and the sleeps of the slow scenarios are absent.
- RtspServer.Server.Play: the stream it starts is the subject of `StreamControl` and `StreamLoop`; loading the payload may fail, as a parameter says.
- StreamLoop.Stream.OnTick: tickers and sleeps are parameters; the jitter is recorded, not waited for; whether there is a status report to write, and whether it can be written, is one answer of the tick; whether a UDP write fails is not observed, as in the code apart from a counter.
- PayloadCache.PayloadProvider.Next: the EPG clock is fixed and the source's answers do not change, though it may fail; payloads are values there, and their sharing is the subject of `LoopEngine.TimestampLoop.Next`.
- Requests.Reader.ReadRequest: the connection is the sequence of bytes it will deliver; a Content-Length beyond 64 bits is the number it writes.
- Text: trimming, case folding and number parsing are those of ASCII; a number too large for 64 bits still parses.
- Stopping the server, which empties only its own table, sockets, files, YAML and JSON loading, SSDP, HTTP handlers, the command line, the MCP server and the probe.
- Vendor profiles, configuration, topology, compatibility evidence, XMLTV and schema documents: constants and field checks that would only add easy members.
