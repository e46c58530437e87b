# Verification of the IoTConnect FreeRTOS SDK

A Dafny 4.11 model of the protocol code of the IoTConnect SDK for FreeRTOS, with proofs.
`dafny verify dfyconfig.toml` checks the whole project. It models

- the **SNTP poll client** (`sntp.c`): timers, DNS queries, packets, allocation failures, starts and stops
  as events of a machine, for any number of servers;
- the **NTP/Unix time arithmetic** in wrapping 32- and 64-bit words, and the tick-based clock it feeds (`iotc_time.c`);
- the **OTA range downloader** (`iotc_https_ota.c`) and the URL split in front of it (`iotconnect_app.c`);
- the **lwIP mailbox port** (`sys_arch.c.wip`) and the **MQTT command hand-off** (`iotc_mqtt_client.c`),
  as interleaved steps of concurrent tasks.

## How it is laid out

| file | contents |
|---|---|
| `Words.dfy` | C's integer widths, signed division, network byte order |
| `NtpTime.dfy`, `SystemClock.dfy` | conversions, offset formula, system clock class |
| `Backoff.dfy`, `Rotation.dfy` | retry timeout and server rotation on their own |
| `SntpMachine.dfy` | the SNTP client as functions on a state value; events and runs |
| `SntpClient.dfy` | the same client as a class with the C module's variables, proved equal to the machine step by step |
| `SntpRuns.dfy` | what is outstanding, where DNS answers go, what a stop leaves behind |
| `SntpPackets.dfy`, `SntpTimers.dfy`, `SntpControl.dfy` | packets and requests byte by byte; timers in milliseconds; starts, stops and settings |
| `SntpSpacing.dfy`, `SntpForfeit.dfy` | request spacing and turn-taking, and that a disturbance forfeits both |
| `SntpListening.dfy` | when a listen-only client is silent |
| `SntpRotation.dfy`, `Reachability.dfy`, `ReplyMatching.dfy` | server rotation and backoff; the register; which requests go out and which replies count |
| `SntpLimits.dfy` | concrete runs that show where the claims stop |
| `OtaDownload.dfy`, `OtaStart.dfy` | download loops against a trace protocol; URL split |
| `Mailbox.dfy`, `MailboxCode.dfy` | mailbox interleavings; the mailbox functions as code that takes the machine's steps |
| `CommandQueue.dfy` | interleavings of callback and command task; the queue with its real buffers |

The numbers of the protocol (bytes, milliseconds, tries, buffer sizes) are written out in the claims about packets, timers,
downloads and buffers, not taken from the constants of the model.

Code that updates state is a class or method with loops; a function on values states what it does, and
the claims are lemmas about that function over every input or every run. The environment is unconstrained
except where a lemma says otherwise: DNS answers, packets, losses and allocation failures come in any order.
`sys_timeout` never fails; `sys_untimeout` removes one matching timer, and which one is left open.

A *session* is the part of a run between `sntp_init` and `sntp_stop`, further `sntp_init`s and changes to the server table
included. An event *disturbs* it if it is a Kiss-of-Death, or a reply accepted while a DNS query is outstanding
(`SntpRuns.Disrupts`). Both leave a second activity behind. Exactly the undisturbed sessions have one activity throughout
(`SntpRuns.ExactlyOneActivity`), and exactly they keep requests spaced and servers taking turns however they go on
(`SntpForfeit.UndisturbedExactly`). Rotation allows disturbances: it follows the cyclic order as long as neither the
application nor a DNS answer changes the set of usable servers.

Where the code and what is said about it differ, the model follows the code:

- A comment in `sntp.c` (lines 131-136) gives representable dates from 1968 to 2104. The seconds are stored as an
  unsigned 32-bit Unix value, so the dates actually shown exactly are those from 1970 to February 2106 (`NtpTime.EraChange`).
- The reachability register is meant to say whether one of the last eight requests was answered. A reply accepted before
  the first request to the current server also sets it; `Reachability.ReachabilityMeaning` gives the exact condition.
- Listen-only mode is meant only to receive. A timer or DNS query left from an earlier poll session makes the client
  send all the same: `sntp_dns_found` and the timers look at neither mode nor session. `SntpListening.SilentExactly` gives the
  exact condition, `SntpLimits.ListenOnlySends` a run.
- A stopped client sends nothing (`ReplyMatching.StoppedIsSilent`), but `sntp_stop` need not leave it at rest: a DNS
  query, or a second timer of the same kind, outlives the stop (`SntpRuns.StopLeaves`), and what is left never ends by
  itself (`SntpRuns.LeftoversNeverEnd`). `udp_sendto` on the closed socket fails, its result is ignored, and the
  receive timeout is set all the same.
- A comment in `sntp_process` (lines 312-313) says that the 34-year step limit avoids overflows. It does not look at the
  packet's first two stamps: if these are far enough apart the sum of the formula overflows and the time set is 2^31 s off
  (`NtpTime.SumOverflowSetsWrongTime`). `NtpTime.TimeSet` gives the condition. A result that leaves the range does no
  harm, because the seconds are reduced modulo 2^32 anyway.

## Model

| member | source | states |
|---|---|---|
| NtpTime.FractionFormsAgree | iotc-freertos-sdk/freertos-layer/sntp/sntp.c:123-129 | for every 32-bit fraction the 32-bit form is never above the 64-bit form, at most 8 microseconds below it, and the result is below a second |
| NtpTime.SystemTimeRoundTrip | iotc-freertos-sdk/freertos-layer/sntp/sntp.c:137-160 | system time to NTP form and back is the identity for every second and microsecond, the fraction is never 0, and the product wraps for the last seven microseconds only |
| NtpTime.RoundTripWith32BitForm | iotc-freertos-sdk/freertos-layer/sntp/sntp.c:126-160 | with the 32-bit fraction macro the round trip holds exactly while the correction term is at most 2147 |
| NtpTime.EraChange | iotc-freertos-sdk/freertos-layer/sntp/sntp.c:118-145 | the seconds field of any era gives the Unix time modulo 2^32, and the true date exactly below 2^32 |
| NtpTime.SecondsOneToOne | iotc-freertos-sdk/freertos-layer/sntp/sntp.c:131-145 | different seconds fields give different Unix times |
| NtpTime.PackIsFixedPoint | iotc-freertos-sdk/freertos-layer/sntp/sntp.c:171-174 | the shifted and or-ed 64-bit word is the signed fixed-point value, from the signed and from the raw unsigned seconds alike |
| NtpTime.PackSplit | iotc-freertos-sdk/freertos-layer/sntp/sntp.c:317-325 | packing and splitting a time is the identity |
| NtpTime.SplitPack | iotc-freertos-sdk/freertos-layer/sntp/sntp.c:324-325 | splitting is quotient and remainder, and packing undoes it for every 64-bit value |
| NtpTime.PackPreservesOrder | iotc-freertos-sdk/freertos-layer/sntp/sntp.c:171-174 | packed values compare as the times do |
| Words.HalfTowardZero | iotc-freertos-sdk/freertos-layer/sntp/sntp.c:321-322 | the quotient in the offset formula is rounded toward zero, alike for both signs |
| NtpTime.StepLimitMeaning | iotc-freertos-sdk/freertos-layer/sntp/sntp.c:310-314 | the unsigned step and its shift test mean that the clocks differ by less than 2^30 seconds |
| NtpTime.CorrectedExactly | iotc-freertos-sdk/freertos-layer/sntp/sntp.c:317-322 | under the step limit, for any server stamps, the wrapping code computes the offset formula if and only if the sum and the result fit in 64 bits, and is far off otherwise |
| NtpTime.CorrectedInRange | iotc-freertos-sdk/freertos-layer/sntp/sntp.c:310-322 | under the guard no intermediate value overflows, and the result lies between the two estimates it averages if and only if it is representable |
| NtpTime.OffsetErrorBound | iotc-freertos-sdk/freertos-layer/sntp/sntp.c:321-322 | for real delays and clocks read in whole units, the corrected time is within half the difference of the one-way delays, plus two units, of the server's clock at arrival |
| NtpTime.OffsetExactOnWholeUnits | iotc-freertos-sdk/freertos-layer/sntp/sntp.c:321-322 | on whole units the error is half the difference of the delays, rounded, and zero on a symmetric path |
| NtpTime.CompensateMeaning | iotc-freertos-sdk/freertos-layer/sntp/sntp.c:298-328 | for every packet and local time, the compensated time is the offset formula on the packet's stamps, or the transmit stamp beyond the 34-year step, if and only if nothing overflows |
| NtpTime.TransmitStampAlone | iotc-freertos-sdk/freertos-layer/sntp/sntp.c:289-330 | without compensation, and with it where a zero receive stamp forbids it, the clock is set to the transmit stamp |
| NtpTime.TimeSet | iotc-freertos-sdk/freertos-layer/sntp/sntp.c:289-330 | for every packet and local time, the Unix time set is that of the offset formula, or of the transmit stamp beyond the step, if and only if the sum does not overflow; otherwise it is that of no value nearby; never with the server's two stamps less than 2^30 s apart |
| NtpTime.CompensationError | iotc-freertos-sdk/freertos-layer/sntp/sntp.c:289-330 | within the step limit, the Unix time set is that of a value within the error bound of the server's time at arrival if and only if the sum does not overflow |
| NtpTime.SumOverflowSetsWrongTime | iotc-freertos-sdk/freertos-layer/sntp/sntp.c:312-325 | a packet within the step limit after which the clock is 2^31 s off |
| SystemClock.Clock.SetTime | iotc-freertos-sdk/freertos-layer/iotc_time.c:40-44 | the new base, with which the clock shows the given time at this tick |
| SystemClock.Clock.SetSystemTimeUs | iotc-freertos-sdk/freertos-layer/iotc_time.c:61-69 | the clock shows the seconds it was given, the microseconds are dropped, the callback is recorded |
| SystemClock.SetThenRead | iotc-freertos-sdk/freertos-layer/iotc_time.c:40-59 | at any counter value after being set the clock shows the set time plus the whole seconds counted at both ends |
| SystemClock.CountedSeconds | iotc-freertos-sdk/freertos-layer/iotc_time.c:40-51 | over any true number of ticks, the seconds counted are right to within one, less 2^32 ticks for every wrap of the counter; up to 2^30 ticks a second, exactly until the first wrap |
| SystemClock.PacketToClock | iotc-freertos-sdk/freertos-layer/sntp/sntp.c:289-330 | without compensation the clock is given the server's date modulo 2^32 |
| SystemClock.WallClock | iotc-freertos-sdk/freertos-layer/iotc_time.c:40-69 | from a server's date to `time()` any true number of ticks later: exact value; less than a second ahead of and less than two behind the server's date, if and only if the wraps of counter and shown time cancel out, which without a wrap of the date means until the counter wraps |
| SystemClock.TickWrapStepsBack | iotc-freertos-sdk/freertos-layer/iotc_time.c:40-51 | at every tick rate, the tick that wraps the counter takes all seconds counted so far off the shown time |
| SntpClient.PacketBytesToClock | iotc-freertos-sdk/freertos-layer/sntp/sntp.c:295-330 | the same end to end from the bytes of an accepted packet |
| Backoff.ClosedForm | iotc-freertos-sdk/freertos-layer/sntp/sntp.c:255-262 | after n retries the timeout is base * 2^min(n, K) and never leaves base..cap |
| Backoff.LargestExponent | iotc-freertos-sdk/freertos-layer/sntp/sntp.c:380-390 | K is the largest exponent whose power stays within the cap |
| Backoff.DoubledOrKept | iotc-freertos-sdk/freertos-layer/sntp/sntp.c:380-390 | the 32-bit shift with its two tests doubles exactly when twice the value is within the cap |
| Backoff.NeverDecreases | iotc-freertos-sdk/freertos-layer/sntp/sntp.c:380-390 | more retries never give a shorter timeout |
| Rotation.Search | iotc-freertos-sdk/freertos-layer/sntp/sntp.c:409-428 | the nearest usable server in cyclic order, or none when no other is usable |
| Rotation.FullCircle | iotc-freertos-sdk/freertos-layer/sntp/sntp.c:403-432 | as many rotations as there are usable servers visit each exactly once and return to the start |
| SntpClient.Sntp.Request | iotc-freertos-sdk/freertos-layer/sntp/sntp.c:606-644 | takes the client's whole state as the machine's request does |
| SntpClient.Sntp.SendRequest | iotc-freertos-sdk/freertos-layer/sntp/sntp.c:543-576 | takes the client's whole state as the machine's send does, with the socket open or closed |
| SntpClient.Sntp.Retry | iotc-freertos-sdk/freertos-layer/sntp/sntp.c:369-392 | takes the client's whole state as the machine's retry does |
| SntpClient.Sntp.NextUsable | iotc-freertos-sdk/freertos-layer/sntp/sntp.c:409-431 | the search loop with wrap-around finds the cyclic successor, or restores the server |
| SntpClient.Sntp.TryNextServer | iotc-freertos-sdk/freertos-layer/sntp/sntp.c:403-436 | takes the client's whole state as the machine's move to the next server does |
| SntpClient.Sntp.DnsFound | iotc-freertos-sdk/freertos-layer/sntp/sntp.c:582-598 | takes the client's whole state as the machine's DNS answer does |
| SntpClient.Sntp.Recv | iotc-freertos-sdk/freertos-layer/sntp/sntp.c:439-537 | takes the state as the machine does, and changes the system clock exactly when the packet is a correct reply |
| SntpClient.Sntp.Init | iotc-freertos-sdk/freertos-layer/sntp/sntp.c:651-683 | takes the client's whole state as the machine's start does |
| SntpClient.Sntp.Stop | iotc-freertos-sdk/freertos-layer/sntp/sntp.c:689-705 | clears every register, cancels one timer of each kind, closes the socket; nothing if already stopped |
| SntpClient.Sntp.Dispatch | iotc-freertos-sdk/freertos-layer/sntp/sntp.c:439-852 | every callback and setting of the code is one step of the machine, so every run of the code is a run |
| SntpPackets.ReceiveByBytes | iotc-freertos-sdk/freertos-layer/sntp/sntp.c:439-537 | what every packet does to a running client, in both modes and at every check level, from its 48 bytes: accepted with its time, moving on, or nothing |
| SntpPackets.AcceptedExactly | iotc-freertos-sdk/freertos-layer/sntp/sntp.c:447-537 | in every run, once a poll client has sent a request, a packet is accepted if and only if its bytes, address and port are those of a proper reply to the last request |
| SntpPackets.TryNextMovesOn | iotc-freertos-sdk/freertos-layer/sntp/sntp.c:403-432 | the client moves to the nearest usable server up the table, wrapping at its end, or retries if no other is usable |
| SntpPackets.EveryRequestIsWell | iotc-freertos-sdk/freertos-layer/sntp/sntp.c:337-366 | every request goes to the address of the server current then, carries the local time of that moment when stamps are looked at, and is remembered |
| SntpPackets.RequestTable | iotc-freertos-sdk/freertos-layer/sntp/sntp.c:606-632 | a server's name is resolved anew for every request, and only the current entry changes |
| SntpTimers.EventSetsOne | iotc-freertos-sdk/freertos-layer/sntp/sntp.c:369-644 | in every state, a fired timer, a DNS answer or a Kiss-of-Death is replaced by exactly one timer, the one that belongs to the new entry of the history, or by one query for the current server's name |
| SntpTimers.AcceptSetsTimer | iotc-freertos-sdk/freertos-layer/sntp/sntp.c:515-524 | an accepted reply cancels one timer of each kind and sets the next request for an hour later |
| SntpTimers.ExactDeadlines | iotc-freertos-sdk/freertos-layer/sntp/sntp.c:369-644 | in an undisturbed session what is pending is exactly what the history says: due 15 s after a request or failed attempt, an hour after a reply, a delay after a retry |
| SntpTimers.RetriesWait | iotc-freertos-sdk/freertos-layer/sntp/sntp.c:369-392 | in every run, a retry sets exactly one timer, 15000 * 2^min(n, 3) ms later after n retries since the last reply or move |
| SntpTimers.StartSetsOne | iotc-freertos-sdk/freertos-layer/sntp/sntp.c:651-677 | a poll client's start names the first server, resets the timeout, and either sets the start-up timer or makes a first request at once |
| SntpControl.StartWithoutPolling | iotc-freertos-sdk/freertos-layer/sntp/sntp.c:651-683 | a second start, and a start in listen-only mode, neither send nor schedule anything |
| SntpControl.StopEffect | iotc-freertos-sdk/freertos-layer/sntp/sntp.c:689-705 | which fields a stop clears and which it leaves alone |
| SntpControl.StopAndStart | iotc-freertos-sdk/freertos-layer/sntp/sntp.c:651-705 | a client stopped before its first request and started again is as it was after its first start |
| SntpControl.SettingsEffect | iotc-freertos-sdk/freertos-layer/sntp/sntp.c:783-852 | a setting changes one entry of the table in the way it should, or nothing |
| SntpRuns.NeverStalls | iotc-freertos-sdk/freertos-layer/sntp/sntp.c:515-536 | in every run, with every event allowed, new settings included, a running poll client has a timer pending or a DNS query outstanding |
| SntpRuns.ListenOnlyActivities | iotc-freertos-sdk/freertos-layer/sntp/sntp.c:670-705 | in listen-only mode nothing is added to what is pending, and only a stop takes anything away |
| SntpRuns.ListenOnlyIsSilent | iotc-freertos-sdk/freertos-layer/sntp/sntp.c:670-680 | a client with nothing pending attempts nothing and sets no timer while in listen-only mode |
| SntpListening.SilentExactly | iotc-freertos-sdk/freertos-layer/sntp/sntp.c:583-680 | in listen-only mode a client stays silent, or so much as never sends, if and only if nothing is pending |
| SntpListening.NamedSends | iotc-freertos-sdk/freertos-layer/sntp/sntp.c:583-644 | with anything pending, timers and DNS answers alone make a running listen-only client send |
| SntpRuns.StepActivities | iotc-freertos-sdk/freertos-layer/sntp/sntp.c:515-533 | how much every event of a session changes what is outstanding |
| SntpRuns.ExactlyOneActivity | iotc-freertos-sdk/freertos-layer/sntp/sntp.c:506-644 | exactly one timer or DNS query is outstanding throughout a session if and only if no event disturbs it |
| SntpRuns.QueriesFollowCurrent | iotc-freertos-sdk/freertos-layer/sntp/sntp.c:403-432 | in every session that leaves the server table alone, all outstanding queries belong to the current server throughout if and only if the client never moves on while a query is out |
| SntpRuns.AnswerStoredWhereAsked | iotc-freertos-sdk/freertos-layer/sntp/sntp.c:583-598 | until then, a DNS answer is stored in the entry whose name was asked, and no other entry changes |
| SntpRuns.StopLeaves | iotc-freertos-sdk/freertos-layer/sntp/sntp.c:690-705 | how much a stop leaves pending for any running client: nothing if and only if no DNS query is out and at most one timer of each kind is set |
| SntpRuns.StopClearsUnlessDns | iotc-freertos-sdk/freertos-layer/sntp/sntp.c:690-705 | in an undisturbed session, nothing if and only if no DNS query is out |
| SntpRuns.LeftoversNeverEnd | iotc-freertos-sdk/freertos-layer/sntp/sntp.c:543-644 | what a stop has left pending stays as much until the next start |
| SntpSpacing.RequestSpacing | iotc-freertos-sdk/freertos-layer/sntp/sntp.c:369-644 | attempts of an undisturbed session are at least 15 seconds apart, at least an hour after an accepted reply, and no earlier than a backed-off retry allows |
| SntpSpacing.TakingTurns | iotc-freertos-sdk/freertos-layer/sntp/sntp.c:565-643 | an unanswered or address-less server is not asked again before a reply, a move or a backed-off retry, and until then only the move is pending |
| SntpForfeit.Provoke | iotc-freertos-sdk/freertos-layer/sntp/sntp.c:369-644 | from any running client, timers and DNS answers alone can make any two things pending send a request each at the same time |
| SntpForfeit.DisturbanceForfeits | iotc-freertos-sdk/freertos-layer/sntp/sntp.c:506-537 | one more event after an undisturbed session: the distances between requests, those between attempts, and the turns survive every undisturbed continuation if it was no disturbance; each fails in some continuation if it was |
| SntpForfeit.UndisturbedExactly | iotc-freertos-sdk/freertos-layer/sntp/sntp.c:506-537 | a session keeps each of the three from every point on if and only if it is undisturbed |
| SntpForfeit.RestartSpaced | iotc-freertos-sdk/freertos-layer/sntp/sntp.c:651-705 | a restarted client keeps all three if the stop before left nothing pending, and none otherwise |
| SntpRotation.StepUsable | iotc-freertos-sdk/freertos-layer/sntp/sntp.c:415-419 | exactly when an event changes the set of usable servers |
| SntpRotation.UsableThroughout | iotc-freertos-sdk/freertos-layer/sntp/sntp.c:403-432 | the set is the same throughout a session that leaves the table alone, Kisses-of-Death allowed, if and only if no DNS answer of that kind comes |
| SntpRotation.RotationOverRun | iotc-freertos-sdk/freertos-layer/sntp/sntp.c:395-432 | as long as the set stays the same, the current server is the start rotated once per call of the rotation, by timeout, DNS failure or Kiss-of-Death |
| SntpRotation.FollowedIsSteady | iotc-freertos-sdk/freertos-layer/sntp/sntp.c:583-598 | where the table is left alone, the set stays the same while no query is left behind, and in every undisturbed session |
| SntpRotation.FairRotation | iotc-freertos-sdk/freertos-layer/sntp/sntp.c:395-432 | over any stretch of such a session with as many rotations as usable servers, each is the current server at some point, and the first is again at the end |
| SntpRotation.BackoffOverRun | iotc-freertos-sdk/freertos-layer/sntp/sntp.c:255-262 | in every run and every poll session of it, whatever earlier ones left pending, the timeout and every logged delay are 15000 * 2^min(n, 3) ms after n retries since the last reply or move |
| Reachability.RegisterRefinesHistory | iotc-freertos-sdk/freertos-layer/sntp/sntp.c:506-563 | in every run each bit of each register is the matching place of the full history since the last stop |
| Reachability.ReachabilityMeaning | iotc-freertos-sdk/freertos-layer/sntp/sntp.c:747-754 | bit k says whether the (k+1)-th most recent request was answered; nonzero iff one of the last eight was, or an early reply shows |
| ReplyMatching.StoppedIsSilent | iotc-freertos-sdk/freertos-layer/sntp/sntp.c:543-576 | in every run, a stopped client has sent nothing and accepted nothing since the stop |
| ReplyMatching.AcceptedReplyMatches | iotc-freertos-sdk/freertos-layer/sntp/sntp.c:447-486 | in every run a reply that a poll client accepts after a request comes from the address of the most recent request and returns its transmit stamp, at the check levels that ask for it |
| SntpLimits.KissOfDeathBreaksSpacing | iotc-freertos-sdk/freertos-layer/sntp/sntp.c:528-533 | a Kiss-of-Death makes the next request follow after one millisecond |
| SntpLimits.ReplyDuringDnsBreaksSpacing | iotc-freertos-sdk/freertos-layer/sntp/sntp.c:515-524 | a late reply accepted during the next server's DNS query leads to two requests one millisecond apart |
| SntpLimits.KissOfDeathOutlivesStop | iotc-freertos-sdk/freertos-layer/sntp/sntp.c:528-533 | after a Kiss-of-Death a stop with no DNS query out leaves a timer set |
| SntpLimits.KissOfDeathMisplacesAnswer | iotc-freertos-sdk/freertos-layer/sntp/sntp.c:528-533 | a Kiss-of-Death during a DNS query makes the answer the address of another server |
| SntpLimits.DnsOutlivesStop | iotc-freertos-sdk/freertos-layer/sntp/sntp.c:588-592 | a DNS answer after the stop sends nothing, but saves the address and sets the receive timeout of a stopped client |
| SntpLimits.EarlyReplyLooksReachable | iotc-freertos-sdk/freertos-layer/sntp/sntp.c:510-513 | a late reply from one server makes the next look reachable although no request was sent to it |
| SntpLimits.ListenOnlySends | iotc-freertos-sdk/freertos-layer/sntp/sntp.c:583-598 | start, stop during the DNS query, listen-only, start: the answer makes the listening client send and set a timer |
| OtaDownload.Downloader.Download | iotc-freertos-sdk/freertos-layer/iotc_https_ota.c:177-273 | for any network and file layer the trace follows the protocol, the file is what was written, 0 means completed, -1 means the last action failed for good |
| OtaDownload.RangesAreChunks | iotc-freertos-sdk/freertos-layer/iotc_https_ota.c:185-203 | every requested range starts at a multiple of 4096 inside the image and has 4096 bytes, or what is left of the image |
| OtaDownload.OffsetsFitInt | iotc-freertos-sdk/freertos-layer/iotc_https_ota.c:185-189 | in a completed download no offset overflows `int` if and only if the length is at most 2^31 - 4096 |
| OtaDownload.RangesInOrder | iotc-freertos-sdk/freertos-layer/iotc_https_ota.c:185-242 | ranges are requested in order and an answered one is never requested again |
| OtaDownload.RangesPartition | iotc-freertos-sdk/freertos-layer/iotc_https_ota.c:185-262 | the answered ranges of a completed download are disjoint, in order, and cover the whole image |
| OtaDownload.PrefixBeforeChunk | iotc-freertos-sdk/freertos-layer/iotc_https_ota.c:185-262 | before each chunk the file holds exactly the image up to the chunk's start |
| OtaDownload.Reassembly | iotc-freertos-sdk/freertos-layer/iotc_https_ota.c:185-273 | with honest range responses a return of 0 means that the file is the image, byte for byte |
| OtaDownload.NothingWrong | iotc-freertos-sdk/freertos-layer/iotc_https_ota.c:252-262 | even a failed download leaves no byte that differs from the image |
| OtaDownload.GivesUpAfter31 | iotc-freertos-sdk/freertos-layer/iotc_https_ota.c:209-226 | a download that gives up on a network error beyond the first chunk has met exactly 31 in a row for the same range |
| OtaDownload.NothingAfter31 | iotc-freertos-sdk/freertos-layer/iotc_https_ota.c:209-226 | after 31 network errors in a row nothing is sent |
| OtaDownload.OtherFailuresAreLast | iotc-freertos-sdk/freertos-layer/iotc_https_ota.c:177-262 | every other failure ends the download at once |
| OtaDownload.SendBound | iotc-freertos-sdk/freertos-layer/iotc_https_ota.c:209-242 | an image of n chunks of 4096 bytes takes at most 1 + 31 (n - 1) requests besides the size query |
| OtaStart.SplitUrl | iotc-freertos-sdk/iotconnect_app.c:347-387 | the exact status for every URL and allocation outcome; on success the two terminated strings of the cut, otherwise nothing left allocated |
| OtaStart.PartsHaveThreeSlashes | iotc-freertos-sdk/iotconnect_app.c:358-383 | a URL that can be cut has at least three slashes |
| OtaStart.PartsUnique | iotc-freertos-sdk/iotconnect_app.c:358-383 | prefix, host and resource are determined by the URL |
| OtaStart.StartOta | iotc-freertos-sdk/iotconnect_app.c:389-409 | success means a completed download; a URL that cannot be cut touches nothing; the heap is always as before |
| Mailbox.SingleWaiter | wip/config/lwip_port/src/sys_arch.c.wip:255-308 | in every interleaving at most one task is between registration and release, and the waiter field names exactly that task |
| Mailbox.Conservation | wip/config/lwip_port/src/sys_arch.c.wip:153-360 | messages posted are those fetched followed by those queued, in order; never above the created size; lost only at deletion |
| Mailbox.HandedIsFetched | wip/config/lwip_port/src/sys_arch.c.wip:153-360 | in every run, the messages handed to the callers of fetch and tryfetch, in order of removal, are exactly those removed from the queue |
| Mailbox.HoldsWhatItTook | wip/config/lwip_port/src/sys_arch.c.wip:284-312 | what a fetch holds and returns, a step of its own call has taken from the front of the queue |
| Mailbox.PostThenFetch | wip/config/lwip_port/src/sys_arch.c.wip:153-312 | a posted message reaches the next fetch after those queued before it |
| Mailbox.OpenFetchNeverTimesOut | wip/config/lwip_port/src/sys_arch.c.wip:294-312 | while the mailbox is open, a fetch without a time limit returns with a message or not at all |
| Mailbox.TimedFetchReturns | wip/config/lwip_port/src/sys_arch.c.wip:280-312 | a fetch with a time limit has returned after four steps of its own |
| Mailbox.PostFailsOnlyWhenFull | wip/config/lwip_port/src/sys_arch.c.wip:167-201 | a post that does not wait fails only on a full mailbox, and a post can go through on any other |
| Mailbox.WaitingPostDelivers | wip/config/lwip_port/src/sys_arch.c.wip:153-159 | in every run, a post that waits goes on until its own step has put the message at the back of the queue |
| Mailbox.LostWerePostedLater | wip/config/lwip_port/src/sys_arch.c.wip:106-142 | free goes on only with an empty mailbox, so it loses at most what is posted after it looked |
| Mailbox.SingleDeletion | wip/config/lwip_port/src/sys_arch.c.wip:106-142 | in every interleaving, however many tasks free the mailbox, at most one of them holds the handle to delete the queue, and it finds the queue there |
| Mailbox.NoRegistrationAfterFree | wip/config/lwip_port/src/sys_arch.c.wip:129-140 | after free has cleared the mailbox no fetch registers any more, and no other call gets past the NULL handle |
| Mailbox.BlockedFetchReturns | wip/config/lwip_port/src/sys_arch.c.wip:294-312 | an unlimited wait blocked when free cleared a drained mailbox returns SYS_ARCH_TIMEOUT: the step that brings it on is always possible, it is blocked no longer than until the freeing task's next step, and three steps of its own are enough |
| Mailbox.TimesOutExactly | wip/config/lwip_port/src/sys_arch.c.wip:106-142 | after free has cleared the mailbox a blocked wait is sure to time out if and only if nothing is queued and nobody is about to post |
| Mailbox.PostedDelivers | wip/config/lwip_port/src/sys_arch.c.wip:153-312 | a run in which a post under way makes that fetch return its message |
| MailboxCode.Mbox.Fetch | wip/config/lwip_port/src/sys_arch.c.wip:239-312 | with other tasks running at every point of preemption, the call takes only steps of the machine, from the critical section to the release, and a message it returns is one its own call took from the front of the queue |
| MailboxCode.Mbox.Post | wip/config/lwip_port/src/sys_arch.c.wip:153-201 | the call takes exactly the machine's steps of a post that waits or one that does not |
| MailboxCode.Mbox.TryFetch | wip/config/lwip_port/src/sys_arch.c.wip:332-360 | the call takes exactly the machine's two steps and returns the message it took out |
| MailboxCode.Mbox.Free | wip/config/lwip_port/src/sys_arch.c.wip:106-142 | the call takes exactly the check, the critical section, the abort of the wait and the deletion, or stops at the assertion of a queue in use or of a NULL handle |
| MailboxCode.MailboxSafe | wip/config/lwip_port/src/sys_arch.c.wip:74-360 | whatever calls are made and under way, the mailbox names its one waiter and neither loses nor invents a message before deletion |
| CommandQueue.Fill | iotc-freertos-sdk/freertos-layer/iotc_mqtt_client.c:365-371 | a 1024-byte buffer gets the first 1023 payload bytes at most, one by one, and a null after them |
| CommandQueue.Commands.IncomingMessage | iotc-freertos-sdk/freertos-layer/iotc_mqtt_client.c:352-379 | a payload is queued in a new buffer that holds it, at once if fewer than five wait or when the command task makes room in time, or nothing stays allocated; exactly the machine's steps |
| CommandQueue.Commands.TakeOne | iotc-freertos-sdk/freertos-layer/iotc_mqtt_client.c:191-205 | the oldest message is processed as its buffer holds it and the buffer freed; exactly the machine's steps |
| CommandQueue.BufferOwnership | iotc-freertos-sdk/freertos-layer/iotc_mqtt_client.c:184-379 | in every interleaving a buffer is live iff the callback, the queue or the command task holds it, in one place, and is otherwise freed exactly once |
| CommandQueue.ProcessedInOrder | iotc-freertos-sdk/freertos-layer/iotc_mqtt_client.c:191-205 | processed messages are received ones in order, each its first 1023 bytes at most and a null; none that reached the queue is skipped, and at most five wait |
| CommandQueue.NothingPendingNothingLost | iotc-freertos-sdk/freertos-layer/iotc_mqtt_client.c:184-208 | at rest every queued message has been processed and every buffer freed once |

## Left out

- The wrap of the millisecond counter behind `sys_timeout`: deadlines are unbounded numbers.
- Rotation and DNS claims about sessions assume that the application leaves the server table alone (`TableKept`); all other claims allow changes to it. `dhcp_set_ntp_servers` is a loop over the setter.
- UDP binding: packets may reach a poll client before its first request, which is more than the unbound socket lets through; no run in `SntpLimits.dfy` relies on it.
- Table sizes above 255, which do not fit the 8-bit index of `sntp.c`; the value machine allows any size.
- The polling loop `iotc_stm_aws_time_obtain` and the SNTP task around it: they only wait.
- SNTP_CHECK_RESPONSE levels 3 and 4, which the source does not implement either.
- The request bytes written by `sntp_initialize_request`, except the transmit stamp.
- The text of the `Content-Range` header in `iotc_ota_fw_download`: the image length is an input.
- OtaDownload.Downloader.Download: its offsets are unbounded, which is faithful up to the length that OffsetsFitInt gives; the connection set-up and the size query before the loop are not in the trace, nor is the progress percentage, which is only logged.
- `iotc_ota_fw_apply`: its activation call is commented out in the source.
- The mailbox interleaving in which free deletes the queue between a fetcher's registration and its wait: a task that reaches a deleted queue takes no further step in the model.
- Mailbox.BlockedFetchReturns: assumes that the waiter is already blocked when free clears the mailbox. That a fair scheduler lets both tasks take their possible steps is left to the reader.
- MailboxCode.Mbox.Fetch: a call may still be waiting when the modelled run ends, and a queue call on a deleted queue does not return.
- CommandQueue.Commands.IncomingMessage: the command task runs inside the call only while it waits for room; all other interleavings are covered by the step machine of the same module.
- Publishing with acknowledgement, telemetry, TLS, HTTP, MQTT agent, DNS and UDP internals.
- The semaphore, mutex and thread wrappers of `sys_arch.c.wip`.
