# Verification of the link control and telemetry logic

A Dafny model of the stateful parts of a drone video link built on wfb-ng, and
proofs about it. `dafny verify dfyconfig.toml` checks everything.

Times are integers in the unit of the code (microseconds or milliseconds),
floats are reals, C's 32- and 64-bit unsigned words wrap where the code lets
them (differences of times, counters, session numbers), and signed overflow,
which C leaves undefined, is not modelled. Radios (`iw`), sockets, clocks and
the database appear as values: hops returned, frames sent, rows inserted.

Code that updates state in place is a class whose methods state their whole new
state as a function of the old one; what the code promises is then proved about
those functions over whole runs. A run is a sequence of events that grows at its
end (`Runs`), and every statement about runs is for all runs.

## What is modelled

**JSON tokens** (`JsonTokens`, `JsonGrammar`, `JsonParser`, `JsonStructure`,
`JsonWalk`, `JsonPrint`). The one-pass tokenizer with parent links fills a flat array. A
declarative layout of texts as trees is the reference; a stack machine stands
between it and the array. The parser accepts exactly the texts with a layout;
printing and parsing are inverse; `jskip` and `jfind` use only `size`.

**Channel switch announcement** (`CsaText`, `CsaFrame`, `CsaObject`, `CsaVehicle`,
`CsaGround`, `CsaRequests`, `CsaTiming`, `CsaWorld`, `CsaAgreement`, `CsaLimits`,
`CsaReturn`, `CsaSessions`). The vehicle's substring reader recovers the ground's
printed frame, and is first-match lookup on any printed object. The two state machines
then run against a link that loses, delays, repeats and reorders frames.
The hypotheses of the agreement are explicit: radios hear each other only when
tuned alike, no frame is delivered at or after the switch, the target works both
ways before either side decides or not at all, `iw` succeeds, and the rx counter
moves exactly when traffic is heard (fewer than 2^32 events in a run). Each session
starts where the one before left the two, so they stay together over any number.

**MCS selector** (`SelectorSpec`, `SelectorC`, `SelectorPy`,
`SelectorRefinement`, `SelectorLimits`, `SelectorBounds`, `SelectorResponse`,
`Scorer`). The C selector with a 16-slot ring and the Python one with a deque are two
classes. They are related on every run of comparable settings and part on the others.
Bounds on churn, rate and recovery hold for both, and so does exactly when they move,
trip and recover. The scorer in front of them does not add variation, so the churn is
bounded by the raw measurements.

**Adaptive FEC** (`FecSizing`, `FecControl`, `FecController`, `FecHistory`,
`FecCommits`). The redundancy curve, the deadband, the headroom ring and the commit
gate; what a commit says about the run before it, and exactly when there is one.

**Windowed accumulators** (`TrendSpec`, `Trends`, `McsHistogram`, `ProbeWindow`,
`ClockFilter`, `Welford`, `CaptureLog`, `CaptureSessions`). Each ring or batch against
a naive specification: the last records, the last ten seconds, what was fed in, the
least round trip, the two-pass variance, the collapsed input, the sessions the passes
ask for.

`Rings` is the shared ring buffer; `Runs` the shared vocabulary.

## Where the code differs from what is said of it

- `vehicle/csa/PROTOCOL.md:126` says a captured frame of an earlier session is
  rejected. An idle vehicle outside its cooldown accepts any session number
  (`ReplayIff`, `ReplayHopsAgain`).
- `vehicle/csa/PROTOCOL.md:104` lets any datagram end VERIFY. A csa frame does so
  only with the same session and an allowed target (`VerifyEndsIff`, `RevertIff`;
  a run that reverts in spite of two csa frames: `CsaDatagramsLeaveVerify`).
- `vehicle/csa/PROTOCOL.md:78-80` says refresh frames refine the switch time. They
  never move it; only a newer session does (`RefreshIff`, `ArmedThroughIff`; a run
  that shows it: `RefreshMovesNothing`).
- `vehicle/csa/csa.h:71-73` has `csa_tick` return 0 only when no timer is pending. A
  session whose revert time is minus the clock at its hop reverts after a 0
  (`DeadlineIff`, `ZeroDeadlineReverts`).
- `ground/gs_supervisor_http.c:864-865` promises the channel the interface was on
  for an omitted prev_chan. The code takes the target, and then losing all frames
  leaves the two parties apart (`OmittedPrevDisagrees`, `AgreementIff`).
- The percent-decoded prev_ht is printed unescaped; one with a quote in it does not
  come back (`FrameRoundTrip`).
- `telemetry/wfb_link_score.py:1-8` calls itself faithful to the C logic. The MCS
  clamps agree only for mcs_min <= mcs_max (`ClampsAgreeIff`).
- The headroom cutoff wraps below zero while the clock is younger than the window,
  and the window is then empty (`WindowIff`).
- An object with an odd child makes `jskip` fall short and `jfind` miss later keys,
  if it stands before the last key (`SkipExactIffEven`, `FindRightIff`,
  `OddObjectHidesKey`).
- The MCS histogram marks an empty slot with second 0, so what arrives in the
  clock's first second is not reported (`SlotsAgreeWithNaive`, `SecondZeroIsLost`).

## Model

| member | source | states |
|---|---|---|
| JsonGrammar.ForestIffFits | shared/wfb_json.h:56-122 | the one-pass tokenizer accepts exactly the texts that have a layout as a forest of values (stated declaratively in literal characters, both ways), so a text has at most one |
| JsonParser.JsonParse | shared/wfb_json.h:90-122 | for arbitrary bytes and any token limit, `json_parse` ends, returns -1 or n <= max, and on success the array is the pre-order tokens of the tree of the text, every container closed |
| JsonParser.Parser.Alloc | shared/wfb_json.h:48-54 | the next token is handed out with empty span, no children and no parent, exactly while the limit allows, and nothing else changes |
| JsonParser.Parser.ParsePrim | shared/wfb_json.h:56-71 | a primitive runs to the next delimiter and becomes a childless token under the open container |
| JsonParser.Parser.ParseStr | shared/wfb_json.h:73-88 | a string runs to its unescaped closing quote, or the parse fails |
| JsonParser.Parser.ClimbToOpen | shared/wfb_json.h:104-110 | after a close, the climb over parent links stops at the innermost container still open |
| JsonParser.EnclosingOpen | shared/wfb_json.h:104-110 | the parent of the container just closed is itself open or absent, so the climb and a stack agree |
| JsonParser.Parser.Turn | shared/wfb_json.h:94-120 | one turn of the main loop does what one step of the stack machine does to the token array |
| JsonParser.RunGrows | shared/wfb_json.h:48-54 | tokens are never given back, so running out early is running out |
| JsonTokens.ParentsEnclose | shared/wfb_json.h:90-122 | parents precede children, and subtrees are index intervals nested in the parent's: two of them are nested or disjoint |
| JsonTokens.SizeIsChildCount | shared/wfb_json.h:48-54 | `size` of every token is the number of tokens that name it as parent |
| JsonStructure.Laminar | shared/wfb_json.h:90-122 | two subtrees are nested or disjoint |
| JsonStructure.SubtreeIsDescendants | shared/wfb_json.h:90-122 | climbing parent links from a token reaches another exactly when it lies in a contiguous range behind it |
| JsonStructure.SpansLaminar | shared/wfb_json.h:90-122 | of two tokens the later one's span lies inside the earlier one's when it is below it, and behind it otherwise |
| JsonStructure.AcceptedTokens | shared/wfb_json.h:48-122 | for any bytes the parser accepts, every token, the first one too: its parent comes before it, `size` is the number of tokens that name it as parent, and it is closed and inside the text |
| JsonStructure.AcceptedPairs | shared/wfb_json.h:90-122 | for any bytes the parser accepts, the spans of any two tokens nest or follow as their subtrees do |
| JsonWalk.JSkip | shared/wfb_json.h:132-151 | `jskip` ends on any token array and computes the skip function |
| JsonWalk.SkipExactIffEven | shared/wfb_json.h:132-151 | on parser output `jskip` never passes the end of the subtree, and reaches it exactly when no object in the subtree has an odd child |
| JsonWalk.JFind | shared/wfb_json.h:154-165 | `jfind` on parser output never indexes outside the array; a hit lies inside the object's subtree |
| JsonWalk.FindPair | shared/wfb_json.h:157-163 | the pair loop of `jfind` stays inside the object |
| JsonWalk.FindIsLookup | shared/wfb_json.h:154-165 | when no object before the last pair's value has an odd child, `jfind` is first-match lookup on the tree |
| JsonWalk.FindAnywhere | shared/wfb_json.h:154-165 | the same from any object of a parsed text |
| JsonWalk.FindNeedsObject | shared/wfb_json.h:156 | -1 for anything that is not an object |
| JsonWalk.ComparedIff | shared/wfb_json.h:157-163 | the k-th token `jfind` compares never lies behind the k-th key, and is that key if and only if no object in the pairs before it has an odd child |
| JsonWalk.RoundsAlignedIff | shared/wfb_json.h:157-163 | every round of `jfind` compares its own key if and only if no object before the last key has an odd child |
| JsonWalk.FindRightIff | shared/wfb_json.h:154-165 | `jfind` answers every key as lookup does if and only if no object before the last key has an odd child, when the last key is not a duplicate (a missed duplicate is not noticed) |
| JsonWalk.FindRightAnywhereIff | shared/wfb_json.h:154-165 | the same from any object of a parsed text |
| JsonWalk.LastKeyMissed | shared/wfb_json.h:154-165 | otherwise the last key itself gets the wrong answer |
| JsonWalk.OddObjectHidesKey | shared/wfb_json.h:132-165 | a text whose inner object has an odd child, where `jfind` misses a key that is there |
| JsonPrint.ParseInvertsPrint | shared/wfb_json.h:56-122 | for every value, strings with any escapes, and any spaces, tabs, newlines and returns between its parts, the parser gives the one tree of its rendering, and decoding that gives the value back; said in literal characters |
| JsonPrint.LookupIsFirstMatch | shared/wfb_json.h:124-165 | lookup by tree position is first-match lookup among the decoded members |
| JsonPrint.JFindFindsFirstMember | shared/wfb_json.h:90-165 | parse, then `jfind`: the result decodes to the first member with the key, or is -1 when there is none |
| CsaText.FindKey | vehicle/csa/csa.c:46-58 | the substring scan for a quoted key with a colon, jumping over failed occurrences |
| CsaText.GetStr | vehicle/csa/csa.c:60-70 | reads at most the buffer up to the next quote; fails when no quote follows the colon |
| CsaText.GetInt | vehicle/csa/csa.c:72-81 | strtoll after the colon, with its blanks, sign and saturation |
| CsaText.SegSkip | vehicle/csa/csa.c:46-58 | the scan passes over any text between two quotes unless it is the key with a colon behind it |
| CsaFrame.FindField | vehicle/csa/csa.c:46-58 | on a printed object the scan finds the first field with the key, and stands at its value |
| CsaFrame.StrToLLDec | vehicle/csa/csa.c:72-81 | strtoll reads back every number printf prints |
| CsaFrame.ReadCommit | vehicle/csa/csa.c:170-181 | the fields of a csa_commit with their defaults, or malformed when session, dt or target is missing |
| CsaFrame.FrameRoundTrip | ground/gs_supervisor_csa.c:53-63 | for every frame the ground can arm the vehicle recovers every printed value; exact if and only if prev_ht has no quote in it |
| CsaFrame.QuotedHtIsLost | ground/gs_supervisor_http.c:974-978 | an armable frame (percent-decoded prev_ht with a quote) that does not come back |
| CsaFrame.OtherTypeIsOther | vehicle/csa/csa.c:252-264 | a frame with any other csa_ type reads as a csa frame that is no commit, so the next rows on OtherCsa are about real bytes |
| CsaObject.FindsFirst | vehicle/csa/csa.c:46-58 | on any printed object, not only the ground's frame, the scan finds the first field with the key, and nothing when there is none |
| CsaObject.ReadsInt | vehicle/csa/csa.c:72-81 | get_int on any printed object is first-match lookup of a number, clamped to long long; a text is no number |
| CsaObject.ReadsText | vehicle/csa/csa.c:60-70 | get_str on any printed object is first-match lookup of a text, cut to the buffer; a number is no text |
| CsaObject.TypeDecides | vehicle/csa/csa.c:252-264 | any printed object is foreign if and only if its type field is no text that starts with csa_, and a commit if and only if it starts with csa_commit |
| CsaObject.FieldsDecide | vehicle/csa/csa.c:170-181 | any printed object is malformed as a commit if and only if sess, dt_to_switch_ms or target_chan is not there as a number; every other field has its default |
| CsaObject.OrdinaryIsForeign | vehicle/csa/csa.c:256-257 | every datagram without a quote, and every printed object without a csa_ type, is not taken |
| CsaObject.TrafficConfirms | vehicle/csa/csa_agent.c:109-116 | in every run the bytes of such a datagram end VERIFY in idle and change nothing else |
| CsaObject.HearingIsTraffic | vehicle/csa/csa.c:266-274 | so what the vehicle hears in the two-party model is any such datagram |
| CsaFrame.PrintedIsCString | ground/gs_supervisor_csa.c:53-63 | printed frames have no NUL, so the receiver sees the whole text |
| CsaVehicle.Vehicle.Init | vehicle/csa/csa.c:157-161 | the receiver starts idle with no hop behind it |
| CsaVehicle.ChanOk | vehicle/csa/csa.c:122-127 | an empty allowlist permits every channel, another one exactly its members |
| CsaVehicle.BwOk | vehicle/csa/csa.c:129-134 | the same for bandwidths |
| CsaVehicle.Vehicle.OnCommit | vehicle/csa/csa.c:170-250 | the whole new state for every frame: reject, confirm, arm after cooldown, or leave alone |
| CsaVehicle.Vehicle.Feed | vehicle/csa/csa.c:252-264 | what is consumed and what it does |
| CsaVehicle.Vehicle.LinkAlive | vehicle/csa/csa.c:266-274 | other traffic ends VERIFY and does nothing else |
| CsaVehicle.Vehicle.Recv | vehicle/csa/csa_agent.c:109-116 | one received datagram: feed, then link-alive if it was not taken |
| CsaVehicle.Vehicle.Tick | vehicle/csa/csa.c:276-313 | the hop, the revert, the deadline returned, and the duration turned into a deadline at the switch |
| CsaVehicle.PhaseIsExplained | vehicle/csa/csa.c:213-313 | in every run of arbitrary datagrams ARMED comes from an accepted frame with no hop since, VERIFY from a hop of such a session with no heartbeat and no hop since |
| CsaVehicle.CooldownHolds | vehicle/csa/csa.c:216-225 | the last-switch time is the latest hop's, and an armed session was accepted outside its cooldown |
| CsaVehicle.ArmsIff | vehicle/csa/csa.c:189-236 | in every run a frame starts a session if and only if its target is in 1..200 and in both allowlists, the vehicle is idle or the session newer, and the cooldown since every hop is over; and what is then armed |
| CsaVehicle.ForwardHopIsSafe | vehicle/csa/csa.c:189-236 | every forward hop goes to the channel of an accepted frame, in 1..200 and inside both allowlists, not before the frame's time, and at least the cooldown after every earlier hop |
| CsaVehicle.RevertIsSafe | vehicle/csa/csa.c:266-313 | every revert returns to the previous channel of the session whose hop it undoes, at least its revert time later, with no heartbeat and no other hop in between |
| CsaVehicle.VerifyEndsIff | vehicle/csa/csa.c:183-274 | a datagram ends VERIFY in idle if and only if it is a heartbeat: not a csa frame at all, or a commit of the same session with an allowed target; it ends it in ARMED exactly when it arms |
| CsaVehicle.RevertIff | vehicle/csa/csa.c:266-313 | the first tick past the revert deadline reverts if and only if no heartbeat and no newer accepted session came since the hop |
| CsaVehicle.CsaDatagramsLeaveVerify | vehicle/csa/csa.c:252-264 | for every acceptable frame a run in which csa datagrams (one of another type, one commit of another session) arrive in VERIFY and the vehicle still reverts |
| CsaVehicle.DeadlineIff | vehicle/csa/csa.c:276-313 | of two ticks in a row the second hops if and only if the time the first returned is not 0 and reached, unless the first hopped with a revert time of minus its clock |
| CsaVehicle.ZeroDeadlineReverts | vehicle/csa/csa.h:71-73 | for every such frame a run in which a tick returns 0 in VERIFY and the next one reverts |
| CsaVehicle.RefreshIff | vehicle/csa/csa.c:213-250 | a datagram changes an armed vehicle in any way if and only if it is a commit of a newer session with an allowed target outside the cooldown |
| CsaVehicle.RefreshMovesNothing | vehicle/csa/csa.c:238-248 | for any drift, 20 ms or less too, a run in which a refresh frame asks for a switch time that far off and the armed one stays |
| CsaVehicle.SessIsLastArmed | vehicle/csa/csa.c:226-227 | the remembered session is that of the last frame that armed |
| CsaVehicle.ReplayIff | vehicle/csa/csa.c:213-227 | a frame of a session that is not newer arms the vehicle again if and only if it is idle and out of cooldown |
| CsaVehicle.ReplayHopsAgain | vehicle/csa/csa.c:213-227 | for every acceptable frame a run in which the same frame hops the vehicle twice |
| CsaGround.Orchestrator.Arm | ground/gs_supervisor_http.c:871-1010 | the refusals in their order (409 while busy, 400, 404 for an unknown interface, 400 for ht, 503 without an uplink), the clamps and defaults, and the armed session |
| CsaRequests.AcceptedIff | ground/gs_supervisor_http.c:871-987 | exactly which requests are accepted; a busy or scanning ground refuses all |
| CsaRequests.ArmsAsAsked | ground/gs_supervisor_http.c:961-1009 | lead and revert time within their limits or defaulted, target, prev_ht, no_revert and the next session number, as asked for |
| CsaRequests.BusyRefuses | ground/gs_supervisor_http.c:871-891 | in any run of requests and ticks the requests during a session change nothing: the orchestrator is as if they had not come |
| CsaRequests.SessionsCount | ground/gs_supervisor_http.c:996 | the session number counts the accepted requests, round 2^32 |
| CsaGround.Orchestrator.SendCommitFrame | ground/gs_supervisor_csa.c:38-80 | the frame printed with dt computed from the clock at sending; the sequence number moves even if the send fails |
| CsaRequests.DtIs | ground/gs_supervisor_csa.c:48-51 | dt is the time to the switch in whole milliseconds, 0 once it is due |
| CsaGround.Orchestrator.CsaTick | ground/gs_supervisor_csa.c:100-157 | burst, hop with the counter snapshot, commit or revert: the whole new state, the frame and the channel changes of a tick |
| CsaRequests.SendsIff | ground/gs_supervisor_csa.c:90-112 | in every run of ticks a frame goes out exactly at the first tick and then at each first tick 20 ms after the last frame, until five are out |
| CsaRequests.FailureEnds | ground/gs_supervisor_csa.c:90-99 | a due frame that does not go out ends the session without a hop |
| CsaTiming.SwitchBounds | ground/gs_supervisor_csa.c:48-51 | two millisecond roundings make the vehicle's deadline at most 2 ms early, and the flight delays it |
| CsaTiming.ArmedUntilHop | vehicle/csa/csa.c:238-248 | nothing but a newer session moves the deadline of an armed session |
| CsaTiming.ArmedThroughIff | vehicle/csa/csa.c:183-281 | the session that armed is still armed with its deadline if and only if no hop and no newer accepted session came since |
| CsaTiming.HopTiming | vehicle/csa/csa.c:183-281 | for any clock offset, flight up to D and tick period P, whichever frame is accepted first the vehicle hops in (T - 2 ms, T + D + P], and later frames do not move it |
| CsaWorld.ArmingIsReady | ground/gs_supervisor_http.c:985-1009 | every accepted request leaves a fresh session with its times in range; an omitted prev_chan becomes the target |
| CsaWorld.SentFramesRead | ground/gs_supervisor_csa.c:53-63 | every frame of every run is armable, so its bytes read back as printed |
| CsaAgreement.GroundStep | ground/gs_supervisor_csa.c:100-157 | a supervisor tick keeps the two-party invariant |
| CsaAgreement.VehicleStep | vehicle/csa/csa.c:276-313 | a vehicle tick keeps it |
| CsaAgreement.DeliverStep | vehicle/csa/csa.c:170-250 | a delivered frame keeps it |
| CsaAgreement.HearStep | ground/gs_supervisor_csa.c:135-140 | hearing traffic keeps it |
| CsaAgreement.InvHolds | ground/gs_supervisor_csa.c:90-157 | every interleaving of ticks, deliveries, losses and traffic keeps it |
| CsaAgreement.Agreement | ground/gs_supervisor_csa.c:90-157 | whenever both machines are idle both radios are on the same channel: the target if both have heard each other there, else the channel they came from |
| CsaLimits.AgreementIff | ground/gs_supervisor_csa.c:131-156 | the parties agree in every run if and only if the armed previous channel is the actual one, the ground has an rx tunnel, and revert is enabled on both sides |
| CsaLimits.LostRun | ground/gs_supervisor_csa.c:137-154 | the run that loses every frame, and where it leaves the ground |
| CsaLimits.DeafGroundRun | ground/gs_supervisor_csa.c:83-87 | without an rx tunnel the ground leaves a channel that works |
| CsaLimits.StrandedRun | vehicle/csa/csa.c:286-291 | without revert on the vehicle an aborted burst strands it |
| CsaLimits.OmittedPrevDisagrees | ground/gs_supervisor_http.c:969 | a request without prev_chan leaves the two apart when all frames are lost |
| CsaReturn.BothReturn | ground/gs_supervisor_csa.c:100-157 | in any run five spaced ground ticks past the revert deadline and two late vehicle ticks bring both machines to idle, and then to the same channel |
| CsaSessions.WorkingRun | ground/gs_supervisor_csa.c:100-157 | for every sound set-up with a working target a fair run in which both sides hear each other and both come to rest on the target |
| CsaSessions.OneSession | ground/gs_supervisor_csa.c:100-157 | parties at rest on one channel, an accepted request and any settled run of it: they are at rest on one channel again |
| CsaSessions.AlwaysTogether | ground/gs_supervisor_csa.c:100-157 | so they stay together over any sequence of sessions |
| SelectorSpec.ClampsAgreeIff | archive/c-poc/mcs_selector.c:428-439 | the two MCS clamps agree if and only if mcs_min <= mcs_max |
| SelectorResponse.Hysteresis | archive/c-poc/mcs_selector.c:401-426 | in thresholds only: the bucket stays if and only if the level is in its own band widened by the deadband, a level firmly in a band leads there, and when the outer buckets are reached |
| SelectorResponse.SamplesMoveIff | archive/c-poc/mcs_selector.c:606-637 | for every run outside failsafe: later samples firmly in one band bring the bucket there if and only if one comes after enough in a row (counting those already pending) and after the cooldown, with its backoff; else it stays |
| SelectorResponse.ChangeIsPast | archive/c-poc/mcs_selector.c:529-545 | the time the cooldown is counted from is that of the latest MCS change of the run |
| SelectorResponse.TripsIff | archive/c-poc/mcs_selector.c:549-565 | in every run the watchdog trips if and only if there was a sample, the latest is the timeout old, and the selector is not already down |
| SelectorResponse.FailsafeIff | archive/c-poc/mcs_selector.c:583-605 | in every run failsafe lasts from a trip until recovery_consecutive good samples came in a row |
| SelectorResponse.RemembersWindow | archive/c-poc/mcs_selector.c:502-520 | in every run the changes remembered are exactly those within the window before the latest change or watchdog run (C: the last 16 of them, by RingRefinesDeque) |
| SelectorResponse.McsOfBucket | archive/c-poc/mcs_selector.c:428-439 | after the first sample the MCS is that of the bucket kept within mcs_min and mcs_max |
| Rings.RingPushLast | archive/c-poc/mcs_selector.c:514-520 | writing at the head of a ring appends to its contents and keeps the last ones |
| Rings.RingPop | archive/c-poc/mcs_selector.c:506-511 | shrinking the count forgets the oldest entry |
| SelectorC.Selector.ExpireChanges | archive/c-poc/mcs_selector.c:502-512 | the modular walk drops exactly the entries before the cutoff |
| SelectorC.Selector.RecordChange | archive/c-poc/mcs_selector.c:514-520 | the ring holds the last 16 changes, then expires |
| SelectorC.Selector.CommitBucket | archive/c-poc/mcs_selector.c:529-545 | a commit and its bookkeeping |
| SelectorC.Selector.TickNoData | archive/c-poc/mcs_selector.c:549-565 | the watchdog |
| SelectorC.Selector.UpdateScore | archive/c-poc/mcs_selector.c:569-605 | a sample, through recovery gating |
| SelectorC.Selector.Decide | archive/c-poc/mcs_selector.c:606-637 | streak, cooldown and backoff |
| SelectorPy.Selector.ExpireChanges | telemetry/wfb_link_score.py:167-176 | the deque loses exactly the entries before the cutoff; a zero window clears it |
| SelectorPy.Selector.CommitBucket | telemetry/wfb_link_score.py:181-191 | a commit and its bookkeeping |
| SelectorPy.Selector.TickNoData | telemetry/wfb_link_score.py:193-205 | the watchdog |
| SelectorPy.Selector.UpdateScore | telemetry/wfb_link_score.py:207-230 | a sample, through recovery gating |
| SelectorPy.Selector.Decide | telemetry/wfb_link_score.py:232-256 | streak, cooldown and backoff, reporting a recovery |
| SelectorRefinement.DropCommutes | archive/c-poc/mcs_selector.c:502-512 | expiring the last 16 of a sorted deque gives the last 16 of the expired deque |
| SelectorRefinement.UpdateRelated | archive/c-poc/mcs_selector.c:569-637 | a sample keeps the two selectors related |
| SelectorRefinement.NoDataRelated | archive/c-poc/mcs_selector.c:549-565 | so does a watchdog tick |
| SelectorRefinement.RingRefinesDeque | telemetry/wfb_link_score.py:151-256 | on every run of samples and ticks both selectors have the same bucket, MCS, pending, failsafe and oscillation, the ring being the tail of the deque |
| SelectorLimits.CrossedClampsPart | archive/c-poc/mcs_selector.c:428-439 | with mcs_min above mcs_max the two emit different MCS at the first sample |
| SelectorLimits.ZeroWindowParts | archive/c-poc/mcs_selector.c:502-512 | with a zero window C keeps the last 16 changes for ever and Python none, in every run; they differ on oscillation exactly from as many changes on as the threshold |
| SelectorLimits.BackwardClockParts | archive/c-poc/mcs_selector.c:606-637 | on a clock that goes back the wrapped difference makes C move at once where Python waits |
| SelectorLimits.RingIsBounded | archive/c-poc/mcs_selector.c:514-520 | the ring never holds more than 16 changes |
| SelectorLimits.HighThresholdParts | archive/c-poc/mcs_selector.c:522-526 | with a threshold above 16 C oscillates in no run, and under settings that let every sample change the MCS Python does after that many |
| SelectorBounds.OppositeApart | archive/c-poc/mcs_selector.c:401-426 | consecutive changes in opposite directions are two deadbands apart |
| SelectorBounds.ChurnBound | archive/c-poc/mcs_selector.c:401-637 | in every run bucket changes <= 2 + 3 * trips + TV / deadband; without trips 2 + TV / deadband |
| SelectorBounds.UpWaits | archive/c-poc/mcs_selector.c:628-636 | an up-commit comes at least the up-cooldown after the last MCS change |
| SelectorBounds.RateBound | archive/c-poc/mcs_selector.c:529-637 | any window of length W has at most 3 * (floor(W / up_cooldown) + 1) + 2 MCS changes |
| SelectorBounds.FailsafeIsLow | archive/c-poc/mcs_selector.c:549-605 | failsafe implies the lowest bucket |
| SelectorBounds.RecoveryTakes | archive/c-poc/mcs_selector.c:583-637 | the first up-commit after a trip takes at least recovery_consecutive + up_consecutive - 1 samples |
| SelectorBounds.SilenceForcesLow | archive/c-poc/mcs_selector.c:549-565 | silence of the timeout and one watchdog run force the lowest bucket |
| Scorer.ScorerState.Update | archive/c-poc/mcs_selector.c:313-395 | the smoothed level and ratios and the effective level; nothing when no antenna reported |
| Scorer.Aggregate | archive/c-poc/mcs_selector.c:316-350 | the antenna loop computes the best or mean level |
| Scorer.Best | archive/c-poc/mcs_selector.c:328-344 | the best level is attained and bounds all |
| Scorer.RawIs | archive/c-poc/mcs_selector.c:316-350 | the raw level is the highest average, the highest maximum, or the mean of the averages |
| Scorer.LossIsShare | archive/c-poc/mcs_selector.c:361-368 | the ratio times the unique packets is the count; 0 for none, 1 from all on |
| Scorer.SmoothMoves | archive/c-poc/mcs_selector.c:352-378 | the first reading is taken as it is, a later one moves each average by its weight's share of the way |
| Scorer.EffectiveIs | archive/c-poc/mcs_selector.c:379-392 | the level less 100 times the weighted ratios, kept between 0 and the maximum |
| Scorer.BlendContracts | archive/c-poc/mcs_selector.c:355-378 | a step of the moving average, and how far it then is behind its input, are paid for by the input's move |
| Scorer.PenaltyIsLipschitz | archive/c-poc/mcs_selector.c:379-383 | the penalty moves at most with its ratios |
| Scorer.BehindHolds | archive/c-poc/mcs_selector.c:313-395 | in every run the variation of the effective level plus the lag of the averages is within the variation of the raw measurements |
| Scorer.ChurnOfRawSignal | archive/c-poc/mcs_selector.c:313-637 | scorer and selector together: bucket changes <= 2 + 3 * trips + (variation of the raw measurements) / deadband |
| FecSizing.InterpolateRedundancy | archive/c-poc/fec_controller.c:298-313 | the table walk computes the piecewise linear curve |
| FecSizing.CurveIs | archive/c-poc/fec_controller.c:289-313 | the points of the curve, level outside them, equal steps between them |
| FecSizing.SizesInRange | archive/c-poc/fec_controller.c:400-408 | min_k <= k <= max_k and k < n <= max_n, boosted or not |
| FecSizing.ComputeIsLeast | archive/c-poc/fec_controller.c:378-417 | every decision has the curve's redundancy at its k, and the least n from min_n on that carries it unless max_n cuts it off |
| FecSizing.NIsLeast | archive/c-poc/fec_controller.c:405-408 | the same for any redundancy |
| FecSizing.NGrowsWithK | archive/c-poc/fec_controller.c:289-313 | n grows with k over the whole curve although the redundancy falls |
| FecSizing.DeadbandIff | archive/c-poc/fec_controller.c:391-398 | the packets per frame stay within a packet and the slack of the target, and stay unchanged if and only if the target stays inside |
| FecSizing.FreshIs | archive/c-poc/fec_controller.c:381-384 | without a deadband the packets per frame are the least number that holds the target, at least one |
| FecSizing.BoostKeepsIff | archive/c-poc/fec_controller.c:533-541 | exactly when the boost does not lower n: always for a multiplier of 1 or more, as the HTTP settings keep it; the command line (line 1973) takes any |
| FecSizing.BoostIs | archive/c-poc/fec_controller.c:533-541 | the boost keeps k and takes the least n with the multiplied parity, at least one, cut off by max_n, and its redundancy |
| FecControl.WindowIff | archive/c-poc/fec_controller.c:505-507 | the headroom window covers the recent frames if and only if the clock is as old as the window; before that the wrapped cutoff empties it |
| FecControl.HeadroomIs | archive/c-poc/fec_controller.c:347-365 | at least two frames, not all empty: the margin times the largest size over the mean, within the limits; otherwise the lower limit |
| FecControl.AverageMoves | archive/c-poc/fec_controller.c:509-516 | the average starts with a frame and then moves by alpha's share of the way |
| FecController.HeadroomRing.RingPushFrame | archive/c-poc/fec_controller.c:326-332 | the ring holds the last 512 frames |
| FecController.HeadroomRing.ExpireBefore | archive/c-poc/fec_controller.c:334-345 | exactly the frames before the cutoff go |
| FecController.HeadroomRing.ComputeHeadroom | archive/c-poc/fec_controller.c:347-365 | largest over average with margin and bounds |
| FecController.Controller.ArmSettleWindow | archive/c-poc/fec_controller.c:464-469 | grace is extended, never shortened |
| FecController.Controller.ArmBoostWindow | archive/c-poc/fec_controller.c:490-494 | the boost window |
| FecController.Controller.CommitParams | archive/c-poc/fec_controller.c:475-487 | a commit and the pending state it clears |
| FecController.Controller.Bookkeep | archive/c-poc/fec_controller.c:501-557 | start, average, candidate, boost and grace windows |
| FecController.Controller.GraceAndBoost | archive/c-poc/fec_controller.c:524-557 | the boost and grace windows and their edges |
| FecController.Controller.PassGate | archive/c-poc/fec_controller.c:561-640 | the commit gate |
| FecController.Controller.UpdateFrame | archive/c-poc/fec_controller.c:497-641 | a frame, from ring to gate |
| FecHistory.OutcomesMean | archive/c-poc/fec_controller.c:559-640 | what it means that a tick reaches the gate and wants k down or up |
| FecHistory.TimersHold | archive/c-poc/fec_controller.c:604-633 | in every run the two pending timers are never both set, and each is the time of the first tick of a stretch that wanted only its direction |
| FecHistory.KDownHistory | archive/c-poc/fec_controller.c:604-611 | a k-down commit outside the edges implies an earlier tick, at least the dwell before, since which every tick at the gate wanted k below and nothing was committed |
| FecHistory.KUpHistory | archive/c-poc/fec_controller.c:626-640 | the same upwards, with the hysteresis, and at least the cooldown after every earlier commit |
| FecHistory.OnlyBoostInGrace | archive/c-poc/fec_controller.c:553-581 | inside the startup grace of the first frame or the settling time of any change only boost edges commit |
| FecCommits.WindowsHold | archive/c-poc/fec_controller.c:524-557 | in every run the boost, settling and startup windows are those its boosts, settling times and first frame make |
| FecCommits.CandidateTold | archive/c-poc/fec_controller.c:518-541 | in every run the candidate is the sizing of the new average and headroom, boosted exactly while the latest boost is on |
| FecCommits.HaveIff | archive/c-poc/fec_controller.c:563-567 | in every run there are parameters if and only if some frame came outside every grace window |
| FecCommits.CommitIff | archive/c-poc/fec_controller.c:559-640 | for every run that ends in a frame, exactly when that frame commits: the first outside the grace windows; a boost edge or the end of settling when the size differs; k wanted lower for the dwell; k wanted higher by the hysteresis, for its dwell, the cooldown over since every commit; and what is then current |
| FecCommits.LastedIff | archive/c-poc/fec_controller.c:604-637 | the timers measure what the run says: how long only one direction has been wanted without a commit |
| FecCommits.TargetsFollow | archive/c-poc/fec_controller.c:598-624 | a pending target is set only with its timer, to the k wanted last |
| Trends.TrendRing.Store | telemetry/tier1_trend.h:59-73 | since_loss and the ring: the last `window` records |
| Trends.TrendRing.At | telemetry/tier1_trend.h:77 | the modular index reads the ring oldest first |
| Trends.TrendRing.Totals | telemetry/tier1_trend.h:75-83 | the five sums over the window |
| Trends.TrendRing.Slope | telemetry/tier1_trend.h:84-92 | numerator over denominator, 0 for a zero denominator |
| Trends.TrendRing.Trends | telemetry/tier1_trend.h:75-107 | the slope and mean of the target, the loss and FEC rates and the dropout share over the window |
| Trends.TrendRing.Push | telemetry/tier1_trend.h:51-107 | the state and all 11 outputs |
| Trends.TrendState.Push | telemetry/wfb_schema.py:204-230 | the deque, since_loss and all 11 features |
| TrendSpec.WindowIsTail | telemetry/wfb_schema.py:200-213 | the contents are exactly the last `window` records |
| TrendSpec.SinceIsCalm | telemetry/tier1_trend.h:59-65 | since_loss counts the records since the last loss, capped |
| TrendSpec.DenZeroIff | telemetry/wfb_schema.py:177-186 | the slope's denominator is zero if and only if n < 2 |
| TrendSpec.SlopesAgree | telemetry/tier1_trend.h:84-92 | guarding by the denominator and by the length give the same slope |
| TrendSpec.SlopeIsLeastSquares | telemetry/wfb_schema.py:177-186 | the slope with the line through the means has the least squared error of all lines |
| TrendSpec.LossRatesAgreeIff | telemetry/tier1_trend.h:101 | the two loss rates differ exactly for a negative total with lost packets |
| TrendSpec.RatesOfTail | telemetry/tier1_trend.h:75-104 | the record itself, the slope, and mean level, loss rate, recovery rate, records since the loss and dropout share, each over exactly the last `window` records of the run |
| TrendSpec.TrendRefines | telemetry/tier1_trend.h:51-107 | for any pushes with non-negative counters ring and deque give equal feature vectors |
| McsHistogram.Ring.FoldCounts | ground/gs_supervisor.c:1867-1877 | counts go into the slot of their second, cleared when its stamp is another second |
| McsHistogram.Ring.SumRung | ground/gs_supervisor_http.c:191-200 | the API's sum over the live slots |
| McsHistogram.SlotHolds | ground/gs_supervisor.c:1867-1877 | every slot holds the total of its stamped second, the latest one it is for |
| McsHistogram.NaiveBySlots | ground/gs_supervisor_http.c:191-200 | each datagram of the last ten seconds counts in exactly one slot |
| McsHistogram.SlotsAgreeWithNaive | ground/gs_supervisor_http.c:191-200 | for every clock from second 0 on that does not go back, after gaps of any length, the API reports modulo 2^32 the total of the last ten seconds less what came in second 0; so it is that total if and only if second 0 is out of the window or brought nothing (modulo 2^32) |
| McsHistogram.SecondZeroIsLost | ground/gs_supervisor_http.c:195 | a run of one second-0 datagram batch, which is not reported |
| ProbeWindow.Tunnel.BucketsReset | ground/gs_supervisor.c:1630-1635 | all buckets empty, the window begins now |
| ProbeWindow.Tunnel.WindowFlush | ground/gs_supervisor.c:1637-1667 | one record per non-empty bucket, then a reset |
| ProbeWindow.Tunnel.AccumulateRecord | ground/gs_supervisor.c:1669-1692 | the whole new state, what is emitted, and the counters |
| ProbeWindow.RecordsTotal | ground/gs_supervisor.c:1644-1665 | a flush loses no count and moves none to another rung |
| ProbeWindow.Conservation | ground/gs_supervisor.c:1630-1692 | for each rung, fed = emitted + in the current bucket + discarded as stale, for received and lost |
| ProbeWindow.RecordDecides | ground/gs_supervisor.c:1669-1692 | in every run: a record before the window is over is only counted; between one and four windows it is counted and every non-empty bucket emitted, nothing discarded; later the old buckets are discarded and it begins a window alone |
| ProbeWindow.EmittedAreSound | ground/gs_supervisor.c:1669-1692 | every emitted record covers between one and four windows and has an error rate in [0, 1] |
| ClockFilter.SyncState.SyncRecord | probes/rtp_timing_probe.c:199-224 | the sample, its slot and the offset chosen |
| ClockFilter.SyncState.Choose | probes/rtp_timing_probe.c:212-222 | the first slot with the least round trip |
| ClockFilter.SlotsAreLatest | probes/rtp_timing_probe.c:205-209 | slot j holds the latest exchange whose number is j modulo 8, across the wrap of the counter |
| ClockFilter.BestHasLeastRtt | probes/rtp_timing_probe.c:211-223 | the offset is that of one of the last min(8, n) exchanges, none of which has a smaller round trip |
| ClockFilter.HonestSample | probes/rtp_timing_probe.c:202-203 | round trip is the sum of the path delays, and the offset errs by at most half of it and the rounding |
| ClockFilter.OffsetErrorBound | probes/rtp_timing_probe.c:199-224 | for a constant offset theta, 2 * |best - theta| <= least round trip + 1 |
| Welford.StatAcc.Add | probes/rtp_timing_probe.c:439-449 | count, sum, extremes and Welford's update |
| Welford.OnePassIsTwoPass | probes/rtp_timing_probe.c:445-448 | the running mean is the mean of all values and m2 the sum of their squared deviations from it |
| Welford.ExtremesHold | probes/rtp_timing_probe.c:443-444 | min and max are attained and bound all values |
| CaptureLog.Capture.Commit | ground/wfb_logger.c:427 | what a commit makes durable |
| CaptureLog.Capture.Close | ground/wfb_logger.c:428-432 | an open session is committed and sealed |
| CaptureLog.Capture.Open | ground/wfb_logger.c:452-461 | a session is created inside a transaction; a failed creation ends it |
| CaptureLog.Capture.Keep | ground/wfb_logger.c:471-479 | an idle datagram inside an idle run is dropped, any other kept |
| CaptureLog.Capture.TakeDatagram | ground/wfb_logger.c:444-483 | what a datagram does, malformed or valid |
| CaptureLog.Capture.RollAndExpire | ground/wfb_logger.c:487-497 | rolling on request and on the maximum duration |
| CaptureLog.Capture.Loop | ground/wfb_logger.c:434-502 | one pass of the loop |
| CaptureLog.Capture.CaptureRun | ground/wfb_logger.c:434-506 | all passes up to the stop flag, then the shutdown |
| CaptureLog.FewUncommitted | ground/wfb_logger.c:499-501 | at every loop end fewer than 20 rows are uncommitted, and an open transaction has a pending row |
| CaptureLog.SealsInOrder | ground/wfb_logger.c:428-432 | sessions are sealed in the order of their creation, all but the open one |
| CaptureLog.StopSealsAll | ground/wfb_logger.c:504-506 | after stop every row is committed and every session sealed exactly once, whatever rolls and timeouts came before |
| CaptureSessions.SessionsAsTold | ground/wfb_logger.c:444-497 | in every run a session is open at the end of a pass if and only if one was open or opened in it, no roll was asked for and it is younger than the duration in force, the latest a roll brought or the initial one; and every session holds exactly the valid datagrams that came while it was open |
| CaptureSessions.SealsAsTold | ground/wfb_logger.c:428-432 | a pass appends the seal of its session exactly when it ends one |
| CaptureSessions.CommitsIff | ground/wfb_logger.c:499-501 | a pass commits everything exactly when it ends a session, 20 rows are pending, or one is and the last commit is two seconds ago; else nothing |
| CaptureSessions.NoRowWaitsLong | ground/wfb_logger.c:499-501 | at every loop end no uncommitted row is two seconds old |
| CaptureLog.CollapsedMeans | ground/wfb_logger.c:236-242 | collapsing keeps every non-idle datagram and never two idle ones in a row |
| CaptureLog.EveryDatagramAccounted | ground/wfb_logger.c:462-480 | at every loop end, in each session, the kept rows are the valid datagrams with each idle run collapsed to its first, and kept + dropped = valid in the open one |
| CaptureLog.EverySealTallied | ground/wfb_logger.c:428-432 | every seal of every run carries its session's counts: records = its rows, records + dropped = its valid datagrams |
| CaptureLog.EverySessionTallied | ground/wfb_logger.c:428-506 | after stop this holds of every session there was, and each has its seal |

## Left out

- Sockets, processes, `iw`, signals, HTTP text and SQLite: their results are parameters (a send that fails, a session row that cannot be created) or values returned.
- `iw` failing: both sides ignore its result, so the agreement assumes it succeeds.
- Floating-point rounding: reals throughout, also in the curve and the slope; the C float of a settings value is its exact value.
- Negative settings in seconds: converting them to unsigned is undefined in C; the model rounds down.
- Signed overflow of the vehicle's times and of the session numbers in a frame: unbounded integers.
- The 320-byte limit of the frame printer: no armable frame reaches it.
- The text scanning of `scorer_update`, and Python's `Scorer`, which has the same arithmetic: the scorer takes antenna levels and packet counts as given.
- `commit_count` and `update_count`: statistics nothing reads.
- `best_chain`, `reduced_features` and `derive`: reading numbers out of JSON; trend, probe, histogram and logger take the numbers as given (the idle test on them is modelled).
- The five parallel arrays of `tier1_trend.h` are one array of records in the model.
- JsonParser.Parser.Alloc: the kind `JT_NONE` of a fresh token, which its caller overwrites at once, is not modelled.
- Logging, status reporting and the write-ahead-log checkpoint.
- The order of rows and seals inside one transaction of the database: the model has one list of rows and how many are committed.
- `ground/gs_supervisor_scan.c`, tunnel spawning and the rest of `ground/gs_supervisor.c`: invariants local to one branch.
- `vehicle/link_controller.c` and the FEC codec are not part of this model.
- SelectorRefinement.RingRefinesDeque: assumes a window of at least a microsecond, a threshold of at most 16 and mcs_min <= mcs_max. Only the HTTP settings enforce the first two; the command line takes any number (`archive/c-poc/mcs_selector.c:1547-1549`). `SelectorLimits` shows for each excluded setting how the two selectors part.
- Totals of 2^32 datagrams within one window: the histogram is then reported modulo 2^32, and the probe's accounting assumes smaller counts.
