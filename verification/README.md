# BIFROST relayer: verified model

A relayer of the BIFROST bridge watches the Socket contract on several chains, votes on BIFROST for what it sees,
relays collected signatures to the other chain, and carries each new relayer set to every chain. This project models
its decision logic and proves what that logic guarantees, over every input, every handling and every whole run.
`dafny verify dfyconfig.toml` checks all of it.

## How it is put together

| file | what it holds |
|---|---|
| `common.dfy`, `positional.dfy` | Python's exceptions as a `Result`; fixed-width numerals |
| `hex_codec.dfy`, `method_codec.dfy` | the hex helpers of `rbclib/utils.py`; the cross-chain method codes |
| `socket_message.dfy` | the ABI form of a Socket message, its decoder, the status slice and splice, the request key |
| `relayer_sets.dfy`, `relayer_node.dfy` | sorted relayer lists, indices and primary election; the round-to-index cache and its writers |
| `socket_steps.dfy`, `socket_runs.dfy` | one handling of a Socket event as a function; whole runs of a relayer |
| `socket_answers.dfy` | the same runs against what the chains answered: which answers decide what, and when |
| `socket_events.dfy` | the same events as objects that share and rewrite the record of their log, proved to be those steps |
| `bootstrap.dfy` | recovery of pending requests from a log history |
| `signatures.dfy`, `round_messages.dfy` | signature collections, their canonical order, and the path from a vote to the relay |
| `round_ups.dfy`, `round_up_answers.dfy`, `round_up_events.dfy` | carrying a relayer set to every chain: steps, whole runs, runs against the answers, objects |
| `vsp_feed.dfy` | the periodic vote on new rounds |
| `block_search.dfy` | the timestamp bisection that fixes where scanning starts |

Where the source is imperative the model is too: classes with the source's fields, loops with invariants, and each
method's `ensures` ties its new state to a function whose properties are then proved as lemmas. What chains answer,
clocks and transaction outcomes are arbitrary inputs of a step, so a statement about runs covers every answer. A run
also keeps a log of what the relayer did and saw; the two `Answers` modules tie that log, and each event's fate, to the
answers themselves. The relayer list of a past round is taken as fixed: every query for a round gives the same list. A
step in which the source raises ends a run; `DueEventsAreHandled` in both run modules says when none does, and
`HandleRaisesIff` on what exactly one does.

The dispatcher is not part of the repository. Its contract is taken from the doc strings at
`rbclib/events/rbc_event.py:145-194`: a due event is popped; in the SEND phase a transaction is built and, if there is
one, exactly one of the three result handlers runs; in the CALL phase a query is made and its answer handed over; a
returned event is queued. For the periodic feed, the clone is taken after the poll has been handled. The layout of a
Socket message follows the Solidity Contract ABI Specification, section "Formal Specification of the Encoding".

## Where the code differs from its evident intent

The model follows the code.

- `rbclib/utils.py:195-196`: for an outbound request of which only FAILED logs are left, REQUESTED is looked up and
  `list.index` raises (`Bootstrap.FailedHistoryRaises` is such a history). `Bootstrap.Recover` raises exactly then (or for
  a status without a class, an unknown source chain, or a missing current round).
- `rbclib/events/rbc_event.py:268`: the second comparison is with the enum class, so a fast relayer recovers ACCEPTED
  events only (`Bootstrap.Keeps`, `Bootstrap.LatestDecides`).
- `rbclib/events/roundup_event.py:75` tests for a cache entry of the preceding round, not for membership of its set.
  `relayer/relayer.py:136` caches None, so a relayer outside the set can pass (`RelayerNode.UnlistedRelayerPasses`); a
  round that ends before the next poll leaves no entry, so a member can fail (`RelayerNode.ListedRelayerFails`) and then
  drops the RoundUp log for good (`RoundUps.UncachedRelayerDrops`). `RelayerNode.PreviousRelayerIsMember` says exactly
  when the test answers membership, `RelayerNode.PassesWithoutEvictions` exactly which rounds pass in a run that evicts
  nothing, and `RoundUps.EquippedRelayerDelivers` what holds of a relayer that has its entry.
- `rbclib/events/rbc_event.py:34`: `__cmp__` has no effect, so the arrangement of equal statuses in `sorted` is left open;
  nothing proved depends on it.
- `rbclib/events/rbc_event.py:311-319`: the index comes from the event's round, the modulus from the current set, so a
  block can be without a primary; `RelayerSets.SocketElection` and `RelayerSets.EveryBlockHasPrimary` say exactly when.
  Relayers that read different current sets can also both be primary: `SocketRuns.TwoPrimariesOnTwoSets` gives two such
  runs for block 7, with index 1 of 3 and index 2 of 5, and `SocketRuns.OnePrimaryRelays` excludes it on one set.
- `rbclib/events/roundup_event.py:33-47`: a comment says that the time lock is forced to zero; outside startup the code
  holds the event back for every relayer that is not fast, by the slow relayer's delay (`RoundUpAnswers.RelayerWaits`).
- `rbclib/periodic/vsp_feed.py:32`: BIFROST is removed from a list nobody else reads, so it is polled like the others.
- `rbclib/utils.py:47`: a gap of a full minute between two blocks makes the bisection recurse without end
  (`BlockSearch.MinuteGapNeverEnds`); `BlockSearch.SearchSucceedsIff` is the exact condition.

## Model

| member | source | states |
|---|---|---|
| SocketRuns.RunsKeepInv | rbclib/events/rbc_event.py:381-645 | every state of every run meets the invariant the results on runs rest on |
| SocketRuns.NoRelayIsLost | rbclib/events/rbc_event.py:521-637 | an authorised event, in each relay class it has had (its log's ACCEPTED or REJECTED, and the REJECTED an outbound ACCEPTED event takes when its relay does not succeed), is queued in that class, or the class's final status was seen on the target chain, or this relayer built a relay for it |
| SocketRuns.QueuedRelaysAreKnown | rbclib/events/rbc_event.py:628-637 | every queued relay event is in a class that account covers |
| SocketRuns.SecondaryWaits | rbclib/events/rbc_event.py:536-547 | a relay by a relayer that is not primary follows a not-done observation of that chain made no earlier than time lock plus call delay, or the failed ACCEPTED relay it was derived from |
| SocketRuns.RelayedOnce | rbclib/events/rbc_event.py:521-547 | no status of an event is relayed twice in a run |
| SocketRuns.PrimaryRelayIsElected | rbclib/events/rbc_event.py:311-319 | in every run, a relay made as primary on an agreeing index is made by the relayer elected for the block in the event's round |
| SocketRuns.OnePrimaryRelays | rbclib/events/rbc_event.py:311-319 | two relayers of a round that read one current set never both relay a log as primary, in any two runs |
| SocketRuns.TwoPrimariesOnTwoSets | rbclib/events/rbc_event.py:311-319 | relayers of indices 1 and 2 that read current sets of 3 and 5 both relay a log of block 7 as primary |
| SocketRuns.NoVoteIsLost | rbclib/events/rbc_event.py:361-471 | an authorised log that calls for a vote is queued as it arrived or its vote is recorded; an inbound REQUESTED one whose vote was lost or fell short of quorum is queued as FAILED or its FAILED vote is recorded |
| SocketAnswers.FailedVotesFollowAnswers | rbclib/events/rbc_event.py:422-471 | once an inbound request is handled to its end, FAILED was voted on it if and only if its vote was lost or the votes read on its destination chain were below the quorum |
| SocketAnswers.TallyDecides | rbclib/events/rbc_event.py:422-450 | the votes at position 1 of the destination chain's answer decide a REQUESTED event: FAILED if and only if they are below a non-zero quorum, dropped otherwise |
| SocketAnswers.TallyDecidesPop | rbclib/events/rbc_event.py:422-450 | the same of a pop in any run, and what it records |
| SocketAnswers.VoteOutcomeDecides | rbclib/events/rbc_event.py:452-471 | a lost REQUESTED vote comes back FAILED with its time lock, an inbound one that went through waits for the call delay |
| SocketAnswers.AnswersAreRecorded | rbclib/events/rbc_event.py:422-594 | every tally, status, relay and lost transaction in the log of a run is what one handling of that event was answered |
| SocketAnswers.StatusDecidesRelay | rbclib/events/rbc_event.py:521-559 | the status number on the target chain decides a relay event: dropped when it is 7, 3, 8 or 4 as class and direction call for, else relayed by whose turn it is or after a wait, else queued for the call delay |
| SocketAnswers.RelayOutcomeDecides | rbclib/events/rbc_event.py:628-637 | after a relay only an outbound ACCEPTED event comes back, as REJECTED for sending and with its time lock, when the transaction did not succeed |
| SocketAnswers.StatusDecidesCall | rbclib/events/rbc_event.py:572-593 | after the wait the status decides again: dropped, or due for sending at once |
| SocketAnswers.RelaysAnswerUnfinished | rbclib/events/rbc_event.py:521-547 | each relay of a run directly follows the sight of a status on its chain that is not the final one |
| SocketAnswers.WhoseTurnRelays | rbclib/events/rbc_event.py:311-319 | for every unfinished answer there is a run in which the elected relayer, or a fast one whatever its index, relays at the first handling |
| SocketAnswers.StrangersDoNothing | rbclib/events/rbc_event.py:102-143 | in every run a relayer records nothing on a request it may not act on |
| SocketAnswers.HandleRaisesIff | rbclib/events/rbc_event.py:102-645 | the exact inputs on which a handling raises |
| SocketAnswers.SlowRelayerWaits | rbclib/events/rbc_event.py:61-80 | in every run a slow relayer looks at no chain, and relays nothing, for an ACCEPTED or REJECTED log detected at t != 0 before t plus its delay |
| SocketAnswers.DetectedIsDue | rbclib/events/rbc_event.py:61-80 | a log queued as it was detected can be popped exactly from that instant on, any other from its detection on, unless its handling raises |
| SocketAnswers.NothingIsEarly | rbclib/events/rbc_event.py:381-645 | no run acts on a chain for an event before the time lock it arrived with |
| SocketAnswers.ExternalInitSelects | rbclib/events/rbc_event.py:338-349 | a fast relayer's init makes an event exactly of the statuses 5 to 8, never held back |
| SocketRuns.VotesFollowLogs | rbclib/events/rbc_event.py:361-420 | each vote signs the status its arrived log calls for; FAILED for a REQUESTED log only after a lost vote or a tally below quorum |
| SocketRuns.IdentityIsKept | rbclib/events/rbc_event.py:86-94 | a queued event keeps request id, direction and block; its class is its status, which is the original, FAILED from REQUESTED, or outbound REJECTED from ACCEPTED |
| SocketRuns.HandlingsAreBounded | rbclib/events/rbc_event.py:398-471 | at most 3 handlings for a REQUESTED log, 4 for an ACCEPTED one, whatever the chains answer |
| SocketRuns.LongestLife | rbclib/events/rbc_event.py:521-637 | the bounds are reached: a run of exactly that many handlings for every event another relayer should relay |
| SocketRuns.QueueEmpties | rbclib/events/rbc_event.py:398-637 | without new logs only so many handlings can follow, so the queue empties |
| SocketRuns.DueEventsAreHandled | rbclib/events/rbc_event.py:381-656 | in every run, a due event whose log names supported chains and a known instruction is handled without an exception, whatever well-formed answers come |
| SocketRuns.InitsAreNew | rbclib/events/rbc_event.py:52-80 | both init functions produce events a run accepts as new |
| SocketSteps.StepDecreasesRank | rbclib/events/rbc_event.py:398-593 | every handling drops its event or replaces it by one of strictly smaller rank |
| SocketSteps.StatusOf | rbclib/primitives/chain.py:6-17 | a number names a status exactly when it is that status's value |
| SocketEvents.ClassifyEncoded | rbclib/events/rbc_event.py:52-80 | on an encoded message the fast slice selects the class of the decoded status, so constructors never refuse |
| SocketEvents.SpliceSelectsClass | rbclib/events/rbc_event.py:86-94 | after a splice, init selects the class of the spliced status and every other field is unchanged |
| SocketEvents.SocketEvent.Init | rbclib/events/rbc_event.py:52-80 | the object init makes, or the exception it raises, is the one of the step model; it is locked to the given time plus the slow relayer's delay where that applies |
| SocketEvents.SocketEvent.ExternalInit | rbclib/events/rbc_event.py:338-349 | the object a fast relayer's init makes, none, or the exception |
| SocketEvents.SocketEvent.CloneWithOtherStatus | rbclib/events/rbc_event.py:86-94 | the shared record is rewritten in its status word and classified again |
| SocketEvents.SocketEvent.BuildTransactionParams | rbclib/events/rbc_event.py:321-420 | result, new fields and queue are those of BuildSend |
| SocketEvents.SocketEvent.BuildAggregated | rbclib/events/rbc_event.py:521-559 | result, new fields and queue are those of BuildRelay |
| SocketEvents.SocketEvent.HandleTxSuccess | rbclib/events/rbc_event.py:452-465 | the returned object is what OnSuccess gives |
| SocketEvents.SocketEvent.HandleTxFail | rbclib/events/rbc_event.py:467-471 | the returned object, sharing the record, is what OnFail gives |
| SocketEvents.SocketEvent.HandleTxNoReceipt | rbclib/events/rbc_event.py:189-194 | the returned object is what OnNoReceipt gives |
| SocketEvents.SocketEvent.HandleCall | rbclib/events/rbc_event.py:422-450 | the returned object and the recorded observation are what OnCall gives; for a REQUESTED event they follow from the votes at position 1 and the quorum |
| SocketEvents.Dispatcher.Detect | rbclib/events/rbc_event.py:52-80 | queueing a new log keeps every queued event valid and the sole owner of its record |
| SocketEvents.Dispatcher.HandleOne | rbclib/events/rbc_event.py:145-194 | one dispatch keeps validity and exclusive ownership of records although clones rewrite them, moves the queue as Handle says, and decides on a cached index that agrees with the event's round |
| SocketEvents.HandleOneIsPop | rbclib/events/rbc_event.py:145-194 | that move is a Pop of a run, so the results on runs hold of the objects |
| SocketEvents.ValidEventsAgree | rbclib/events/rbc_event.py:225-227 | of a queued event the cached decode, the live decode and the class agree |
| Bootstrap.Recover | rbclib/events/rbc_event.py:243-281 | raises exactly on the four listed conditions; otherwise returns the declarative recovery, as valid new events locked at the current time, each the sole owner of its record when the logs are distinct |
| Bootstrap.RemoveFinalizedRids | rbclib/events/rbc_event.py:284-302 | one survivor per request without a final latest event, and raises exactly when grouping or selection raises |
| Bootstrap.ExtractLatest | rbclib/utils.py:174-198 | the highest status number of an inbound group; of an outbound one the first there is of COMMITTED, ROLLBACKED, EXECUTED, REVERTED, ACCEPTED, REJECTED, REQUESTED; raises exactly on an outbound group of FAILED only |
| Bootstrap.SortByEventStatus | rbclib/utils.py:166-171 | a permutation ascending by status number |
| Bootstrap.GroupByRequest | rbclib/events/rbc_event.py:286-294 | every event is filed under its request key and nothing else is |
| Bootstrap.RecoveredRequests | rbclib/events/rbc_event.py:243-302 | a relayer that is not fast recovers a request if and only if no log finalises it and its round is recent enough |
| Bootstrap.LatestDecides | rbclib/events/rbc_event.py:258-273 | for every role, a request is recovered if and only if its latest log is neither 7 nor 8, its round is recent enough and, for a fast relayer, the log is 5 |
| Bootstrap.LatestOutbound | rbclib/utils.py:180-198 | the latest log of an outbound request is the first there is of the statuses 7, 8, 3, 4, 5, 6, 1, 2 |
| Bootstrap.LatestInbound | rbclib/utils.py:178-179 | the latest log of an inbound request has its highest status number |
| Bootstrap.EndRanksAbove | rbclib/utils.py:174-198 | in both directions the status that ends a relay ranks above the relay's class |
| Bootstrap.RecoveredIsWhereItStands | rbclib/events/rbc_event.py:243-302 | what is recovered has nothing final in its history, and an outbound relay class only when no log of the status that ends it is there |
| Bootstrap.OrderDoesNotMatter | rbclib/utils.py:166-198 | permuting the logs changes neither the recovered requests nor their statuses |
| SocketMessages.DecodeEncode | configs/abi.socket.bifrost.json:151-245 | following offsets and checking widths and padding, decoding gives every encoded message back |
| SocketMessages.FastParseIsDecodedStatus | rbclib/events/rbc_event.py:55-58 | bytes 128 to 160 of an encoded message are its decoded status |
| SocketMessages.SpliceIsFieldUpdate | rbclib/events/rbc_event.py:304-309 | splicing a status updates that decoded field and nothing else |
| SocketMessages.SpliceLaws | rbclib/events/rbc_event.py:304-309 | on any record a splice keeps length and other bytes, sets the status, and the last write wins |
| SocketMessages.SpliceJoins | rbclib/events/rbc_event.py:304-309 | records that agree outside the status word become equal once the status is spliced over |
| SocketMessages.RequestKeyInjective | rbclib/events/rbc_event.py:207-210 | equal keys exactly for equal chain, round and sequence |
| SocketMessages.ChainRoundTrip | rbclib/primitives/chain.py:41-50 | from_bytes accepts exactly the formatted bytes of the members and returns that member |
| RelayerSets.SortedIsCanonical | rbclib/utils.py:109-118 | sorting depends on the entries, not on their order |
| RelayerSets.IndexedIffListed | rbclib/utils.py:95-106 | a relayer has an index if and only if the list names it in some letter case |
| RelayerSets.IndexIsBijection | rbclib/utils.py:95-118 | over distinct addresses indices are a bijection onto 0..n-1 |
| RelayerSets.RoundUpElectsOne | rbclib/events/roundup_event.py:77-85 | a RoundUp event has exactly one primary in the previous round's set |
| RelayerSets.SocketElection | rbclib/events/rbc_event.py:311-319 | a Socket event has at most one primary, and one exactly when the remainder is an index of its round |
| RelayerSets.EveryBlockHasPrimary | rbclib/events/rbc_event.py:311-319 | every block has a primary if and only if the current set is no larger than the event's |
| RelayerNode.Relayer.CheckMyEvent | rbclib/events/rbc_event.py:102-143 | answers Authorised whatever an agreeing cache holds, and keeps agreement under any eviction |
| RelayerNode.Relayer.RegisterRelayerAuth | relayer/relayer.py:126-136 | the last rounds get their index, or None: exactly that when it fits the capacity, a part of it after evictions otherwise; agreement is kept |
| RelayerNode.Relayer.FeedRound | rbclib/periodic/vsp_feed.py:87-97 | the new round gets its index if there is one: exactly that when it fits the capacity, a part of it after evictions otherwise; agreement is kept |
| RelayerNode.CacheAgreesInEveryRun | relayer/relayer.py:126-136 | after any interleaving of the three writers and any evictions every cached index is the one in that round's list |
| RelayerNode.AuthorisedIffListed | rbclib/events/rbc_event.py:102-143 | a fast relayer passes the check, another if and only if the source chain is supported and the round lists it; it raises exactly on an unknown chain |
| RelayerNode.PreviousRelayerIsMember | rbclib/events/roundup_event.py:72-75 | after every run of the cache, the test answers membership of the preceding round if and only if that round's entry is an index, or is absent for a relayer outside it |
| RelayerNode.ListedRelayerFails | rbclib/events/roundup_event.py:72-75 | a run without evictions in which a member fails the test |
| RelayerNode.PassesWithoutEvictions | rbclib/events/roundup_event.py:72-75 | after any run without evictions a relayer passes if and only if the preceding round lay in a startup window, or lists it and was fed or met by one of its events |
| RelayerNode.UnlistedRelayerPasses | rbclib/events/roundup_event.py:72-75 | a run in which a relayer outside the set passes |
| Signatures.SocketSignature.FromLists | rbclib/submits.py:20-30 | three lists of one length make a collection; others raise |
| Signatures.SocketSignature.MergeSigs | rbclib/submits.py:48-55 | the other collection is appended in all three lists, also when it is this one |
| Signatures.SocketSignature.GetSingleSig | rbclib/submits.py:57-62 | the aligned signature at an index, or the bound error |
| Signatures.SubmitWithSig.AddTupleSigs | rbclib/submits.py:86-89 | appends a decoded collection, or raises and adds nothing |
| Signatures.SubmitWithSig.SortSigs | rbclib/submits.py:91-107 | rebinds the collection to the canonical form of what it held |
| Signatures.SubmitWithSig.SubmitTuple | rbclib/submits.py:119-133 | the poll parameters carry the canonical form |
| Signatures.CanonicalIffDescribed | rbclib/submits.py:91-107 | the canonical form is the only list strictly ascending by signer, with the same signers, each by its last signature |
| Signatures.CanonicalIdempotent | rbclib/submits.py:91-107 | sorting twice is sorting once |
| Signatures.CanonicalIgnoresOrder | rbclib/submits.py:91-107 | with one signature per signer the collecting order does not matter |
| Signatures.NoVoterIsLost | rbclib/submits.py:91-107 | over a message all voters signed, the submitted list names each voter once, ascending, and nobody else |
| Signatures.BuildVote | rbclib/events/rbc_event.py:321-331 | the vote of each class signs the record with the status of SignedFor spliced in |
| Signatures.BuildRelaySubmit | rbclib/events/rbc_event.py:595-619 | the relay submits the canonical form over the event's own record |
| Signatures.VoteMeetsLog | rbclib/events/rbc_event.py:304-331 | a vote is over the later log's very bytes if and only if it was signed for that log's status |
| Signatures.VotesReachTheRelay | rbclib/events/rbc_event.py:595-619 | the polls that BuildVote makes for the voters' own logs of a request, when signed for the status of the ACCEPTED or REJECTED log, are sorted over that log into the list of exactly their voters |
| Signatures.VotesAreBuilt | rbclib/events/rbc_event.py:321-420 | every vote recorded in a run was built for an event derived from its log, in a class that votes, and signs that log's record with the recorded status |
| Signatures.RunVotesReachTheRelay | rbclib/events/rbc_event.py:595-619 | the votes for a status cast in any runs of any relayers, for their logs of one request, name exactly their voters over the record of the log with that status |
| RoundMessages.TextOrder | rbclib/utils.py:109-118 | dictionary order of address texts is numeric order |
| RoundMessages.TextsSortNumerically | rbclib/submits.py:148-151 | sorting texts in any order lists the addresses ascending |
| RoundMessages.SpelledIsLowered | rbclib/utils.py:109-118 | str.lower maps exactly the spellings of an address, in any letter case, to its lower-case text |
| RoundMessages.RoundMessageLayout | rbclib/submits.py:157-160 | the message holds the round, the offset 64, the length and one address per word, where the ABI puts them |
| RoundMessages.RoundMessageIsCanonical | rbclib/periodic/vsp_feed.py:120-123 | a voter signs the very bytes the relaying node rebuilds, for every order and letter case of the lists |
| RoundMessages.RoundMessagesDiffer | rbclib/submits.py:157-160 | two messages are equal if and only if round and list are |
| RoundMessages.SubmitRound | rbclib/submits.py:153-163 | the submission holds the sorted list and the canonical signatures over the rebuilt message |
| RoundMessages.RoundVotesReachTheRelay | rbclib/submits.py:153-163 | the round submission names every voter once, ascending, and nobody else |
| RoundUps.TargetsAreTheOthers | rbclib/events/roundup_event.py:22-28 | the targets are the supported chains other than BIFROST, each once |
| RoundUps.FannedOutOnce | rbclib/events/roundup_event.py:67-99 | no log is fanned out twice; its clones never fan out |
| RoundUps.EveryRunIsSound | rbclib/events/roundup_event.py:87-135 | events keep their log's identity, fan-outs reach exactly the targets, and a relay is for a committed set whose round its handling saw the target below |
| RoundUps.SecondaryWaits | rbclib/events/roundup_event.py:112-135 | a relay that is not a primary's follows another handling of the same clone that saw the chain below the round at least the call delay earlier |
| RoundUps.PrimarySendIsElected | rbclib/events/roundup_event.py:77-85 | a relay made as primary on an agreeing index is made by the relayer elected in the preceding set |
| RoundUps.OnePrimarySends | rbclib/events/roundup_event.py:77-85 | two relayers never both send one committed set as primary, in any two runs |
| RoundUps.RelayedOncePerChain | rbclib/events/roundup_event.py:87-135 | over distinct supported chains, each log is relayed to a chain at most once in a run |
| RoundUps.NoChainIsForgotten | rbclib/events/roundup_event.py:87-135 | for each target chain a committed set is pending, was seen there, was sent there, or was dropped by a handling that found no cache entry for the preceding round; nothing else loses it |
| RoundUps.EquippedRelayerDelivers | rbclib/events/roundup_event.py:87-135 | a fast relayer, or one that has its cache entry whenever it handles the log, leaves each target chain pending, seen at the round or sent it |
| RoundUps.UncachedRelayerDrops | rbclib/events/roundup_event.py:92-94 | without the entry the log is dropped at its first handling, by a member too |
| RoundUps.EmptyQueueMeansSettled | rbclib/events/roundup_event.py:87-135 | once the queue is empty every committed set is delivered to every target chain, or was dropped for want of a cache entry |
| RoundUps.HandlingsAreBounded | rbclib/events/roundup_event.py:87-135 | at most 1 + 2n handlings for a log and its clones over n target chains |
| RoundUps.QueueEmpties | rbclib/events/roundup_event.py:87-135 | without arrivals every handling uses up part of a finite measure |
| RoundUps.DueEventsAreHandled | rbclib/events/roundup_event.py:87-135 | in every run, a due event is handled without an exception when BIFROST is supported, its log's status known and the set before its log's round not empty |
| RoundUpAnswers.RoundDecides | rbclib/events/roundup_event.py:101-135 | the round that its chain answers decides a clone: dropped at its own round or beyond, else sent by whose turn it is or after a wait, else queued until commit time and call delay are over |
| RoundUpAnswers.LogIsSplit | rbclib/events/roundup_event.py:96-100 | the log is replaced by one clone per target chain with its identity and time lock |
| RoundUpAnswers.AnswersAreRecorded | rbclib/events/roundup_event.py:87-135 | every round seen and every set sent in a run is what the chain answered in one handling |
| RoundUpAnswers.ChainsBehindAreServed | rbclib/events/roundup_event.py:101-135 | in every run, for each target chain, a committed set is pending, was sent, was dropped for want of a cache entry, or the chain itself answered its round or a later one |
| RoundUpAnswers.WhoseTurnSends | rbclib/events/roundup_event.py:77-119 | for every committed set and target chain that is behind there is a run in which the elected relayer, or a fast one, sends it there |
| RoundUpAnswers.HandleRaisesIff | rbclib/events/roundup_event.py:77-135 | the exact inputs on which a handling raises |
| RoundUpAnswers.RelayerWaits | rbclib/events/roundup_event.py:30-47 | in every run a relayer that is not fast looks at no chain, and sends nothing, for a log detected while running before its delay is over |
| RoundUpAnswers.DetectedIsDue | rbclib/events/roundup_event.py:30-47 | a log queued as it was detected can be popped exactly from then on, or at once by a fast relayer and at startup |
| RoundUpEvents.RoundUpEvent.Init | rbclib/events/roundup_event.py:30-47 | the object init makes, with its time lock, or ValueError when BIFROST is not supported |
| RoundUpEvents.RoundUpEvent.BuildTransactionParams | rbclib/events/roundup_event.py:87-135 | result, fields and the appended part of the queue are those of Handle on a cached index that agrees with the preceding round; a clone is sent if and only if its chain answers a lower round and it is the relayer's turn or the wait is over |
| RoundUpEvents.RoundUpEvent.FanOut | rbclib/events/roundup_event.py:96-100 | one clone per target chain is appended, in order |
| RoundUpEvents.RoundUpDispatcher.Detect | rbclib/events/roundup_event.py:30-47 | queueing a new log is the Arrive of a run, or raises where BIFROST is not supported |
| RoundUpEvents.RoundUpDispatcher.HandleOne | rbclib/events/roundup_event.py:87-135 | one dispatch over a queue of distinct objects is the Pop of a run, so the results on runs hold of the objects; the others keep their values |
| RoundUpEvents.Bootstrap | rbclib/events/roundup_event.py:157-177 | the committed log of the highest round, or none; raises exactly on an unknown status or without BIFROST |
| VspFeeds.FetchBottomRound | rbclib/utils.py:69-76 | no polled chain is below the bottom, and one is at it unless it is 2^256 - 1 |
| VspFeeds.BottomIsMinimum | rbclib/utils.py:69-76 | over uint256 answers of at least one chain that is the minimum |
| VspFeeds.VspFeed.Begin | rbclib/periodic/vsp_feed.py:20-35 | starts at the minimum over all supported chains, BIFROST included, at the given time lock and with the configured period in place of 0; raises exactly when BIFROST is not supported |
| VspFeeds.VspFeed.BuildTransactionParams | rbclib/periodic/vsp_feed.py:64-131 | takes over a higher round, writes it to the cache as FeedRound does, and votes exactly as a member of the preceding round; the vote carries and signs the ascending list |
| VspFeeds.VspFeed.CloneNext | rbclib/periodic/vsp_feed.py:49-55 | the clone carries round and period and is due one period later |
| VspFeeds.RunFeed | rbclib/periodic/vsp_feed.py:49-131 | a chain of clones casts the votes of VotesOf, each carrying and signing the ascending list of one poll, ends at Current and is locked one period later per poll |
| VspFeeds.CurrentIsHighest | rbclib/periodic/vsp_feed.py:80-84 | current_round never decreases; it is the highest of start and polls |
| VspFeeds.EachRoundOnce | rbclib/periodic/vsp_feed.py:80-131 | rounds signed strictly rise, and are exactly those first reported above all before while the relayer was in the preceding set |
| VspFeeds.FeedVotesStand | rbclib/periodic/vsp_feed.py:113-131 | every vote of a feed is on the round of one of its polls, with the ascending list and a signature over both, whatever the order and letter case of the answer |
| VspFeeds.FeedVoteIsRecovered | rbclib/submits.py:153-163 | a feed's signature recovers its relayer over the message that the relaying node rebuilds from the event |
| VspFeeds.FeedVotesReachTheRelay | rbclib/submits.py:153-163 | the votes of any members' feeds on a round, in any order, are sorted into the list of exactly their relayers |
| BlockSearch.SearchIsExact | rbclib/utils.py:39-62 | with ceil(log2 n) + 1 calls allowed, the bisection returns a block within 30 seconds if and only if one it can probe exists; else it recurses to the limit |
| BlockSearch.ProbesIsLogarithmic | rbclib/utils.py:39-62 | the call bound used there is ceil(log2 n) + 1 |
| BlockSearch.EveryCallBrackets | rbclib/utils.py:39-62 | every call of the bisection keeps time[front] < target + 30000 <= time[rear] on a stretch within the first; the result is the middle of the last call, and a failure makes as many calls as allowed |
| BlockSearch.ScanStartsBeforeTheInstant | rbclib/utils.py:23-36 | from gaps below a minute, the block returned is less than a minute before the instant and never after it |
| BlockSearch.SearchSucceedsIff | rbclib/utils.py:23-62 | the search succeeds if and only if a block it can probe lies in the minute before the instant; a head below the front raises |
| BlockSearch.FoundStartsRight | rbclib/utils.py:23-36 | whatever the timestamps, a front at or past the instant is kept, and any other result lies between front and head and in the minute before the instant |
| BlockSearch.MinuteGapNeverEnds | rbclib/utils.py:47-62 | a gap of exactly a minute exhausts every recursion limit |
| BlockSearch.DetermineLatestHeights | relayer/relayer.py:138-149 | BIFROST scans from five rounds back but not before block 1, each other chain from its own front or from a block in the minute before that block's time; raises exactly if a search does |
| HexCodec.StripRemovesOnlyThePrefix | rbclib/utils.py:209-225 | on hex digits replace("0x", "") removes a prefix and nothing else |
| HexCodec.ZeroFilledIsFixedWidth | rbclib/utils.py:212-216 | the field form is the fixed-width numeral, for every size and integer: refused exactly on overflow, one digit for no bytes, the sign kept for a negative number |
| HexCodec.ComputeConcatHexes | rbclib/utils.py:219-226 | the loop gives the first argument's even form and then every other body |
| HexCodec.ConcatAsHex | rbclib/utils.py:229-240 | the loop gives the concatenation of the arguments' forms, or the first exception |
| HexCodec.Parser | rbclib/utils.py:247-268 | the cursor loop reads each field at its offset as int(s, 16) does, or raises as the first failing field does |
| HexCodec.ParserInvertsConcat | rbclib/utils.py:212-268 | parser undoes the concatenation of field forms if and only if no field is empty |
| MethodCodec.ConcatAsIntIsBigEndian | rbclib/utils.py:243-244 | concat_as_int reads a code as one big-endian number although leading zeros are lost |
| MethodCodec.FormattedIsPaddedCode | rbclib/primitives/method.py:132-139 | formatted_hex of a code's integer is the code padded to 16 bytes |
| MethodCodec.MethodRoundTrip | rbclib/primitives/method.py:132-144 | integer to 16 bytes to integer is the identity on the enum's codes, NONE included |
| MethodCodec.MethodsAreDistinct | rbclib/primitives/method.py:58-127 | distinct opcode lists have distinct integers |

## Left out

- chainpy: event loop, RPC, receipts, gas, priority queue and cache internals are not part of this model; only the dispatcher contract above, a map with arbitrary eviction, and fresh lists of supported chains are used.
- Cryptography: recovering, signing and addresses are parameters with the one law that recovering a signature over the message it was made for gives the signer's address; nothing is said about other messages.
- The recovery id offset (`to_eth_v`, `+ 27`): part of the abstract signature, which is taken to be stored as it is recovered.
- The contract's answer to whether an address was selected in the preceding round: taken to agree with that round's list, as the index lookup does.
- The Solidity contracts: their answers are arbitrary, except that a past round's relayer list never changes.
- Chain answers of the wrong shape while signatures are fetched: a malformed signature tuple raises in `Signatures.BuildRelaySubmit`, but the run model of Socket and RoundUp events does not raise there.
- Aliasing of the signature lists: the three lists of a SocketSignature are values here, so two collections that shared one Python list object are not represented.
- Text beyond ASCII in int(): other decimal digits and blanks that Python accepts are not represented.
- The sign of negative block heights: heights are naturals, so a front height below 1 is 0.
- Durations of RoundUp waits: `rbclib/events/roundup_event.py:127-129` adds seconds to milliseconds; the formula is kept and stated as it is; of the intended wait only the part that does not depend on the mix is stated, that a secondary waits at least the call delay.
- Two RoundUp logs of one round at startup: which of them is taken is left open, since it depends on how event objects compare.
- Calls to a chain the relayer does not support: what the client library then does is not shown; `SocketRuns.DueEventsAreHandled` asks that both chains of the request be supported, which check_my_event tests of the source chain only.
- The order in which due events are popped: any due event may be, which covers the time-ordered queue.
- Configuration, launcher, metrics, logging, heartbeat and the oracle feeds: thin wrappers or observability without effect on these decisions.
- Finite tables (oracle ids, symbols, chain ids, method constants): only their codecs are modelled, for every table.
