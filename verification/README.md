# Dibbler's DHCPv6 client, verified

A Dafny model of the client side of Dibbler: the transaction protocol (SOLICIT, REQUEST, RENEW,
REBIND, RELEASE), the lease database, the address arithmetic and the codecs, with proofs of what
the client keeps over whole runs.

`dafny verify dfyconfig.toml` checks everything.

| file | what it models |
|---|---|
| `Containers.dfy` | the cursor list `TContainer`, whose `del` rewinds, and the sequence functions that delete-while-iterating loops compute |
| `Leases.dfy`, `LeaseDb.dfy` | identity associations (IAs) and their addresses; merging a received IA, expiry; first as functions, then as the object `AddrIA` with its cursor loops |
| `Advertises.dfy` | the list of ADVERTISEs and its ordering |
| `Retransmission.dfy` | the retransmission timer of section 14 of RFC 3315 |
| `Protocol.dfy` | every step of the client as a function from the state before to the state after |
| `TransMgr.dfy`, `Manager.dfy` | the loops of the transaction manager, and the object `ClntTransMgr`, whose methods are proved to change it as the steps say |
| `SolicitSteps.dfy`, `NewTransactions.dfy`, `RapidCommit.dfy` | what becomes of a due SOLICIT and of one that is answered; what new SOLICITs, RENEWs and REQUESTs carry; discovery in one exchange |
| `ReceivedIAs.dfy` | which received IAs are discarded, what the others make of timers, addresses and server, and where the addresses of a run come from |
| `Parameters.dfy` | the retransmission parameters of each kind of message, over whole runs |
| `Ownership.dfy`, `Replies.dfy`, `Runs.dfy` | which transaction holds which IA: invariants, what a received message does to them, whole runs |
| `Agreement.dfy`, `AgreementRuns.dfy`, `Soundness.dfy` | the addresses on the interfaces are those in the database: exactly which received IAs end that, over whole runs; every IA keeps distinct addresses and T1 at most T2, whatever is received |
| `Failover.dfy`, `SilentRuns.dfy`, `SilentRefresh.dfy` | how many REQUESTs are sent, in which order servers are asked, and how REQUESTs, RENEWs and REBINDs end when nothing is received any more |
| `Deadlines.dfy`, `Punctuality.dfy` | when that is: a RENEW ends exactly at T2 and a REBIND exactly with its duration, REQUESTs within a bounded time, if no pass is late; the client's loop is not late |
| `SilentSolicits.dfy` | how SOLICITs use up the ADVERTISEs when nothing is received any more |
| `SilentWitnesses.dfy` | runs without messages that come to such ends, for every client and for concrete ones |
| `Servers.dfy` | whether IAs and RENEWs know their server, over whole runs |
| `Orphans.dfy` | IAs that are never asked for again: exactly when they arise, and that they stay |
| `Hazards.dfy`, `Witnesses.dfy`, `RenewWitnesses.dfy`, `LoneWitnesses.dfy` | how an IA comes to have two holders; runs of concrete clients in which an invariant breaks, an IA is lost or an address stays behind |
| `DHCPClient.dfy` | start-up, main loop, and shutdown at the end of a run |
| `Shutdown.dfy` | the batches of RELEASE messages, and what stays on the interfaces |
| `Address128.dfy`, `HostRange.dfy`, `AddressBits.dfy` | 128-bit arithmetic octet by octet, address pools, truncation and the splitting of delegated prefixes |
| `Addresses.dfy` | the octets, bits and database numbers of these are the same addresses |
| `Wire.dfy`, `Duid.dfy` | message header and option walk; the printed form of a DUID |
| `Resolvers.dfy` | the reconciliation of DNS servers; the removal of options that a message must not carry |
| `DHCPConst.dfy` | a constant that several files share |

## How the state is modelled

`Protocol.Client` holds the configured interfaces and IAs, the IA list and database, the ADVERTISE
list, the transactions, and the multiset of addresses that the client has put on interfaces and not
taken off again. A transaction carries the IAs among its options, its server and its timer. `now()`
is fixed within a step. The numbers `rand()` yields are parameters: the jitter of a timeout is any
real number between -0.1 and 0.1, a drawn octet comes from any natural number. `long` and `int` are
unbounded except where wrap-around decides the result (lifetimes, `rangeCount`). Octets are unsigned,
as the build's `-funsigned-char` makes them.

RELEASE batches compare server DUIDs by content, `checkRenew` compares DUID objects, so a server is
modelled with both: the identity of the object and the DUID.

An IA is *held* by a live transaction that has it among its options. The invariant `Ownership.Owned`
says: at most one transaction holds an IA; an IA NOTCONFIGURED in the configuration is held by none,
one INPROCESS there by exactly one; and an IA CONFIGURED in the database is held by none.

## What the code does not do

- A message may grant IAs that its transaction did not ask for; a RENEW may be answered with a success
  and then a missing binding. Ownership survives a message exactly when it does neither harmfully
  (`Runs.DeliverKeepsIff`). From start-up, with no server at fault before, one REPLY is enough for an IA
  to have two holders at its T1 (`Witnesses.ForeignGrantBreaks`, `Witnesses.TwoHolders`); so is one
  reply to a RENEW (`RenewWitnesses.LateNoBindingBreaks`, `RenewWitnesses.TwoHolders`). Concrete clients
  and messages are in `Witnesses.BrokenRun` and `RenewWitnesses.BrokenRenewal`.
- A granted address goes to the interface of the transaction, not of the IA. Database and interfaces
  agree afterwards exactly when these are the same or the IA knows the same addresses as before
  (`Agreement.MergeAgreesIff`), and throughout a run exactly when that is so for every received IA
  (`AgreementRuns.RunAgreesIff`; a run from start-up that breaks it: `Witnesses.ForeignInterfaceDisagrees`).
- A REPLY that leaves a renewed IA out ends the RENEW, and an expired address resets only the state in
  the database. A pass and a message lose exactly the IAs of `Orphans.RoundOrphanIff` and
  `Orphans.DeliverOrphanIff`. Such an IA is neither discovered nor renewed until some message happens to
  grant it (`Orphans.OrphanForEver`), and once it has expired the client stops sleeping because of it
  (`Orphans.ExpiredOrphanPolls`). A concrete client and message are in `RenewWitnesses.LostIA`.
- An IA granted without an address has no server to send its RENEW to. All IAs with addresses and all
  RENEWs have a server throughout a run exactly when no message does that (`Servers.RunEquipsIff`). A
  run from start-up in which one does is in `Witnesses.UnequippedRun`.
- `rangeCount` computes with a 32-bit `int`: it is right exactly when the endpoints' difference is not
  in [2^31, 2^32) (`HostRange.CountIsSizeIff`).
- `operator--` never borrows from the first octet, so not every address of a pool can be drawn
  (`HostRange.WholePoolDrawableIff`, `HostRange.OutOfReach`).
- A RENEW or REBIND whose duration is zero still waits for one timeout
  (`Retransmission.WaitsExactlyIff`). With T1 equal to T2 that is the RENEW of every due renewal
  (`LoneWitnesses.WaitsWithoutTime`, a concrete client in `LoneWitnesses.OneWaits`).
- At shutdown, IAs in other states than CONFIGURED and INPROCESS are forgotten with their addresses
  still on the interface (`Shutdown.CleanIff`). An IA that has lost one address to expiry and not the
  other is such a one (`LoneWitnesses.LeftAtShutDown`, a concrete client in `LoneWitnesses.OneLeftBehind`).
- A text of odd length without a colon before its last character overruns the buffer in which its DUID
  is stored; no other text does (`Duid.FitsHalfBufferIff`, `Duid.OddTextOverruns`).

## Model

| member | source | states |
|---|---|---|
| `Ownership.DistinctHolders` | ClntTransMgr/ClntTransMgr.cpp:716-774 | no two live transactions hold the same IA |
| `Ownership.HandOverKeepsCore` | ClntMessages/ClntMsgRequest.cpp:217-229 | a REQUEST or SOLICIT that hands its IAs to a new REQUEST keeps holders exclusive; without a server they are given back |
| `Ownership.RebindKeeps` | ClntMessages/ClntMsgRenew.cpp:192-205 | a RENEW whose time is up becomes a REBIND that holds the same IAs |
| `Ownership.ReleaseKeeps` | ClntMessages/ClntMsgRebind.cpp:237-306 | a REBIND whose time is up gives its IAs back: none holds them, none is renewable |
| `Ownership.DutiesFromKeep` | ClntTransMgr/ClntTransMgr.cpp:301-315 | the loop over the due messages keeps the invariant |
| `Ownership.PurgeKeeps` | ClntTransMgr/ClntTransMgr.cpp:317-322 | deleting the done messages changes no holder and leaves none done |
| `Ownership.SolicitKeeps` | ClntMessages/ClntMsgSolicit.cpp:52-66 | a SOLICIT takes IAs that nobody holds, and then holds each once |
| `Ownership.PickedAreRenewable` | ClntTransMgr/ClntTransMgr.cpp:881-908 | the IAs picked for a RENEW are distinct, CONFIGURED and on one interface |
| `Ownership.RenewKeeps` | ClntTransMgr/ClntTransMgr.cpp:873-941 | `checkRenew` keeps the invariant |
| `Ownership.RoundKeeps` | ClntTransMgr/ClntTransMgr.cpp:297-369 | one pass keeps the invariant; afterwards nothing is done and no IA waits to be discovered |
| `Replies.MergeAllStates` | ClntMessages/ClntMsg.cpp:828-839 | exactly the known IAs that are granted become CONFIGURED, nothing else changes state or place |
| `Replies.LeftoverExact` | ClntMessages/ClntMsg.cpp:841-852 | what is left of the request is what was asked for and not granted, in order |
| `Replies.NoIALost` | ClntMessages/ClntMsg.cpp:1038-1079 | the transaction ends; the IAs not granted are those of one new REQUEST to the best server left, or are given back |
| `Replies.AnswerReplyKeeps` | ClntMessages/ClntMsg.cpp:791-1080 | holders stay exclusive for every REPLY; IAs that may be renewed stay unheld if and only if nobody else held a granted IA |
| `Replies.AnswerRenewKeeps` | ClntMessages/ClntMsgRenew.cpp:101-177 | the same for a RENEW: if and only if, besides, it hands on no IA it was just granted |
| `Runs.AnswerKeepsIff` | ClntMessages/ClntMsgSolicit.cpp:111-166 | an answer to any kind of message keeps the invariant if and only if it is harmless |
| `Runs.DeliverKeepsIff` | ClntTransMgr/ClntTransMgr.cpp:501-551 | so does a received message |
| `Runs.RunKeepsIff` | Misc/DHCPClient.cpp:139-181 | the invariant holds throughout a run if and only if every message of the run is harmless |
| `Runs.RunKeepsOwnership` | Misc/DHCPClient.cpp:139-181 | it holds throughout every run in which servers grant only what they were asked for |
| `Runs.NeverTwoHolders` | Misc/DHCPClient.cpp:139-181 | in every such run from the start, no two live transactions hold the same IA |
| `Runs.StartedOnlyForUnheld` | ClntTransMgr/ClntTransMgr.cpp:716-941 | in every such run, SOLICITs and RENEWs are started only for IAs that nobody holds at that moment |
| `Runs.RunKeepsWellFormed` | Misc/DHCPClient.cpp:139-181 | over every run whatsoever, configuration and database list the same IAs, each once, on the same interfaces |
| `SolicitSteps.DueSolicitRequests` | ClntMessages/ClntMsgSolicit.cpp:291-300 | after a pass, a live SOLICIT that was due, with ADVERTISEs on the list and nobody before it taking one, has given its IAs to a REQUEST whose server had an ADVERTISE of greatest preference |
| `SolicitSteps.UserRequests` | ClntMessages/ClntMsgRequest.cpp:217-229 | in general the messages that take an ADVERTISE in a pass, due SOLICITs and due REQUESTs past their last transmission, get the servers in order of preference, first come first served |
| `SolicitSteps.DueSolicitIsGone` | ClntMessages/ClntMsgSolicit.cpp:291-300 | and the SOLICIT is gone: that REQUEST is the only live message with any of its IAs |
| `SolicitSteps.SolicitResent` | ClntMessages/ClntMsgSolicit.cpp:291-300 | a due SOLICIT for which no ADVERTISE is left is sent once more, and nothing else of it changes |
| `SolicitSteps.RequestResent` | ClntMessages/ClntMsgRequest.cpp:217-229 | so is a due REQUEST that may still be sent to its server |
| `SolicitSteps.AdvertiseDecides` | ClntMessages/ClntMsgSolicit.cpp:111-143 | an ADVERTISE that offers something: with preference 255, or if the SOLICIT was sent more than once, the SOLICIT ends in a REQUEST to a server of greatest preference among those known and the new one; otherwise only the list grows, by that ADVERTISE |
| `SolicitSteps.AdvertiseEndsIff` | ClntMessages/ClntMsgSolicit.cpp:128-142 | so it ends the SOLICIT if and only if one of the two is so |
| `SolicitSteps.UselessIsIgnored` | ClntMessages/ClntMsgSolicit.cpp:180-220 | a message from a rejected server, or whose first IA is missing, has no address or a failure status, changes nothing |
| `SolicitSteps.OthersAreIgnored` | ClntMessages/ClntMsgSolicit.cpp:145-165 | nor does one of another type, or a REPLY when SOLICIT or REPLY lack the rapid commit |
| `NewTransactions.OnlySolicitsStarted` | ClntTransMgr/ClntTransMgr.cpp:716-774 | `checkSolicit` starts SOLICITs only, on interfaces that are to be configured, each for exactly the IAs that wait there, in order, with the interface's rapid commit |
| `NewTransactions.SolicitStarted` | ClntTransMgr/ClntTransMgr.cpp:716-774 | and one for each such interface on which an IA waits |
| `NewTransactions.SolicitedIsMarked` | ClntMessages/ClntMsgSolicit.cpp:52-66 | their IAs are INPROCESS in configuration and database |
| `NewTransactions.RenewStarted` | ClntMessages/ClntMsgRenew.cpp:29-97 | the RENEW has the IAs picked, and interface and server of the first; they are INPROCESS in the database, and nothing else changes |
| `NewTransactions.NeedsRenewIff` | ClntTransMgr/ClntTransMgr.cpp:887-890 | an IA needs renewal if and only if it is CONFIGURED, its T1 has come and its addresses are not being checked |
| `NewTransactions.OverdueIsRenewed` | ClntTransMgr/ClntTransMgr.cpp:873-941 | with such an IA on the list a RENEW is started, to the server of its first IA; it takes that IA if and only if it has this server and interface |
| `NewTransactions.NoBindingRequests` | ClntMessages/ClntMsgRenew.cpp:119-127 | a reply that reports a missing binding hands all IAs of the RENEW to one REQUEST, to a server of greatest preference |
| `NewTransactions.BindingEnds` | ClntMessages/ClntMsgRenew.cpp:101-177 | any other reply ends the RENEW and starts nothing |
| `NewTransactions.GivenBack` | ClntMessages/ClntMsgRequest.cpp:248-297 | a REQUEST for which no server is left makes its IAs on its interface NOTCONFIGURED, and no others |
| `RapidCommit.RunConfigured` | ClntMessages/ClntMsgSolicit.cpp:96-97 | over every run whatsoever, every SOLICIT is on a configured interface, with its rapid commit |
| `RapidCommit.SolicitsCarryRapid` | ClntMessages/ClntMsgSolicit.cpp:96-97 | with distinct interface identifiers, in every run from the start a SOLICIT carries rapid commit if and only if the interface of its identifier is configured so |
| `RapidCommit.RapidReplyConfigures` | ClntMessages/ClntMsgSolicit.cpp:145-160 | a REPLY with rapid commit that grants all IAs of a SOLICIT that carries it ends the SOLICIT and leaves them CONFIGURED on both sides, held by nobody |
| `RapidCommit.RapidFromStart` | Misc/DHCPClient.cpp:139-181 | from start-up, one pass and one such REPLY configure all IAs of an interface with rapid commit |
| `RapidCommit.SlowFromStart` | ClntMessages/ClntMsgSolicit.cpp:147-156 | without rapid commit on either side that REPLY changes nothing |
| `RapidCommit.OneIsConfigured` | Misc/DHCPClient.cpp:139-181 | a concrete client is configured so |
| `ReceivedIAs.IsValidIff` | ClntOptions/ClntOptIA_NA.cpp:461-486 | a received IA is kept if and only if T1 does not exceed T2 and the octets of no address start with fe 80 |
| `ReceivedIAs.DiscardedIsLeftOut` | ClntMessages/ClntMsg.cpp:236-244 | a message with an IA that is discarded does what it does without it |
| `ReceivedIAs.MergedTimers` | ClntOptions/ClntOptIA_NA.cpp:369-382 | T1 and T2 are those received if neither is zero, else a half and seven tenths of the first preferred lifetime, rounded down, else unchanged |
| `ReceivedIAs.MergedAddresses` | ClntOptions/ClntOptIA_NA.cpp:309-388 | the IA is CONFIGURED, has exactly the addresses of the map update, and IA and addresses carry the time of the message |
| `ReceivedIAs.MergedServer` | ClntOptions/ClntOptIA_NA.cpp:314-331 | the server is replaced if and only if the message brings an address that was not known |
| `ReceivedIAs.DeliveredIA` | ClntTransMgr/ClntTransMgr.cpp:501-551 | an IA granted once in a message becomes that merge, with the server of the message, or of the RENEW |
| `ReceivedIAs.AddressesAreGranted` | Misc/DHCPClient.cpp:139-181 | over every run whatsoever, an address comes to an interface or the database only if a message grants it in an IA that is kept |
| `ReceivedIAs.NeverLinkLocal` | ClntOptions/ClntOptIA_NA.cpp:461-472 | so no link-local address ever does |
| `Parameters.RunStandard` | Misc/DHCPConst.h:48-60 | over every run whatsoever, every message has IRT, MRT and MRC of its kind and waits at most MRT and a tenth; only RENEW and REBIND have a duration |
| `Hazards.RenewedThoughHeld` | ClntTransMgr/ClntTransMgr.cpp:873-941 | every IA that `checkRenew` picks is given to a RENEW although messages that keep it still hold it |
| `Hazards.QuietRound` | ClntTransMgr/ClntTransMgr.cpp:297-369 | a pass with nothing due, expired, to discover or to renew only deletes what is done |
| `Witnesses.ForeignGrantBreaks` | ClntMessages/ClntMsg.cpp:828-839 | from start-up, every REPLY that also grants the IA under discovery on another interface ends ownership |
| `Witnesses.ForeignInterfaceDisagrees` | ClntOptions/ClntOptIA_NA.cpp:309-339 | the same run: database and interfaces agreed before the REPLY and disagree after it |
| `Witnesses.TwoHolders` | ClntTransMgr/ClntTransMgr.cpp:873-941 | one pass later, at T1, that IA is held by its SOLICIT and by a RENEW |
| `Witnesses.BrokenRun` | Misc/DHCPClient.cpp:139-181 | there are such a client and such messages |
| `RenewWitnesses.LateNoBindingBreaks` | ClntMessages/ClntMsgRenew.cpp:119-134 | every reply to a RENEW that renews an IA and then reports a missing binding, while another server is known, ends ownership |
| `RenewWitnesses.TwoHolders` | ClntTransMgr/ClntTransMgr.cpp:873-941 | at the next T1 the IA is held by a REQUEST and by a RENEW |
| `RenewWitnesses.BrokenRenewal` | ClntMessages/ClntMsgRenew.cpp:101-177 | there are such a client and such a reply |
| `Agreement.MergeAgreesIff` | ClntOptions/ClntOptIA_NA.cpp:309-365 | merging a received IA keeps database and interfaces in agreement if and only if it came for the IA's interface, or its addresses, taken in order, leave the set of known ones as it was |
| `Agreement.ExpiryAgrees` | ClntTransMgr/ClntTransMgr.cpp:336-337 | removing dead addresses from interfaces and database at the same instant keeps the agreement |
| `Agreement.ReleaseAllAgrees` | ClntMessages/ClntMsgRebind.cpp:277-306 | so does the release of IAs by a REBIND |
| `Agreement.RoundAgrees` | ClntTransMgr/ClntTransMgr.cpp:297-369 | one pass keeps the agreement, whoever holds what |
| `AgreementRuns.DeliverAgreesIff` | ClntTransMgr/ClntTransMgr.cpp:501-551 | they agree after each received IA of a message if and only if each one fits the database as those before it leave it, and then also at its end; for a single received IA the end is if and only if |
| `AgreementRuns.RunAgreesIff` | Misc/DHCPClient.cpp:139-181 | they agree throughout a run, after every pass, received IA and message, if and only if every received IA fits |
| `AgreementRuns.DeliverAgreesAtEndIff` | ClntOptions/ClntOptIA_NA.cpp:309-365 | after a message of any number of IAs that withdraws no address, they agree if and only if everything in it fits |
| `AgreementRuns.LaterOptionUndoes` | ClntOptions/ClntOptIA_NA.cpp:309-365 | with a withdrawal that is not so: a REPLY that grants an address to an IA of another interface and withdraws it in a later option ends the agreement and restores it |
| `AgreementRuns.SolicitedRunFits` | Misc/DHCPClient.cpp:139-181 | servers that grant only what they were asked for send nothing that does not fit |
| `Soundness.RoundKeepsSound` | ClntTransMgr/ClntTransMgr.cpp:297-369 | one pass keeps every IA's addresses distinct and T1 at most T2 |
| `Soundness.DeliverKeepsSound` | ClntOptions/ClntOptIA_NA.cpp:236-388 | so does any message whatsoever |
| `Failover.DutiesSpend` | ClntMessages/ClntMsgRequest.cpp:217-229 | every REQUEST sent takes exactly one from a budget of MRC+1 for each unused ADVERTISE plus what live REQUESTs have left |
| `Failover.RoundSpends` | ClntTransMgr/ClntTransMgr.cpp:297-369 | the REQUESTs of one pass are exactly what its budget loses |
| `Failover.DeliverSpends` | ClntTransMgr/ClntTransMgr.cpp:501-551 | a message adds at most MRC+1 to the budget, and only an ADVERTISE does |
| `Failover.RequestsAreBounded` | ClntMessages/ClntMsgRequest.cpp:35-67 | over every run whatsoever, the REQUESTs sent are at most MRC+1 for every ADVERTISE plus what live REQUESTs had left |
| `Failover.ChainAsksAll` | ClntMessages/ClntMsgRequest.cpp:217-229 | the timeouts of one REQUEST and its successors, followed by themselves: MRC+1 transmissions to its server and to every advertised one, once each, best preference first |
| `Failover.ChainGivesBack` | ClntMessages/ClntMsgRequest.cpp:248-297 | at the end of these timeouts its IAs on its interface are NOTCONFIGURED and nothing else has changed |
| `SilentRuns.SilenceCosts` | ClntTransMgr/ClntTransMgr.cpp:297-369 | in a run without messages, every pass with a due REQUEST uses up some of a measure of ADVERTISEs and transmissions left, and no pass adds to it |
| `SilentRuns.RequestsEnd` | ClntMessages/ClntMsgRequest.cpp:217-229 | in a run without messages whose passes each find a due REQUEST for as long as there is one, none is left after at most as many passes as the measure says, whatever other transactions do |
| `SilentRuns.SilenceSearches` | ClntTransMgr/ClntTransMgr.cpp:627-639 | in a run without messages, some REQUEST is under way or no ADVERTISE is left, if it was so before |
| `SilentRuns.RequestsStayEnded` | ClntTransMgr/ClntTransMgr.cpp:627-639 | and then, once no REQUEST is left, none is sent for the rest of the run |
| `SilentRuns.SilenceAsks` | ClntTransMgr/ClntTransMgr.cpp:627-639 | in a run without messages, the new REQUESTs of all transactions together ask the advertised servers once each, best preference first |
| `SilentRuns.SilenceAsksAll` | ClntMessages/ClntMsgRequest.cpp:217-229 | a run without messages from a client with a REQUEST under way to one without: every advertised server was asked in that order, and the REQUESTs sent are exactly MRC+1 for each plus what live ones had left |
| `SilentRuns.RequestedIsDiscovered` | ClntMessages/ClntMsgRequest.cpp:248-297 | at the end of such a run every IA of a REQUEST is held by a SOLICIT and by nothing else |
| `SilentSolicits.DueSolicitAsksAll` | ClntMessages/ClntMsgSolicit.cpp:291-300 | a run without messages from any client, with a pass at which a SOLICIT is due, to an end without REQUESTs: no ADVERTISE is left and every advertised server was asked as often |
| `SilentSolicits.AllAskedInTime` | ClntMessages/ClntMsgSolicit.cpp:291-300 | from any client with a live SOLICIT, if no pass is late: so it is once 132 seconds (the longest wait of a SOLICIT) and 33 for each unit of the measure are over |
| `SilentSolicits.SolicitedIsDiscovered` | ClntMessages/ClntMsgRequest.cpp:248-297 | and the IAs of the SOLICIT are each held by one SOLICIT again |
| `SilentSolicits.OfferedRequests` | ClntMessages/ClntMsgSolicit.cpp:291-300 | a concrete client with a due SOLICIT and one ADVERTISE of preference 0 sends the REQUEST at that timeout |
| `SilentSolicits.OfferedInTime` | ClntMessages/ClntMsgSolicit.cpp:291-300 | with a pass every second it has asked that server eleven times after at most 859 seconds |
| `SilentRuns.SilenceHolds` | ClntTransMgr/ClntTransMgr.cpp:297-369 | in a run without messages, an IA that is held stays held by exactly one transaction, through REQUEST, RENEW, REBIND and new SOLICITs |
| `SilentRefresh.RoundTakes` | ClntTransMgr/ClntTransMgr.cpp:297-369 | a pass with a due RENEW or REBIND uses up some of a measure of the durations left and the renewals to come, and no pass adds to it |
| `SilentRefresh.RefreshesEnd` | ClntMessages/ClntMsgRebind.cpp:237-275 | in a run without messages whose passes each find a due RENEW or REBIND for as long as there is one, none is left after at most as many passes as the measure says, expiry and new renewals included |
| `SilentRefresh.RefreshedIsReleased` | ClntMessages/ClntMsgRebind.cpp:277-306 | at the end of a run without messages that leaves no RENEW and no REBIND, every IA that one of them held has no address and exactly one holder, a SOLICIT or REQUEST |
| `SilentRefresh.RefreshedIsDiscovered` | ClntMessages/ClntMsgRebind.cpp:277-306 | a SOLICIT, if no REQUEST is left, either |
| `SilentRefresh.RunPrimed` | ClntMessages/ClntMsg.cpp:355-373 | the timers of RENEWs and REBINDs run throughout every run whatsoever |
| `Deadlines.PassWaits` | ClntMessages/ClntMsgRenew.cpp:192-205 | a pass before the end of its duration leaves a RENEW or REBIND under way with the same IAs; the end never comes earlier, and not later unless the pass came after the message was due |
| `Deadlines.RenewalEndsAtT2` | ClntMessages/ClntMsgRenew.cpp:62-97 | the RENEW that a pass starts has the instant T2 of its first IA as the end of its duration, if that is still to come |
| `Deadlines.RenewEndsExactly` | ClntMessages/ClntMsgRenew.cpp:192-205 | a run without messages in which no pass is late and one comes at the end of a RENEW's duration or after it: the RENEW stands through every earlier pass, and the pass exactly at that end makes a REBIND of it |
| `Deadlines.RebindEndsWithLifetime` | ClntMessages/ClntMsgRebind.cpp:43-67 | the duration of a REBIND ends with the longest valid lifetime of its IAs if and only if any of that is left |
| `Deadlines.NoneOutlasts` | ClntMessages/ClntMsgRebind.cpp:43-67 | no address of its IAs is valid for longer than that |
| `Deadlines.SomeLasts` | ClntMessages/ClntMsgRebind.cpp:43-67 | and some address is valid exactly as long |
| `Deadlines.RebindEndsExactly` | ClntMessages/ClntMsgRebind.cpp:237-306 | in such a run the REBIND stands until the pass exactly at the end of its duration, which leaves its IAs without addresses, each held by a SOLICIT and by nothing else |
| `Deadlines.UnansweredRenewal` | ClntTransMgr/ClntTransMgr.cpp:297-369 | both together: from a RENEW under way to its IAs under discovery, with the instants of both steps |
| `Punctuality.PassLeavesNoneDue` | ClntTransMgr/ClntTransMgr.cpp:297-369 | after a pass no message is due at that instant |
| `Punctuality.RunClocked` | ClntMessages/ClntMsg.cpp:355-373 | over every run whatsoever, every live message waits at least a second |
| `Punctuality.LoopIsPunctual` | Misc/DHCPClient.cpp:139-181 | if nothing is received and the loop wakes up from each sleep in time, no pass comes after a message was due |
| `Punctuality.EverySecondIsPunctual` | Misc/DHCPClient.cpp:139-181 | nor if there is a pass every second |
| `Punctuality.RequestsEndInTime` | ClntMessages/ClntMsgRequest.cpp:217-229 | if no pass is late, no REQUEST is left once 33 seconds (MRT and a tenth, rounded) are over for each unit of the measure |
| `Punctuality.DiscoveredInTime` | ClntMessages/ClntMsgRequest.cpp:248-297 | by then every advertised server was asked in order of preference and the IAs of the REQUEST are each held by a SOLICIT and by nothing else |
| `SilentWitnesses.SilenceCanEnd` | Misc/DHCPClient.cpp:139-181 | every run without messages, from any well-formed client whose timers run, can go on until no REQUEST, RENEW and REBIND is left |
| `SilentWitnesses.HeldIsDiscovered` | ClntTransMgr/ClntTransMgr.cpp:716-774 | then every IA that any transaction held is held by a SOLICIT and by nothing else |
| `SilentWitnesses.AskedAndDiscovered` | ClntMessages/ClntMsgRequest.cpp:217-229 | a concrete client with a REQUEST sent once and an ADVERTISE: a run that asks the other server, sends 21 more REQUESTs and ends with the IA under discovery |
| `SilentWitnesses.AskedInTime` | ClntMessages/ClntMsgRequest.cpp:217-229 | with a pass every second that takes it at most 1420 seconds |
| `SilentWitnesses.LoneRunsOut` | ClntMessages/ClntMsgRebind.cpp:277-306 | every client with one CONFIGURED IA at its T1 starts a RENEW, and there is a run without messages that ends with the IA without address and under discovery |
| `SilentWitnesses.LoneOnTime` | ClntMessages/ClntMsgRenew.cpp:192-205 | with a pass every second its RENEW becomes a REBIND exactly at T2, which ends exactly when its duration is over |
| `SilentWitnesses.OneRunsOut` | ClntMessages/ClntMsgRebind.cpp:277-306 | so it ends for a concrete client whose RENEW is under way |
| `Failover.IgnoredWaits` | ClntMessages/ClntMsgRebind.cpp:43-67 | the timeouts of one RENEW and its REBIND, followed by themselves: the RENEW lasts exactly its duration, the REBIND exactly the longest valid lifetime left, if and only if there is any |
| `Failover.RenewLastsUntilT2` | ClntMessages/ClntMsgRenew.cpp:62-97 | from its start, an unanswered RENEW waits exactly until T2 if and only if T2 was not over |
| `Failover.IgnoredReleases` | ClntMessages/ClntMsgRebind.cpp:237-275 | at the end of these timeouts exactly its IAs are released |
| `Failover.ReleasedIA` | ClntMessages/ClntMsgRebind.cpp:277-306 | a released IA has no address and waits to be discovered |
| `Orphans.RoundOrphanIff` | ClntTransMgr/ClntTransMgr.cpp:297-369 | after a pass the orphans (unheld IAs, CONFIGURED only in the configuration) are exactly those of before and the unheld CONFIGURED ones with an expired address |
| `Orphans.ExpiredIsOrphan` | ClntAddrMgr/ClntAddrMgr.cpp:139-149 | an unheld IA becomes one in the expiry if and only if an address of it is dead |
| `Orphans.DeliverOrphanIff` | ClntTransMgr/ClntTransMgr.cpp:501-551 | after a message the orphans are exactly those of before and the IAs that a reply to their RENEW leaves out, unless the message grants them |
| `Orphans.IgnoredByRenewReply` | ClntMessages/ClntMsgRenew.cpp:111-176 | an IA of a RENEW becomes one if and only if the reply reports no missing binding and does not renew it |
| `Orphans.OrphanForEver` | ClntTransMgr/ClntTransMgr.cpp:716-941 | an orphan stays one over every run in which no message grants it |
| `Orphans.OrphanIsNotAskedFor` | ClntTransMgr/ClntTransMgr.cpp:716-941 | servers that grant only what they were asked for never grant it |
| `Orphans.ExpiredOrphanPolls` | AddrMgr/AddrClient.cpp:198-220 | with an IA NOTCONFIGURED in the database the client's timeout is 0 |
| `RenewWitnesses.LeftOutForEver` | ClntMessages/ClntMsgRenew.cpp:111-176 | every reply to a RENEW that leaves one of two IAs out makes an orphan of it, for every run that never grants it |
| `RenewWitnesses.ExpiryOrphansBoth` | ClntAddrMgr/ClntAddrMgr.cpp:139-149 | a client that makes no pass before its addresses expire loses all their IAs in the next one |
| `RenewWitnesses.LostIA` | ClntMessages/ClntMsgRenew.cpp:111-176 | a concrete client and reply with which an IA is lost |
| `Witnesses.EmptyHandedBreaks` | ClntOptions/ClntOptIA_NA.cpp:317-339 | from start-up, every REPLY that grants the IA asked for without an address leaves it CONFIGURED and without a server |
| `Witnesses.UnequippedRun` | ClntOptions/ClntOptIA_NA.cpp:317-339 | there are such a client and such messages |
| `LoneWitnesses.PassBetween` | ClntAddrMgr/ClntAddrMgr.cpp:135-151 | a pass between the ends of its two addresses leaves an IA NOTCONFIGURED with the second one |
| `LoneWitnesses.LeftAtShutDown` | ClntTransMgr/ClntTransMgr.cpp:392-398 | a shutdown after it releases nothing and leaves that address on the interface |
| `LoneWitnesses.OneLeftBehind` | ClntTransMgr/ClntTransMgr.cpp:392-398 | so it is for a concrete client |
| `LoneWitnesses.WaitsWithoutTime` | ClntMessages/ClntMsgRenew.cpp:62-97 | with T1 equal to T2, a due renewal starts a RENEW of duration zero, which waits all the same |
| `LoneWitnesses.OneWaits` | ClntMessages/ClntMsgRenew.cpp:62-97 | so it is for a concrete client that owns its IA |
| `Servers.RoundEquips` | ClntMessages/ClntMsgRenew.cpp:62-80 | one pass keeps: IAs with addresses or CONFIGURED, and RENEWs, know a server |
| `Servers.MergeEquipsIff` | ClntOptions/ClntOptIA_NA.cpp:317-339 | after a merge an IA knows a server if and only if it did before or was granted an address |
| `Servers.DeliverEquipsIff` | ClntTransMgr/ClntTransMgr.cpp:501-551 | a message keeps that if and only if it grants no IA without server empty-handed |
| `Servers.RunEquipsIff` | Misc/DHCPClient.cpp:139-181 | it holds throughout a run if and only if no message of the run does |
| `Retransmission.Message.Send` | ClntMessages/ClntMsg.cpp:355-405 | one transmission updates RT, RC, MRD and the time stamp as section 14 of RFC 3315 lays down |
| `Retransmission.ShareIsProduct` | ClntMessages/ClntMsg.cpp:355-367 | the random share of a timeout, a repeated sum in the model, is the product of timeout and random factor |
| `Retransmission.TimeoutIsDrawn` | ClntMessages/ClntMsg.cpp:361-370 | for every state of the timer, the next timeout is IRT, twice the previous one, or MRT, each changed by the random share of itself, rounded, and cut to what is left of MRD |
| `Retransmission.TransmitCounts` | ClntMessages/ClntMsg.cpp:371-373 | a transmission counts itself, stamps the time and takes its wait from MRD |
| `Retransmission.BelowCeiling` | ClntMessages/ClntMsg.cpp:361-367 | with a cap, RT never exceeds floor(0.5 + 1.1 MRT) |
| `Retransmission.GrowsUntilCapped` | ClntMessages/ClntMsg.cpp:361-364 | RT grows strictly while nothing cuts it |
| `Retransmission.RunKeepsRunning` | ClntMessages/ClntMsg.cpp:355-373 | every RT of a run is at least 1 |
| `Retransmission.RunBelowCeiling` | ClntMessages/ClntMsg.cpp:366-367 | every RT of a run is below the ceiling |
| `Retransmission.RunStaysAtCap` | ClntMessages/ClntMsg.cpp:366-371 | once around MRT, RT stays within rounding of ten percent of it for as long as what is left of MRD does not cut it |
| `Retransmission.FirstCut` | ClntMessages/ClntMsg.cpp:361-371 | over a run that MRD does not cut, RT grows strictly until the first cap and is then around MRT |
| `Retransmission.BudgetIsKept` | ClntMessages/ClntMsg.cpp:369-371 | the waits so far plus the MRD left are the initial MRD |
| `Retransmission.WaitsExactlyIff` | ClntMessages/ClntMsgRenew.cpp:192-205 | unanswered waits sum exactly to the initial MRD if and only if it is positive, after at most MRD transmissions |
| `Advertises.SortAdvertiseLst` | ClntTransMgr/ClntTransMgr.cpp:1158-1183 | the sorting loop terminates and computes the order below |
| `Advertises.GetMaxPreference` | ClntTransMgr/ClntTransMgr.cpp:1126-1139 | the greatest preference, -1 for an empty list |
| `Advertises.MaxPrefPresent` | ClntTransMgr/ClntTransMgr.cpp:1165-1172 | the greatest preference is present, so the search succeeds |
| `Advertises.SortIsDescending` | ClntTransMgr/ClntTransMgr.cpp:1158-1183 | a permutation in non-increasing preference |
| `Advertises.SortIsStable` | ClntTransMgr/ClntTransMgr.cpp:1158-1183 | ADVERTISEs of equal preference keep their order |
| `Advertises.StableOrderUnique` | ClntTransMgr/ClntTransMgr.cpp:1158-1183 | order and stability determine the result |
| `Leases.MergeRefinesMap` | ClntOptions/ClntOptIA_NA.cpp:317-365 | the merge is an update of a map from address to lease: later addresses win, a zero lifetime removes a known address and ends the merge |
| `Leases.MergeBalanced` | ClntOptions/ClntOptIA_NA.cpp:317-365 | the merge changes list and interface alike, the early break included |
| `Leases.MergedIsSound` | ClntOptions/ClntOptIA_NA.cpp:366-386 | a merge keeps the addresses distinct and T1 at most T2 |
| `Leases.TimeLeftWraps` | AddrMgr/AddrAddr.cpp:96-128 | the end of a lifetime is computed modulo 2^64, and one that wraps counts as infinite |
| `Leases.ExpiredTags` | ClntAddrMgr/ClntAddrMgr.cpp:135-151 | expiry takes exactly the dead leases |
| `Leases.NothingExpires` | ClntTransMgr/ClntTransMgr.cpp:205-215 | while the shortest valid lifetime is not over, nothing expires |
| `LeaseDb.AddrIA.GetAddr` | AddrMgr/AddrIA.cpp:184-195 | finds the first entry of an address and leaves the cursor behind it |
| `LeaseDb.AddrIA.DelAddr` | AddrMgr/AddrIA.cpp:202-214 | erases the first entry of an address; the cursor restarts |
| `LeaseDb.AddrIA.GetValidTimeout` | AddrMgr/AddrIA.cpp:340-359 | the least time until a valid lifetime ends |
| `LeaseDb.AddrIA.GetMaxValidTimeout` | AddrMgr/AddrIA.cpp:320-338 | the greatest time until a valid lifetime ends, 0 without addresses |
| `LeaseDb.AddrIA.SetTimestamp` | AddrMgr/AddrIA.cpp:362-371 | stamps the IA and every address |
| `LeaseDb.AddrIA.Expire` | ClntAddrMgr/ClntAddrMgr.cpp:135-151 | the restarting loop terminates and deletes exactly the dead leases, because addresses are distinct |
| `LeaseDb.AddrIA.Merge` | ClntOptions/ClntOptIA_NA.cpp:236-388 | merges addresses, server, T1, T2, time stamps and state of a received IA |
| `TransMgr.NothingDead` | ClntTransMgr/ClntTransMgr.cpp:205-206 | `removeExpired` may return early: nothing is dead |
| `TransMgr.RemoveAllDead` | ClntTransMgr/ClntTransMgr.cpp:203-230 | exactly the dead addresses leave the interfaces |
| `TransMgr.ExpireAll` | ClntAddrMgr/ClntAddrMgr.cpp:130-152 | exactly the dead addresses leave the database |
| `TransMgr.DropAll` | ClntMessages/ClntMsgRebind.cpp:286-300 | the restarting loop of `releaseIA` takes every address off interface and database |
| `TransMgr.KeepLive` | ClntTransMgr/ClntTransMgr.cpp:317-322 | the restarting purge terminates and keeps exactly the messages not done, in order |
| `TransMgr.PickForRenew` | ClntTransMgr/ClntTransMgr.cpp:885-908 | marking the IAs while they are picked does not change which are picked |
| `TransMgr.PickExact` | ClntTransMgr/ClntTransMgr.cpp:885-908 | a RENEW takes the first IA that needs one and every other on its interface from its server, in order; none only if none needs one |
| `TransMgr.RenewStartedIff` | ClntTransMgr/ClntTransMgr.cpp:873-941 | a RENEW is started if and only if some IA needs one |
| `TransMgr.NothingToRenew` | ClntTransMgr/ClntTransMgr.cpp:875-877 | `checkRenew` may return early: no CONFIGURED IA has reached T1 |
| `TransMgr.EraseIA` | ClntMessages/ClntMsg.cpp:841-852 | a granted IA is taken off the request once |
| `TransMgr.NoneNewlyDue` | ClntTransMgr/ClntTransMgr.cpp:301-315 | what a message appends is not due in the same pass, so it does not matter whether the loop reaches it |
| `TransMgr.SleepBeforeAll` | ClntTransMgr/ClntTransMgr.cpp:581-618 | the timeout exceeds no deadline of an IA, message, interface or address detection, and fits 32 bits |
| `TransMgr.SleepIsDeadline` | ClntTransMgr/ClntTransMgr.cpp:581-618 | unless it is infinite, the timeout is one of these deadlines |
| `Manager.ClntTransMgr.SendRequest` | ClntTransMgr/ClntTransMgr.cpp:627-639 | the object changes as `Protocol.SendRequest` says; an appended message does not move a cursor at the end |
| `Manager.ClntTransMgr.SendRebind` | ClntTransMgr/ClntTransMgr.cpp:687-699 | as `Protocol.SendRebind` says |
| `Manager.ClntTransMgr.DoMessages` | ClntTransMgr/ClntTransMgr.cpp:301-315 | the loop terminates although messages are appended, and runs each message that was due once |
| `Manager.ClntTransMgr.CheckSolicit` | ClntTransMgr/ClntTransMgr.cpp:716-774 | as `Protocol.CheckSolicit` says |
| `Manager.ClntTransMgr.CheckRenew` | ClntTransMgr/ClntTransMgr.cpp:873-941 | as `Protocol.CheckRenew` says |
| `Manager.ClntTransMgr.DoDuties` | ClntTransMgr/ClntTransMgr.cpp:297-376 | one pass; during shutdown no new transactions, and done when none is left |
| `Manager.ClntTransMgr.GetTimeout` | ClntTransMgr/ClntTransMgr.cpp:581-618 | the sleep time; 0 when done |
| `Manager.ClntTransMgr.AnswerReply` | ClntMessages/ClntMsg.cpp:791-1080 | as `Protocol.AnswerReply` says |
| `Manager.ClntTransMgr.AnswerRenew` | ClntMessages/ClntMsgRenew.cpp:101-177 | as `Protocol.AnswerRenew` says |
| `Manager.ClntTransMgr.AnswerSolicit` | ClntMessages/ClntMsgSolicit.cpp:111-289 | as `Protocol.Answer` says for a SOLICIT |
| `Manager.ClntTransMgr.RelayMsg` | ClntTransMgr/ClntTransMgr.cpp:501-551 | as `Protocol.Deliver` says: the first transaction of that identifier answers, or nobody |
| `DHCPClient.PopulateAll` | ClntTransMgr/ClntTransMgr.cpp:93-105 | start-up gives every configured IA exactly one new IA in the database |
| `DHCPClient.StartIsSafe` | ClntTransMgr/ClntTransMgr.cpp:76-91 | a new client satisfies every invariant |
| `DHCPClient.RunLoop` | Misc/DHCPClient.cpp:139-181 | whatever is received, the object follows the run |
| `DHCPClient.RunIsSafe` | Misc/DHCPClient.cpp:139-181 | if every message is harmless and every received IA fits, ownership, agreement and distinct addresses hold at its end |
| `DHCPClient.SolicitedRunIsSafe` | Misc/DHCPClient.cpp:139-181 | so it is if servers grant only what they were asked for |
| `DHCPClient.LoopSleepIsShort` | Misc/DHCPClient.cpp:156-162 | the loop oversleeps no deadline, except that it waits one second for one that is due |
| `DHCPClient.LoopSleepIsDeadline` | Misc/DHCPClient.cpp:156-162 | it waits at least a second; for a deadline, or for ever; for one that is due exactly a second |
| `DHCPClient.ShutDown` | ClntTransMgr/ClntTransMgr.cpp:378-457 | whoever holds what: the interfaces keep exactly the addresses of the IAs passed over, and are clean if and only if every IA with addresses is CONFIGURED or INPROCESS |
| `DHCPClient.RunAndShutDown` | Misc/DHCPClient.cpp:139-181 | so it is at the end of every run in which every received IA fits and none without server is granted empty-handed; every IA released then knows its server |
| `Shutdown.DropIneligible` | ClntTransMgr/ClntTransMgr.cpp:392-398 | the restarting loop keeps exactly the IAs to release, in order |
| `Shutdown.TakeBatch` | ClntTransMgr/ClntTransMgr.cpp:401-433 | the restarting loop takes the first IA and exactly those of its server and interface, in order |
| `Shutdown.ReleaseAll` | ClntTransMgr/ClntTransMgr.cpp:378-457 | both loops terminate; the batches are `Batches`, and the interfaces lose exactly the addresses of the IAs released |
| `Shutdown.BatchesPartition` | ClntTransMgr/ClntTransMgr.cpp:401-457 | every IA to release is in exactly one batch |
| `Shutdown.BatchIsClass` | ClntTransMgr/ClntTransMgr.cpp:412-433 | a batch is all the IAs of one server on one interface, in the order of the database |
| `Shutdown.BatchesAreClasses` | ClntTransMgr/ClntTransMgr.cpp:412-433 | two IAs share a batch if and only if they share server DUID and interface |
| `Shutdown.Release` | ClntMessages/ClntMsgRelease.cpp:102-121 | a RELEASE takes the addresses of its IAs off the interface |
| `Shutdown.LeftBehind` | ClntTransMgr/ClntTransMgr.cpp:392-398 | the interfaces keep exactly the addresses of the IAs passed over |
| `Shutdown.CleanIff` | ClntTransMgr/ClntTransMgr.cpp:392-398 | they are clean if and only if no IA that was passed over had addresses |
| `Containers.Container.Get` | Misc/Container.h:46-52 | returns the element under the cursor and advances; at the end nothing |
| `Containers.Container.Del` | Misc/Container.h:39-43 | erases the element returned last and rewinds |
| `Containers.Container.Append` | Misc/Container.h:26-28 | appends; a cursor at the end stays at the end |
| `Containers.FilterRemoveAt` | Misc/Container.h:39-43 | deleting a rejected element leaves the filtered list as it was |
| `Address128.AtMost` | Misc/IPv6Addr.cpp:137-146 | octet-wise comparison is numeric order |
| `Address128.Add` | Misc/IPv6Addr.cpp:171-192 | addition modulo 2^128 |
| `Address128.Sub` | Misc/IPv6Addr.cpp:148-169 | subtraction modulo 2^128 |
| `Address128.Increment` | Misc/IPv6Addr.cpp:222-233 | increment modulo 2^128, in place |
| `Address128.Decrement` | Misc/IPv6Addr.cpp:200-218 | the in-place loop computes `RandomDecrement` for every sequence of drawn numbers |
| `Address128.DecrementStaysBelow` | Misc/IPv6Addr.cpp:200-218 | every result is reachable without borrowing from the first octet, hence at most the start |
| `Address128.EveryValueBelowIsReached` | Misc/IPv6Addr.cpp:200-218 | and every such value is drawn by some numbers |
| `HostRange.AddressRange.In` | CfgMgr/HostRange.cpp:42-53 | an endpoint or strictly between them |
| `HostRange.AddressRange.RandomAddr` | CfgMgr/HostRange.cpp:67-78 | for L at most R, the address lies in the pool, whatever is drawn |
| `HostRange.AddressRange.Count` | CfgMgr/HostRange.cpp:95-111 | the octet scan and the 32-bit expression compute `CountOf` of the endpoints' difference |
| `HostRange.CountIsSizeIff` | CfgMgr/HostRange.cpp:95-111 | that is the pool size, capped at 2^32-1, if and only if the difference is not in [2^31, 2^32) |
| `HostRange.CountOfFullWord` | CfgMgr/HostRange.cpp:105-110 | a pool of 2^32 addresses is counted as empty |
| `HostRange.DrawableIff` | Misc/IPv6Addr.cpp:200-218 | an offset can be drawn if and only if its first octet and the rest are each at most those of the difference |
| `HostRange.WholePoolDrawableIff` | CfgMgr/HostRange.cpp:67-78 | every address of the pool can be drawn if and only if the difference has a zero first octet or only 255s after it |
| `HostRange.OutOfReach` | Misc/IPv6Addr.cpp:200-218 | otherwise there is an address that cannot |
| `Addresses.AddressInjective` | Misc/IPv6Addr.cpp:21-35 | octets and the numbers in the lease database correspond one to one |
| `Addresses.LinkLocalIff` | Misc/IPv6Addr.cpp:53-58 | the database takes an address for link-local if and only if its octets start with fe 80 |
| `AddressBits.Truncate` | Misc/IPv6Addr.cpp:87-113 | clears exactly the bits outside the two limits |
| `AddressBits.PrefixAndHost` | Misc/IPv6Addr.cpp:37-51 | takes the first bits from the prefix and the others from the host |
| `AddressBits.SubPrefix` | ClntIfaceMgr/ClntIfaceMgr.cpp:519-547 | replaces exactly the eight bits after the prefix by the interface identifier modulo 256 |
| `AddressBits.ModifyPrefix` | ClntIfaceMgr/ClntIfaceMgr.cpp:416-584 | the loop over the interfaces sets each one's sub-prefix and counts those set |
| `AddressBits.SubPrefixInsideDelegated` | ClntIfaceMgr/ClntIfaceMgr.cpp:519-547 | every sub-prefix lies inside the delegated prefix |
| `AddressBits.SubPrefixesDisjointIff` | ClntIfaceMgr/ClntIfaceMgr.cpp:519-547 | two sub-prefixes are disjoint if and only if the identifiers differ modulo 256 |
| `Wire.StoreSelf` | Messages/Msg.cpp:130-165 | writes header and options |
| `Wire.HeaderLayout` | Messages/Msg.cpp:150-158 | the type is the first octet, the identifier the next three, most significant first |
| `Wire.EncodeLayout` | Messages/Msg.cpp:159-165 | an option is its code and length in two octets each, most significant first, and its payload |
| `Wire.ParseOptions` | ClntMessages/ClntMsg.cpp:105-245 | terminates on every buffer, visits exactly the options whose payload lies inside it, and keeps the accepted ones in order |
| `Wire.WalkedIsWalk` | ClntMessages/ClntMsg.cpp:105-245 | the options visited, encoded, and what the walk leaves make up the buffer; it stops where no header or payload fits |
| `Wire.WalkUnique` | ClntMessages/ClntMsg.cpp:105-245 | a buffer has only one reading as a sequence of options |
| `Wire.ClntMsg.constructor` | ClntMessages/ClntMsg.cpp:95-260 | what a received buffer becomes |
| `Wire.StoredIsReceived` | Messages/Msg.cpp:150-165 | a stored message is received with the same options; type and transaction identifier survive if and only if they fit 8 and 24 bits |
| `Wire.HeaderRoundTrip` | Messages/Msg.cpp:25-35 | the header alone |
| `Duid.DUID.PackedToPlain` | Misc/DUID.cpp:47-55 | prints each octet as two hexadecimal digits, with colons between octets |
| `Duid.PlainLayout` | Misc/DUID.cpp:47-55 | each octet is two digits, the higher first, with a colon between octets |
| `Duid.CaseIsIgnored` | Misc/DUID.cpp:67-71 | letters are read alike in both cases |
| `Duid.DUID.PlainToPacked` | Misc/DUID.cpp:57-87 | reads any string into a buffer of half its length, whatever the buffer held before: the octets of its digits, if and only if these have room |
| `Duid.FitsHalfBufferIff` | Misc/DUID.cpp:57-87 | the digits of a text fit that buffer if and only if its length is even or it has a colon before its last character |
| `Duid.OddTextOverruns` | Misc/DUID.cpp:57-87 | "012" is a text whose digits do not |
| `Duid.RoundTrip` | Misc/DUID.cpp:47-87 | for every octet string, reading what was printed gives the same octets, within the half-length buffer |
| `Duid.Reparse` | Misc/DUID.cpp:47-87 | the objects do so, too |
| `Resolvers.RemoveStale` | ClntIfaceMgr/ClntIfaceIface.cpp:65-85 | the restarting loop keeps exactly the received addresses, in order, with one call per deletion |
| `Resolvers.AddMissing` | ClntIfaceMgr/ClntIfaceIface.cpp:88-110 | appends each missing address where it occurs first |
| `Resolvers.SetDNSServerLst` | ClntIfaceMgr/ClntIfaceIface.cpp:61-114 | the resulting list and the calls, in order |
| `Resolvers.ReconciledIsReceived` | ClntIfaceMgr/ClntIfaceIface.cpp:61-114 | the list ends equal to the received one as a set; it is free of duplicates if and only if what stayed was |
| `Resolvers.CallsAreExact` | ClntIfaceMgr/ClntIfaceIface.cpp:61-114 | one delete for each address that goes, one add for each that comes, no other call |
| `Resolvers.RemoveForbidden` | ClntMessages/ClntMsgInfRequest.cpp:80-111 | the restarting loop removes exactly the options of forbidden types |
| `Resolvers.DelOption` | Messages/Msg.cpp:523-534 | erases the first option of a type and rewinds |

## Left out

- Prefix delegation, temporary addresses, CONFIRM, DECLINE and link-change steps, INFORMATION-REQUEST transactions: not part of the transactions modelled.
- The IA objects inside `ClntTransMgr`: the manager keeps them by value in a map and loads `AddrIA` objects from it, so sharing of an IA object between database and message is not captured.
- Interfaces that cannot be found: every interface and configuration entry that the code looks up is there.
- Messages without a server identifier or failing `check`: they are ignored by the code and are not messages of the model.
- The filter for disallowed options when a message is sent: it skips elements after an erasure and does not concern IAs.
- `copyAddrsFromAdvertise`: the addresses proposed in a REQUEST do not influence the client's state.
- IA options whose own octets are malformed: the code discards them while parsing, so they are not received IAs of the model.
- Insist mode and the option request option: the model accepts the answers that the default mode accepts.
- The floating-point evaluation of timeouts and of the default T2 (70% of a lifetime): exact numbers, rounded as the casts round them.
- The repeated transmission of a RELEASE: `shutdown` clears all transactions in the same second, so each is sent once.
- Start from a stored database: `DHCPClient.StartIsSafe` is about an empty one; the run theorems need only the invariants.
- Duid.DUID.PlainToPacked: for a text whose digits have no room (`Duid.FitsHalfBufferIff`) the model stops at the first of them, where the code writes behind the end of the buffer.
- Failover.IgnoredWaits: follows one RENEW and its REBIND by themselves; over passes, with the instants, see `Deadlines.UnansweredRenewal`.
- Failover.IgnoredReleases: the same by itself; over passes see `Deadlines.RebindEndsExactly` and, for late passes too, `SilentRefresh.RefreshedIsReleased`.
- Failover.ChainAsksAll: follows one REQUEST by itself; over passes see `SilentRuns.SilenceAsksAll` and `Punctuality.DiscoveredInTime`.
- Failover.ChainGivesBack: the same by itself; over passes see `SilentRuns.RequestedIsDiscovered`.
- Deadlines.RenewEndsExactly: a pass that comes after the RENEW was due puts the end off; then only `Deadlines.PassWaits` and `SilentRefresh.RefreshesEnd` apply.
- AgreementRuns.DeliverAgreesIff: at the end of a message that withdraws addresses and holds several IAs, agreement is only implied (`AgreementRuns.LaterOptionUndoes` shows why it is not equivalent).
- Authentication, DNS update, notification scripts, sockets, parsers of the configuration.
