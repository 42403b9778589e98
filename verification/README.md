# A verified model of hla4-rs

hla4-rs is a run-time infrastructure (RTI) for the High Level Architecture: a server that lets
simulations ("federates") share object instances and interactions and advance logical time
together (IEEE 1516.1), under an object model merged from modules (IEEE 1516.2), over the FedPro
protocol.  This project models its logic in Dafny and proves what the parts promise together.

| file | concern |
|---|---|
| `LogicalTime`, `TimeModel` | stamps, federates, the time bound (LBTS), every time service as a step |
| `Cascade` | the grant cascade: termination, monotonicity, least settled outcome, confluence |
| `Safety` | conservative safety, with the exact condition for every service and every run |
| `History`, `Arrivals`, `TsoOrder` | what every run keeps: requests and grants, conservation, arrival and timestamp order |
| `TimeEffects` | what each time service achieves: deliveries, outcomes of requests, roles, clocks |
| `TimeManager` | the handlers as they run, proved equal to the steps |
| `TimeWitnesses` | runs in which safety or order is lost |
| `FomMerge`, `FomHandles`, `FomTables`, `FomInheritance`, `FomTrees` | merging, numbering, walking and flattening an object model |
| `Wire`, `SequenceNumbers` | the incremental frame codec and the lock-free sequence counter |
| `Subscriptions`, `Declarations` | the subscription matrix with its reverse index, the declaration services, recipients |
| `Objects`, `ObjectEffects`, `ObjectManager` | discover, reflect, remove; snapshot and restore by name |
| `Regions`, `RegionMatching` | region overlap, staging and commit; who receives an update that carries regions |
| `Barriers`, `SyncPoints` | save and restore; synchronization points |
| `AutoNames`, `Sessions`, `SessionTables`, `SessionEffects`, `SessionWitnesses` | join, resign, suspend, resume, expiry, destruction, lock scope by lock scope |
| `Options`, `Sequences`, `LastWords` | shared vocabulary |

Specifications are functions on values (`Step`, `Run`, `Cascade`, `Merge`, ...).  Where the source
updates state in place there is a class whose methods, loops and recursion included, are proved
equal to those functions.  Fields that exist only to state properties (`sent`, `asked`, `routed`,
`log`, `attempts`, `taken`, ...) are marked as history where they are declared.

Time arithmetic is a parameter: any addition that is monotone and never decreases its left operand.
This covers rounding and overflow to infinity of 64-bit floats.  Stamps include NaN and both
infinities.

What a whole run promises is stated as an equivalence wherever the code promises it only under a
condition.  Where code and comments differ, the model follows the code:

- Only the first round of a cascade is preceded by a delivery of due messages, and enabling or
  disabling regulation delivers none.  `TsoOrder.StepOverdue` has the exact condition,
  `TimeWitnesses.CascadedGrantPassesMessage` a failing run, and
  `TsoOrder.DisciplinedRunOrdered` the discipline under which the promise holds throughout.
- The bound includes the requester's own contribution, and a NaN stamp passes the lookahead check
  and is delivered at once.
- Enabling a role or lowering lookahead can put a constrained federate beyond the bound; the
  conditions are in `Safety.StepSafe`, failing runs in `TimeWitnesses`.
- A class-wide unsubscription removes every federate's matrix entries (`Declarations.StepInStep`,
  `Declarations.LosesAnothersSubscription`).
- A lone class definition may contradict itself, and differences in an interaction's order and
  transportation go unnoticed (`FomMerge.LoneDuplicateAccepted`, `FomMerge.CarriageDependsOnOrder`,
  `FomMerge.SemanticsDependsOnOrder`).
- A federate named `<unknown>` adopts instances whose registrar had left (`Objects.OrphansDropped`).
- Region matching looks only at entries made at the instance's own class, and an updated attribute
  without regions reaches subscribers of any other updated attribute (`RegionMatching.RespectedIff`,
  `RegionMatching.AncestorRegionsIgnored`).  A refused commit has committed the regions listed before
  the one it stopped at (`Regions.CommitMeaning`).
- A save's label is read back after its lock is released (`Barriers.RunOwnLabels`), and an operation
  waits for participants that have resigned (`Barriers.StuckUntilAbort`).
- A resume after the deadline, or one whose status frame cannot be written, strands its federate
  (`Sessions.OrphanForever`); automatic names are not checked (`Sessions.UninterruptedJoin`); a
  closing connection may take a resumed session's table entry with it (`Sessions.StepConnected`).
  `SessionWitnesses` has a run for each.

## Model

| member | source | states |
|---|---|---|
| `TimeModel.LbtsExists` | crates/hla-rti/src/time.rs:28-35 | the bound (least time plus lookahead over the regulators, +infinity without any) exists for every federation |
| `TimeModel.LbtsUnique` | crates/hla-rti/src/time.rs:28-35 | and is unique, so the fold may take the regulators in any order |
| `TimeModel.PendingFalls` | crates/hla-rti/src/time.rs:65-107 | granting takes exactly the granted out of the pending set, so every round that grants someone shrinks it: the recursion ends |
| `Cascades.CascadeSettles` | crates/hla-rti/src/time.rs:44-108 | the bound never falls during the cascade, and at its end no pending advance is grantable under the final bound |
| `Cascades.CascadeIsLeast` | crates/hla-rti/src/time.rs:44-108 | the cascade grants nobody that some settled outcome leaves waiting |
| `Cascades.OrderDoesNotMatter` | crates/hla-rti/src/time.rs:44-108 | confluence: granting eligible federates one at a time, in any order, until none is left ends in exactly the cascade's state |
| `Cascades.EveryOrderCompletes` | crates/hla-rti/src/time.rs:44-108 | no choice of single grants is a dead end: each extends to the cascade's outcome |
| `Safety.SafeMeansNoPastUpdates` | crates/hla-rti/src/dispatch/data_flow.rs:218-232 | every constrained federate is at or below the bound if and only if no update accepted from a regulator, at any stamp, is stamped in a constrained federate's past |
| `Safety.CascadeSafeBut` | crates/hla-rti/src/time.rs:44-108 | with one regulator possibly behind, the cascade ends safe exactly when every constrained federate was at or below what that regulator ends up contributing |
| `Safety.StepSafe` | crates/hla-rti/src/dispatch/time_mgmt.rs:10-264 | for every handler, join and resign: a safe federation is safe afterwards if and only if the handler's side condition, read off the state before the call, held; advancing, leaving, sending and giving up a role have none |
| `Safety.EnableRegulationSafe` | crates/hla-rti/src/dispatch/time_mgmt.rs:10-51 | enabling regulation, with the grants that follow, keeps safety if and only if no constrained federate is beyond the lookahead counted from the new regulator's pending advance, where only other regulators can hold that back, or else from its present time |
| `Safety.ModifyLookaheadSafe` | crates/hla-rti/src/dispatch/time_mgmt.rs:240-264 | changing lookahead keeps safety exactly when no constrained federate is beyond time plus the new lookahead |
| `Safety.RaisedLookaheadSafe` | crates/hla-rti/src/dispatch/time_mgmt.rs:240-264 | raising lookahead always meets that condition |
| `Safety.EnableConstrainedSafe` | crates/hla-rti/src/dispatch/time_mgmt.rs:77-101 | becoming constrained keeps safety exactly when the federate's time is at or below the bound |
| `Safety.AdvanceRequestSafe` | crates/hla-rti/src/dispatch/time_mgmt.rs:120-186 | an advance with its whole cascade keeps safety |
| `Safety.DisableRegulationSafe` | crates/hla-rti/src/dispatch/time_mgmt.rs:53-75 | so does giving up regulation, with the grants that follow |
| `Safety.RunSafe` | crates/hla-rti/src/dispatch/time_mgmt.rs:10-264 | over every run: all states are safe if and only if every event met its condition when it came |
| `History.CutIsExact` | crates/hla-rti/src/dispatch/data_flow.rs:306-331 | a drain takes exactly the messages stamped at most the bound |
| `History.InsertSorted` | crates/hla-rti/src/dispatch/data_flow.rs:287-301 | insertion keeps the queue sorted and adds exactly the message |
| `History.StepKept` | crates/hla-rti/src/dispatch/time_mgmt.rs:10-264 | every handler keeps: sorted queues without NaN, pending at or above now, requests = grants then at most one pending, routed = delivered plus queued as multisets, grants rising |
| `History.StepForward` | crates/hla-rti/src/dispatch/time_mgmt.rs:139-185 | no handler takes a federate back in time |
| `History.RunKept` | crates/hla-rti/src/dispatch/time_mgmt.rs:10-264 | the invariant of StepKept over every run of every handler |
| `Arrivals.RunFifo` | crates/hla-rti/src/dispatch/data_flow.rs:287-331 | over every run, with no condition on it: messages of one stamp wait in a queue in the order they were routed |
| `Arrivals.InsertArrival` | crates/hla-rti/src/dispatch/data_flow.rs:287-301 | a message is queued behind all messages of its stamp: equal stamps keep arrival order |
| `TsoOrder.UndrainedGrant` | crates/hla-rti/src/time.rs:73-92 | a grant without a drain leaves nothing overdue exactly when nothing was due |
| `TsoOrder.DrainAndCascadeAt` | crates/hla-rti/src/dispatch/time_mgmt.rs:190-223 | what the grant wrapper does to each federate: drained and granted in the first round, granted undrained in a later one, or untouched |
| `TsoOrder.StepOverdue` | crates/hla-rti/src/dispatch/time_mgmt.rs:10-264 | for every handler: a constrained federate ends with nothing overdue in its queue if and only if nothing was due for it at an undrained grant |
| `TsoOrder.StepOrdered` | crates/hla-rti/src/dispatch/time_mgmt.rs:120-223 | under that condition, in a safe federation, checked messages and grants stay in timestamp order, each grant comes after every message routed so far with a stamp up to and including its time, first in first out per stamp |
| `TsoOrder.RunOrdered` | crates/hla-rti/src/dispatch/time_mgmt.rs:120-223 | over every run: the federation stays safe and grants and checked messages reach the federate in timestamp order, each grant after everything routed so far that is due by it, if and only if every event met its conditions |
| `Arrivals.DueComesFirst` | crates/hla-rti/src/dispatch/time_mgmt.rs:158-177 | read at one grant: a message routed before it and stamped at most its time, that time included, is among the deliveries before it |
| `TsoOrder.DisjointOneRound` | crates/hla-rti/src/time.rs:94-107 | with disjoint roles a round of grants does not move the bound, so the cascade has one round |
| `TsoOrder.DisciplinedRunOrdered` | crates/hla-rti/src/dispatch/time_mgmt.rs:120-223 | fixed, disjoint roles and no lowered lookahead are enough: timestamp-order delivery over every such run |
| `TsoOrder.OverdueBreaksOrder` | crates/hla-rti/src/dispatch/data_flow.rs:306-331 | once a grant has passed a queued message, delivering it later breaks the order |
| `TimeEffects.MessageReaches` | crates/hla-rti/src/dispatch/data_flow.rs:255-302 | an accepted timed service reaches every joined addressee but its producer: queued, and nothing told, if the addressee is constrained and behind the stamp, told at once with the queue untouched otherwise; nobody else notices |
| `TimeEffects.RunDelivers` | crates/hla-rti/src/dispatch/data_flow.rs:255-331 | over every run: the messages that accepted calls addressed to a joined federate since it joined, read off the events, are as a multiset those delivered to it and those in its queue |
| `TimeEffects.AdvanceAccepted` | crates/hla-rti/src/dispatch/time_mgmt.rs:120-156 | a request is accepted if and only if it is a finite time, not in the past, of a member all of whose earlier requests have been granted |
| `TimeEffects.AdvanceOutcome` | crates/hla-rti/src/dispatch/time_mgmt.rs:139-223 | an accepted request is granted, and the caller told so last of all, if and only if the caller is unconstrained or the bound after the whole cascade has reached the time; otherwise it waits and nothing is told |
| `TimeEffects.SpotGrant` | crates/hla-rti/src/dispatch/time_mgmt.rs:158-177 | an unconstrained caller is granted on the spot, after everything queued up to the time, and nothing beyond it, has been delivered in queue order |
| `TimeEffects.ServicesAccepted` | crates/hla-rti/src/dispatch/time_mgmt.rs:10-118 | when exactly every other time service is accepted; on account of its stamp a timed update is refused only to a regulator below its own time plus lookahead |
| `TimeEffects.RunRoles` | crates/hla-rti/src/dispatch/time_mgmt.rs:10-118 | over every run: a federate is regulating, or constrained, if and only if its last word on that was an accepted enabling |
| `TimeEffects.StepRoles` | crates/hla-rti/src/dispatch/time_mgmt.rs:240-264 | roles and lookahead change by accepted calls of their own services, to the values given, and by nothing else |
| `TimeEffects.FreedAdvances` | crates/hla-rti/src/dispatch/time_mgmt.rs:103-118 | giving up the constrained role counts at once: the next request is granted on the spot, wherever the bound is |
| `TimeEffects.FreedWaiterGranted` | crates/hla-rti/src/dispatch/time_mgmt.rs:103-118 | a request left waiting by that is granted with the next request of anyone |
| `TimeEffects.ResignedUnbinds` | crates/hla-rti/src/dispatch/federation_mgmt.rs:157-168 | who resigns is gone, nobody else changes, and the bound is the least contribution of the regulators who stay |
| `TimeEffects.RunClocked` | crates/hla-rti/src/time.rs:73-92 | over every run: a federate's time is what it was granted last, or zero before its first grant |
| `TimeEffects.RoleAnnounced` | crates/hla-rti/src/dispatch/time_mgmt.rs:10-101 | taking a role is announced to the caller with its time, ahead of any grant that follows |
| `TimeWitnesses.CascadedGrantPassesMessage` | crates/hla-rti/src/dispatch/time_mgmt.rs:204-222 | the general promise fails: a run from the empty federation, safe and in order until its last event, whose last event lets a second-round grant pass a queued message |
| `TimeWitnesses.LoweringLosesSafety` | crates/hla-rti/src/dispatch/time_mgmt.rs:240-264 | a run from the empty federation in which lowering lookahead loses safety |
| `TimeWitnesses.RegulatingLosesSafety` | crates/hla-rti/src/dispatch/time_mgmt.rs:10-51 | one in which enabling regulation does |
| `TimeWitnesses.ConstrainingLosesSafety` | crates/hla-rti/src/dispatch/time_mgmt.rs:77-101 | one in which becoming constrained does |
| `TimeManagers.TimeManager.ComputeLbts` | crates/hla-rti/src/time.rs:28-35 | the min-fold computes the bound |
| `TimeManagers.TimeManager.Eligible` | crates/hla-rti/src/time.rs:49-66 | the read pass collects exactly the grantable federates and their times |
| `TimeManagers.TimeManager.ApplyGrants` | crates/hla-rti/src/time.rs:72-92 | the write pass grants exactly those |
| `TimeManagers.TimeManager.TryGrantPendingAdvances` | crates/hla-rti/src/time.rs:44-108 | the two passes and the recursive call compute the cascade |
| `TimeManagers.TimeManager.DrainTsoUpTo` | crates/hla-rti/src/dispatch/data_flow.rs:306-331 | delivers the due prefix of one queue and keeps the rest |
| `TimeManagers.TimeManager.TryGrantPendingAdvancesWithTso` | crates/hla-rti/src/dispatch/time_mgmt.rs:190-223 | drains for the first bound only, then cascades |
| `TimeManagers.TimeManager.RouteTsoOrImmediate` | crates/hla-rti/src/dispatch/data_flow.rs:258-302 | holds a message exactly for constrained recipients it is in the future of, delivers it to the others at once |
| `TimeManagers.TimeManager.EnableTimeRegulation` | crates/hla-rti/src/dispatch/time_mgmt.rs:10-51 | new state or exception of enabling regulation, with its grants |
| `TimeManagers.TimeManager.DisableTimeRegulation` | crates/hla-rti/src/dispatch/time_mgmt.rs:53-75 | new state or exception of disabling regulation, with its grants |
| `TimeManagers.TimeManager.EnableTimeConstrained` | crates/hla-rti/src/dispatch/time_mgmt.rs:77-101 | new state or exception; keeps the history invariant, and keeps safety exactly when the caller is at or below the bound |
| `TimeManagers.TimeManager.DisableTimeConstrained` | crates/hla-rti/src/dispatch/time_mgmt.rs:103-118 | new state or exception; keeps the history invariant and safety, and leaves everyone who waits waiting |
| `TimeManagers.TimeManager.ChangeLookahead` | crates/hla-rti/src/dispatch/time_mgmt.rs:240-264 | new state or exception; keeps the history invariant, leaves everyone who waits waiting, and keeps safety exactly when no constrained federate is beyond time plus the new lookahead |
| `TimeManagers.TimeManager.TimeAdvanceRequest` | crates/hla-rti/src/dispatch/time_mgmt.rs:120-186 | new state or exception of an advance request, in the order of the source's checks |
| `TimeManagers.TimeManager.UpdateAttributeValuesWithTime` | crates/hla-rti/src/dispatch/data_flow.rs:173-253 | the lookahead check of a regulating producer, then routing |
| `FomMerge.MergeMembersMeaning` | crates/hla-omt/src/merge.rs:135-152 | folding attributes in succeeds exactly when each is new or equal to its namesake, and loses and invents nothing |
| `FomMerge.MergeMeaning` | crates/hla-omt/src/merge.rs:24-38 | merging succeeds if and only if the definitions fit, and then holds per class exactly the union of their members, the first semantics text given and the first definition's carriage |
| `FomMerge.AcceptedIffAgree` | crates/hla-omt/src/merge.rs:110-152 | for modules listing a member once per definition: success if and only if all definitions of a class agree pairwise on parent and members |
| `FomMerge.MergeOrderIndependent` | crates/hla-omt/src/merge.rs:24-38 | acceptance, classes, parents and member sets depend neither on order nor on repetition of definitions |
| `FomMerge.MergeTwice` | crates/hla-omt/src/merge.rs:24-38 | merging a list with itself changes no table and no order |
| `FomMerge.LoneDuplicateAccepted` | crates/hla-omt/src/merge.rs:126-131 | a single definition with two different members of one name is accepted |
| `FomMerge.CarriageDependsOnOrder` | crates/hla-omt/src/merge.rs:154-177 | order and transportation of an interaction class are those of its first definition; over all arrangements of the same definitions they come out the same if and only if all definitions of the class agree on them |
| `FomMerge.SemanticsDependsOnOrder` | crates/hla-omt/src/merge.rs:110-133 | likewise for the semantics text, which is the first one given |
| `FomMerge.MergeMemberInto` | crates/hla-omt/src/merge.rs:135-152 | the search-and-compare step computes the member merge |
| `FomMerge.MergeClassInto` | crates/hla-omt/src/merge.rs:110-133 | the parent check and the member loop compute the class merge |
| `FomMerge.MergeModuleInto` | crates/hla-omt/src/merge.rs:29-38 | one module on top of what was merged before |
| `FomMerge.MergeModules` | crates/hla-omt/src/merge.rs:24-38 | the nested loop with its early return computes the merge of all definitions in order |
| `FomHandles.MergeIsProper` | crates/hla-omt/src/merge.rs:24-38 | a merge lists every class once, under its own name |
| `FomHandles.OneChain` | crates/hla-omt/src/merge.rs:48-67 | a class has one parent chain to a root at most |
| `FomHandles.WalkVisits` | crates/hla-omt/src/merge.rs:198-235 | the depth-first walk, which ends for all parents including orphans and cycles, visits exactly the classes whose parent chain reaches a root |
| `FomHandles.WalkInOrder` | crates/hla-omt/src/merge.rs:198-235 | each once, parents before children |
| `FomTables.NumberMembersMeaning` | crates/hla-omt/src/merge.rs:218-229 | members of a class get fresh handles, distinct from all others |
| `FomTables.AssignMeaning` | crates/hla-omt/src/merge.rs:198-235 | handles 1 to n go one-to-one to exactly the rooted classes, tables are mutually inverse, member handles globally distinct, parent handles lower |
| `FomTables.BuildChildren` | crates/hla-omt/src/merge.rs:48-53 | the children table lists the children of each parent in module order |
| `FomTables.AssignBelow` | crates/hla-omt/src/merge.rs:198-235 | the recursive numbering gives the tables of the walk |
| `FomTables.MergeAndAssign` | crates/hla-omt/src/merge.rs:24-67 | merge and numbering together |
| `FomInheritance.InheritanceIter.Next` | crates/hla-omt/src/lib.rs:268-281 | yields the head of the remaining chain and leaves its tail |
| `FomInheritance.InheritanceChain` | crates/hla-omt/src/lib.rs:249-281 | collecting the iterator ends and gives the class and its ancestors |
| `FomInheritance.ChainIsParentChain` | crates/hla-omt/src/lib.rs:253-281 | on every merged FOM that is the whole parent chain up to the root |
| `FomInheritance.ChainMeaning` | crates/hla-omt/src/lib.rs:253-281 | a handle is yielded if and only if its class is the start or an ancestor of it |
| `FomTrees.FlattenHangs` | crates/hla-omt/src/xml.rs:159-210 | flattening a class tree gives every class a parent in the list, with a shorter name, or the given parent |
| `FomTrees.FlattenMeaning` | crates/hla-omt/src/xml.rs:159-210 | the list has as many entries as the trees have classes; the class at each place of a tree is at its preorder position, named by the dotted names on the way to it, with the way without it as parent, and with its own members |
| `FomTrees.PositionsDiffer` | crates/hla-omt/src/xml.rs:206-208 | different places have different positions |
| `FomTrees.PlaceOf` | crates/hla-omt/src/xml.rs:206-208 | and every position is that of a place |
| `FomTrees.FlattenInto` | crates/hla-omt/src/xml.rs:166-210 | the recursive push computes the flattened list |
| `FomTrees.TreesAllNumbered` | crates/hla-omt/src/merge.rs:48-67 | on modules made of class trees that merge, a name has a handle if and only if it is the dotted path of names of a class somewhere in the trees: no class is left without one |
| `Wire.U32RoundTrip` | crates/hla-wire/src/framing.rs:167-199 | 32-bit words round-trip |
| `Wire.GetBigEndian` | crates/hla-wire/src/framing.rs:181-192 | what is read is the value of the bytes with the most significant first, as two's complement where signed, for 4 and 8 bytes |
| `Wire.HeaderLayout` | crates/hla-wire/src/framing.rs:166-173 | where each field of an encoded header lies and the big-endian number its bytes denote |
| `Wire.I32Reverse` | crates/hla-wire/src/framing.rs:167-199 | and so do two's-complement words, from the bytes' side |
| `Wire.U64Reverse` | crates/hla-wire/src/framing.rs:167-199 | and 64-bit words |
| `Wire.FromCode` | crates/hla-wire/src/framing.rs:87-124 | a code is recognised if and only if it is some message type's |
| `Wire.CodesOnTheWire` | crates/hla-wire/src/framing.rs:87-124 | the twelve numbers on the wire; control messages are exactly those below 20 |
| `Wire.HeaderRoundTrip` | crates/hla-wire/src/framing.rs:166-199 | decoding an encoded header gives it back, except that a size below the header's own is refused |
| `Wire.HeaderReverse` | crates/hla-wire/src/framing.rs:166-199 | encoding a decoded header gives its bytes back |
| `Wire.DecodeExact` | crates/hla-wire/src/codec.rs:54-105 | the decoder yields a frame if and only if the buffer starts with that well-sized frame's encoding, and leaves exactly the rest |
| `Wire.DecodeVerdicts` | crates/hla-wire/src/codec.rs:54-92 | everything the decoder says short of a frame, by the big-endian number in the first four bytes: when exactly it waits, when a size is refused as below 24 or above 32 MiB, and that a complete packet is refused only for its type |
| `Wire.DecodeStable` | crates/hla-wire/src/codec.rs:54-92 | bytes arriving later change no frame and no error already decided |
| `Wire.ChunkingDoesNotMatter` | crates/hla-wire/src/codec.rs:54-92 | a byte stream in any chunking gives the frames, the leftover and the terminal error of the stream fed whole |
| `Wire.StreamRoundTrip` | crates/hla-wire/src/codec.rs:54-105 | decoding the concatenated encodings of any well-sized frames returns exactly them, with what follows left over |
| `Wire.StreamReverse` | crates/hla-wire/src/codec.rs:54-105 | frames read without error re-encode to exactly the bytes consumed |
| `Wire.DecodeFrom` | crates/hla-wire/src/codec.rs:54-92 | the decoder on a buffer: what it returns and what it consumes, in every case |
| `Wire.EncodeInto` | crates/hla-wire/src/codec.rs:98-105 | appends the encoding; a reader of a buffer of whole frames then gets those frames and this one, with nothing left over |
| `Wire.ReadFrames` | crates/hla-wire/src/codec.rs:54-92 | repeated decoding gives the frames and the error of the stream |
| `SequenceNumbers.ClaimsInSequence` | crates/hla-wire/src/framing.rs:49-72 | under any interleaving of load and compare-and-swap steps of any threads, successful claims are the counter's first, second, ... values |
| `SequenceNumbers.NeverReserved` | crates/hla-wire/src/framing.rs:49-72 | the reserved number is never claimed, whatever the counter held |
| `SequenceNumbers.NthModulo` | crates/hla-wire/src/framing.rs:49-72 | from a valid counter, claims count up modulo 2^31 |
| `SequenceNumbers.AllValidIff` | crates/hla-wire/src/framing.rs:49-72 | all claims are non-negative if and only if the counter started non-negative or at the reserved number |
| `SequenceNumbers.NoRepeats` | crates/hla-wire/src/framing.rs:49-72 | no number repeats within 2^31 consecutive claims, in any interleaving |
| `Subscriptions.DropMeaning` | crates/hla-rti/src/lib.rs:158-193 | removing one count lowers exactly that count, never below zero, and leaves no zero and no empty entry |
| `Subscriptions.SubscriptionMatrix.constructor` | crates/hla-rti/src/lib.rs:121-131 | an empty matrix |
| `Subscriptions.SubscriptionMatrix.SubscribeAttribute` | crates/hla-rti/src/lib.rs:135-154 | adds exactly the subscription, keeps the reverse index equal to the attribute counts, and answers true exactly for the first at the class |
| `Subscriptions.SubscriptionMatrix.UnsubscribeAttribute` | crates/hla-rti/src/lib.rs:156-193 | removes exactly the subscription, keeps the index, and answers true exactly for the last at the class |
| `Subscriptions.SubscriptionMatrix.RemoveClass` | crates/hla-rti/src/lib.rs:195-200 | removes every subscription at the class and keeps the index |
| `Subscriptions.SubscriptionMatrix.ClassHasSubscribers` | crates/hla-rti/src/lib.rs:202-205 | the fast test equals a scan of the matrix |
| `Subscriptions.SubscriptionMatrix.SubscribersOfClass` | crates/hla-rti/src/lib.rs:207-217 | so does the list of subscribers |
| `Declarations.StepInStep` | crates/hla-rti/src/dispatch/declaration.rs:87-138 | own lists and matrix stay equal for joined federates if and only if the step is not a class-wide unsubscription while another joined federate is subscribed there |
| `Declarations.RunInStep` | crates/hla-rti/src/dispatch/mod.rs:1150-1177 | the same over every run |
| `Declarations.RunSubscriptions` | crates/hla-rti/src/dispatch/declaration.rs:87-300 | over every run: a pair is in a federate's own list, and an entry in the matrix, if and only if the last word on it was a subscription, so each call adds and takes exactly the pairs it names |
| `Declarations.LosesAnothersSubscription` | crates/hla-rti/src/dispatch/mod.rs:1150-1177 | a run in which one federate's class-wide unsubscription leaves another's own list without its matrix entries |
| `Declarations.Declaring.SubscribeObjectClassAttributes` | crates/hla-rti/src/dispatch/declaration.rs:87-138 | new own list and matrix; advises exactly when the class gets its first subscriber |
| `Declarations.Declaring.UnsubscribeObjectClassAttributes` | crates/hla-rti/src/dispatch/declaration.rs:254-300 | new own list and matrix; advises exactly when the class loses its last subscriber |
| `Declarations.Declaring.UnsubscribeObjectClass` | crates/hla-rti/src/dispatch/mod.rs:1150-1177 | drops the caller's list and everyone's matrix entries at the class |
| `Declarations.SubscribersForAttributes` | crates/hla-rti/src/routing.rs:30-50 | the three nested loops compute the recipient set |
| `Declarations.RecipientsMeaning` | crates/hla-rti/src/routing.rs:30-50 | on a merged FOM: exactly those, other than the excluded, subscribed to one of the attributes at the class or an ancestor by name |
| `Declarations.SubscribersForInteraction` | crates/hla-rti/src/routing.rs:54-76 | the parent loop ends and collects the subscribers of every class it looks at, its start included even if unknown |
| `Declarations.InteractionRecipientsMeaning` | crates/hla-rti/src/routing.rs:54-76 | on a merged FOM: exactly those subscribed at the class or an ancestor by name |
| `Objects.KnownMeaning` | crates/hla-rti/src/dispatch/data_flow.rs:140-160 | an instance is known if and only if the last discover, remove or local delete about it was a discover |
| `Objects.StepSound` | crates/hla-rti/src/dispatch/data_flow.rs:46-171 | every service keeps: discovered set = what the notices amount to, no second discover in between, reflects and removes only of known instances, live and discovered ids below the counter |
| `Objects.RunSound` | crates/hla-rti/src/dispatch/data_flow.rs:485-538 | the same over every run of join, resign, register, update, delete, local delete and restore |
| `Objects.RunDiscovered` | crates/hla-rti/src/dispatch/data_flow.rs:129-171 | at any point of any run, an instance is in a discovered set if and only if its last discover, remove or local delete was a discover, and no notice came out of turn |
| `Objects.RegistrationTold` | crates/hla-rti/src/dispatch/object_mgmt.rs:38-151 | at any point of any run, an accepted registration is news to every federate it is meant for: each of them is told of it once, and nobody else is |
| `ObjectEffects.RegistrationStands` | crates/hla-rti/src/dispatch/object_mgmt.rs:10-100 | an accepted registration adds one instance under a new id, registered and owned by the caller for exactly what it publishes |
| `ObjectEffects.RegisteredIsHeard` | crates/hla-rti/src/dispatch/data_flow.rs:66-124 | so the registrar's updates of that are accepted and heard by every target |
| `ObjectEffects.UpdateTold` | crates/hla-rti/src/dispatch/data_flow.rs:87-171 | at any point of any run, an accepted update is reflected to every joined target but its producer, after a discovery if the target did not know the instance, and nobody else hears of it |
| `ObjectEffects.DeletionTold` | crates/hla-rti/src/dispatch/data_flow.rs:485-538 | an accepted deletion takes exactly the instance out of the table and tells exactly those who knew it, the deleter apart |
| `ObjectEffects.ForgottenRediscovered` | crates/hla-rti/src/dispatch/instance_lookup.rs:69-89 | a local delete touches nobody else, and a later update is news to the federate again |
| `ObjectEffects.RefusedQuiet` | crates/hla-rti/src/dispatch/object_mgmt.rs:38-60 | a refused call tells nobody anything and changes no instance; a registration refused for its name has used up an id |
| `ObjectEffects.RunMembers` | crates/hla-rti/src/dispatch/federation_mgmt.rs:90-168 | over every run: a federate is there to be told if and only if it joined and has not resigned since |
| `Objects.RestoreMeaning` | crates/hla-rti/src/persistence.rs:115-182 | restoring yields exactly the saved instances whose registrar's name is joined, registrar and owners renamed by name, absent owners dropped |
| `Objects.OrphansDropped` | crates/hla-rti/src/persistence.rs:58-108 | an instance whose registrar had left is dropped if and only if nobody joined bears the placeholder name |
| `Objects.RestoreIdentity` | crates/hla-rti/src/persistence.rs:58-182 | with unchanged, uniquely named membership and nobody missing, save then restore is the identity |
| `ObjectEffects.RestoredLater` | crates/hla-rti/src/persistence.rs:58-182 | a snapshot taken in one state and restored in any other leaves exactly the saved instances whose registrar's name is joined, renamed by name, and tells nobody anything |
| `ObjectEffects.RestoredIds` | crates/hla-rti/src/persistence.rs:115-182 | the next id is then above everything restored, and no higher than that or its old value makes it |
| `Objects.TakeSnapshot` | crates/hla-rti/src/persistence.rs:58-108 | the snapshot holds every instance, by names |
| `ObjectManagers.ObjectManager.NotifySubscribers` | crates/hla-rti/src/dispatch/object_mgmt.rs:105-151 | discovers the instance exactly at targets that did not know it |
| `ObjectManagers.ObjectManager.RegisterObjectInstance` | crates/hla-rti/src/dispatch/object_mgmt.rs:10-100 | new state and handle; refuses exactly a requested name in use |
| `ObjectManagers.ObjectManager.UpdateAttributeValues` | crates/hla-rti/src/dispatch/data_flow.rs:46-124 | new state; accepted exactly if the caller owns every attribute |
| `ObjectManagers.ObjectManager.DeleteObjectInstance` | crates/hla-rti/src/dispatch/data_flow.rs:485-538 | new state; accepted exactly from the registrar |
| `ObjectManagers.ObjectManager.ApplySnapshot` | crates/hla-rti/src/persistence.rs:115-182 | the refill loop computes the restored table and moves the id counter past it |
| `Regions.OverlapMeaning` | crates/hla-rti/src/dispatch/ddm_matching.rs:21-43 | two regions are judged overlapping if and only if some point lies in both, absent dimensions unconstrained |
| `Regions.RunBounded` | crates/hla-rti/src/dispatch/ddm_lifecycle.rs:150-187 | in every run, every range has its lower bound at or below its upper |
| `Regions.StagedInvisible` | crates/hla-rti/src/dispatch/ddm_lifecycle.rs:178-185 | staged bounds change no match before commit |
| `Regions.CommitMeaning` | crates/hla-rti/src/dispatch/ddm_lifecycle.rs:54-89 | for any list: exactly the regions listed before the first live region of another owner get their staged bounds in force, also when the call is refused, and nothing else changes |
| `Regions.CreateMeaning` | crates/hla-rti/src/dispatch/ddm_lifecycle.rs:10-52 | a new region has an id nobody had, belongs to the caller and holds every point with 32-bit coordinates on its dimensions |
| `Regions.SetBoundsMeaning` | crates/hla-rti/src/dispatch/ddm_lifecycle.rs:150-187 | bounds are staged on that dimension only, and only by the owner and the right way round |
| `Regions.BoundsTakeEffect` | crates/hla-rti/src/dispatch/ddm_lifecycle.rs:54-89 | in any run: bounds an owner sets come into force with the next commit that gets as far as the region, whatever comes between other than setting them anew or deleting it |
| `Regions.DeletedIsGone` | crates/hla-rti/src/dispatch/ddm_lifecycle.rs:91-112 | a deleted region is gone and matches nothing unless the other side names no regions |
| `RegionMatching.MatchSubscribers` | crates/hla-rti/src/dispatch/data_flow.rs:88-104 | subscribers along the class chain, then the loop over attributes: exactly those the filter passes on at least one updated attribute |
| `RegionMatching.MissedMeaning` | crates/hla-rti/src/dispatch/ddm_matching.rs:51-86 | a joined recipient misses an update if and only if every updated attribute carries regions and the regions entered for it at the instance's own class are some and share no point with them |
| `RegionMatching.RespectedIff` | crates/hla-rti/src/dispatch/ddm_matching.rs:51-86 | for one subscriber and one list of updated attributes: the server serves it exactly as it asked (some updated attribute subscribed at a class of the chain, without regions there or with an overlapping one), whatever regions exist and however they are published, if and only if a condition on its subscriptions and entries holds |
| `RegionMatching.MatchedAsWanted` | crates/hla-rti/src/dispatch/data_flow.rs:88-104 | so a subscriber of whom the condition holds is a recipient exactly when it asked for the update |
| `RegionMatching.AncestorRegionsIgnored` | crates/hla-rti/src/dispatch/ddm_matching.rs:73-84 | in any class tree, regions entered at a proper ancestor do not keep an update out that they exclude |
| `Regions.RegionManager.SetRangeBounds` | crates/hla-rti/src/dispatch/ddm_lifecycle.rs:150-187 | stages; accepted exactly for ordered bounds of one's own region |
| `Regions.RegionManager.CommitRegionModifications` | crates/hla-rti/src/dispatch/ddm_lifecycle.rs:54-89 | the loop with its early return; accepted exactly if no listed live region is another's |
| `Regions.RegionManager.DeleteRegion` | crates/hla-rti/src/dispatch/ddm_lifecycle.rs:91-112 | removes; accepted exactly for one's own region |
| `Barriers.ProgressMeaning` | crates/hla-rti/src/dispatch/save.rs:88-112 | a report ends the operation if and only if with it every participant has reported, and the verdict is failure if and only if someone's last report is one |
| `Barriers.StepSound` | crates/hla-rti/src/dispatch/restore.rs:120-193 | every save or restore handler keeps: one ending per request at most, each verdict the one its reports call for, the table equal to the last reports |
| `Barriers.RunSound` | crates/hla-rti/src/dispatch/save.rs:10-176 | the same over every run |
| `Barriers.PersistLabel` | crates/hla-rti/src/dispatch/save.rs:147-162 | a save is persisted under the label of the last request accepted before that |
| `Barriers.StepOwnLabels` | crates/hla-rti/src/dispatch/save.rs:147-162 | hence under its own if and only if that request carries its label |
| `Barriers.RunOwnLabels` | crates/hla-rti/src/dispatch/save.rs:105-162 | over every run: all saves are persisted under their own labels if and only if, whenever one was persisted, the last accepted request of the run so far carried its label |
| `Barriers.InterveningRequest` | crates/hla-rti/src/dispatch/save.rs:105-130 | in any run, persisting a save when the last accepted request carries another label mislabels it for good |
| `Barriers.MislabelledSave` | crates/hla-rti/src/dispatch/save.rs:105-130 | a run of five steps that does so |
| `Barriers.StuckUntilAbort` | crates/hla-rti/src/dispatch/save.rs:75-139 | in any run, an operation whose unreported participant has resigned neither ends nor lets another begin until someone aborts it |
| `Barriers.AbortEnds` | crates/hla-rti/src/dispatch/save.rs:164-176 | an accepted abort leaves nothing in progress, and the attempt ends in exactly that with its reports unchanged |
| `Barriers.AbortFrees` | crates/hla-rti/src/dispatch/restore.rs:181-193 | in any run: after an abort the next request of a joined federate with a label is accepted, whatever came between |
| `Barriers.RequestBegins` | crates/hla-rti/src/dispatch/save.rs:25-51 | an accepted request begins an operation of exactly those joined, none of whom has reported |
| `Barriers.ReportTaken` | crates/hla-rti/src/dispatch/save.rs:75-112 | a report of any joined federate, participant or not, is added to the newest attempt |
| `Barriers.OutsidersIgnored` | crates/hla-rti/src/dispatch/save.rs:10-176 | who is not joined changes nothing |
| `Barriers.BegunOnce` | crates/hla-rti/src/dispatch/save.rs:53-73 | a report of having begun is taken once from each participant and changes no other's status |
| `Barriers.RunJoined` | crates/hla-rti/src/dispatch/federation_mgmt.rs:90-168 | over every run: those joined are those who joined and have not resigned since |
| `SyncPoints.AchieveMeaning` | crates/hla-rti/src/dispatch/sync_points.rs:101-140 | comparing two sizes is exact: a point completes at the report with which everyone has reported, and names exactly those who ever failed |
| `SyncPoints.SyncRunKept` | crates/hla-rti/src/dispatch/sync_points.rs:10-143 | in every run every open point records who reported and who failed |
| `SyncPoints.RunPoint` | crates/hla-rti/src/dispatch/sync_points.rs:10-143 | over every run: an open point goes back to a registration that found its label free; its participants are the subset named there or everyone joined; it holds their reports since, in order, and not all have reported |
| `SyncPoints.RegistrationOpens` | crates/hla-rti/src/dispatch/sync_points.rs:31-56 | a registration opens a point if and only if it has a label under which none is open, and touches no other |
| `SyncPoints.RunCloses` | crates/hla-rti/src/dispatch/sync_points.rs:101-140 | a point leaves the table if and only if a participant reports after which all have reported |
| `Barriers.Tally` | crates/hla-rti/src/dispatch/save.rs:97-104 | one pass finds whether all are done and whether any failed |
| `Barriers.Orchestrator.RequestOperation` | crates/hla-rti/src/dispatch/save.rs:10-51 | new operation over everyone joined, or the refusal |
| `Barriers.Orchestrator.FederateSaveBegun` | crates/hla-rti/src/dispatch/save.rs:53-73 | accepted exactly from an initiated participant |
| `Barriers.Orchestrator.FederateProgressed` | crates/hla-rti/src/dispatch/save.rs:75-139 | new status table, ending and verdict |
| `Barriers.Orchestrator.AbortOperation` | crates/hla-rti/src/dispatch/restore.rs:181-193 | new state and reply; accepted, it leaves nothing in progress and ends the attempt as aborted with its reports unchanged |
| `SyncPoints.SyncManager.RegisterSynchronizationPoint` | crates/hla-rti/src/dispatch/sync_points.rs:10-85 | opens a point for the subset, or for everyone joined, unless the label is empty or taken |
| `SyncPoints.SyncManager.SynchronizationPointAchieved` | crates/hla-rti/src/dispatch/sync_points.rs:87-143 | new points and outcome of a report |
| `Sessions.HeldOnce` | crates/hla-rti/src/lib.rs:979-1017 | no federate is held by two live-or-suspended sessions, no session holds two or is both live and suspended, and every held membership is in its table under that session |
| `Sessions.RunSound` | crates/hla-rti/src/lib.rs:1081-1160 | what HeldOnce needs holds in every run, under every interleaving of the lock scopes of join, close, resume and expiry |
| `Sessions.RunHeldOnce` | crates/hla-rti/src/lib.rs:979-1160 | at any point of any run, a held federate is in its table under its holder, who alone holds it, holds nothing else, and is live or suspended but not both |
| `Sessions.StepRegistered` | crates/hla-rti/src/dispatch/federation_mgmt.rs:72-155 | held memberships stay in registered federations if and only if no join inserts into a federation destroyed since its lookup |
| `Sessions.StepNames` | crates/hla-rti/src/dispatch/federation_mgmt.rs:115-144 | names stay different if and only if no join inserts a name in use |
| `Sessions.StepOrphans` | crates/hla-rti/src/lib.rs:979-1017 | no federate is left without a session if and only if no session resumes after its deadline and no resume in time fails to deliver its status frame |
| `Sessions.StepConnected` | crates/hla-rti/src/lib.rs:1081-1112 | live sessions stay reachable if and only if no closing connection leaves the table after its session was resumed |
| `Sessions.RunTidy` | crates/hla-rti/src/lib.rs:979-1160 | over every run: all four promises hold at every point if and only if none of the five troubles happens |
| `Sessions.UninterruptedJoin` | crates/hla-rti/src/dispatch/federation_mgmt.rs:90-155 | an uninterrupted join never lands in a destroyed federation, and clashes if and only if it asks for no name and its automatic name is one that a federate there had asked for |
| `Sessions.UninterruptedClose` | crates/hla-rti/src/lib.rs:1081-1112 | an uninterrupted close cuts off no live session |
| `Sessions.DroppedOrphan` | crates/hla-rti/src/lib.rs:979-1017 | a late resume, and one whose status frame is lost, leave the federate in its table with no session |
| `Sessions.OrphanForever` | crates/hla-rti/src/dispatch/federation_mgmt.rs:72-88 | and no later run ever removes it: its federation can never be destroyed |
| `AutoNames.AutoNamesDiffer` | crates/hla-rti/src/dispatch/federation_mgmt.rs:128-128 | automatic names of different handles differ |
| `AutoNames.AutoNameShape` | crates/hla-rti/src/dispatch/federation_mgmt.rs:128-128 | the prefix, then the handle in upper-case hexadecimal, with zeros in front only to make up eight digits |
| `SessionTables.JoinSteps` | crates/hla-rti/src/dispatch/federation_mgmt.rs:90-155 | the four lock scopes of a join in a row amount to one update of the tables; a refused name costs the handle |
| `SessionTables.CloseSteps` | crates/hla-rti/src/lib.rs:1081-1112 | so do the two of a closing connection |
| `SessionTables.ResumeSteps` | crates/hla-rti/src/lib.rs:979-1054 | and those of a resume, for every outcome |
| `SessionTables.ExpirySteps` | crates/hla-rti/src/lib.rs:1144-1160 | and the janitor's two removals |
| `SessionTables.FailedResumeOrphans` | crates/hla-rti/src/lib.rs:979-1017 | a resume leaves an orphan behind if and only if it is late or its status frame is not delivered |
| `SessionEffects.JoinGives` | crates/hla-rti/src/dispatch/federation_mgmt.rs:90-155 | an idle session joining a registered federation without interruption gets the next handle there and is listed under the name it asked for, or its automatic one, unless that name is in use; then the handle is gone and nothing is held |
| `SessionEffects.CreateGives` | crates/hla-rti/src/dispatch/federation_mgmt.rs:10-50 | a federation is created exactly under a name that is free and not empty, and starts empty |
| `SessionEffects.DestroyTakes` | crates/hla-rti/src/dispatch/federation_mgmt.rs:72-88 | it goes exactly if it is empty, and no other goes with it |
| `SessionEffects.ConnectGives` | crates/hla-rti/src/lib.rs:945-1056 | a new session has an id nobody had, holds nothing and is reachable |
| `SessionEffects.ResignTakes` | crates/hla-rti/src/dispatch/federation_mgmt.rs:157-168 | resigning takes the federate out of its table; the session stays, holds nothing and is reachable |
| `SessionEffects.CloseEnds` | crates/hla-rti/src/lib.rs:1081-1108 | a closed connection ends the session; what it held is kept for it within a window and leaves its table without one |
| `SessionEffects.ResumeGives` | crates/hla-rti/src/lib.rs:979-1056 | a resume in time that is delivered brings the session back with what it held, reachable |
| `SessionEffects.ExpiryEnds` | crates/hla-rti/src/lib.rs:1144-1160 | the janitor ends a suspended session and takes its federate, and only that, out of its table |
| `SessionWitnesses.JoinsDestroyed` | crates/hla-rti/src/dispatch/federation_mgmt.rs:72-155 | a run in which a federate joins a federation destroyed since its lookup |
| `SessionWitnesses.SharesName` | crates/hla-rti/src/dispatch/federation_mgmt.rs:113-155 | a run, with no handler interrupted, in which two federates of a federation get the same name |
| `SessionWitnesses.LateResumeLoses` | crates/hla-rti/src/lib.rs:979-997 | a run in which a late resume leaves a federate behind |
| `SessionWitnesses.LostResumeLoses` | crates/hla-rti/src/lib.rs:979-1017 | a run in which a lost status frame does |
| `SessionWitnesses.CloseCutsResumed` | crates/hla-rti/src/lib.rs:1081-1112 | a run in which a closing connection cuts its resumed session off |
| `SessionTables.RtiNode.ResignFederationExecution` | crates/hla-rti/src/dispatch/federation_mgmt.rs:157-168 | gives the membership up and removes the federate |
| `SessionTables.RtiNode.JanitorTick` | crates/hla-rti/src/lib.rs:1144-1160 | expires exactly the given sessions and removes their federates, in whatever order |
| `SessionTables.RtiNode.DestroyFederationExecution` | crates/hla-rti/src/dispatch/federation_mgmt.rs:72-88 | removes the name exactly if the federation has no federate |

## Left out

- Lock scopes inside the time, object, declaration, region and synchronization handlers: each handler is one atomic step; joining, closing, resuming, expiry and persisting are split at their locks.
- Lost connections in mid-fan-out: a callback for a joined federate counts as sent.
- TimeModel: the other advance services behave as a time advance request and are not modelled separately; the query services only read.
- TimeModel: the decoding, instance and ownership tests ahead of a timed service are those of its untimed counterpart (`ObjectEffects.UpdateTold`) and are taken as passed.
- Timed interactions and timed deletes are routed like timed updates but, as in the source, without a lookahead check; ordering is claimed for checked messages only.
- FomMerge: object and interaction classes share one model and are merged separately, where the source interleaves the two lists in one loop; dimensions and the XML parse are not modelled.
- Objects: attribute values, user tags, publication checks and ownership transfer; synchronization points inside a snapshot.
- Declarations: own lists are sets of (class, attribute) pairs; interaction subscriptions and passive subscriptions have no run model of their own.
- Regions: the services that associate regions with instances and subscriptions; the tables of associations are parameters of RegionMatching.
- Barriers: the snapshot a restore applies is modelled in Objects; failed reads and writes of snapshot files are not.
- Sessions: heartbeats, limits and clocks; a deadline is an arbitrary choice, the federate tables of all federations are one table keyed by federation, and a new session whose first status frame is lost only uses up an id.
- Exhaustion of the 32- and 64-bit id counters: counters are unbounded except for sequence numbers, which wrap as in the source.
- Wire: the asynchronous read and write helpers and the control payloads; the model covers the codec and the header.
- Directed interactions, switches, handle lookup, introspection and the federate library: single-branch handlers and wrappers.
