# A model of the MPUDP version 2 data plane

MPUDP carries Datagrams over several UDP paths. A sender aggregates small Datagrams
and cuts large ones into fragments, protects each group of fragments by Reed-Solomon
shards and sends the shards over its paths; a receiver collects shards, decodes
groups and reassembles the Datagrams. Sessions come into being by an authenticated
handshake, paths by an authenticated join, and everything that is retained is paid
for at one credit ledger for each Peer. All engines are socket-free, take their time
from the caller and are serialised by one lock or one caller, so each public method
is one step of a state machine.

The project models these engines in Dafny and proves what they promise, for all
inputs, all runs and, where two parties talk, for every network that loses, repeats,
delays and reorders authenticated packets.

How it is organised:

- **Machine words and arithmetic.** `Words`, `RingMath`, `BigEndian`, `Octets`.
- **Send pipeline.** `Packing` and `AggregationQueue` (the queue and its two
  packers), `OutputSlot`, `SenderRun` (its runs), `GroupCodec` and `BlockCodec` (shards),
  `SendFence` and `FenceHistory` (the completion frontier), `OwnedSends` and
  `SendController` (sends in the hands of workers), with `ControlHistory` (what of them
  went out) and `SendLaws` (when), `Pacing`.
- **Receive pipeline.** `RecvWindow` and `WindowLaws`, `DeadlineList`, `GroupTable` and
  `GroupLaws`, `Reassembly`, and across both ends `EndToEnd`, `Completion`, `Endpoints`
  (the objects with the record of their calls), `DataPath` and `ShardDelivery` (down to
  the shards on the wire).
- **Credits.** `CreditLedger` and `CreditLaws`; `HandshakeCredits`, what one attempt
  reserves; `CreditHolders` and `AttemptTables`, who answers for it, and
  `HandshakeCustody`, the bootstrap engine with its prepared dials seen from its credits.
- **Protocols.** `Negotiation`, `Handshake`, `HandshakeEngine` (the schedule of the
  same engine, prepared dials included), `PathProtocol` and `PathGrace`,
  `ContextExchange` and `OfferLaws`.
- **Wire formats.** `Envelope`, `FecBundle`, `HandshakeCodec`, `AdvertisementCodec`,
  and `SealedShards`, where the group codec meets the wire.
- **Version 1 decoder.** `ReplayWindow`, `ExpiryHeap`, `BlockDecoder` and `BlockLaws`.

A component the code updates in place is a class with the same fields. Its methods
are tied to a reference, a transition on values, and the theorems are about the
reference: invariants of every step, then statements over every run. The modules of laws
and histories say a second time what a reference does, by the events that led to a state
and by what was there before a step, and prove that both accounts agree: what is refused
and what must happen, not only what may not. Protocols are systems of two ends and a set
of messages ever sent.

Assumptions, all explicit in the contracts or the types: a digest stands for what it
digests, keys for their transcript, and only a holder of a key makes packets that
authenticate under it; nonces and SessionIDs are drawn fresh; any dataShards shards
of a block recover its data shards, and in version 2 all shards; the caller's clock does
not run backwards where the code checks that it does not.

Four places deserve attention. `Negotiation.PathErrors` shows that a client whose
bootstrap path lies beyond the last path of the listener is refused with the error
for an invalid contract, while every other path mismatch is reported as incompatible.
`RecvWindow` shows the same history for every span from 1 to 65536, also for spans
that are no multiple of the word size. `ContextExchange.FailIsExact` says exactly when
FailPath answers without an error although no usable path, no path work and no carrier
of the encoding context is left; `StrandedIsReported` shows that each Advance reports
such a Session until a join begins or a sender comes back. The design notes of prepared
dials limit the sum of pending attempts and preparations by MaxPending; the code looks
at the limit only when it reserves, so an attempt that starts on a preparation again can
go beyond it, and `AttemptTables.LimitIsExceeded` says exactly when.

## Model

| member | source | states |
|---|---|---|
| `RecvWindow.HistoryIsFinal` | `internal/recvwindow/window.go:51-142` | over every sequence of admissions and completions no terminal or retired ID becomes admissible again, no ID changes its terminal answer, and neither the floor nor the highest ID retreats |
| `WindowLaws.StatusIsHistory` | `internal/recvwindow/window.go:58-142` | after every run of a window the status of an ID is told by the operations alone: closed once it was closed, retired once an ID at least a span ahead was admitted, and otherwise the first terminal answer the ID was given in time |
| `WindowLaws.FinishIsHistory` | `internal/recvwindow/window.go:121-142` | a terminal answer is taken exactly for an ID that was admitted or passed by and has no other answer, in an open window |
| `RecvWindow.StepIsFinal` | `internal/recvwindow/window.go:86-142` | every single operation keeps the history valid and moves each ID only to a status it may still get |
| `RecvWindow.CountIsCard` | `internal/recvwindow/window.go:109-139` | the population count of a wrapping bitmap is the number of IDs it stands for, for every span and top |
| `RecvWindow.AdvanceByClearing` | `internal/recvwindow/window.go:99-115` | clearing the ring positions between the old and the new top leaves exactly the IDs at or above the new floor |
| `RecvWindow.AdvanceBitmaps` | `internal/recvwindow/window.go:97-117` | the masked clear loop of both bitmaps is the admission of the reference history |
| `RecvWindow.Window.State` | `internal/recvwindow/window.go:58-82` | the bit tests answer what the sets of completed and expired IDs say |
| `RecvWindow.Window.Admit` | `internal/recvwindow/window.go:86-117` | returns the old status and moves the abstract history as the reference admission |
| `RecvWindow.Window.Finish` | `internal/recvwindow/window.go:121-142` | succeeds exactly when allowed, sets one bit and no other, and keeps the counters equal to the set sizes |
| `RecvWindow.Window.Close` | `internal/recvwindow/window.go:162-169` | drops both bitmaps and answers closed from then on |
| `RecvWindow.Window.Abstraction` | `internal/recvwindow/window.go:31-39` | the bitmaps stand for two disjoint sets inside the window and the counters are their sizes |
| `CreditLedger.Conservation` | `internal/creditv2/ledger.go:135-458` | after any sequence of operations Peer usage is the sum over the live leases, each Session usage the sum over the leases it owns, every limit holds, slots equal pending plus established equal the unretired scopes, and a scope is retired exactly when it is closed and owns nothing |
| `CreditLedger.ApplyKeeps` | `internal/creditv2/ledger.go:135-458` | each operation keeps the books, whatever its arguments |
| `CreditLedger.TransferKeeps` | `internal/creditv2/ledger.go:300-333` | moving a lease keeps the books: only the shares of the two owners change |
| `CreditLedger.Drained` | `internal/creditv2/ledger.go:429-458` | a closed Peer without live leases has nothing charged and no scope registered |
| `CreditLedger.ReserveThenRelease` | `internal/creditv2/ledger.go:194-214` | releasing a fresh lease restores the ledger |
| `CreditLedger.RollbackRestores` | `internal/creditv2/ledger.go:194-214` | reserving a batch and releasing it oldest first restores the ledger, handles aside |
| `CreditLedger.RetiredOwnsNothing` | `internal/creditv2/ledger.go:446-458` | a retired scope is closed and owns no live lease |
| `CreditLedger.RetiredForGood` | `internal/creditv2/ledger.go:446-458` | a retired scope stays retired and is given no lease by any operation, so it retires once |
| `CreditLedger.CloseAllInAnyOrder` | `internal/creditv2/ledger.go:429-441` | closing the registered scopes gives the same ledger in every order |
| `CreditLedger.Peer.Begin` | `internal/creditv2/ledger.go:135-170` | opens a scope with its optional first lease, or changes nothing and says why; the new state is the transition of the reference ledger |
| `CreditLedger.Peer.Promote` | `internal/creditv2/ledger.go:173-190` | turns a pending scope into an established one once; the new state is the transition of the reference ledger |
| `CreditLedger.Peer.Reserve` | `internal/creditv2/ledger.go:194-214` | charges a new lease to scope and Peer only when every limit allows it; the new state is the transition of the reference ledger |
| `CreditLedger.Peer.BindBytes` | `internal/creditv2/ledger.go:219-245` | binds an unbound byte lease of the very scope; the new state is the transition of the reference ledger |
| `CreditLedger.Peer.Transfer` | `internal/creditv2/ledger.go:300-333` | moves the whole obligation of a lease that is not bound and leaves Peer usage as it was; the new state is the transition of the reference ledger, whose answer `CreditLaws.TransferIsExact` characterises |
| `CreditLedger.Peer.MarkAccepted` | `internal/creditv2/ledger.go:338-364` | gives back only the pending-accept count; the new state is the transition of the reference ledger |
| `CreditLedger.Peer.ShrinkBytes` | `internal/creditv2/ledger.go:368-388` | gives back exactly the bytes above the new size; the new state is the transition of the reference ledger |
| `CreditLedger.Peer.Release` | `internal/creditv2/ledger.go:391-411` | takes the claim off both books and retires a closed scope; the new state is the transition of the reference ledger |
| `CreditLedger.Peer.CloseSession` | `internal/creditv2/ledger.go:414-426` | closes a scope and retires it when it owns nothing; the new state is the transition of the reference ledger |
| `CreditLedger.Peer.Close` | `internal/creditv2/ledger.go:429-443` | closes every registered scope; the new state is the transition of the reference ledger |
| `CreditLedger.Peer.Retire` | `internal/creditv2/ledger.go:446-458` | retires a closed empty scope and frees its slot, nothing else; the new state is the transition of the reference ledger |
| `CreditLaws.ReserveIsExact` | `internal/creditv2/ledger.go:194-214` | a reservation is granted exactly when the sums over the live leases stay within every limit with it; each refusal has its own reason |
| `CreditLaws.BeginIsExact` | `internal/creditv2/ledger.go:135-170` | a Session begins exactly when the Peer is open, a slot of its kind is free and its first claim fits |
| `CreditLaws.TransferIsExact` | `internal/creditv2/ledger.go:300-333` | a live lease moves exactly to an open scope with room for it, and only while it is not bound |
| `CreditLaws.ChangesAreExact` | `internal/creditv2/ledger.go:173-388` | when a lease may be bound, accepted or shrunk and a scope promoted, each in both directions |
| `CreditLaws.TotalIsCount` | `internal/creditv2/ledger.go:251-288` | the usage that the limits speak of is the number of live leases, of their streams and of their accepts outstanding |
| `CreditLaws.LeaseLife` | `internal/creditv2/ledger.go:219-411` | a lease ends by its own release and by nothing else; owner, bytes, accept and binding change only by the operation for it, on this very lease and as requested |
| `CreditLaws.LeaseBirth` | `internal/creditv2/ledger.go:135-214` | a lease comes into being by a granted request only, under a number never used before, with the owner and the claim asked for |
| `CreditLaws.ScopeLife` | `internal/creditv2/ledger.go:414-443` | a scope closes by its own Close or the Peer's, never reopens, and leaves the pending ones by its promotion only |
| `CreditLaws.ScopeBirth` | `internal/creditv2/ledger.go:135-170` | a new scope is open, of the kind asked for, and the only one that an operation adds |
| `CreditLaws.ReleasedForGood` | `internal/creditv2/ledger.go:391-411` | a lease that is not live any more is never live again, over every run |
| `CreditLaws.BoundForGood` | `internal/creditv2/ledger.go:219-333` | storage that was bound once stays bound and stays with its Session as long as it is live, over every run |
| `CreditLaws.BindOnce` | `internal/creditv2/ledger.go:219-333` | after any run, from a successful BindBytes on a second one fails, and so does a transfer to another Session |
| `Packing.GreedyIsUnique` | `internal/fecv2/packing.go:28-66` | two packers that both stop greedily on the same input stop at the same cursor |
| `Packing.PackPrefix` | `internal/fecv2/packing.go:28-66` | takes a greedy, encodable prefix, or fails exactly on invalid input or when no payload byte fits |
| `Packing.ConsumedIsEncodable` | `internal/fecv2/packing.go:39-65` | a greedy prefix of a canonical list is itself a valid group |
| `AggregationQueue.PackerAgrees` | `internal/aggregationv2/queue.go:299-322` | for every queue the plan is greedy on the fragments it offers, so the cursor mismatch branch never fires |
| `AggregationQueue.PlansProgress` | `internal/aggregationv2/queue.go:210-244` | a forced seal of a nonempty queue plans at least one fragment |
| `AggregationQueue.PlanIsMaximal` | `internal/aggregationv2/queue.go:210-244` | a plan ends only where nothing more can join: at the descriptor limit, without room for a descriptor and a byte, where a cut would cost the entry a fragment too many, or at a completely filled group |
| `AggregationQueue.FullIsFinal` | `internal/aggregationv2/queue.go:210-250` | a further Datagram goes behind what a full group leaves and changes nothing about it |
| `AggregationQueue.AfterIsOk` | `internal/aggregationv2/queue.go:210-244` | sealing keeps fragments used plus fresh-group pieces still needed within the admitted limit for every entry |
| `AggregationQueue.FragmentCount` | `internal/aggregationv2/queue.go:196-201` | the rounded division is the number of pieces that cutting one by one gives |
| `AggregationQueue.SealedGroupIsEncodable` | `internal/aggregationv2/queue.go:283-341` | every sealed group is canonical, nonempty and within the descriptor and logical-size limits |
| `AggregationQueue.Queue.Admit` | `internal/aggregationv2/queue.go:158-194` | succeeds exactly when the queue is open, the clock does not run back, both ID counters are live, fewer than the allowed Datagrams are queued, their bytes with these stay within the limit, the payload is within the size limit and the allowed pieces, and the ledger grants it or it is empty; then appends one entry under the next ID, and otherwise changes nothing and reports the first failing check |
| `AggregationQueue.Queue.Plan` | `internal/aggregationv2/queue.go:210-244` | the ring walk computes the planned fragments, their cursor and whether the group is full |
| `AggregationQueue.Queue.Ready` | `internal/aggregationv2/queue.go:252-267` | ready exactly when the plan is full or the oldest entry is due |
| `AggregationQueue.Queue.Seal` | `internal/aggregationv2/queue.go:283-341` | emits the planned group, removes exactly what it consumed and releases the leases of the entries that are done |
| `AggregationQueue.Queue.Cancel` | `internal/aggregationv2/queue.go:359-386` | removes one entry, closes the gap in the ring and keeps the order of the rest |
| `AggregationQueue.Queue.CloseGap` | `internal/aggregationv2/queue.go:375-379` | shifting the ring slots is removal from the sequence of entries |
| `AggregationQueue.Queue.DropHead` | `internal/aggregationv2/queue.go:346-357` | pops the oldest entry and subtracts its bytes |
| `AggregationQueue.Queue.Close` | `internal/aggregationv2/queue.go:388-405` | releases every lease once and empties the queue |
| `OutputSlot.EveryUseIsOk` | `internal/aggregationv2/workspace.go:57-101` | however outputs are sealed and released and the slot is closed, at most one output is live and the lease goes back exactly once, when the slot is closed and no output is live |
| `OutputSlot.Workspace.Acquire` | `internal/aggregationv2/workspace.go:57-74` | takes the slot exactly when it is open, free and of this queue |
| `OutputSlot.Workspace.ReleaseOutput` | `internal/aggregationv2/workspace.go:76-84` | frees the slot, and returns the lease if it was closed meanwhile |
| `OutputSlot.Workspace.Close` | `internal/aggregationv2/workspace.go:86-101` | closes the slot and keeps the lease while an output is live |
| `OutputSlot.Workspace.Seal` | `internal/aggregationv2/queue.go:276-341` | seals as the queue does but into the slot; a busy, foreign or closed slot changes nothing |
| `SenderRun.EveryRunIsOk` | `internal/aggregationv2/queue.go:158-405` | over every run of admissions, seals and cancellations the emitted groups are encodable, their fragments are pieces of the admitted payloads in ascending order and within the fragment limit, and an original neither queued nor cancelled was emitted completely |
| `Reassembly.PlanIsStable` | `internal/reassemblyv2/reassembly.go:158-214` | planning a whole group before changing anything decides about each fragment what its turn in the commit finds: in particular an ID planned as new is still unseen then |
| `Reassembly.DeliversWhenWhole` | `internal/reassemblyv2/reassembly.go:214-257` | a fragment delivers its original exactly when it fills the last gap, and what is delivered is the assembled buffer |
| `Reassembly.InspectMeans` | `internal/reassemblyv2/reassembly.go:259-280` | the search among the ranges tells exactly whether a fragment is new, repeats a range with the same or with other bytes, or shares a byte with what is recorded |
| `Reassembly.FailsOnTrouble` | `internal/reassemblyv2/reassembly.go:158-194` | a fragment fails its group exactly when it contradicts the length, the recorded bytes or the recorded ranges, or has no range left, and never for its bytes once the time of the original is over |
| `Reassembly.GroupIsPlaced` | `internal/reassemblyv2/reassembly.go:158-257` | after a group each of its fragments has been placed as if it had come alone: delivered, recorded, ignored, or its original expired because its time was over, with its lease among the releases |
| `Reassembly.ReservationIsFor` | `internal/reassemblyv2/reassembly.go:196-213` | what is reserved for a new original is its payload, eight bytes for each range allowed and sixteen for its links |
| `Reassembly.StorageIsPaid` | `internal/reassemblyv2/reassembly.go:196-213` | what a pending original keeps is never more than was reserved for it |
| `Reassembly.DeliveryIsTerminal` | `internal/reassemblyv2/reassembly.go:228-245` | a delivered original is completed in the window and no longer pending |
| `Reassembly.AddOneOk` | `internal/reassemblyv2/reassembly.go:214-257` | one fragment keeps ranges sorted and disjoint, received equal to their total length, and the list in order of admission |
| `Reassembly.FullIffNothingMissing` | `internal/reassemblyv2/reassembly.go:228-240` | received equals total exactly when every byte is covered |
| `Reassembly.CountBounds` | `internal/reassemblyv2/reassembly.go:158-200` | the number of originals in the group and pending never exceeds the limit |
| `Reassembly.ExpiresExactlyTheElapsed` | `internal/reassemblyv2/reassembly.go:322-338` | expiring from the head of the list retires exactly the originals whose time is over |
| `Reassembly.RefusedGroupKeepsCredit` | `internal/reassemblyv2/reassembly.go:200-213` | a group the ledger refuses leaves every credit as it was |
| `Reassembly.Receiver.AddGroup` | `internal/reassemblyv2/reassembly.go:158-257` | succeeds exactly without a closed receiver, a clock running back, a malformed or contradicting fragment and a refused reservation; an error leaves pending state, window, list and clock unchanged and returns the leases taken so far; on success every delivered original was in time, every named original past its time leaves as expired with its lease released, and each fragment is placed |
| `Reassembly.Receiver.InspectRanges` | `internal/reassemblyv2/reassembly.go:259-280` | the search over the sorted ranges finds the gap, the exact duplicate, the contradiction or the overlap |
| `Reassembly.Receiver.PlanAll` | `internal/reassemblyv2/reassembly.go:158-200` | plans every fragment without changing anything and counts the originals that will be pending |
| `Reassembly.Receiver.ReserveAll` | `internal/reassemblyv2/reassembly.go:196-213` | reserves for each new original, and returns all leases when one is refused |
| `Reassembly.Receiver.CommitAll` | `internal/reassemblyv2/reassembly.go:214-257` | writes the planned fragments in order and delivers what became whole |
| `Reassembly.Receiver.Expire` | `internal/reassemblyv2/reassembly.go:322-338` | retires exactly the elapsed originals, oldest first, and releases each of their leases |
| `Reassembly.Receiver.ExpireOriginal` | `internal/reassemblyv2/reassembly.go:282-291` | marks one original expired, unlinks it and releases its lease |
| `Reassembly.Receiver.AddPending` | `internal/reassemblyv2/reassembly.go:293-302` | links a new original behind the last one |
| `Reassembly.Receiver.RemovePending` | `internal/reassemblyv2/reassembly.go:304-320` | unlinks an original between its neighbours |
| `Reassembly.Receiver.NextDeadline` | `internal/reassemblyv2/reassembly.go:356-361` | the earliest expiry of any pending original |
| `Reassembly.Receiver.Close` | `internal/reassemblyv2/reassembly.go:372-387` | releases every pending lease and the window lease once |
| `DeadlineList.AppendedIsLinked` | `internal/reassemblyv2/reassembly.go:293-302` | linking behind the tail appends to the enumerated order |
| `DeadlineList.SplicedIsLinked` | `internal/reassemblyv2/reassembly.go:304-320` | unlinking any element removes exactly it from the enumerated order |
| `EndToEnd.DeliveredIsAdmitted` | `internal/reassemblyv2/reassembly.go:158-257` | whatever groups of a run of the queue reach a receiver with at least the limits of the queue, repeated, lost or reordered, every delivered Datagram is the admitted payload of its ID and none is delivered twice |
| `DataPath.DeliveredIsAdmitted` | `internal/sessionv2/data.go:138-236` | whatever shards of the sealed groups of a run of the queue reach the table of pending groups, lost, repeated or reordered, and whatever the ledger answers, every delivered Datagram is the admitted payload of its ID and none is delivered twice |
| `DataPath.EveryRunIsTrue` | `internal/sessionv2/data.go:138-236` | in such a run the table holds nothing but shards of the groups sent or those groups themselves, and hands only sealed groups to the reassembler |
| `DataPath.NoContradiction` | `internal/sessionv2/data.go:171-199` | no record of a sealed group is ever answered as a protocol violation and no set of shards as undecodable |
| `DataPath.OnlyCreditRefuses` | `internal/sessionv2/data.go:220-236` | a decoded group is given up for good only for a ledger error other than a limit |
| `DataPath.PlaceIsTrue` | `internal/sessionv2/data.go:171-199` | one true record keeps its group true, and completing it decodes to the group that was sealed |
| `Endpoints.ObjectsAgree` | `internal/reassemblyv2/reassembly.go:158-257` | of the queue and receiver objects themselves: what the receiver has delivered was admitted by the queue, unchanged and once |
| `Endpoints.Sender.Admit` | `internal/aggregationv2/queue.go:158-205` | a success is one admission of the run under an ID never sent before |
| `Endpoints.Sender.Seal` | `internal/aggregationv2/queue.go:269-341` | an emitted group is the next group of the run |
| `Endpoints.Sender.Cancel` | `internal/aggregationv2/queue.go:359-386` | a cancellation is the cancellation of the run |
| `Endpoints.Receiver.AddGroup` | `internal/reassemblyv2/reassembly.go:158-280` | a success is the arrival of the run and delivers what it delivers; an error is no event |
| `Endpoints.Receiver.Expire` | `internal/reassemblyv2/reassembly.go:322-338` | a success is the tick of the run |
| `EndToEnd.ArrivalsNeverConflict` | `internal/reassemblyv2/reassembly.go:259-280` | in the same setting no arrival is answered with a conflict or an overlap |
| `EndToEnd.TrueGroupOnlyRefused` | `internal/reassemblyv2/reassembly.go:158-213` | a group of the sender can only be refused for want of storage |
| `EndToEnd.AbsorbKeeps` | `internal/reassemblyv2/reassembly.go:214-257` | a true fragment keeps every assembly equal to the sent payload on the bytes it covers |
| `Completion.CompleteIsDelivered` | `internal/reassemblyv2/reassembly.go:158-338` | a Datagram all of whose groups arrive in the window, in time and with storage is delivered with its own payload |
| `ShardDelivery.EnoughShardsServe` | `internal/sessionv2/data.go:138-250` | a sealed group is accepted once dataShards different shards of it have counted, in any order and whatever else arrives, and a shard or a retry then finds storage, provided that the group never ran out of time |
| `ShardDelivery.CompleteIsDelivered` | `internal/sessionv2/data.go:138-250` | a Datagram emitted completely is delivered with its own bytes when of each group carrying a piece of it enough shards arrive in time and with room, and the Datagram stays in time and in the window |
| `GroupTable.EveryRunIsOk` | `internal/sessionv2/data.go:109-294` | over every run of bundles, retries and sweeps no group is completed twice, a completed group never returns, and the leases held are exactly those of the groups in the table |
| `GroupLaws.TakeMeans` | `internal/sessionv2/data.go:138-236` | for each record what the table, the ledger, the codec and the reassembler make of it, told by what was there before: refused without a change, or met by the group it is for, with a contradiction, a repetition, a retained shard or the handing over of a decoded group |
| `GroupLaws.AdmissionDecides` | `internal/sessionv2/data.go:220-236` | what the reassembler says of a decoded group completes it, leaves it waiting for storage or ends it |
| `GroupLaws.BundleEndsAtFirstFailure` | `internal/sessionv2/data.go:138-218` | the records of a bundle are taken in order up to the first that is neither taken nor ignored, whose answer is that of the bundle |
| `GroupTable.TakeKeeps` | `internal/sessionv2/data.go:155-218` | whatever a record meets and whatever ledger, codec and reassembler answer, the table stays well formed and within its limit, and the group it completes is new |
| `GroupTable.TakeAccounts` | `internal/sessionv2/data.go:109-123` | each group holds one lease of its own, and it goes back exactly when the group leaves |
| `GroupTable.SweepIsExact` | `internal/sessionv2/data.go:279-294` | the sweep removes exactly the groups whose time is over and returns each of their leases once |
| `GroupTable.Groups.TakeRecord` | `internal/sessionv2/data.go:155-218` | one turn of the bundle loop, with every error branch, is the reference transition |
| `GroupTable.Groups.TakeBundle` | `internal/sessionv2/data.go:138-218` | the loop over the records of a bundle takes them in order and ends at the first that fails |
| `GroupTable.Groups.PlaceRecord` | `internal/sessionv2/data.go:171-216` | expired, inconsistent, decoded, repeated, conflicting, retained and completing records, each with its own outcome |
| `GroupTable.Groups.AdmitOriginals` | `internal/sessionv2/data.go:220-236` | completes the group, keeps it for want of storage or expires it |
| `GroupTable.Groups.InsertGroup` | `internal/sessionv2/data.go:125-136` | links a new group behind the last one |
| `GroupTable.Groups.ReleaseGroup` | `internal/sessionv2/data.go:252-277` | unlinks the group, keeps the count of decoded groups and returns its lease |
| `GroupTable.Groups.ExpireGroups` | `internal/sessionv2/data.go:279-288` | the loop over the list head is the exact sweep |
| `GroupTable.Groups.Finish` | `internal/sessionv2/data.go:230-235` | records the outcome in the window and releases the group |
| `SendFence.EveryFenceIsTruthful` | `internal/sessionv2/data.go:38-107` | over every run of writes, sends, dispatches and completions an original is at or below completed exactly when all its bytes were emitted in groups whose every shard is terminal, and one also below failedFrom was sent without a failed shard; once drained everything is covered |
| `FenceHistory.FenceIsHistory` | `internal/sessionv2/send_data.go:38-53` | over every run a group counts as failed exactly when the first report of one of its shards was a failure, and an original at or below completed and below failedFrom had no shard of any of its groups fail |
| `FenceHistory.StepMeans` | `internal/sessionv2/send_data.go:10-53` | when a group goes out, a shard is dispatched or reported, and a group is over: exactly when every shard was reported, which moves the frontier to what is fully sealed |
| `SendFence.EveryFrontierIsOk` | `internal/sessionv2/send_data.go:10-53` | every reachable frontier satisfies the invariant |
| `SendFence.CompletedIsExact` | `internal/sessionv2/send_data.go:38-53` | completed is the largest ID up to which everything is finished: both directions |
| `SendFence.FenceIsTruthful` | `internal/sessionv2/controller.go:344-355` | a fence at or below completed and below the first failure covers only fully successful groups |
| `SendFence.FailureIsTheFirst` | `internal/sessionv2/send_data.go:38-53` | failedFrom is the first original of the first failing group, recorded exactly when there is one |
| `SendFence.FrontierIsMonotone` | `internal/sessionv2/send_data.go:38-53` | the frontier never retreats and the first failure is never replaced |
| `SendFence.DrainedIsComplete` | `internal/sessionv2/controller.go:344-355` | with nothing queued and no group out the frontier has reached the last admitted original |
| `SendFence.FrontierBySubtraction` | `internal/sessionv2/data.go:61-62` | accepted minus queued, as uint64 subtraction, is the number of fully sealed originals |
| `OwnedSends.EveryRunIsAccounted` | `internal/sessionv2/send_intent.go:192-308` | over every run live tokens, occupied slots and active correspond one to one, each path carries at most one token, sends made and in flight of a control transaction stay within eight, and each dispatched shard has exactly one live carrier |
| `OwnedSends.EveryRunKeeps` | `internal/sessionv2/send_intent.go:192-308` | every run keeps the invariant of slots, paths, transactions and shards |
| `OwnedSends.TokensCorrespond` | `internal/sessionv2/send_intent.go:192-219` | distinct slots have distinct tokens and paths, and the path queues exactly its slot |
| `OwnedSends.IdleHasNoToken` | `internal/sessionv2/controller.go:458-509` | when active is zero no token is live and no path has anything queued |
| `OwnedSends.ShardsCorrespond` | `internal/sessionv2/send_data.go:72-116` | dispatched shards biject with live data slots while open, and remaining counts the shards not yet terminal |
| `OwnedSends.ControlSendsBounded` | `internal/sessionv2/send_control.go:112-196` | sends made plus sends in flight of a control transaction never exceed eight; that these are the packets that went out is `ControlHistory.CountersAreTrue` |
| `ControlHistory.AtMostEightGoOut` | `internal/sessionv2/send_control.go:112-196` | over every run, with replaced and cleared transactions, lost outcomes and closing, at most eight packets of one control transaction ever go out, those in the hands of workers included |
| `ControlHistory.CountersAreTrue` | `internal/sessionv2/send_control.go:112-196` | over every run the counters of a retry are what was dispatched: sends the attempted completions of its transaction, inflight its packets in the hands of workers |
| `SendController.CompletedIsMoves` | `internal/sessionv2/send_intent.go:246-308` | an accepted completion of the code is one completion of that history, counted as sent exactly when the outcome says that it was attempted |
| `SendController.SuccessWasAttempted` | `internal/sessionv2/send_intent.go:246-276` | a plausible success was attempted; what was never invoked or was refused before the socket was not |
| `SendController.Controller.OutcomeIsAnswered` | `internal/sessionv2/send_intent.go:246-276` | an outcome is accepted exactly when the Controller is not finalized, time does not run back, the worker has let go and a live token fits it; each refusal has its own reason |
| `SendLaws.RenewedStarts` | `internal/sessionv2/send_intent.go:173-183` | a new transaction may go out at once and until its lifetime is over, under a number never used |
| `SendLaws.FrameIsNew` | `internal/sessionv2/send_intent.go:158-171` | a new packet of a control waits from now on under a version of its own |
| `SendLaws.SettledWaits` | `internal/sessionv2/send_control.go:160-196` | when a worker is done the next packet waits for the retry interval after that end; a packet replaced meanwhile changes neither time nor frame |
| `SendLaws.FailedWaits` | `internal/sessionv2/send_control.go:104-110` | a packet given up while it waits is tried again after the interval |
| `SendLaws.PreparedInTime` | `internal/sessionv2/send_control.go:67-102` | a retransmission that is due is queued as of the time it became due, one that waited for its residence is given up, and one that is not due is left alone |
| `SendLaws.ExpiresInOrder` | `internal/sessionv2/send_data.go:55-70` | overdue shards fail in order, as many as the report has room for, and none that a worker holds |
| `SendLaws.ShardsSpread` | `internal/sessionv2/send_data.go:155-157` | any n shards of a group in a row prefer n different paths, and the next group starts with the next path |
| `SendLaws.CompletionPaces` | `internal/sessionv2/send_intent.go:277-308` | an attempt completed on a path that is still its own puts the next packet off by its time on the wire |
| `OwnedSends.StaleTokenChangesNothing` | `internal/sessionv2/send_intent.go:246-265` | a token that is not live changes nothing |
| `SendController.Controller.FreeSendSlot` | `internal/sessionv2/send_intent.go:192-199` | finds a slot without token if there is one |
| `SendController.Controller.InstallIntent` | `internal/sessionv2/send_intent.go:205-219` | occupies the slot and the path under the next token |
| `SendController.Controller.FindToken` | `internal/sessionv2/send_intent.go:256-265` | finds the slot of a live token |
| `SendController.Controller.CompleteSend` | `internal/sessionv2/send_intent.go:246-308` | rejects stale, premature and implausible outcomes without a change, otherwise completes exactly the slot of the token, and keeps the invariant of slots, paths, transactions and shards |
| `SendController.Controller.FinishSend` | `internal/sessionv2/send_intent.go:277-308` | vacates the slot and its path, paces the same path and hands the outcome to its owner |
| `SendController.Controller.CompleteOwnedShard` | `internal/sessionv2/send_data.go:38-53` | counts the shard terminal and, with the last one, moves the frontier |
| `SendController.Controller.DriveData` | `internal/sessionv2/send_data.go:10-36` | fails what is overdue and then starts the next sealed group when nothing is out |
| `SendController.Controller.ExpireOwnedData` | `internal/sessionv2/send_data.go:55-70` | fails every waiting shard that has stayed too long, and no dispatched one |
| `SendController.Controller.TakeOwnedData` | `internal/sessionv2/send_data.go:72-116` | dispatches one waiting shard on a usable path under a new token |
| `SendController.Controller.TakeOwnedControl` | `internal/sessionv2/send_control.go:112-158` | dispatches one ready control packet under a new token |
| `SendController.Controller.CompleteOwnedControl` | `internal/sessionv2/send_control.go:160-196` | counts the attempt for its own transaction, which `ControlHistory` ties to the packets that went out, and schedules the retry |
| `SendController.Controller.PrepareOwnedControl` | `internal/sessionv2/send_control.go:67-102` | queues due retries and fails packets that stayed too long |
| `SendController.Controller.FrameSet` | `internal/sessionv2/send_intent.go:158-171` | replaces a control frame under a fresh version |
| `SendController.Controller.NewControlRetry` | `internal/sessionv2/send_intent.go:173-183` | starts a transaction under a fresh ID |
| `SendController.Controller.BeginClose` | `internal/sessionv2/controller.go:446-456` | stops all admissions and keeps live tokens |
| `SendController.Controller.FinalizeClose` | `internal/sessionv2/controller.go:458-509` | refuses while a token is live and otherwise frees the storage |
| `PathProtocol.EveryRunAgrees` | `internal/sessionv2/control.go:138-377` | over every run of both ends and every loss, repetition and reordering: the initiator commits only what the responder committed with the same generation and nonces, an end sending under epoch 2 uses the budget its peer receives with while both are on that generation, and data on an admitted route fits the receiver |
| `PathProtocol.EveryRunIsOk` | `internal/sessionv2/control.go:138-377` | every step of either end and of the network keeps the invariant |
| `PathProtocol.IncarnationsAgree` | `internal/sessionv2/control.go:205-292` | same incarnations on both sides, confirmed by the initiator, each generation at most once |
| `PathProtocol.GenerationsIncrease` | `internal/sessionv2/control.go:180-203` | every commit moves to a strictly larger generation |
| `PathProtocol.BudgetsAgree` | `internal/sessionv2/control.go:341-377` | epoch 2 at the sender implies epoch 2 with that budget at the receiver, on the same generation |
| `PathProtocol.DataFitsItsRoute` | `internal/sessionv2/control.go:96-111` | a data packet never exceeds the budget of any live or old route that admits it |
| `PathProtocol.JoinAnswerMeans` | `internal/sessionv2/control.go:205-292` | an end reacts to a message of a join exactly when its answer is neither an error nor silence |
| `PathProtocol.RepeatIsIgnored` | `internal/sessionv2/control.go:205-292` | a message of a join that was taken is ignored, not an error, when it comes again in time |
| `PathProtocol.BudgetAnswerMeans` | `internal/sessionv2/control.go:341-377` | every other answer leaves the path alone; an update taken again is acknowledged again, an acknowledgement ignored |
| `PathGrace.FormerRouteHasItsGrace` | `internal/sessionv2/control.go:96-203` | after a commit from an active path, whatever happens next short of the failure of that binding, data of the former binding, generation and epoch is admitted with the former budget at every time before the grace is over and at none from then on |
| `PathGrace.FormerEpochHasItsGrace` | `internal/sessionv2/control.go:96-377` | after a taken update, while the incarnation stays active, the former epoch is admitted with the former budget before the grace is over and refused from then on |
| `PathGrace.CommitNeedsASlot` | `internal/sessionv2/control.go:180-203` | a commit fails exactly when the path is active and every slot for a former route is still in its grace |
| `PathGrace.JoinOpens` | `internal/sessionv2/control.go:138-292` | four join messages in time bring both ends into the next generation of the initiator, each publishing its budget |
| `PathGrace.UpdateOpens` | `internal/sessionv2/control.go:303-377` | one update and its acknowledgement in time open the full budget at both ends |
| `PathGrace.LostAcknowledgementIsRepeated` | `internal/sessionv2/control.go:303-377` | an update is acknowledged again for five seconds or for the grace of its epoch, whichever is longer, and not heard afterwards |
| `PathGrace.FailEndsTheBinding` | `internal/sessionv2/controller.go:382-407` | FailPath ends the route, the join and every former route of its binding and touches nothing else |
| `PathGrace.ExpiryOnlyEndsWhatIsOver` | `internal/sessionv2/control.go:523-561` | expiry changes no answer about data that arrives later, except that a path whose publication was never acknowledged is given up |
| `PathGrace.JoinErrors` | `internal/sessionv2/control.go:205-292` | a join message fails for want of a slot exactly when it would commit an inactive path, and for want of entropy exactly when a nonce would open the exchange |
| `PathGrace.BudgetErrors` | `internal/sessionv2/control.go:341-377` | a budget message that is heard is an error exactly when it contradicts the limits or the agreement, or acknowledges nothing that is published in time |
| `PathProtocol.PathState.AdmitRoute` | `internal/sessionv2/control.go:96-111` | the live route, the previous budget epoch or an old route in its grace, each with its budget; the new state is the transition of the reference end |
| `PathProtocol.PathState.BeginJoin` | `internal/sessionv2/control.go:138-163` | starts the exchange for the next generation; the new state is the transition of the reference end |
| `PathProtocol.PathState.CommitPath` | `internal/sessionv2/control.go:180-203` | enters the joined incarnation and keeps the old route for its grace, if a place is free; the new state is the transition of the reference end, for which `PathGrace.FormerRouteHasItsGrace` shows what the grace is |
| `PathProtocol.PathState.TakeJoin` | `internal/sessionv2/control.go:205-292` | the four messages of a join by role and state, and for each the error, silence or reply it gets; the new state is the transition of the reference end |
| `PathProtocol.PathState.TakeBudget` | `internal/sessionv2/control.go:341-377` | acknowledges and repeats a budget epoch, with each error; the new state is the transition of the reference end, for which `PathGrace.FormerEpochHasItsGrace` shows what the former epoch may still send |
| `PathProtocol.PathState.ExpireControl` | `internal/sessionv2/control.go:523-561` | ends joins and publications whose time is over and drops old routes; the new state is the transition of the reference end |
| `PathProtocol.PathState.FailPath` | `internal/sessionv2/controller.go:382-428` | retires the path and every old route of the failed binding; the new state is the transition of the reference end |
| `ContextExchange.EveryRunIsOk` | `internal/sessionv2/control.go:380-395` | over every run, until the context is acknowledged the path that carries its offer is active, and the offer is begun at most once and sent at most eight times however often it moves |
| `ContextExchange.OneDeadline` | `internal/sessionv2/control.go:380-395` | until it is acknowledged an offer keeps its first deadline and its count of attempts over every run |
| `OfferLaws.OffersAreCounted` | `internal/sessionv2/control.go:468-520` | over every run the counter of an offer is the number of attempts made of it, whatever paths it went over, and never more than eight |
| `OfferLaws.LostOfferIsRepeated` | `internal/sessionv2/control.go:482-520` | a settled attempt with budget and time left is made again from its retry time on, on the next eligible path round about |
| `OfferLaws.DriveMeans` | `internal/sessionv2/control.go:482-520` | which offers a drive moves and where to: the first eligible path behind the carrier, round about; nothing else moves |
| `OfferLaws.AttemptMeans` | `internal/sessionv2/control.go:468-480` | an attempt that settles puts the offer off for a quarter of a second, in which no drive touches it |
| `OfferLaws.BudgetMeans` | `internal/sessionv2/control.go:368-395` | when the acknowledgement of a budget puts the offer on that path: it carries it already, no path does, or nothing was offered yet |
| `OfferLaws.ExpireMeans` | `internal/sessionv2/control.go:523-561` | expireControl moves the offer exactly when no path carries it or the budget of its carrier is overdue |
| `OfferLaws.FailMeans` | `internal/sessionv2/controller.go:382-427` | FailPath moves the offer exactly when its carrier was bound to the failed binding and the offer is in time |
| `OfferLaws.PathLife` | `internal/sessionv2/control.go:138-561` | a path becomes usable by a commit and an acknowledged budget in time, and stops by the failure of its binding or a budget not acknowledged within five seconds; nothing else touches it |
| `ContextExchange.ExpireIsExact` | `internal/sessionv2/control.go:523-561` | expireControl fails exactly when the offer is late, or nothing is left that could make the Session usable |
| `ContextExchange.AdvanceIsExact` | `internal/sessionv2/controller.go:357-376` | Advance succeeds exactly when the offer is in time and the Session is making progress: a usable path, path work, or an offer under way |
| `ContextExchange.FailIsExact` | `internal/sessionv2/controller.go:382-427` | FailPath leaves a Session stranded without an error exactly when no path carries the offer already and the failed binding took the last path that was usable or might have become so |
| `ContextExchange.FailMayStrand` | `internal/sessionv2/controller.go:382-427` | such a run exists: FailPath answers without an error and nothing is left that could make the Session usable |
| `ContextExchange.StrandedIsReported` | `internal/sessionv2/controller.go:357-376` | a stranded Session stays stranded until a join begins or a sender comes back, and every Advance until then answers with an error |
| `ContextExchange.FailOnLateOffer` | `internal/sessionv2/controller.go:408-427` | a late offer is reported by FailPath exactly when its carrier fails and an eligible path is left, and by the next Advance in any case |
| `ContextExchange.Exchange.ExpireControl` | `internal/sessionv2/control.go:523-561` | ages every path, moves the offer and answers as the reference |
| `ContextExchange.Exchange.FailPath` | `internal/sessionv2/controller.go:382-428` | tears every path of the binding, moves the offer, drives and answers as the reference |
| `ContextExchange.Exchange.Drive` | `internal/sessionv2/controller.go:532-551` | moves a due offer to the next eligible path, in both send modes, and reports that an acknowledged Session has no path left |
| `ContextExchange.Exchange.Advance` | `internal/sessionv2/controller.go:357-376` | expires and, if that succeeds, drives |
| `ContextExchange.Exchange.StartEncoding` | `internal/sessionv2/control.go:380-395` | offers the context on a path within the first deadline, or reports that it has passed |
| `ContextExchange.Exchange.BudgetAcknowledged` | `internal/sessionv2/control.go:368-377` | a path whose budget is acknowledged takes the offer when it should carry it, and the answer is an error exactly when the offer is late |
| `ContextExchange.Exchange.ContextAcknowledged` | `internal/sessionv2/control.go:398-414` | ends the offer exactly while it is in time |
| `Pacing.PacingBound` | `internal/sessionv2/control.go:452-466` | between any two packets of a path the bits sent before the last never exceed the rate |
| `Pacing.SerializationIsExact` | `internal/sessionv2/control.go:456-462` | the rounded-up division never overflows uint64 and is the least sufficient time |
| `Pacing.Path.Emit` | `internal/sessionv2/control.go:452-466` | sends exactly when the step has room and the rate has carried the packet before, to the nanosecond, and keeps the rate over the whole history |
| `Negotiation.SelectSucceedsIff` | `internal/negotiationv2/select.go:18-42` | Select succeeds exactly when both ends are valid, agree on protocol, layout, shards, mux, discovery, scope and repair, cover both required sets, and the listener has the path or, for Carrier budgets with fixed payloads, every path |
| `Negotiation.NarrowedIsValid` | `internal/negotiationv2/validate.go:14-95` | narrowing the listener profile to the common capabilities keeps it valid |
| `Negotiation.PathErrors` | `internal/negotiationv2/select.go:18-62` | a bootstrap path beyond the last path of the listener makes the answer itself invalid, any other path mismatch is incompatible: exactly |
| `Negotiation.AcceptAgreesWithSelect` | `internal/negotiationv2/select.go:48-71` | the client accepts every answer Select sends and gets an equal contract |
| `Negotiation.ContractIsSound` | `internal/negotiationv2/select.go:48-71` | selected capabilities were offered and known, required ones are active, and the path lies within the agreed paths |
| `Negotiation.ContractIsTight` | `internal/negotiationv2/select.go:48-71` | every shared limit of a contract is the lesser one of both ends, and a capability is active exactly when it is selected and applies |
| `Negotiation.SomeAgree` | `internal/negotiationv2/select.go:18-42` | two ends that agree although one offers more, and the path that keeps them from it |
| `Negotiation.EffectiveSendIsSound` | `internal/negotiationv2/select.go:80-124` | limits exist exactly for valid ceilings, never wrap around and respect both sides |
| `Negotiation.EffectiveSendIsTight` | `internal/negotiationv2/select.go:80-124` | each effective limit is the ceiling of the sender or what the peer takes, the lesser one |
| `AdvertisementCodec.ValuesRead` | `internal/negotiationv2/tlv.go:59-81` | every field is read back from where it was written |
| `AdvertisementCodec.ValuesWritten` | `internal/negotiationv2/tlv.go:96-126` | encoding what was read gives the same mandatory values byte for byte |
| `AdvertisementCodec.Decode` | `internal/negotiationv2/tlv.go:25-86` | returns an advertisement exactly when it is valid and these are its mandatory values, whatever optional extensions come along |
| `Octets.SplitJoin` | `internal/negotiationv2/tlv.go:55-59` | eight octets make one word of capability bits and come back from it unchanged |
| `AdvertisementCodec.AdvertisementFits` | `internal/negotiationv2/tlv.go:91-127` | the twelve values are canonical, 149 bytes in all, and pass the handshake codec |
| `Handshake.JoinAgrees` | `internal/handshakev2/dial.go:203-228` | over every run and every network a Session established by the client was established by the listener with the same transcript, and the contract it accepted is the one selected |
| `Handshake.UndisturbedJoins` | `internal/handshakev2/engine.go:297-382` | in every reachable world, one more attempt whose four packets arrive joins both ends on the contract that Select answers and wins its dial |
| `Handshake.JoinsInOrder` | `internal/handshakev2/dial.go:203-228` | the listener installs first, and the client never had that ID before |
| `Handshake.ServesOnce` | `internal/handshakev2/listener.go:98-118` | an installing FINISH is for an ID that was never installed, whatever expired or was repeated |
| `Handshake.OneInstallPerId` | `internal/handshakev2/engine.go:297-382` | no ID is established twice at either end |
| `Handshake.OneWinnerPerDial` | `internal/handshakev2/dial.go:213-226` | at most one attempt of a dial ever wins |
| `Handshake.EveryRunIsOk` | `internal/handshakev2/engine.go:297-382` | every step keeps the invariant of network, attempts and history |
| `Handshake.EveryRunCounts` | `internal/handshakev2/lifecycle.go:124-144` | pending of both engines and running of each dial are the numbers of unestablished attempts, and running never exceeds what was asked |
| `HandshakeEngine.QuietBetweenWakes` | `internal/handshakev2/lifecycle.go:17-43` | an attempt changes only at one of its own wake times |
| `HandshakeEngine.AdvancedIsOk` | `internal/handshakev2/lifecycle.go:171-214` | Advance sends a packet that is owed, exactly one, and nothing that is not; afterwards every wake time lies in the future and the attempt is within its budget |
| `HandshakeEngine.LostIsResent` | `internal/handshakev2/lifecycle.go:171-214` | an attempt that is never answered asks again once in every interval until its first phase has used up its packets, and ends at its deadline |
| `HandshakeEngine.ReceivedIsReplied` | `internal/handshakev2/engine.go:297-382` | every packet has exactly the effect that the state of its attempt gives it: an answer, a repeated answer, an end, or none |
| `HandshakeEngine.ExchangeEstablishes` | `internal/handshakev2/engine.go:297-382` | four packets in time establish both ends, whatever was spent on retries |
| `HandshakeEngine.LastPhaseStarts` | `internal/handshakev2/engine.go:230-241` | the budget never suppresses the first FINISH or READY |
| `HandshakeEngine.ReceivedIsOk` | `internal/handshakev2/engine.go:297-382` | a packet moves an attempt at most one state forward and what starts the last phase goes out |
| `HandshakeEngine.EngineIsBounded` | `internal/handshakev2/engine.go:230-241` | at most eight retried packets, seven in the first phase, and one CLOSE for every attempt there ever was, on a preparation or not; counters exact, ordinary attempts and preparations bounded |
| `HandshakeEngine.Engine.Send` | `internal/handshakev2/engine.go:230-241` | counts and reschedules a packet exactly when the budget and the time allow it |
| `HandshakeEngine.Engine.FailAttempt` | `internal/handshakev2/lifecycle.go:124-144` | removes one attempt with at most one CLOSE and keeps every counter; a prepared dial goes on only with a Carrier and time left |
| `HandshakeEngine.Engine.StartAttempt` | `internal/handshakev2/dial.go:64-114` | adds one attempt with its first HELLO, a fresh budget and a lifetime of its own, or adds nothing and ends at most its prepared dial |
| `HandshakeEngine.Engine.FillDial` | `internal/handshakev2/dial.go:116-127` | starts Carriers in order up to the asked concurrency |
| `HandshakeEngine.Engine.FillDials` | `internal/handshakev2/dial.go:129-148` | fills every dial and ends those without attempts |
| `HandshakeEngine.Engine.Advance` | `internal/handshakev2/lifecycle.go:171-214` | treats each attempt once: one that is over leaves, one that owes a packet sends exactly one, any other sends nothing; and leaves no wake time at or before now |
| `HandshakeEngine.Engine.NextDeadline` | `internal/handshakev2/lifecycle.go:17-43` | the least wake time of attempts and rejections, none exactly when there is no work |
| `HandshakeEngine.Engine.Handle` | `internal/handshakev2/engine.go:320-381` | one authenticated packet by role, state and deadline |
| `HandshakeEngine.Engine.Receive` | `internal/handshakev2/engine.go:297-382` | changes only the attempt of the packet, and the rivals of a winner |
| `HandshakeEngine.Engine.ReceiveHello` | `internal/handshakev2/listener.go:12-86` | answers a known HELLO, rejects, or opens exactly one new attempt, each in exactly its own case |
| `HandshakeEngine.Engine.Reject` | `internal/handshakev2/engine.go:384-416` | one REJECT for a HELLO in its lifetime, from a bounded cache |
| `HandshakeEngine.Engine.BeginDial` | `internal/handshakev2/dial.go:16-62` | registers a dial with at least one running attempt exactly when the request is sound and in time, a place is free and the first attempt can start; otherwise leaves none |
| `HandshakeEngine.Engine.CancelDial` | `internal/handshakev2/lifecycle.go:218-235` | ends the dial and exactly its unestablished attempts |
| `HandshakeEngine.Engine.CloseSession` | `internal/handshakev2/lifecycle.go:251-262` | ends one attempt or Session and fills the dials |
| `HandshakeEngine.Engine.PrepareDial` | `internal/handshakev2/prepared_dial.go:43-78` | counts one preparation more, within the shared limit |
| `HandshakeEngine.Engine.AbortPreparedDial` | `internal/handshakev2/prepared_dial.go:139-161` | counts one preparation less |
| `HandshakeEngine.Engine.BeginPreparedDial` | `internal/handshakev2/prepared_dial.go:85-133` | turns a waiting preparation into a dial with one running attempt, or leaves no dial |
| `HandshakeEngine.Engine.Close` | `internal/handshakev2/lifecycle.go:269-293` | ends everything and leaves nothing scheduled |
| `HandshakeEngine.Engine.Win` | `internal/handshakev2/dial.go:213-226` | establishes the attempt, ends its dial and fails its rivals |
| `HandshakeCredits.Reserve` | `internal/handshakev2/engine.go:178-219` | reserves all credits of an attempt exactly when the attempts and the ledger leave room for them, and otherwise none: a failure anywhere leaves usage, leases and scopes as they were |
| `HandshakeCredits.RoomIsExact` | `internal/handshakev2/engine.go:178-219` | that room, spelt out: an open Peer, a free scope and pending handshake, no empty initial claim, and bytes, leases, streams and accepts within each limit in all |
| `HandshakeCredits.Dispose` | `internal/handshakev2/prepared_dial.go:58-63` | undoing a reservation closes and retires its scope and returns exactly its leases, and no other scope changes |
| `HandshakeCredits.GrownAndGone` | `internal/handshakev2/engine.go:178-219` | a reservation followed by its disposal leaves the same credits |
| `HandshakeCustody.NothingLeaks` | `internal/handshakev2/prepared_dial.go:43-215` | in every reachable engine each live lease that it reserved has exactly one holder, an attempt in the table, a preparation that waits or carries an attempt, or a storage handed to its disposer, and a scope is handed over at most once, when its last other holder goes |
| `HandshakeCustody.ClosedIsDrained` | `internal/handshakev2/lifecycle.go:269-293` | once the release functions of a closed engine have run, no lease it ever reserved is left, every scope it began is handed over and closed, and has retired unless its Session still owns something there; the usage is that of others |
| `HandshakeCustody.ElsewhereKeeps` | `internal/creditv2/ledger.go:135-458` | an engine stays valid whatever others do to the ledger between two of its calls, Sessions reserving and transferring on its scopes included |
| `CreditHolders.OthersKeep` | `internal/creditv2/ledger.go:135-458` | whatever others do to the ledger between calls, reserving on its scopes, transferring leases of their own into and out of them, closing, releasing, shrinking or binding what is the engine's included, the engine still answers for exactly the leases it reserved |
| `HandshakeCustody.PendingIsLimited` | `internal/handshakev2/engine.go:178-181` | ordinary attempts and waiting preparations together never exceed MaxPending; each preparation that carries an attempt adds at most one |
| `AttemptTables.LimitIsExceeded` | `docs/design/v2-prepared-serial-dial.md:68-71` | the documented sum of pending and prepared attempts grows beyond MaxPending exactly when an attempt starts on a preparation while the sum is at the limit already |
| `AttemptTables.OthersKeepTheLimit` | `internal/handshakev2/prepared_dial.go:43-215` | no other step takes that sum further, and a new preparation needs room |
| `AttemptTables.LimitMayBeExceeded` | `internal/handshakev2/dial.go:64-148` | such a run: a prepared attempt fails, another dial takes the freed place first, and the preparation starts its next attempt all the same |
| `AttemptTables.RemovedLinked` | `internal/handshakev2/lifecycle.go:124-144` | an attempt that ends, recycled or disposed of, leaves counters, dials, preparations and holders linked |
| `AttemptTables.AddedLinked` | `internal/handshakev2/dial.go:64-114` | a started attempt keeps them linked, and at most one attempt runs on a preparation |
| `AttemptTables.InstalledLinked` | `internal/handshakev2/listener.go:120-143` | an installation moves the storage of a preparation to the attempt and ends the dial |
| `HandshakeCustody.Engine.PrepareDial` | `internal/handshakev2/prepared_dial.go:43-78` | reserves an attempt and the record of the preparation exactly when there is room for both, or fails with exactly the credits there were |
| `HandshakeCustody.Engine.BeginPreparedDial` | `internal/handshakev2/prepared_dial.go:85-133` | adopts a waiting preparation once: nothing changes before the checks pass, afterwards it carries a running attempt or is handed over |
| `HandshakeCustody.Engine.AbortPreparedDial` | `internal/handshakev2/prepared_dial.go:139-161` | retires a waiting preparation and is harmless when repeated |
| `HandshakeCustody.Engine.Retire` | `internal/handshakev2/prepared_dial.go:175-188` | hands a preparation over exactly once |
| `HandshakeCustody.Engine.FailAttempt` | `internal/handshakev2/lifecycle.go:124-144` | a recycled attempt leaves ledger and holders untouched, any other gives back or hands over exactly what it held |
| `HandshakeCustody.Engine.DisposeAttempt` | `internal/handshakev2/lifecycle.go:62-95` | exactly the holder of the attempt is settled, by the disposer of the attempt or preparation if it has one, and a prepared dial ends with it |
| `HandshakeCustody.Engine.HandOver` | `internal/handshakev2/lifecycle.go:73-90` | closes the scope, returns the packets, and passes the rest to a storage or returns it at once as the attempt has a disposer or not |
| `HandshakeCustody.Engine.ReleaseStorage` | `internal/handshakev2/disposal.go:18-30` | returns exactly what the storage holds, retires the scope as soon as its Session owns nothing there either, and keeps the engine valid; a repeated call does nothing |
| `HandshakeCustody.Engine.StartAttempt` | `internal/handshakev2/dial.go:64-114` | starts on storage of its own or of the preparation, and a failure leaves nothing behind but a retired preparation |
| `HandshakeCustody.Engine.FillDial` | `internal/handshakev2/dial.go:116-127` | starts Carriers in order; only disposing of a prepared attempt ends the dial |
| `HandshakeCustody.Engine.FillDials` | `internal/handshakev2/dial.go:129-148` | leaves no dial without a running attempt and retires the preparations of the others |
| `HandshakeCustody.Engine.BeginDial` | `internal/handshakev2/dial.go:16-62` | a dial starts exactly when the request is sound and in time, a place is free, and its first attempt gets an ID, credits and encodable values; otherwise it leaves no attempt and no dial |
| `HandshakeCustody.Engine.Install` | `internal/handshakev2/listener.go:120-143` | succeeds exactly when the scope is open and the installer accepts; records the disposer it returned even in failure; a scope that failed can never be recycled |
| `HandshakeCustody.Engine.Establish` | `internal/handshakev2/listener.go:135-142` | the attempt owns the storage from now on and its dial is over |
| `HandshakeCustody.Engine.ReceiveHello` | `internal/handshakev2/listener.go:12-86` | opens the attempt of a new HELLO exactly when credits and entropy are there, and no other |
| `HandshakeCustody.Engine.ReceiveFinish` | `internal/handshakev2/listener.go:98-118` | establishes the waiting attempt or hands its storage over |
| `HandshakeCustody.Engine.ReceiveReady` | `internal/handshakev2/dial.go:203-228` | establishes the attempt, ends its dial and every rival, or hands its storage over |
| `HandshakeCustody.Engine.End` | `internal/handshakev2/lifecycle.go:251-262` | ends this attempt and no other, hands it over unless it is recycled, and fills the dials |
| `HandshakeCustody.Engine.Advance` | `internal/handshakev2/lifecycle.go:171-214` | ends exactly the attempts and Sessions of closed scopes and the unestablished attempts that are due |
| `HandshakeCustody.Engine.Drain` | `internal/handshakev2/lifecycle.go:269-293` | after Close and every release function nothing the engine reserved is leased |
| `HandshakeCustody.Engine.CancelDial` | `internal/handshakev2/lifecycle.go:218-235` | ends the dial and exactly its unestablished attempts |
| `HandshakeCustody.Engine.Close` | `internal/handshakev2/lifecycle.go:269-293` | nothing but storages waiting for their release is held, and nothing at all without disposers |
| `GroupCodec.ParseManifest` | `internal/fecv2/group.go:238-274` | accepts exactly the bytes of a canonical fragment list and returns that list |
| `GroupCodec.Encode` | `internal/fecv2/group.go:139-165` | lays out manifest and payloads, padded, as full shards, exactly for lists the context admits |
| `GroupCodec.Decode` | `internal/fecv2/group.go:181-236` | with a reliable library returns a list of fragments exactly when the shards are dataShards or more of the group Encode makes of it, parity checked; whatever it returns is a group of the announced size |
| `GroupCodec.Measure` | `internal/fecv2/group.go:101-121` | the logical size, exactly for lists the context admits |
| `GroupCodec.Trim` | `internal/fecv2/group.go:221-234` | the logical bytes, exactly when the rest of the data shards is zero |
| `Envelope.Open` | `internal/wirev2/envelope.go:14-73` | a packet opens exactly when it is the frame of an allowed header and body under a valid tag, and to those |
| `Envelope.Receive` | `internal/wirev2/established.go:34-80` | DecodeEstablished accepts exactly what AppendEstablished makes and returns it |
| `FecBundle.Encode` | `internal/wirev2/bundle.go:100-161` | encodes exactly the bundles that fit the contexts and the payload limit |
| `FecBundle.LayOut` | `internal/wirev2/bundle.go:130-160` | the writing loop at a moving offset fills the allocated body with exactly route, count and records, reserved bytes zero |
| `FecBundle.WriteRecord` | `internal/wirev2/bundle.go:151-159` | one record goes to its offset and nothing else changes |
| `FecBundle.Decode` | `internal/wirev2/bundle.go:169-237` | accepts exactly the encoded packets and returns their bundle, so encoding again gives the same bytes |
| `FecBundle.Cached` | `internal/wirev2/bundle.go:38-63` | the cached lookup answers as the lookup and holds at most one entry for each record |
| `SealedShards.ShardIsValid` | `internal/wirev2/bundle.go:65-81` | every shard of every sealed group is a valid record |
| `SealedShards.SingleRecordPacket` | `internal/wirev2/bundle.go:100-161` | one shard makes a packet of exactly ShardBytes + 94 bytes and fits exactly such budgets |
| `HandshakeCodec.Encode` | `internal/wirev2/handshake.go:12-30` | encodes exactly the valid messages, always as 512 bytes |
| `HandshakeCodec.Decode` | `internal/wirev2/handshake.go:35-78` | accepts exactly the encoded packets and returns their message |
| `HandshakeCodec.ReadTlvs` | `internal/wirev2/handshake.go:56-69` | reads a region into values exactly when it consists of at most sixteen whole ones |
| `HandshakeCodec.ValidateTlvs` | `internal/wirev2/handshake.go:104-151` | accepts exactly ordered, complete and well-formed value lists |
| `ReplayWindow.CountIsDone` | `internal/fec/replay_window.go:15-21` | the counter is the number of completed IDs in the window |
| `ReplayWindow.Window.Contains` | `internal/fec/replay_window.go:27-33` | true exactly for the remembered completed IDs |
| `ReplayWindow.Window.Admit` | `internal/fec/replay_window.go:37-62` | moves the top and forgets exactly the IDs that fall out |
| `ReplayWindow.Window.Complete` | `internal/fec/replay_window.go:64-76` | remembers the ID unless it is already behind the window |
| `BlockDecoder.Decoder.AddVerifiedShard` | `internal/fec/decoder.go:174-280` | sweeps, then answers or stores the shard, delivers a Packet ID at most once in its life, and answers shards of sent Datagrams neither with a conflict nor as undecodable |
| `BlockDecoder.EveryDeliveryIsTrue` | `internal/fec/decoder.go:174-280` | over the life of a decoder, if every shard fed to it belongs to the Datagram sent under its ID, everything it delivers is what was sent, each at most once |
| `BlockLaws.StepMeans` | `internal/fec/decoder.go:174-280` | each shard has exactly one answer, told by what was there before it: another length or other bytes than the block has, a repetition, an ID behind the window or delivered, no room, or a new shard, which waits or ends the block |
| `BlockDecoder.HonestShardsDeliver` | `internal/fec/decoder.go:220-279` | one shard of a sent Datagram never conflicts, and the completing shard delivers exactly the Datagram |
| `BlockDecoder.Decoder.SweepLocked` | `internal/fec/decoder.go:312-339` | the loop over the heap root removes exactly the blocks whose deadline has passed |
| `BlockDecoder.Decoder.Remove` | `internal/fec/decoder.go:341-349` | a block and its heap entry, found by its index, leave together |
| `BlockDecoder.Decoder.Finish` | `internal/fec/decoder.go:244-279` | delivers or gives up the block and removes it |
| `BlockDecoder.Decoder.Locate` | `internal/fec/decoder.go:186-232` | begins a block only for an ID that is neither too old, nor seen, nor beyond the limit |
| `BlockDecoder.Decoder.Close` | `internal/fec/decoder.go:385-407` | drops all blocks and zeroes both counters |
| `ExpiryHeap.EveryIndexIsTrue` | `internal/fec/expiry_heap.go:22-42` | after any push, pop or removal the index of every entry is the slot that holds it, and the root is the least entry |
| `ExpiryHeap.RootIsLeast` | `internal/fec/expiry_heap.go:15-20` | no entry of an ordered array comes before its root |
| `ExpiryHeap.Heap.Up` | `internal/fec/expiry_heap.go:15-26` | lifting one entry restores the order of the first n slots, moves no other entry out and keeps the indexes |
| `ExpiryHeap.Heap.Down` | `internal/fec/expiry_heap.go:15-26` | sinking one entry does so too, or reports that it has not moved |
| `ExpiryHeap.Heap.Push` | `internal/fec/expiry_heap.go:28-32` | adds exactly one entry and keeps order and indexes |
| `ExpiryHeap.Heap.Pop` | `internal/fec/expiry_heap.go:34-42` | removes exactly the least entry |
| `ExpiryHeap.Heap.Remove` | `internal/fec/decoder.go:341-349` | removes exactly the entry at an index, sinking or lifting what takes its place |
| `ExpiryHeap.Heap.Swap` | `internal/fec/expiry_heap.go:22-26` | trades two slots and corrects both indexes |
| `BlockCodec.ShardsFit` | `internal/fec/limits.go:37-98` | within derived limits no shard and no block overflows, and a block wastes less than a byte for each data shard |
| `BlockCodec.AnyShardsRecover` | `internal/fec/decoder.go:252-268` | any dataShards shards of a block give back its Datagram |
| `BlockCodec.Encoder.Encode` | `internal/fec/encoder.go:63-107` | every Packet ID is assigned once, in order, the last one too; a refused Datagram takes none |

## Left out

- Sockets, carriers, listeners, timers, contexts and the public Peer and Session objects: plumbing around the engines. Whether a sender is usable, which generation its transport has and what an attempt returned are parameters.
- Locks: every engine is already serialised, and each method is one step.
- HMAC, HKDF, SHA-256, entropy and Galois-field arithmetic: functions and freshness assumptions stand for them.
- Byte sizes taken from the memory layout of Go structures: charges are symbolic amounts.
- Statistics counters, snapshots and the clearing of buffers.
- Where one engine asks another one, its answer is an input: the ledger's answers in the queue, the receiver and the group table, the codec's and the reassembler's answers in the group table. The engines behind these answers are modelled on their own, and `DataPath` joins the table with the codec and the reassembler.
- AggregationQueue.Queue.Seal: reserves its output; sealing into the prepaid slot is `OutputSlot.Workspace.Seal`.
- Reassembly.Receiver.AddGroup: keeps the window as the reference history that `RecvWindow.Window` is proved to be, and the neighbour links in a map of their own instead of fields of each original.
- GroupTable.Groups.TakeRecord: keeps its window and links in the same way; that the lease cannot be shrunk after decoding is left out, since a group in the table has a live lease and retains part of what was charged.
- SendController.Controller.TakeOwnedControl: takes the path and the kind of packet as arguments; the rotating order in which ready control packets are visited is not modelled.
- PathProtocol.PathState.TakeJoin: packets of a wrong layout and a sender that cannot be captured are not part of this model.
- PathProtocol.PathState.ExpireControl: models the part of one path; what several paths and the offered context make of it, with the errors, is in `ContextExchange`.
- PathProtocol.PathState.FailPath: likewise.
- ContextExchange.Exchange.Drive: the packets of the exchange and the validation of a received context are not part of this model, and what became of an attempt to send is an input; the errors of the data half of drive belong to the queue.
- Handshake.JoinAgrees: models one client and one listener; other parties only add packets that authenticate under no key of these two.
- HandshakeEngine.Engine.Receive: takes whether a packet authenticates, matches its transcript and leads to an installation as inputs, and likewise what becomes of each attempt that is started; SessionIDs are serial numbers.
- HandshakeEngine.Engine.FailAttempt: takes as an input whether the scope of a preparation still waits; what happens to the credits is in `HandshakeCustody`, whose engine has no clock but dial deadlines and learns which attempts are due from its caller.
- HandshakeCustody.ElsewhereKeeps: nobody transfers a lease that the engine keeps a copy of; internal/creditv2/ledger.go:297-299 forbids that.
- FecBundle.Encode: keys are nonzero, one answer stands for all errors, and a destination buffer that overlaps the input is not modelled.
- BlockDecoder.Decoder.AddVerifiedShard: the completion cache that may be used in place of the replay window gives up lifetime at-most-once delivery and is left out.
- GroupCodec.Encode: builds the group as a sequence; that the shards share one allocation is not modelled.
- Pacing.Path.Emit: covers synchronous sending; pacing of owned sends after a path has changed gives no such bound.
- The deadline that the whole Controller reports to its caller, and its driving loop over several paths.
