# A verified model of in-network aggregation and of the tools around it

The repository is an ns-3 tree with a research module, `contrib/atp`, in which switches
aggregate the packets of training workers on their way to a parameter server. This project
models that protocol, and the tools and example programs of the tree that have an algorithm of
their own, and proves what they promise, for every input and every run.

## In-network aggregation (`Atp*.dfy`)

A worker packet carries two bitmaps: `bitmap1` names its branch (the edge switch it sits
below), `bitmap0` its index in that branch. A switch keeps a table of aggregator slots,
indexed by a hash of (job, sequence number), and either holds a packet back until its fan-in
is complete, or forwards it; retransmissions collect what is waiting and pass. The parameter
server turns the two bitmaps into one flat bitmap, merges what is incomplete, and hands a
(job, sequence number) to the application when every worker's bit is there.

- `AtpJobTree`: the tree of a job and the flat bitmap. A flat bit is set exactly for the
  workers that the two bitmaps name.
- `AtpSwitch`: the slot table as an object. Whatever packets a slot is given, it holds the union
  of their bits and lets exactly the one through that completes the fan-in; its occupancy
  counters are the numbers of slots held, through data packets and acknowledgements.
- `AtpReceiver`: the socket at the parameter server. For every list of arrivals, a key is
  delivered if and only if the arrivals for it cover all workers, and at most once.
- `AtpRxBuffer`: the receive buffer of that socket and its 32-bit count of free bytes.
- `AtpSystem`, `AtpSafety`, `AtpUnsafe`: workers with what their send queues hold, switches, a
  network that loses, repeats and reorders, and the server, as one state machine; hash, job
  shapes, the static route of each branch and the mode of each switch are arbitrary. Every run
  is sound (nothing is delivered twice, and nothing that some worker did not send) **if and only
  if** the configuration meets conditions that can be read off its routes and trees: two for the
  edge switches, and one for the core switches that aggregate hierarchically.
- `AtpAcks`: in every run a key is acknowledged if and only if it was delivered, and an
  acknowledgement leaves nothing of its key in a switch that it crosses.
- `AtpProgress`, `AtpLoss`: what can still be delivered. After every run, in every mode, a packet
  can be delivered if each worker still holds it or has its bit at the server. In a safe
  configuration, once all workers sent it and nothing of it is under way, this is also necessary.
  For every job there is a run after which a packet that all its workers sent is lost for good.
- `AtpSender`: the transmission buffer as an object, what a call sends and what a timeout sends
  again, and the exact states in which a sender stops for ever.

Bitmaps are sets of bit positions; shifts drop what leaves the 32 bits.

What the proofs show about the code:

- A retransmission still has edge identifier 0 when it leaves its edge switch without having
  met its slot. At a later switch that is the edge switch of another branch of the same job it
  is merged with that branch's bits, which are then read as bits of its own branch. The server
  delivers without a packet from some worker. `AtpUnsafe.MixedRun` is the run.
- A packet of a job with one branch has `bitmap1 == fullBitmap1` already, so any packet that
  was not aggregated counts as complete. With the trees of `main-experiment.cc` this concerns
  exactly the jobs with two or more workers that are all below one leaf
  (`AtpSystem.MistakenIffOneLeaf`, `AtpUnsafe.MistakenRun`).
- A retransmission whose own bit is already in its slot empties the slot and goes on alone: the
  bits of the others that waited there are lost (`AtpSwitch.RetransmissionGoesOn`).
- With hierarchical aggregation the same mix-up happens in the core switch: its slots hold
  branch numbers, and a retransmission takes them along as worker indices of its own branch
  (`AtpUnsafe.HierarchicalRun`). If one switch is the core switch of all branches, it is safe
  exactly when no job of two branches or more has a branch with two workers or more
  (`AtpUnsafe.OneCoreSafeIff`).
- A sender drops a packet when a later one is acknowledged, whether it arrived or not; it is sent
  once more, without the resend flag. It can be sent again exactly while it is in the queue
  (`AtpSender.CanResendIffKept`). If packet 1 is lost at all workers, packet 2 is delivered, and
  one worker's last copy of packet 1 is lost too, packet 1 can never be delivered although
  everybody sent it. `AtpLoss.LosingRun` is that run, for every safe configuration and every job;
  `AtpLoss.DeliverableIff` is the exact condition.
- The receive window expects number 0 first and numbering starts at 1: it never advances, and
  every number ever delivered stays in the out-of-order set (`AtpReceiver.WindowNeverAdvances`).
- The receive-buffer test (`contrib/atp/model/atp-socket.cc:1009` and `:1105`) compares an
  unsigned difference with zero: every packet is stored (`AtpRxBuffer.RxBuffer.StorePacket`).
  The unread bytes stay within the buffer exactly if every packet finds room by the buffer's
  own count (`AtpRxBuffer.WithinIffRoom`); unread packets of any size exceed it
  (`AtpRxBuffer.Overfilled`). The packet sink of the module reads at once, so only a packet
  larger than the whole buffer does.
- The waiting packets of a sender fit in its buffer in all runs exactly if the largest packet
  size and the buffer size do not wrap 32 bits together (`AtpSender.FitsIffNoWrap`).
- An acknowledgement that overtakes the oldest packet drops all older ones from the sent queue
  after one more transmission. If that empties the queue while the window is used up, no later
  event opens the window again: the sender stalls. `AtpSender.StallsExactlyWhen` gives the
  event, `AtpSender.CanSendIffNotStalled` shows that nothing else stops it.

## The tools

- `TypeWalk`, `SimpleWalks`: the gathering of configuration paths in
  `utils/print-introspected-doxygen.cc`. One entry for each walk through the labelled graph of
  types that visits no type twice, and nothing else, in depth first order; read off the type
  system, a path is listed exactly if attributes, children and aggregations spell it.
- `Dispatcher`, `DispatcherRuns`, `Collector`: the parallel dispatcher of `test.py` as a state
  machine over the steps of its threads, and its bookkeeping. Safety, absence of deadlock, a
  bound on the length of every run, which jobs are executed (exactly once, unless they are
  skipped or decided about after an interrupt), and what is true at the end. With no worker and
  something to do it never finishes.
- `PyStrings`, `LinePass`, `StyleFix`: the white space, tabs and license passes of
  `utils/check-style-clang-format.py`. One fixing run is enough for every file and every choice
  of the three, although expanding a tab can turn a line into a format guard
  (`StyleFix.TabMakesGuard`).
- `DependencyOrder`: the loading order in `bindings/python/ns__init__.py`, for arbitrary
  dependency maps. The round of a module is its longest chain of dependencies; the recursion
  ends exactly if every module is well-founded.
- `NodePath`, `Tracers`: the node number in the trace paths of
  `examples/tcp/tcp-variants-comparison.cc`, printed and parsed again, and the paired traces.
- `LargeTransfer`, `Welford`, `JainIndex`, `Timeline`, `ScaleTicks`: the resumable writer, the
  one-pass statistics over exact reals, the fairness index over 64-bit integers, and the window
  queries and the scale of the timeline viewer.

`Sequences`, `MachineWords` and `Wrappers` hold what several modules share.

Clocks, socket behaviour, the type registry, exit codes of test programs and the contents of
files are parameters. Where an operation fails or loops for ever in the source, the model has a
result that says so.

## Model

| member | source | states |
|---|---|---|
| AtpJobTree.ConvertToFlatBitmap | contrib/atp/model/atp-socket.h:96-136 | The scan over the 32 positions with its running worker offset computes the flat bitmap, whose meaning is `FlatMeansWorkers` |
| AtpJobTree.BuildTree | contrib/atp/examples/main-experiment.cc:1059-1082 | The loop over the leaves builds the tree whose branches and expected bitmap are those of the job's fan-ins |
| AtpJobTree.PositionInjective | contrib/atp/model/atp-socket.h:96-136 | Distinct workers have distinct flat positions, all below the number of workers |
| AtpJobTree.WorkerAt | contrib/atp/model/atp-socket.h:96-136 | Every flat position below the number of workers belongs to a worker |
| AtpJobTree.FlatStep | contrib/atp/model/atp-socket.h:114-132 | One position of the scan adds exactly the workers of that branch that the bitmaps name |
| AtpJobTree.FlatMeansWorkers | contrib/atp/model/atp-socket.h:96-136 | For every pair of bitmaps that is not fully aggregated, a worker's flat bit is set if and only if bitmap1 names its branch and bitmap0 its index, and there is no other bit |
| AtpJobTree.CompleteMeansAllWorkers | contrib/atp/model/atp-socket.h:143-146 | A flat bitmap equals the expected one if and only if it holds the bit of every worker |
| AtpSwitch.LiveSlotsUpdate | contrib/atp/model/atp-l4-protocol.cc:223-253 | Writing one slot changes a job's number of live slots by what the slot gains and loses |
| AtpSwitch.AckFrees | contrib/atp/model/atp-l4-protocol.cc:270-283 | An acknowledgement always goes on, and frees the slot if and only if its job and number hold it |
| AtpSwitch.ForwardedAsIs | contrib/atp/model/atp-l4-protocol.cc:284-290 | A packet that collided, or was aggregated in the single-layer mode, passes unchanged and leaves the slot alone |
| AtpSwitch.CollisionGoesOn | contrib/atp/model/atp-l4-protocol.cc:387-397 | A packet that finds the slot taken goes on with both flags set and all else unchanged, and leaves the slot alone |
| AtpSwitch.RetransmissionGoesOn | contrib/atp/model/atp-l4-protocol.cc:318-348 | A retransmission always goes on and empties the slot of its key and no other; before the first aggregation it takes along what waited there, unless its own bits are among it |
| AtpSwitch.SlotHoldsUnion | contrib/atp/model/atp-aggregator.cc:22-89 | For every list of packets of a key, in any order and with repetitions, the slot holds the union of their bits and counts those that brought a new one |
| AtpSwitch.LeavesWhenFull | contrib/atp/model/atp-aggregator.cc:56-88 | Exactly the packet that brings the count to the fan-in leaves the slot, naming the union of all, at the next level |
| AtpSwitch.Switch.constructor | contrib/atp/model/atp-l4-protocol.cc:64-78 | A new table is blank and its counters are exact, counting or not |
| AtpSwitch.Switch.Acquire | contrib/atp/model/atp-l4-protocol.cc:223-239 | If slots are counted, the job's counter grows by one, or starts at one; otherwise nothing changes |
| AtpSwitch.Switch.Release | contrib/atp/model/atp-l4-protocol.cc:241-253 | If slots are counted, the job's counter goes down by one unless it is absent or zero; no other changes |
| AtpSwitch.Switch.FilterPacket | contrib/atp/model/atp-l4-protocol.cc:255-301 | The new table and the forwarded packet, in all cases; an acknowledgement goes on and leaves its key's slot free; collisions are counted for each job; if slots are counted, every counter stays the number of slots its job holds, for data packets and for acknowledgements |
| AtpSwitch.Switch.ResetSlot | contrib/atp/model/atp-aggregator.cc:98-108 | One slot becomes blank and nothing else changes; the counters stay exact, whichever packet caused it |
| AtpSwitch.Switch.AggregatePacket | contrib/atp/model/atp-l4-protocol.cc:303-398 | Retransmission, free or matching slot, and collision: new slot, output packet and exact counters |
| AtpSwitch.Switch.ProcessPacket | contrib/atp/model/atp-aggregator.cc:22-89 | Duplicate, waiting and complete packets: new slot, output packet and exact counters |
| AtpReceiver.AdvanceKeeps | contrib/atp/model/atp-socket.cc:1148-1166 | Closing gaps in the window changes no number's being received, and leaves only numbers above the next expected one out of order |
| AtpReceiver.UpdateAddsOne | contrib/atp/model/atp-socket.cc:1134-1166 | Receiving a number adds exactly that number, and the duplicate test is exactly having received it |
| AtpReceiver.Socket.constructor | contrib/atp/model/atp-socket.h:351-357 | A new socket has received and delivered nothing |
| AtpReceiver.Socket.IsDuplicatePacket | contrib/atp/model/atp-socket.cc:1134-1146 | The verdict is the window's duplicate test, proved to be membership |
| AtpReceiver.Socket.UpdateRcvWindow | contrib/atp/model/atp-socket.cc:1148-1166 | The loop leaves the job's window updated by this number and all other windows unchanged |
| AtpReceiver.Socket.DeliverOnce | contrib/atp/model/atp-socket.cc:1004-1026 | A key already received changes nothing; any other is delivered and recorded |
| AtpReceiver.Socket.AggregatePacket | contrib/atp/model/atp-socket.cc:922-1041 | Merges an incomplete packet, and reports completion, delivers and forgets the key exactly when its bits are complete |
| AtpReceiver.Socket.ForwardUp | contrib/atp/model/atp-socket.cc:1043-1132 | New state and acknowledgement for every packet: unknown job, complete or incomplete; `AckedWhenComplete` says when it acknowledges |
| AtpReceiver.MergeEffect | contrib/atp/model/atp-socket.cc:922-1041 | The key is delivered exactly when it was already or its bits are now complete; otherwise old and new bits wait; nothing changes for another key |
| AtpReceiver.ArriveEffect | contrib/atp/model/atp-socket.cc:1043-1132 | The same for every packet and every key at once, in terms of the flat bits that the packet brings |
| AtpReceiver.AckedWhenComplete | contrib/atp/model/atp-socket.cc:972-1040 | A packet is acknowledged if and only if it completes its key, by itself or with what waits; the key has then been delivered |
| AtpReceiver.DeliveredInOrder | contrib/atp/model/atp-socket.cc:1103-1114 | What was handed over stays, in order, and at most the packet's own key is added |
| AtpReceiver.DeliveredIffCovered | contrib/atp/model/atp-socket.cc:922-1166 | For every list of arrivals, in any order and with repetitions, a key has been delivered if and only if the arrivals for it cover every worker, and never twice |
| AtpReceiver.WindowNeverAdvances | contrib/atp/model/atp-socket.h:351-357 | With numbers from 1 up the window stays at 0 and its out-of-order set is everything delivered |
| AtpRxBuffer.RxBuffer.constructor | contrib/atp/model/atp-socket.cc:66-68 | A new buffer is empty, and all of it is free |
| AtpRxBuffer.RxBuffer.StorePacket | contrib/atp/model/atp-socket.cc:1105-1120 | Every packet is stored, and the count drops by its size modulo 2^32 |
| AtpRxBuffer.RxBuffer.RecvFrom | contrib/atp/model/atp-socket.cc:457-480 | The first packet is taken if it fits the caller's limit, and its bytes are free again |
| AtpRxBuffer.NextCounted | contrib/atp/model/atp-socket.cc:473-473 | The count is what the unread bytes leave of the buffer, modulo 2^32, after every event |
| AtpRxBuffer.FirstInFirstOut | contrib/atp/model/atp-socket.cc:457-480 | In every run what was stored is read out in order, and the rest is still there |
| AtpRxBuffer.WithinIffRoom | contrib/atp/model/atp-socket.cc:1105-1120 | In every run the unread bytes stay within the buffer if and only if every stored packet finds room by the count |
| AtpRxBuffer.Overfilled | contrib/atp/model/atp-socket.cc:1105-1120 | A run of packets of any given size that exceeds the buffer |
| AtpRxBuffer.DrainedStaysWithin | contrib/atp/model/atp-packet-sink.cc:210-217 | With a reader that reads at once, the buffer is exceeded if and only if a single packet is larger than it |
| AtpSystem.MistakenIffOneLeaf | contrib/atp/examples/main-experiment.cc:1059-1063 | With one bit for each leaf, a raw packet is mistaken for a complete one exactly in jobs of several workers below a single leaf |
| AtpSafety.FullBits | contrib/atp/model/atp-aggregator.cc:62-64 | A count that reaches the fan-in means that every bit below it is set |
| AtpSafety.EdgeStep | contrib/atp/model/atp-l4-protocol.cc:303-398 | At its own edge switch, a worker's packet leaves slot and output naming only workers of its branch that sent, and all of them if it is complete |
| AtpSafety.TakesAlong | contrib/atp/model/atp-l4-protocol.cc:318-338 | In a safe configuration, what a retransmission takes along from a slot, at an edge or at a core switch, names no worker of its branch that did not send |
| AtpSafety.CoreProcess | contrib/atp/model/atp-aggregator.cc:22-89 | An aggregated packet adds its branch to the slot of its core switch, the first hierarchical switch on its route; a packet that completes there was sent by every worker |
| AtpSafety.LaterStep | contrib/atp/model/atp-l4-protocol.cc:255-398 | In a safe configuration a later switch, hierarchical or not, keeps what is known about packets and slots, whatever its slot holds |
| AtpSafety.FlatSent | contrib/atp/model/atp-socket.h:96-136 | In a safe configuration the flat bitmap of an arriving packet names only workers that sent it |
| AtpSafety.ServerStep | contrib/atp/model/atp-socket.cc:1043-1132 | An arrival keeps every delivered key sent by all workers, and every waiting bit sent by its worker |
| AtpSafety.Preserved | contrib/atp/model/atp-l4-protocol.cc:255-398 | Every event of the system keeps the invariant, in every mode |
| AtpSafety.SafeRunsAreSound | contrib/atp/model/atp-l4-protocol.cc:255-398 | In a safe configuration, single-layer or hierarchical, every state of every run is sound |
| AtpProgress.Hop | contrib/atp/model/atp-l4-protocol.cc:284-348 | Whatever the next switch holds, a resent packet passes it and still names its worker |
| AtpProgress.Retransmitted | contrib/atp/model/atp-l4-protocol.cc:318-348 | Whatever the switches on its route hold, a retransmission of what a worker still holds reaches the server and names the worker |
| AtpProgress.CanStillDeliver | contrib/atp/model/atp-l4-protocol.cc:318-348 | After every run in every mode, a packet is delivered by some continuation if each worker still holds it in its queue or has its bit at the server |
| AtpAcks.DeliveredIsAcked | contrib/atp/model/atp-socket.cc:1027-1033 | Whatever was delivered is acknowledged |
| AtpAcks.AckedIsDelivered | contrib/atp/model/atp-socket.cc:1035-1040 | Whatever is acknowledged was delivered, in every state of every run |
| AtpAcks.AckedIffDelivered | contrib/atp/model/atp-socket.cc:1095-1131 | In every state of every run, in every mode, a key is acknowledged if and only if it was delivered |
| AtpAcks.AckFreesSwitch | contrib/atp/model/atp-l4-protocol.cc:270-283 | After every run, an acknowledgement that crosses a switch leaves nothing of its key there and all other slots as they were |
| AtpLoss.WorkerFollowsSender | contrib/atp/model/atp-tx-buffer.cc:257-313 | An acknowledgement does to a worker of the system what it does to its transmission buffer: the same numbers kept, and exactly the same packets sent once more |
| AtpLoss.NextWithout | contrib/atp/model/atp-tx-buffer.cc:257-313 | A dropped packet stays dropped, and every event does the same as if it had never been sent |
| AtpLoss.GoneForGood | contrib/atp/model/atp-tx-buffer.cc:257-313 | In a safe configuration no continuation delivers a key of which a worker's packet is gone |
| AtpLoss.QuietWithout | contrib/atp/model/atp-tx-buffer.cc:257-313 | A dropped packet is gone when nothing of its key is in flight or in a slot and its bit is not at the server |
| AtpLoss.DeliverableIff | contrib/atp/model/atp-tx-buffer.cc:257-313 | In a safe configuration, once all workers sent a packet and nothing of it is under way, some continuation delivers it if and only if it was delivered or each worker still holds it or has its bit at the server |
| AtpLoss.DropFirst | contrib/atp/model/atp-tx-buffer.cc:270-296 | The acknowledgement of packet 2 makes a worker drop packet 1, whose last copy may be lost |
| AtpLoss.LosingRun | contrib/atp/model/atp-tx-buffer.cc:257-313 | For every safe configuration and every job, a run after which a packet that all workers sent can never be delivered |
| AtpUnsafe.MistakenRun | contrib/atp/model/atp-socket.h:108-111 | A run that delivers after one worker's packet, for every job in which a raw packet looks fully aggregated |
| AtpUnsafe.MixUp | contrib/atp/model/atp-l4-protocol.cc:318-338 | A retransmission of one branch leaves another branch's edge switch with that branch's bits as its own |
| AtpUnsafe.MixedRun | contrib/atp/model/atp-l4-protocol.cc:318-338 | A run that delivers without some worker, for every configuration in which such a crossing is possible |
| AtpUnsafe.DeliverWithout | contrib/atp/model/atp-socket.cc:922-1041 | One packet that wrongly names a silent worker suffices: with the others' retransmissions the server delivers |
| AtpUnsafe.SoundIffSafe | contrib/atp/model/atp-l4-protocol.cc:255-398 | For all static routes on which no branch's core switch is an edge switch of the same job, in every mode, every run is sound if and only if the edge switches and the core switches are safe |
| AtpUnsafe.SingleLayerSoundIffSafe | contrib/atp/model/atp-l4-protocol.cc:284-290 | In the single-layer mode, every run is sound if and only if the edge switches are safe |
| AtpUnsafe.OneCoreSafeIff | contrib/atp/model/atp-l4-protocol.cc:318-338 | If one switch is the core switch of all branches, it is safe exactly when no job of several branches has a branch of several workers |
| AtpUnsafe.WaitInCore | contrib/atp/model/atp-l4-protocol.cc:350-386 | The aggregated packet of a branch travels to its core switch and waits there as its branch number |
| AtpUnsafe.CoreMixUp | contrib/atp/model/atp-l4-protocol.cc:318-338 | In a hierarchical core switch a retransmission turns a branch number into a worker index |
| AtpUnsafe.HierarchicalRun | contrib/atp/model/atp-l4-protocol.cc:284-338 | A run that delivers without a worker, for every branch that crosses the core switch of another whose number is the index of one of its workers |
| AtpSender.TxBuffer.constructor | contrib/atp/model/atp-tx-buffer.cc:24-45 | A new buffer is empty, with the given size and window |
| AtpSender.TxBuffer.AddPacket | contrib/atp/model/atp-tx-buffer.cc:144-164 | Accepted exactly if the 32-bit sum of sizes fits; the new state in both cases |
| AtpSender.TxBuffer.SendPacket | contrib/atp/model/atp-tx-buffer.cc:200-224 | The oldest waiting packet moves to the sent queue and to the wire, if there is one |
| AtpSender.TxBuffer.SendWindowData | contrib/atp/model/atp-socket.cc:532-586 | The whole new state after a call; `SendsTheWindow` says what it is |
| AtpSender.TxBuffer.Retransmit | contrib/atp/model/atp-socket.cc:685-695 | The retransmission queue goes to the wire in order and is empty afterwards |
| AtpSender.TxBuffer.ProcessUnorderedAck | contrib/atp/model/atp-tx-buffer.cc:257-313 | Older packets go to the retransmission queue, newer ones stay, both in order; an older or equal number changes nothing |
| AtpSender.TxBuffer.ReceiveAck | contrib/atp/model/atp-socket.cc:738-820 | In-order and out-of-order acknowledgements: the whole new state |
| AtpSender.TxBuffer.CheckRetransmitTimeout | contrib/atp/model/atp-tx-buffer.cc:478-534 | Exactly the packets whose 32-bit age reached the timeout are sent again with the resend flag; the sent queue stays |
| AtpSender.AckForgets | contrib/atp/model/atp-tx-buffer.cc:226-313 | An acknowledgement drops every sent packet numbered at or below it, acknowledged or not; left bound and window change only if it is for the oldest |
| AtpSender.AckKept | contrib/atp/model/atp-tx-buffer.cc:226-313 | Exactly the numbers above an acknowledgement stay in the queue, and exactly the kept ones below it are sent once more, without the resend flag |
| AtpSender.NextFrames | contrib/atp/model/atp-tx-buffer.cc:257-313 | No event transmits a dropped packet, and none comes back into the queue |
| AtpSender.CanResendIffKept | contrib/atp/model/atp-tx-buffer.cc:478-534 | A packet that was sent can be transmitted again in some run if and only if it is still in the sent queue |
| AtpSender.DropIsReachable | contrib/atp/model/atp-tx-buffer.cc:257-313 | A run from a new socket that ends with two packets sent and none kept, although only the second was acknowledged |
| AtpSender.SendWindowKeeps | contrib/atp/model/atp-socket.cc:532-586 | Nothing beyond the window is sent, and nothing sent is taken back |
| AtpSender.SendsTheWindow | contrib/atp/model/atp-socket.cc:532-586 | A call sends exactly the waiting packets whose numbers the window allows, in order, stamped with the time; whatever still waits is beyond the window |
| AtpSender.TimesStay | contrib/atp/model/atp-tx-buffer.cc:216-218 | A packet keeps the time of its first transmission for as long as it is in the queue |
| AtpSender.ExpiredMembers | contrib/atp/model/atp-tx-buffer.cc:496-516 | A timeout sends again exactly the packets whose 32-bit age reached it, with the resend flag |
| AtpSender.InOrder | contrib/atp/model/atp-tx-buffer.cc:276-296 | Expired and overtaken packets go out in the order of their numbers, each once |
| AtpSender.RunKeeps | contrib/atp/model/atp-tx-buffer.cc:144-313 | In every run sent and waiting packets are numbered consecutively, and the byte count is that of the waiting ones modulo 2^32 |
| AtpSender.BufferNeverOverflows | contrib/atp/model/atp-tx-buffer.cc:144-164 | If no single size wraps the 32-bit test, the waiting packets fit in the buffer in every state of every run |
| AtpSender.WrapOverfills | contrib/atp/model/atp-tx-buffer.cc:149-153 | A run in which a size that wraps the test overfills the buffer |
| AtpSender.FitsIffNoWrap | contrib/atp/model/atp-tx-buffer.cc:144-164 | The waiting packets fit in all runs of packets up to a size if and only if that size and the buffer size do not wrap together |
| AtpSender.StallIsForever | contrib/atp/model/atp-socket.cc:738-820 | A stalled sender transmits nothing more, whatever events follow |
| AtpSender.StallsExactlyWhen | contrib/atp/model/atp-tx-buffer.cc:257-313 | A sender becomes stalled exactly at an acknowledgement that overtakes the oldest sent packet and reaches the newest while the window is used up |
| AtpSender.NotStalledCanSend | contrib/atp/model/atp-socket.cc:532-586 | From every other state, in-order acknowledgements lead to the transmission of the next packet |
| AtpSender.CanSendIffNotStalled | contrib/atp/model/atp-socket.cc:532-586 | A waiting packet can still be transmitted in some run if and only if the sender is not stalled |
| AtpSender.StallIsReachable | contrib/atp/model/atp-socket.cc:738-820 | A run from a new socket that ends stalled with a packet waiting |
| TypeWalk.AttributeEdgesAre | utils/print-introspected-doxygen.cc:446-486 | One edge for each pointer to another type than Object and each container of objects, in the order of the attributes, with its name and type |
| TypeWalk.ChildEdgesAre | utils/print-introspected-doxygen.cc:487-499 | One edge for each registered child, in the order of registration, with "$" and its name |
| TypeWalk.AggregateEdgesAre | utils/print-introspected-doxygen.cc:500-520 | One edge for each aggregation with the type at one end, in their order, to the other end |
| TypeWalk.EdgeIff | utils/print-introspected-doxygen.cc:446-520 | The edges out of a type are exactly the steps that attributes, children and aggregations name |
| TypeWalk.StaticInformation.RecordAggregationInfo | utils/print-introspected-doxygen.cc:318-338 | Both names known: the pair is recorded; otherwise the first unknown name is |
| TypeWalk.StaticInformation.GetCurrentPath | utils/print-introspected-doxygen.cc:350-360 | The segments joined, each after a slash |
| TypeWalk.StaticInformation.HasAlreadyBeenProcessed | utils/print-introspected-doxygen.cc:369-381 | The scan finds a type if and only if it is on the way |
| TypeWalk.StaticInformation.Get | utils/print-introspected-doxygen.cc:383-396 | The recorded paths of the type, in order |
| TypeWalk.StaticInformation.GatherFrom | utils/print-introspected-doxygen.cc:429-435 | Appends what one root contributes; both stacks are empty again |
| TypeWalk.StaticInformation.GatherAll | utils/print-introspected-doxygen.cc:576-580 | Appends the roots' contributions one after the other |
| TypeWalk.StaticInformation.DoGather | utils/print-introspected-doxygen.cc:437-521 | Terminates on every graph, cyclic ones included, keeps the ancestor stack free of repetitions, restores both stacks and appends the gathered entries |
| TypeWalk.StaticInformation.Visit | utils/print-introspected-doxygen.cc:466-471 | Push, recurse and pop along one edge |
| TypeWalk.StaticInformation.GatherAttributes | utils/print-introspected-doxygen.cc:446-486 | The attribute loop follows the pointer and container edges, except pointers to Object |
| TypeWalk.StaticInformation.GatherChildren | utils/print-introspected-doxygen.cc:487-499 | The loop over registered types follows the edges to the children |
| TypeWalk.StaticInformation.GatherAggregates | utils/print-introspected-doxygen.cc:500-520 | The loop over aggregations follows the edges to the other ends |
| SimpleWalks.RecordedIffSimple | utils/print-introspected-doxygen.cc:437-521 | A walk is recorded if and only if it visits no type twice and none on the way |
| SimpleWalks.RecordedOnce | utils/print-introspected-doxygen.cc:437-521 | No walk is recorded twice |
| SimpleWalks.EntriesFrom | utils/print-introspected-doxygen.cc:437-521 | Entry by entry, the output is the end and the path of the recorded walks |
| SimpleWalks.RecordedDepthFirst | utils/print-introspected-doxygen.cc:437-521 | The walks are recorded depth first: each before those that go on from it, earlier edges first |
| SimpleWalks.GatherIsExact | utils/print-introspected-doxygen.cc:437-521 | From every root of every graph, exactly one entry for each simple walk and nothing else, in depth first order |
| SimpleWalks.GetMeans | utils/print-introspected-doxygen.cc:383-396 | After any roots, a path is returned for a type if and only if a simple walk from one of them ends there and spells it |
| SimpleWalks.ListedIffPath | utils/print-introspected-doxygen.cc:383-521 | A path is returned for a type if and only if attributes, children and aggregations spell it along types without repetition from a root to that type |
| SimpleWalks.PathsToConcat | utils/print-introspected-doxygen.cc:383-396 | The paths of a type keep the order in which they were recorded |
| SimpleWalks.PathFromFront | utils/print-introspected-doxygen.cc:350-360 | A path is its segments from the first to the last, each after a slash |
| Dispatcher.Preserved | test.py:1079-1163 | Every step of every thread keeps the invariant |
| Dispatcher.EveryRunIsSafe | test.py:1079-1163 | In every interleaving each job is in at most one place and once, workers leave only with a sentinel, and sentinels are taken only after all real jobs |
| Dispatcher.NeverStuck | test.py:1929-1955 | With a worker, or nothing to do, some step other than an interrupt is always possible before the end |
| Dispatcher.EveryStepCounts | test.py:1079-1163 | Every step uses up some of a finite measure |
| Dispatcher.EveryRunIsFinite | test.py:1079-1163 | No run, interrupted anywhere or not, has more than 7 jobs + 8 workers + 1 steps |
| Dispatcher.EveryRunCompletes | test.py:1929-1955 | A run that cannot go on has collected each job exactly once, has empty queues, and every worker left with a sentinel of its own |
| DispatcherRuns.EveryJobRuns | test.py:1086-1163 | In every run that cannot go on, a job was executed exactly once if it is neither skipped nor marked, and never otherwise; it is marked if and only if a worker decided about it after the interrupt |
| DispatcherRuns.NoInterruptNoMark | test.py:1093-1096 | Without an interrupt no job is marked |
| DispatcherRuns.CollectedInOrder | test.py:1952-1953 | The jobs are collected in the order in which the workers put them out |
| Dispatcher.NeverFinishesWithoutWorkers | test.py:1615-1618 | With no worker and a job to do, no run finishes |
| Collector.UpdateFailed | test.py:1967-2098 | Each pop removes the current job, which is left in the list as often as its result says |
| Collector.CollectResults | test.py:1944-2104 | Counters and failed list of all results, and exit code 0 exactly if all passed or were skipped |
| Collector.CountersAddUp | test.py:1952-1988 | The five counters and the interrupted jobs account for every job |
| Collector.CountersMean | test.py:1962-1988 | Each counter is the number of jobs with its own condition on the job's fields |
| Collector.GoodIffAllCounted | test.py:2221-2224 | Passed and skipped add up to all jobs if and only if every job is good |
| Collector.FailedListCounts | test.py:1967-2104 | Each job is listed at most twice: twice exactly if it is a suite that returned nonzero without reporting success, never exactly if it was not executed or returned 0 and is an example or reported success |
| Collector.FailedListInOrder | test.py:1967-2104 | The failed jobs are listed in the order of collection |
| Collector.ExitCodeOfRun | test.py:2221-2224 | A complete run, however interleaved, exits with 0 if and only if no job was marked because of an interrupt and every job that is not skipped returned 0; without an interrupt none is marked |
| PyStrings.TabStop | utils/check-style-clang-format.py:682-684 | Wherever a tab stands on a line, it becomes one space or more up to the next multiple of four columns |
| PyStrings.AfterBreak | utils/check-style-clang-format.py:682-684 | After a line break the columns start again |
| PyStrings.ReadWritten | utils/check-style-clang-format.py:536-571 | Writing lines and reading them again gives the lines that are not empty |
| LinePass.CheckManuallyFile | utils/check-style-clang-format.py:512-573 | The verdict is the same in fix, verbose and early-exit modes; the file changes only in fix mode |
| LinePass.CheckLines | utils/check-style-clang-format.py:539-566 | The loop over the lines with its guard state: verdict and fixed lines |
| LinePass.CheckMeans | utils/check-style-clang-format.py:539-566 | A file is compliant if and only if every line that is a guard or not switched off is, and fixing replaces exactly the lines of that kind that are not |
| LinePass.FixedIsCompliant | utils/check-style-clang-format.py:539-571 | A fixed file is compliant, although the fix may make new guards |
| LinePass.FixKeepsPlain | utils/check-style-clang-format.py:366-376 | A later pass keeps what a check without guards achieved |
| LinePass.FixKeepsGuarded | utils/check-style-clang-format.py:366-376 | A later pass keeps what a check with guards achieved |
| LinePass.GuardedRegionUnchanged | utils/check-style-clang-format.py:541-552 | A line that is no guard, in a region switched off, stays as it is |
| StyleFix.CleanedIsClean | utils/check-style-clang-format.py:643-657 | The white space fix is compliant, keeps the line up to its trailing white space and ends it with a line break |
| StyleFix.ExpandedLine | utils/check-style-clang-format.py:680-692 | The tabs fix leaves no tab, keeps the text and the line break |
| StyleFix.ExpandedGuard | utils/check-style-clang-format.py:541-552 | Expanding the tabs of a guard leaves the same guard |
| StyleFix.ReplacedLine | utils/check-style-clang-format.py:732-746 | Replacing the core of a line changes nothing around it, and the new text is the new core |
| StyleFix.RelicensedLine | utils/check-style-clang-format.py:740-746 | The first license line becomes the SPDX line, and stays without tabs and trailing white space |
| StyleFix.LicenseFix | utils/check-style-clang-format.py:740-746 | The first license line has its text replaced in place, the others are emptied |
| StyleFix.WhatIsSubject | utils/check-style-clang-format.py:539-552 | The white space check looks at every line, the tabs and license checks at guards and at what is not switched off |
| StyleFix.OneRunIsEnough | utils/check-style-clang-format.py:366-376 | For every file and every choice of the three checks, one fixing run makes the next check run report compliance for each of them |
| StyleFix.InkIsKept | utils/check-style-clang-format.py:627-692 | The white space and tabs fixes keep every other character, in order |
| StyleFix.TabMakesGuard | utils/check-style-clang-format.py:680-684 | A line that is no guard and becomes one when its tab is expanded |
| DependencyOrder.ModulesThatCanBeLoaded | bindings/python/ns__init__.py:432-443 | The pending modules whose dependencies are all loaded, in order |
| DependencyOrder.RoundInPendingOrder | bindings/python/ns__init__.py:432-443 | A round keeps the order in which the modules were pending |
| DependencyOrder.LoadRound | bindings/python/ns__init__.py:452-457 | Removing and appending one by one moves exactly the modules of the round |
| DependencyOrder.Order | bindings/python/ns__init__.py:445-460 | The rounds, and whether the recursion ends: it does exactly if nothing is left |
| DependencyOrder.SortToDependencies | bindings/python/ns__init__.py:462-467 | The rounds one after the other |
| DependencyOrder.OneRound | bindings/python/ns__init__.py:452-457 | A round loads exactly the modules whose chains of dependencies have just become short enough |
| DependencyOrder.RoundsAreHeights | bindings/python/ns__init__.py:445-460 | Round j from any state on the way holds the modules of one height |
| DependencyOrder.FixedPoint | bindings/python/ns__init__.py:445-460 | When a round loads nothing, every module with bounded chains is loaded |
| DependencyOrder.WellFoundedIffBounded | bindings/python/ns__init__.py:432-460 | A module is well-founded if and only if its chains have a bounded length |
| DependencyOrder.LoadedIffWellFounded | bindings/python/ns__init__.py:432-460 | For every dependency map the modules ever loaded are the well-founded ones, and the recursion ends if and only if that is all of them |
| DependencyOrder.NoHigherRound | bindings/python/ns__init__.py:445-460 | After the last round no module with a longer chain is left |
| DependencyOrder.RoundIsLongestChain | bindings/python/ns__init__.py:432-460 | For every k, a module is in round k if and only if its longest chain has k links |
| DependencyOrder.SortedOrder | bindings/python/ns__init__.py:462-467 | The order is a permutation of the modules with each dependency before its dependents |
| LargeTransfer.OffsetPhase | examples/tcp/tcp-large-transfer.cc:40-45 | The reused buffer is in phase with the stream at every offset |
| LargeTransfer.Flow.constructor | examples/tcp/tcp-large-transfer.cc:94-99 | The buffer holds one write of the stream, and nothing has been sent |
| LargeTransfer.Flow.WriteUntilBufferFull | examples/tcp/tcp-large-transfer.cc:210-232 | Over every run of callbacks the socket has been given exactly a prefix of the stream, as far as its answers allow, within the total, and is closed only when all of it is out |
| LargeTransfer.GoesOnToTheEnd | examples/tcp/tcp-large-transfer.cc:213-227 | A callback sends at least a byte for each accepted write and stops only at an error, at the end of the stream or when the socket has no room |
| LargeTransfer.EagerSocket | examples/tcp/tcp-large-transfer.cc:213-227 | A socket that takes all it is offered gets full writes up to the end of the stream |
| Welford.DeviationsExpand | utils/bench-scheduler.cc:347-351 | The sum of squared deviations in terms of the sums of values and of squares |
| Welford.DeviationsNotNegative | utils/bench-scheduler.cc:347-351 | It is never negative |
| Welford.OneTurn | utils/bench-scheduler.cc:347-351 | The product of the two deltas is what the second moment has to grow by |
| Welford.Accumulate | utils/bench-scheduler.cc:347-351 | One use of the macro: the new average and moment |
| Welford.Turn | utils/bench-scheduler.cc:340-361 | One turn of the loop keeps average and moment those of the samples so far |
| Welford.Log | utils/bench-scheduler.cc:335-361 | The loop ends with the exact mean and the exact sum of squared deviations from it |
| JainIndex.IndexBounds | examples/tcp/dctcp-example.cc:180-186 | The square of the sum lies between the sum of squares and n times it, and reaches the upper end exactly if all flows are equal |
| JainIndex.NoWrap | examples/tcp/dctcp-example.cc:180-186 | For flows of at most B bytes with n*B below 2^32, no sum, square or product reaches 2^64 |
| JainIndex.Accumulate | examples/tcp/dctcp-example.cc:180-184 | The loop computes both sums modulo 2^64 |
| JainIndex.PrintFairness | examples/tcp/dctcp-example.cc:176-217 | Numerator and denominator are the exact ones, the index lies between 1/n and 1, and it is 1 exactly if all flows are equal |
| Timeline.SearchRange | utils/grid.py:113-130 | A range that holds the key, or -1 exactly if there is none |
| Timeline.GetRangesBounds | utils/grid.py:165-181 | Which ranges bound the slice, in all four cases; it is exact if and only if no end of the window falls in a gap that matters; with one end in a range it misses nothing |
| Timeline.SearchEvent | utils/grid.py:217-234 | The position of the key, or of the first later event |
| Timeline.GetEventsBounds | utils/grid.py:255-264 | The slice starts at the first event that is not before the window, holds its events and at most the first event after it, which it holds exactly if no event falls on the end |
| ScaleTicks.Layout | utils/grid.py:984-994 | The loop ends with a power of ten d such that the span is at most 10d and, unless d is 1, more than d; a span of one has no whole distance |
| ScaleTicks.Draw | utils/grid.py:1022-1034 | The ticks are exactly the multiples of the distance above the lower end and up to the upper one, in order |
| ScaleTicks.TickCount | utils/grid.py:1022-1034 | Between one and ten ticks are drawn |
| ScaleTicks.Scale | utils/grid.py:984-1034 | For every span of two or more: the power of ten, its multiples, and their number |
| NodePath.ValueOfString | examples/tcp/tcp-variants-comparison.cc:228-235 | The printed decimal digits have the value of the number |
| NodePath.ParsedIsPrinted | examples/tcp/tcp-variants-comparison.cc:68-74 | For every number of 64 bits and every rest of the path, the parsed number is the printed one cut to 32 bits |
| NodePath.StoulSigned | examples/tcp/tcp-variants-comparison.cc:73-73 | A minus sign negates modulo 2^64, a plus sign changes nothing |
| NodePath.StoulSkips | examples/tcp/tcp-variants-comparison.cc:73-73 | Leading white space is skipped, and what does not go on like a number is an error |
| NodePath.ContextsDiffer | examples/tcp/tcp-variants-comparison.cc:228-235 | Two nodes never have the same path, whatever follows their numbers |
| Tracers.Traces.constructor | examples/tcp/tcp-variants-comparison.cc:546-547 | Nothing has been traced for any node |
| Tracers.Traces.Write | examples/tcp/tcp-variants-comparison.cc:83-129 | Both tracers: the own side, the repeated value on the other side, and nothing for other nodes |
| Tracers.Traces.Trace | examples/tcp/tcp-variants-comparison.cc:83-129 | After every history of changes, flags, values and streams are those that the history says |
| Tracers.LastLineIsLatest | examples/tcp/tcp-variants-comparison.cc:83-129 | For every interleaving, a stream is empty until its kind occurs, and its last line holds the latest value |
| Tracers.StartsWithOldValue | examples/tcp/tcp-variants-comparison.cc:88-93 | A stream starts with the old value of its first change, at time 0, and then that change |
| Tracers.OneLineEach | examples/tcp/tcp-variants-comparison.cc:83-129 | Once its kind has occurred, a stream grows by one line for each report of the node, of either kind, with its time; so once both kinds have occurred, the two streams of a node grow in step |

## Left out

- The congestion controller and straggler detection (`contrib/atp/model/atp-tx-buffer.cc:315-452`): an in-order acknowledgement may set the window to any value from 1 up, so the results about the sender hold for every controller.
- Timestamps, waiting times, congestion marks, last-arrival bitmaps and payload bytes of packets: they do not decide what is aggregated or delivered.
- Header and tag serialisation, sockets, binding, routing tables and multicast addresses of the `contrib/atp` module: the routes are a parameter of the system.
- AtpSender.RunKeeps: packet numbers are unbounded; their wrap-around after 2^32 packets is not modelled.
- AtpReceiver.DeliveredIffCovered: sequence numbers are unbounded in the same way, job numbers are not limited to 8 bits, and packets without a tag or after shutdown of the receiving side are not arrivals.
- AtpJobTree.BuildTree: trees with more than 32 workers, or with 32 below one switch, are outside the model because the shifts of the source are undefined there.
- AtpUnsafe.SoundIffSafe: a branch whose core switch, the first hierarchical one on its route, is also an edge switch of the same job is not covered: such a slot mixes worker indices and branch numbers, and compares their number with two different fan-ins. The experiments that switch hierarchical aggregation on (`contrib/atp/examples/atp-v1-newtopo.cc:645-648` and its straggler variant) send every packet over one edge switch and then one core switch, which are apart.
- AtpLoss.DeliverableIff: the exact condition is given for states in which nothing of the packet is in flight or in a slot; what a copy under way can still achieve depends on the hash and on the other workers. The order in which a worker sends new packets, and its window, are left open here and are the subject of `AtpSender`.
- AtpProgress.CanStillDeliver: that delivery happens in the end is not claimed, since the network may lose everything.
- Collector.UpdateFailed: assumes that the result file of a suite can be opened; the source raises an exception if it cannot.
- Process launching, report files and option handling of `test.py`.
- The include-prefix and clang-format checks of the style script, which depend on the file system and on another program; file selection, parallel workers and newline translation of the script.
- DependencyOrder.Order: the endless recursion is modelled by the result `finished == false`; Python's recursion limit, which turns it into an exception, is not. Discovery of libraries and their links is a parameter.
- TypeWalk.StaticInformation.GatherFrom: the call of `Uniquefy` is left out because it works on a copy and has no effect on the recorded output.
- Welford.Log: floating-point rounding and the square root are left out; one of the six fields is modelled, the others are treated alike.
- JainIndex.PrintFairness: the throughput average and the printing are left out.
- Timeline.GetEventsBounds: the events have distinct times; the drawing code is left out.
- ScaleTicks.Layout: the quotient that is compared with one is exact; with spans of 10^16 and more the source's floating-point quotient can round to one.
- The other tracers of `examples/tcp/tcp-variants-comparison.cc`, which append one line each, and its configuration.
- The remaining example programs configure library objects and have no algorithm of their own.
