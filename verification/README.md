# Bicast: a verified model of the repair network

Bicast distributes data products from one publisher to many subscribers: by multicast and, for what
multicast loses, by requests in a peer-to-peer network. This project models the repair network and
the code below it, and proves what holds of all inputs and all runs. To verify it:

    dafny verify dfyconfig.toml

Code that changes objects is modelled by classes whose methods are proved against specification
functions; what the source promises is then proved about those functions, about transition systems
whose steps are the sections that the source's locks delimit, or about both.

| file | what it models |
|---|---|
| `Common.dfy` | fixed-width integers, sequences without duplicates, a little arithmetic |
| `RequestQueue.dfy` | a peer's queue of unanswered requests, a linked list threaded through a hash table, and the loops over it |
| `Bookkeeper.dfy` | a subscriber's index from data to candidate peers |
| `RequestLifecycle.dfy` | the life of a request across manager, bookkeeper and queues, as a transition system |
| `RequestEntries.dfy` | whose offers an entry lists, and that what is had is not requested |
| `RequestFaults.dfy` | what goes wrong in it: lost data, lost requests, the end of the process |
| `RequestLocks.dfy` | which waits on its locks end: reassignments, stops, requests on their way out of a queue |
| `RequestMgr.dfy` | the objects behind it, and the simulation between the two |
| `SrvrInfo.dfy`, `TierNetwork.dfy` | the tier rule, and tiers across the whole network as a distance protocol |
| `PeerSet.dfy` | the set of active peers under the interleavings of its threads |
| `Address.dfy` | Internet and socket addresses and their doubly dispatched order |
| `Tracker.dfy`, `TrackerRuns.dfy`, `TrackerMerge.dfy`, `TrackerImpl.dfy` | the tracker of P2P servers: order, runs, merging, the object |
| `HashSetQueue.dfy`, `Disposer.dfy` | the hash-set queue and the cache of open actions built on it |
| `ByteOrder.dfy`, `Codec.dfy`, `Messages.dfy` | byte order, times, and the encoding of all protocol data units |
| `Wire.dfy`, `WireLayout.dfy`, `Transport.dfy`, `RpcImpl.dfy` | decodability of streams, the bytes of each unit, and the reading and writing objects |
| `Segmentation.dfy`, `Backlog.dfy`, `ProdFile.dfy` | 32-bit segmentation, the loops over segments, and reassembly |
| `PeerConn.dfy` | the regrouping of sockets into connections of three |

## Main results

- **One owner.** In every reachable state a datum's request is outstanding at one peer at most, the
  front of the datum's candidate list (`SingleOwner`). Hence every push is of an absent request
  (`PushesAreFresh`), the links of each queue stay those of a list, and its loops end. Requests are
  conserved (`RequestsConserved`). What is had is not requested (`HadIsNotRequested`), and candidates are
  asked in the order of their offers (`CandidatesAreOffers`).
- **Tiers.** A tier is always the length of a walk to the publisher over connections that were made,
  and after quiescence the length of a shortest one (`TierSound`, `SettledTierIsDistance`,
  `SettledTierIsBounded`).
- **Progress.** In every reachable state, exactly when some run gets past a reassignment
  (`ReassignmentCompletesIff`), past the stop of a peer (`StopEndsIff`), and past a queued request
  (`TakenIff`, `ReassignedIsTakenIff`).
- **Bounds despite check-then-act.** In every interleaving, exceptions included, the counts of peers
  respect their maxima and agree with the set and with what is advertised (`BoundedPeers`); exactly
  when the three indexes agree (`AlwaysAgreesIff`, `IndexesAgreeIff`).
- **A set ordered by mutable keys** stays ordered by present knowledge, the best server first
  (`QueueIsOrdered`); a merge of
  trackers is last-writer-wins exactly if it fits (`MergeIsLastWriterWinsIff`); and exactly when a
  disconnected server stays out for its delay (`DisconnectedStaysOutIff`).
- **Least recently used.** The cache is the end of the sequence of actions by last use
  (`CacheIsLru`, `ByLastUseMeaning`).
- **Streams.** Any beginning of a stream makes exactly the calls of the units that it holds whole
  (`StreamDecodes`, `Delivered`), from one object to another (`Transmit`).
- **Segmentation.** Loops, counts and reassembly with 32-bit wrap-around, each with its exact
  condition (`SendProduct`, `BacklogEndsIff`, `SavesRebuild`, `CompleteWhenNewIff`).
- **Regrouping.** Whatever the interleaving, a connection consists of three sockets of one client, which
  is one Internet address and notice port, each in its place (`Regroups`, `ClientConnects`).

## Where the code falls short of its documentation

The model follows the code. Each of these is a theorem.

- A deadlock is reachable and permanent: `missed` holds the manager's lock while it takes the
  alternative peer's, and `processDatum` holds its peer's lock while it calls the manager
  (`DeadlockReachable`, `DeadlockIsPermanent`). So is one with a peer that is being stopped, whose lock
  is held while its readers are joined (`StopDeadlockReachable`).
- The stop of a peer can hang by itself, with one of its readers waiting for the lock whose holder joins
  it. The peer then is never drained or removed (`HangsIff`, `HungForever`, `HungNoticeReachable`,
  `HungDataReachable`).
- Removing a peer does not purge it from the candidate lists, because a peer's own set of notices is
  never filled. A removed candidate makes two lookups throw; afterwards an entry without a holder
  stays, and its datum is never requested again (`MissOrphansIff`, `MissOrphanReachable`,
  `DeliveryOrphansIff`, `DeliveryOrphanReachable`, `OrphanedForever`). During the draining of a queue
  nothing catches that exception, and the process ends (`CrashIff`, `CrashReachable`).
- An exception of saving a datum leaves such an entry, too, and the datum is not had
  (`DeliveryOrphansIff`, `UnsavedOrphanReachable`).
- A request that is reassigned to a peer whose queue was drained already is lost (`LatePushIsLost`,
  `LatePushReachable`, `ReassignedIsTakenIff`).
- The addition of a peer tells the active peers before it sets the two other indexes. If that throws,
  because the thread of some active peer has failed, then the new peer is in the set for good without
  a thread, the indexes disagree, and a manager that stops waits for it for ever
  (`AddedKeepsAgreementIff`, `IndexesAgreeIff`, `StrandedForever`, `StrandedReachable`).
- The set of peers distinguishes local addresses, its two companions do not (`AddedKeepsAgreementIff`).
- The tier is reconsidered when a peer leaves, but not when a peer sends that its own has become
  better; so the departure of a third party makes the difference (`RemovalChangesTierIff`,
  `RemovalKeepsTierUnlessTold`, `RemovalChangesTier`).
- Products may be promised up to 2^32 - 1 bytes, but the number of segments wraps around to zero once
  size plus segment size exceeds 2^32; a subscriber's file is then complete before it has anything
  (`NumSegsIff`, `LargestProduct`, `CompleteWhenNewIff`). The sending and notifying loops have bounds
  of their own (`SendProduct`, `BacklogEndsIff`).
- IPv4 addresses arrive reversed between machines of different byte order (`Inet4ArrivesIff`).
- A pending delay from an earlier disconnection ends a later quarantine early
  (`DisconnectedStaysOutIff`, `BringBack`).
- One connection whose identifiers are unreadable or incomplete ends the accepting of all others
  (`Regroups`).

## Assumptions

- An assertion of the source is a precondition, or an explicit outcome where it can fail.
- Times are `int64` nanoseconds, as the common library's system clock counts them. The time of a call
  is a parameter; it need not be monotonic. For the last second of the representable range the
  source's reading of a time overflows a signed integer; the model wraps around, as machines do.
- A reassignment's two locks are taken in two steps. The manager's object (`RequestMgr`) performs the
  second one once the lock is free.
- The multicast receiver and the repository enter as steps that make data present or absent at any
  time; whether saving, notifying or sending throws is a parameter of the step.
- A peer's notices, requests and data arrive each over its own connection. A peer is halted, or loses its
  connection, at any time; that its readers end when the connection is shut down is the step that ends
  its stop.
- Telling an active peer throws when a thread of that peer has failed and nobody has seen it yet; whether
  it does is a parameter of the step. During a removal nothing catches that exception, and the
  process ends.
- Identifiers of sockets that are no permutation of 0, 1 and 2 have undefined behaviour in the
  source; the model treats them like unreadable ones.
- Constructors that throw for a capacity of zero (tracker) or a segment size of zero (parameter
  vetting) are modelled for positive values only.

## Model

| member | source | states |
|---|---|---|
| RequestQueue.RepresentsUnique | main/p2p/Peer.cpp:909-939 | the link table, head and tail of a request queue determine the sequence of requests that they stand for |
| RequestQueue.PushKeepsListIffAbsent | main/p2p/Peer.cpp:937-945 | pushing appends to the list if and only if the request is absent; otherwise the links afterwards are those of no list at all |
| RequestQueue.RepeatedPushNeverDrains | main/p2p/Peer.cpp:937-992 | after the push of a request that is already queued, no number of link steps from the head ever reaches the end marker |
| RequestQueue.WalkVisits | main/p2p/Peer.cpp:978-992 | the link steps from the head visit each request once, in order, and then stop |
| RequestQueue.RequestQ.constructor | main/p2p/Peer.cpp:921-925 | a new queue stands for the empty sequence |
| RequestQueue.RequestQ.Push | main/p2p/Peer.cpp:937-945 | an absent request is appended and the size returned; a present one destroys the list |
| RequestQueue.RequestQ.Count | main/p2p/Peer.cpp:947-949 | one for a queued request, zero otherwise |
| RequestQueue.RequestQ.RemoveHead | main/p2p/Peer.cpp:959-968 | removes and returns the oldest request; on an empty queue it returns the unset request and changes nothing |
| RequestQueue.SubPeer.constructor | main/p2p/Peer.cpp:1075-1080 | a new peer has no unanswered requests |
| RequestQueue.SubPeer.ProcessDatum | main/p2p/Peer.cpp:1032-1053 | from a queue with the datum's request at index p, exactly those before it are reported as missed, in order, then the datum is delivered once and those after it stay; if reporting one of them throws, all after that one stay and nothing is delivered; an unrequested datum changes nothing |
| RequestQueue.SubPeer.DrainPending | main/p2p/Peer.cpp:978-992 | terminates, reports every request once, oldest first, and leaves the queue empty, unless reporting one throws: then the table stays as it was, the head is at that request, and what is left is a list only if it was the first |
| Bookkeeper.OfferedValid | main/p2p/Bookkeeper.cpp:295-317 | an offer keeps every candidate list free of duplicates and equal to its set; the first offer makes a list of one; a later one by a peer that is not listed adds just that peer, at the end, and one by a listed peer adds nothing |
| Bookkeeper.FrontDeclines | main/p2p/Bookkeeper.cpp:366-387 | when the front candidate declines, it leaves the set and the list and everybody else moves up |
| Bookkeeper.DeclineConsistentIff | main/p2p/Bookkeeper.cpp:366-387 | asking for an alternative keeps set and list consistent if and only if the asking peer is at the front or is no candidate |
| Bookkeeper.SubBookkeeper.constructor | main/p2p/Bookkeeper.cpp:206-225 | a new bookkeeper knows no peers and no data |
| Bookkeeper.SubBookkeeper.Add | main/p2p/Bookkeeper.cpp:411-416 | an unknown peer is recorded with rating zero; a known one is left as it is |
| Bookkeeper.SubBookkeeper.RequestOnNotice | main/p2p/Bookkeeper.cpp:295-317 | throws for an unknown peer; otherwise the datum is to be requested exactly when it had no entry, a peer that is not listed is appended, a listed one changes nothing, and no other entry changes |
| Bookkeeper.SubBookkeeper.Received | main/p2p/Bookkeeper.cpp:330-345 | a peer is credited with one exactly when it is among the datum's candidates, the largest rating wrapping around to zero; nobody else's rating changes |
| Bookkeeper.SubBookkeeper.EraseDatum | main/p2p/Bookkeeper.cpp:347-354 | the entry is erased exactly when every listed candidate is still known; otherwise the lookup throws and the entry stays |
| Bookkeeper.SubBookkeeper.GetAltPeer | main/p2p/Bookkeeper.cpp:366-387 | takes the asking peer out of the set, and off the list's front, and answers the new front |
| Bookkeeper.SubBookkeeper.ErasePeer | main/p2p/Bookkeeper.cpp:418-438 | the peer is forgotten but stays in every candidate list that names it |
| Bookkeeper.SubBookkeeper.GetWorstPeer | main/p2p/Bookkeeper.cpp:499-520 | answers a client-side peer with the least rating, or none exactly when all client-side ratings are zero or all are the largest number, with which the scan starts |
| RequestLifecycle.InitInv | main/p2p/P2pMgr.cpp:935-988 | the initial state meets the joint invariant of manager, bookkeeper and queues |
| RequestLifecycle.OwnInv | main/p2p/Peer.cpp:1032-1115 | what a thread of a peer does to that peer alone (notices, data, taking the oldest request, pushing a granted one, stopping, draining) keeps the invariant and what is outstanding |
| RequestLifecycle.OutsideInv | main/p2p/P2pMgr.cpp:85-106 | arrivals of peers, multicasts, data loss and the stop of the manager keep the invariant and what is outstanding |
| RequestLifecycle.PushPendingInv | main/p2p/P2pMgr.cpp:982-988 | the push of a reassigned request, whether or not sending it throws, keeps the invariant and what is outstanding |
| RequestLifecycle.FirstOfferInv | main/p2p/P2pMgr.cpp:1164-1183 | the first offer of a datum adds exactly its request to what is outstanding |
| RequestLifecycle.LaterOfferInv | main/p2p/P2pMgr.cpp:1164-1183 | a later offer leaves what is outstanding as it is |
| RequestLifecycle.ReporterIsFront | main/p2p/P2pMgr.cpp:1197-1216 | a peer that reports a miss is the datum's front candidate and its only holder |
| RequestLifecycle.ReportMissedInv | main/p2p/P2pMgr.cpp:1197-1216 | a reported miss keeps the invariant |
| RequestLifecycle.DeliverInv | main/p2p/P2pMgr.cpp:935-973 | a delivery keeps the invariant, whether or not saving or notifying throws |
| RequestLifecycle.RemovePeerInv | main/p2p/P2pMgr.cpp:112-135 | the removal of a stopped peer, with what is left in its queue, keeps the invariant |
| RequestLifecycle.StepInv | main/p2p/P2pMgr.cpp:935-988 | every step of every thread keeps the invariant; an entry disappears only with its outstanding request, and an existing entry without one does not get one |
| RequestLifecycle.SingleOwner | main/p2p/P2pMgr.cpp:1164-1216 | in every reachable state each datum is outstanding (queued, granted or in transit) at one peer at most, and that peer is the front of the datum's duplicate-free candidate list |
| RequestLifecycle.RequestsConserved | main/p2p/P2pMgr.cpp:935-988 | requests granted = outstanding + satisfied + abandoned, in every reachable state |
| RequestLifecycle.PushesAreFresh | main/p2p/Peer.cpp:1086-1115 | in every reachable state each request that is about to be pushed, granted or reassigned, is absent from the queue, and the links after the push are those of the extended list |
| RequestLifecycle.AnswersAreExpected | main/p2p/P2pMgr.cpp:953-967 | in every reachable state a datum that is about to be delivered names its peer as a candidate, so that it is never turned away as unexpected |
| RequestLifecycle.SearchSucceeds | main/p2p/Peer.cpp:1046-1052 | in every run, a thread that processes a datum finds its request before the queue is empty, whatever was pushed meanwhile |
| RequestLifecycle.StepOrderly | main/p2p/Peer.cpp:554-581 | every step keeps each queue worked on by one thread only: by the data reader until the peer has stopped and both readers are done, by the draining thread afterwards |
| RequestLifecycle.RunInv | main/p2p/P2pMgr.cpp:935-988 | every run keeps the joint invariant |
| RequestLifecycle.ReachableInv | main/p2p/P2pMgr.cpp:935-988 | every reachable state meets it |
| RequestEntries.HaveIff | main/p2p/P2pMgr.cpp:935-973 | a datum is had after a step if and only if it is multicast or saved by the step, or was had and is not lost by it |
| RequestEntries.ReadNoticeIff | main/node/Node.cpp:705-722 | a notice makes its reader ask the manager if and only if the datum is not had |
| RequestEntries.HadIsNotRequested | main/p2p/P2pMgr.cpp:1164-1183 | a datum that is had, and for which nobody holds a request or is about to ask, is not requested in any run that does not lose it, whoever announces it |
| RequestEntries.EntryStep | main/p2p/Bookkeeper.cpp:295-387 | as long as an entry stands, a step appends just the peer whose offer it records or strikes off just the first one, which is the one that misses the datum |
| RequestEntries.CandidatesAreOffers | main/p2p/Bookkeeper.cpp:295-387 | in every run, as long as an entry stands, its candidates are those listed at first and those that have offered since, in the order of their offers, without as many at the front as have declined |
| RequestEntries.OffersAreKept | main/p2p/Bookkeeper.cpp:309-316 | in every run, a peer that has offered a datum and not missed it since is a candidate for it as long as the entry stands |
| RequestEntries.AskingIsOffering | main/p2p/P2pMgr.cpp:1164-1183 | whoever asks the manager about a datum is a candidate for it afterwards, and is told to request it exactly when there was no entry |
| RequestFaults.OrphanedForever | main/p2p/Bookkeeper.cpp:303-310 | an entry whose request nobody holds stays so in every continuation: the datum is never requested again |
| RequestFaults.MissOrphansIff | main/p2p/P2pMgr.cpp:982-988 | a reported miss leaves such an entry exactly when the manager is stopping or the next candidate is absent or no longer active |
| RequestFaults.MissOrphanReachable | main/p2p/Bookkeeper.cpp:366-387 | a removed candidate orphans a missed request in a reachable state |
| RequestFaults.DeliveryOrphansIff | main/p2p/P2pMgr.cpp:953-967 | a delivered datum is saved exactly when it was had before or the manager is not stopping and saving does not throw; its entry stays without a holder exactly when the manager is stopping, saving or notifying throws, or a candidate is no longer active |
| RequestFaults.DeliveryOrphanReachable | main/p2p/Bookkeeper.cpp:347-354 | a removed candidate orphans a delivered datum in a reachable state, with nothing else going wrong |
| RequestFaults.UnsavedOrphanReachable | main/p2p/P2pMgr.cpp:953-967 | in a reachable state with all candidates active, a delivery whose saving throws leaves a datum that is not had and never requested again |
| RequestFaults.LatePushIsLost | main/p2p/P2pMgr.cpp:253-269 | a request that reaches a peer after its queue was drained is never answered or reassigned in any run: it waits until the peer is removed and is orphaned from then on |
| RequestFaults.LateStep | main/p2p/P2pMgr.cpp:253-269 | the only step that changes the lot of such a request is the removal of its peer, which orphans it |
| RequestFaults.RemovalOrphans | main/p2p/P2pMgr.cpp:112-135 | the removal of a peer orphans every request that is left in its queue |
| RequestFaults.LatePushReachable | main/p2p/P2pMgr.cpp:982-988 | such a request exists in a reachable state |
| RequestFaults.CrashIff | main/p2p/P2pMgr.cpp:253-269 | a step ends the process if and only if a draining thread, while the manager is not stopping, finds that the next of several candidates has been removed, or the sending of a request that it reassigned throws |
| RequestFaults.CrashReachable | main/p2p/P2pMgr.cpp:253-269 | the process ends in a reachable state, by the removal of a candidate and the draining of a queue |
| RequestLocks.DeadlockIsPermanent | main/p2p/P2pMgr.cpp:1197-1216 | from a state where a reassignment holds the manager's lock and waits for a peer whose lock's holder waits, or will wait, for the manager or for a reader that waits for either, no run changes the reassignment, the index, the set of peers or any count of requests |
| RequestLocks.DeadlockReachable | main/p2p/Peer.cpp:1046-1052 | such a state is reachable with the alternative's data reader in the midst of its queue |
| RequestLocks.StopDeadlockReachable | main/p2p/Peer.cpp:554-581 | such a state is reachable with an alternative that has no request outstanding but is being stopped: the thread that stops it holds its lock and joins a reader that waits for the manager |
| RequestLocks.ReassignmentCompletesIff | main/p2p/P2pMgr.cpp:982-988 | in every reachable state with a reassignment under way, some run completes it if and only if the alternative's lock is free, or its queue is being drained and is empty, or it is being stopped and neither of its readers is handling anything |
| RequestLocks.NoticeReaderWaits | main/p2p/Peer.cpp:1086-1174 | a notice reader of a running peer can always go on but for the manager's lock, to ask or tell it something, or the peer's, to push or store something |
| RequestLocks.DataReaderWaits | main/p2p/Peer.cpp:1032-1053 | so can a data reader, for the peer's lock before it searches the queue and for the manager's in each report and delivery |
| RequestLocks.ReaderEndsIff | main/p2p/PeerConn.cpp:217-236 | a data reader ends exactly with an unrequested datum, a removed next candidate, a failed sending of what is reassigned for it, or a delivery that throws; it gets back to rest exactly with a delivery that does not |
| RequestLocks.AfterReport | main/p2p/P2pMgr.cpp:1197-1216 | after a report the search goes on, unless a reassignment is under way or the lookup throws |
| RequestLocks.AfterPush | main/p2p/P2pMgr.cpp:982-988 | after a reassignment the search goes on, unless sending the request throws; the alternative's readers are left alone |
| RequestLocks.AfterDelivery | main/p2p/P2pMgr.cpp:935-973 | after a delivery nobody works on the queue, and the reader has ended or is at rest |
| RequestLocks.StopWaits | main/p2p/P2pMgr.cpp:253-269 | when a peer can be halted, stopped, drained and removed: a stopped one is drained before its removal unless the manager is stopping |
| RequestLocks.OthersWait | main/p2p/P2pMgr.cpp:85-106 | a peer is added, and the manager stops, whenever the manager's lock is free; nothing keeps multicast data from arriving |
| RequestLocks.HangsIff | main/p2p/Peer.cpp:315-321 | a step hangs a peer for good if and only if its stop begins while a reader is about to take the peer's lock, or during the stop a datum or server information arrives or a request is granted |
| RequestLocks.HungForever | main/p2p/PeerConn.cpp:267-275 | a peer that hangs stays active in every run, with all its requests, none of which is answered or reassigned |
| RequestLocks.HungNoticeReachable | main/p2p/Peer.cpp:1086-1115 | a peer hangs in a reachable state because of a granted request |
| RequestLocks.HungInfoReachable | main/p2p/Peer.cpp:590-597 | a peer hangs in a reachable state because of information on the remote server |
| RequestLocks.HungDataReachable | main/p2p/Peer.cpp:1032-1053 | a peer hangs in a reachable state because of a datum that it requested |
| RequestLocks.StopEndsIff | main/p2p/Peer.cpp:356-362 | in every reachable state, some run ends the stop of a peer if and only if the peer does not hang, no reader of it waits for a deadlocked manager, and, if the manager is stopping too, its notice reader is not about to be granted a datum that nobody else can come to be granted before |
| RequestLocks.AloneForever | main/p2p/P2pMgr.cpp:202-212 | in the last of these cases the stop never ends: the request is granted and the peer hangs |
| RequestLocks.TakenIff | main/p2p/Peer.cpp:1032-1053 | between reassignments, some run takes a queued request out of its queue, to report it as missed or to deliver its datum, if and only if its peer was not drained and does not hang; or, while the manager is stopping, the queue is not neglected |
| RequestLocks.NeglectedForever | main/p2p/P2pMgr.cpp:253-269 | while the manager is stopping, no run takes a request from a peer that is being stopped, has stopped without being drained, or has a data reader that has ended or is bound to |
| RequestLocks.ReassignedIsTakenIff | main/p2p/P2pMgr.cpp:982-988 | a reassigned request can be taken after its push if and only if sending it did not end the process and the alternative's queue had not been drained |
| RequestMgr.NoticedSimulates | main/p2p/P2pMgr.cpp:1164-1183 | the manager's answer to a notice is the transition system's step, on index and queues |
| RequestMgr.PushSimulates | main/p2p/Peer.cpp:1086-1115 | so is the push of a granted request, which the queue lacks in every reachable state |
| RequestMgr.PopSimulates | main/p2p/Peer.cpp:959-968 | so is taking the oldest request |
| RequestMgr.GiveUpSimulates | main/p2p/P2pMgr.cpp:1197-1216 | so is a miss without an active alternative |
| RequestMgr.MissSimulates | main/p2p/P2pMgr.cpp:982-988 | a miss with an alternative is two steps, whether or not sending throws, and in every reachable state the alternative's queue lacks the request |
| RequestMgr.PendingSimulates | main/p2p/P2pMgr.cpp:982-988 | the second part of a reassignment is the step that pushes it, and in every reachable state the alternative's queue lacks the request |
| RequestMgr.DeliverSimulates | main/p2p/P2pMgr.cpp:935-973 | a delivery, whether or not saving or notifying throws, is one step, and unless the manager is stopping it is expected in every reachable state |
| RequestMgr.SubP2pMgr.constructor | main/p2p/P2pMgr.cpp:1094-1108 | the objects start out as the transition system does |
| RequestMgr.SubP2pMgr.AddPeer | main/p2p/P2pMgr.cpp:85-106 | a new peer has an empty queue, and nothing else changes; a peer with a remote address that is known already takes the place of the other one, whose queue is lost, and the bookkeeper refuses it |
| RequestMgr.SubP2pMgr.RemovePeer | main/p2p/P2pMgr.cpp:112-135 | the peer's queue is dropped; the candidate lists go on naming it |
| RequestMgr.SubP2pMgr.RecvNotice | main/p2p/P2pMgr.cpp:1164-1183 | a peer that is known is to request a datum exactly if it has no entry, and is appended to the entry unless it is listed; an unknown one changes nothing |
| RequestMgr.SubP2pMgr.PushRequest | main/p2p/Peer.cpp:1086-1092 | an absent request is appended to the linked queue of one peer, and no other queue changes |
| RequestMgr.SubP2pMgr.TakeOldest | main/p2p/Peer.cpp:959-968 | the oldest request leaves the linked queue of one peer, and no other queue changes |
| RequestMgr.SubP2pMgr.MissedBy | main/p2p/P2pMgr.cpp:1197-1216 | the request moves to the next candidate's linked queue; throws exactly when that candidate has been removed or sending the request throws |
| RequestMgr.SubP2pMgr.RecvData | main/p2p/P2pMgr.cpp:935-973 | an expected datum is saved unless that throws, and its entry is forgotten unless saving, notifying or a removed candidate throws; any other datum changes nothing |
| RequestMgr.SubP2pMgr.ForgetDatum | main/p2p/Bookkeeper.cpp:347-354 | the entry goes exactly when no candidate has been removed |
| Address.NtohlInvolution | main/inet/InetAddr.cpp:421-424 | the byte-order translation of IPv4 addresses undoes itself |
| Address.Inet4LessIsBytewise | main/inet/InetAddr.cpp:421-424 | IPv4 addresses are ordered like their four bytes as written |
| Address.Inet4LessTotal | main/inet/InetAddr.cpp:421-424 | IPv4 addresses are totally ordered by their translated words |
| Address.BytesLessTotal | main/inet/InetAddr.cpp:714-724 | byte-wise order is total and irreflexive |
| Address.BytesLessTransitive | main/inet/InetAddr.cpp:952-962 | byte-wise order is transitive |
| Address.BytesLessMeaning | main/inet/InetAddr.cpp:714-724 | one string is before another if and only if it is a proper beginning of it or its byte is less where they first differ |
| Address.InetLessTotal | main/inet/InetAddr.cpp:411-443 | the doubly dispatched comparison of unset, IPv4, IPv6 and name addresses is total and asymmetric, and equality by the absence of an order is identity |
| Address.InetLessTransitive | main/inet/InetAddr.cpp:1125-1133 | it is transitive across all kinds of addresses |
| Address.KindsInOrder | main/inet/InetAddr.cpp:411-443 | unset addresses come first, then IPv4, IPv6 and names, and bytes decide within the last two kinds |
| Address.SockLessTotal | main/inet/SockAddr.cpp:111-117 | socket addresses, unset ones included, are strictly and totally ordered, with identity as the induced equality |
| Address.SockLessTransitive | main/inet/SockAddr.cpp:359-368 | that order is transitive |
| Address.SockLessMeaning | main/inet/SockAddr.cpp:111-117 | the unset socket address comes first; otherwise the Internet address decides, and then the port |
| SrvrInfo.RmtTierMeaning | main/p2p/P2pSrvrInfo.h:80-106 | an offered tier is valid exactly for remote tiers below the largest 16-bit one, is then one more, and is never zero |
| SrvrInfo.InfoRmtTier | main/p2p/P2pSrvrInfo.h:96-106 | what a server offers is one more than its own tier where that is representable, and invalid otherwise |
| SrvrInfo.LeastUnique | main/p2p/P2pMgr.cpp:1036-1046 | the tier that is left of a set of offers does not depend on their order |
| SrvrInfo.LeastAdopt | main/p2p/P2pMgr.cpp:1036-1046 | processing one more offer keeps the tier the least valid non-zero one of all |
| TierNetwork.TierSound | main/p2p/P2pMgr.cpp:1036-1046 | every valid tier held or in flight is the length of a walk of connections to the publisher that were made at some time, hence never below the hop distance |
| TierNetwork.TierIsLeastOffer | main/p2p/P2pMgr.cpp:1156-1162 | a subscriber's tier is positive and the least valid tier ever offered to it |
| TierNetwork.TierNeverRises | main/p2p/P2pMgr.cpp:1036-1046 | a valid tier stays valid and never rises, in every run |
| TierNetwork.SettledTierIsDistance | main/p2p/Peer.cpp:1082-1084 | once all tiers have been processed along all connections ever made, a tier is valid exactly when the publisher is reachable in a representable number of hops, and is then the shortest walk's length |
| TierNetwork.SettledTierIsBounded | main/p2p/Peer.cpp:1082-1084 | once the tiers have been processed along any symmetric set of connections, the existing ones for instance, a tier is at most the length of every representable walk over them, and is the length of some walk over connections ever made |
| TierNetwork.TierOutlivesConnection | main/p2p/P2pMgr.cpp:112-135 | "made at some time" cannot be strengthened to "still existing": a run in which a tier survives its only connection |
| TierNetwork.OfferArrives | main/p2p/P2pMgr.cpp:219-228 | over an existing connection a node can always be told its neighbour's present tier and has then been offered one more |
| TierNetwork.ConnectingTells | main/p2p/Peer.cpp:76-82 | upon connecting both nodes are told the other's tier |
| TierNetwork.ReceiveInv | main/p2p/P2pMgr.cpp:1156-1162 | processing a message keeps every tier the length of a walk and the least offer |
| TierNetwork.StepInv | main/p2p/P2pMgr.cpp:85-106 | so does every other step of the network |
| PeerSet.AgreementMeans | main/p2p/P2pMgr.cpp:85-106 | agreement of the indexes makes the remote addresses of the set, the map's keys and the bookkeeper's peers one set |
| PeerSet.AddedKeepsAgreementIff | main/p2p/P2pMgr.cpp:85-106 | adding a peer keeps the indexes in agreement if and only if its remote address is new to the map and telling the active peers, which comes before the two other indexes are set, does not throw |
| PeerSet.AlwaysAgreesIff | main/p2p/P2pMgr.cpp:85-106 | in every run the indexes have agreed throughout if and only if every addition so far was of a new remote address and was not broken off by an exception |
| PeerSet.IndexesAgreeIff | main/p2p/P2pMgr.cpp:85-106 | in every run with distinct remote addresses the indexes agree at present if and only if no addition was ever broken off: nothing repairs it |
| PeerSet.AgreementStep | main/p2p/P2pMgr.cpp:112-135 | no other step, removals included, makes agreeing indexes disagree |
| PeerSet.RegisteredStep | main/p2p/P2pMgr.cpp:279-284 | map and bookkeeper stay those of the peers with a running thread, and only a broken-off addition makes a peer without one |
| PeerSet.StrandedForever | main/p2p/P2pMgr.cpp:202-212 | a peer whose addition was broken off stays in the set in every continuation, so that a manager that stops waits for ever |
| PeerSet.StrandedReachable | main/p2p/Peer.cpp:374-384 | a run in which a peer with a new address is stranded and the indexes disagree |
| PeerSet.RemovalChangesTierIff | main/p2p/P2pMgr.cpp:120-130 | a removal changes the tier if and only if the manager is not stopping and some remaining peer's present offer is better |
| PeerSet.RemovalKeepsTierUnlessTold | main/p2p/Peer.cpp:590-597 | in every run a removal changes the tier only if a remaining peer has sent new information on its server since it was added |
| PeerSet.RemovalChangesTier | main/p2p/P2pMgr.cpp:120-130 | a run in which it does: a peer with tier 5 later sends tier 1, another one leaves, and the tier falls from 6 to 2 |
| PeerSet.AddedInv | main/p2p/P2pMgr.cpp:85-106 | an addition by a thread that saw room keeps counts and bounds, even if it is broken off |
| PeerSet.RemovedInv | main/p2p/P2pMgr.cpp:112-135 | so does a removal |
| PeerSet.RetoldInv | main/p2p/Peer.cpp:590-597 | so does new information from a peer on its server |
| PeerSet.BoundedPeers | main/p2p/P2pMgr.cpp:302-345 | in every interleaving of accepting, connecting, departing and exceptions, both counts stay within their maxima, and before stopping they are those of the set, and the advertised availability is the bound less the count |
| PeerSet.P2pMgr.constructor | main/p2p/P2pMgr.cpp:518-553 | a new manager has no peers, tier zero exactly if it is the publisher's, and full availability |
| PeerSet.P2pMgr.UpdateTier | main/p2p/P2pMgr.cpp:1036-1046 | a tier is adopted exactly when it is valid, non-zero and better; nothing else changes |
| PeerSet.P2pMgr.NotifySrvrInfo | main/p2p/P2pMgr.cpp:219-228 | exactly the active peers with a connection whose remote tier is not zero are told the availability that is left and the present time; it throws exactly when some active peer has failed, which clears one peer's exception and leaves those after it untold |
| PeerSet.P2pMgr.Fail | main/p2p/Peer.cpp:211-216 | a failed peer stays so until its exception is thrown |
| PeerSet.P2pMgr.Rethrow | main/p2p/Peer.cpp:571-580 | a peer's own thread throws, and so clears, the peer's exception |
| PeerSet.P2pMgr.AddPeer | main/p2p/P2pMgr.cpp:85-106 | how an addition ends and the new state, broken off or not; if it throws, one failure is cleared; everybody who listens, the added peer included, is told exactly if the tier or, with a server-side peer, the availability changed |
| PeerSet.P2pMgr.CountIn | main/p2p/P2pMgr.cpp:92-95 | counts, tier and availability after the arrival of a peer; everybody who listens is told exactly if the tier or, with a server-side peer, the availability changed |
| PeerSet.P2pMgr.RemovePeer | main/p2p/P2pMgr.cpp:112-135 | the new state after a removal; telling the remaining peers throws exactly when the tier or, with a server-side peer, the availability changed and one of them has failed; the removed peer is not told |
| PeerSet.P2pMgr.Uncount | main/p2p/P2pMgr.cpp:120-130 | counts, tier and availability after the departure of a peer, and exactly when telling the others throws |
| PeerSet.P2pMgr.Rescan | main/p2p/P2pMgr.cpp:124-127 | whatever the order of the scan, the tier afterwards is the least of the present one and all offers |
| PeerSet.P2pMgr.RecvNotice | main/p2p/P2pMgr.cpp:1156-1162 | a notice about a server gives a subscriber one more than the server's tier if that is representable and better than its own, or it has none, and leaves the tier as it is in every other case; it is passed on exactly when it does; that throws exactly when some active peer has failed |
| PeerSet.P2pMgr.RecvRmtInfo | main/p2p/Peer.cpp:590-597 | information on a remote server replaces the peer's remote tier, and is refused without an address |
| PeerSet.AddedCounts | main/p2p/P2pMgr.cpp:1048-1056 | an addition within the bounds, broken off or not, keeps counts and availability those of the set |
| PeerSet.RemovedCounts | main/p2p/P2pMgr.cpp:1048-1056 | so does a removal |
| PeerSet.NextInv | main/p2p/P2pMgr.cpp:302-345 | every step of every thread keeps counts, bounds and settled tiers |
| PeerSet.RunInv | main/p2p/P2pMgr.cpp:850-897 | so does every interleaving |
| Tracker.BeforeTotal | main/p2p/Tracker.cpp:57-80 | the queue's comparator is total over known servers: what it does not order is identical |
| Tracker.BeforeTransitive | main/p2p/Tracker.cpp:57-80 | it is transitive |
| Tracker.BeforeIsBetter | main/p2p/Tracker.cpp:57-80 | the comparator puts valid metrics first, then fewer hops to the publisher, then more free places, then later information, then the lesser address |
| Tracker.InsertSorts | main/p2p/Tracker.cpp:139-147 | insertion, guided by the comparator alone, keeps the queue strictly sorted and adds just the one server |
| Tracker.EraseSorts | main/p2p/Tracker.cpp:130-133 | erasure by the comparator keeps it sorted and removes just the one server |
| Tracker.CountCounts | main/p2p/Tracker.cpp:250-253 | membership by the comparator is membership |
| Tracker.SortedElsewhere | main/p2p/Tracker.cpp:252-253 | changing what is known about a server outside the queue leaves the queue sorted |
| Tracker.EndsOfQueue | main/p2p/Tracker.cpp:57-80 | the first of the queue is the best server in it by these criteria, and the last one the worst |
| Tracker.UpdateValid | main/p2p/Tracker.cpp:139-147 | an update, which changes a key of the ordered set, keeps it sorted because the key is out meanwhile |
| Tracker.RemoveValid | main/p2p/Tracker.cpp:130-133 | a removal keeps queue and map consistent and forgets just the one server |
| Tracker.TryAddValid | main/p2p/Tracker.cpp:227-265 | an addition keeps order, containment and capacity; a server that is known but not queued stays unqueued |
| Tracker.TryAddInfos | main/p2p/Tracker.cpp:227-265 | what is known after an addition: a new server, for which a full tracker forgets the worst one of its queue; or later information on a known server |
| Tracker.DisconnectedValid | main/p2p/Tracker.cpp:406-427 | a disconnection takes just its server out of the queue, dates its information, adds one to its free places if the local peer was the client (or sets them to one if its metrics are invalid), keeps its tier, and delays it |
| Tracker.RevealValid | main/p2p/Tracker.cpp:180-190 | the end of a delay puts a server back exactly if it is still known |
| Tracker.NextValid | main/p2p/Tracker.cpp:367-384 | handing out the next server removes just that one |
| TrackerRuns.StepInv | main/p2p/Tracker.cpp:227-265 | every operation keeps the tracker's invariant and capacity |
| TrackerRuns.QueueIsOrdered | main/p2p/Tracker.cpp:57-80 | in every reachable state each server of the queue is at least as good as all after it by present knowledge (valid metrics, hops, free places, time, address): the first is the best and the last, the one evicted, the worst; all queued servers are known, each under its own address, within the capacity |
| TrackerRuns.AddAllQueues | main/p2p/Tracker.cpp:466-491 | while every known server is queued, eviction's assertion cannot fail |
| TrackerRuns.ReadQueuesAll | main/p2p/Tracker.cpp:466-491 | after reading any stream the queue holds exactly the known servers and no delay is pending |
| TrackerRuns.DisconnectedStaysOutIff | main/p2p/Tracker.cpp:406-427 | a disconnected server stays out of the queue until its delay has passed, in every run without erasure and reading, if and only if the delay is not positive or no delay of that server that ends earlier was pending |
| TrackerRuns.BringBack | main/p2p/Tracker.cpp:155-196 | if one was, then ending delays, the earliest first, gets the server back into the queue before its time |
| TrackerRuns.RunInv | main/p2p/Tracker.cpp:227-265 | every run keeps the tracker's invariant |
| TrackerRuns.QuarantineStep | main/p2p/Tracker.cpp:246-258 | no step but erasure, reading or the end of a delay brings a quarantined server back |
| TrackerRuns.QuarantineRun | main/p2p/Tracker.cpp:155-196 | a quarantined server stays so in every run without these |
| TrackerMerge.MergedIdempotent | main/p2p/Tracker.cpp:345-358 | merging the same records again changes nothing |
| TrackerMerge.MergedIsLatest | main/p2p/Tracker.cpp:246-258 | a merge knows what either knows, and of two records on one server it has the later one, or its own upon a tie |
| TrackerMerge.MergedAssociative | main/p2p/Tracker.cpp:345-358 | merging is associative |
| TrackerMerge.MergedCommutesIff | main/p2p/Tracker.cpp:345-358 | merging commutes if and only if no two different records of one server have the same time |
| TrackerMerge.MergeAllAt | main/p2p/Tracker.cpp:256-262 | the effect of a merge on one server depends neither on order nor on repetition |
| TrackerMerge.AddAllMerges | main/p2p/Tracker.cpp:345-358 | additions within the capacity are additions to the bare map |
| TrackerMerge.MergeIsLastWriterWinsIff | main/p2p/Tracker.cpp:345-358 | in whatever order the records are added, the result is the last writer's record for every server if and only if the union fits the capacity |
| TrackerMerge.AddAllSnoc | main/p2p/Tracker.cpp:355-357 | adding one more record to a list continues where the list left off |
| TrackerImpl.Impl.constructor | main/p2p/Tracker.cpp:276-287 | a new tracker is empty |
| TrackerImpl.Impl.Update | main/p2p/Tracker.cpp:139-147 | replaces or creates a record and queues its server |
| TrackerImpl.Impl.Remove | main/p2p/Tracker.cpp:130-133 | forgets a server |
| TrackerImpl.Impl.TryAdd | main/p2p/Tracker.cpp:227-265 | succeeds exactly for unknown servers and later records; a full tracker gives up a server of its queue than which none in it is worse |
| TrackerImpl.Impl.InsertAll | main/p2p/Tracker.cpp:345-358 | merges another tracker in any order of its table, and nothing of itself; within the capacity the result is the last writer's for every server |
| TrackerImpl.Impl.GetNextAddr | main/p2p/Tracker.cpp:367-384 | hands out a server than which none in the queue is better, by metrics, hops, free places, time and address, unless the tracker was halted |
| TrackerImpl.Impl.Disconnected | main/p2p/Tracker.cpp:406-427 | answers whether the server is known and, if so, takes it out of the queue for the delay, with one more free place if the local peer was the client |
| TrackerImpl.Impl.EndDelay | main/p2p/Tracker.cpp:155-196 | the earliest delay that has passed ends |
| TrackerImpl.Impl.ReadFrom | main/p2p/Tracker.cpp:466-491 | what was known is replaced by the records read, all of them queued |
| HashSetQueue.SentinelsMarkTheEnds | main/misc/HashSetQueue.h:113-131 | with the default value not queued, it marks exactly the two ends and emptiness, and next and previous links undo each other |
| HashSetQueue.UnlinkedLinked | main/misc/HashSetQueue.h:177-202 | unlinking a value from any position leaves the links of the sequence without it |
| HashSetQueue.PoppedIsUnlinked | main/misc/HashSetQueue.h:153-166 | the different code of a pop leaves the links of the rest of the sequence |
| HashSetQueue.AppendedLinked | main/misc/HashSetQueue.h:113-131 | linking in an absent value leaves the links of the extended sequence |
| HashSetQueue.WithoutAt | main/misc/HashSetQueue.h:177-202 | what is left when a value is taken out of a duplicate-free sequence |
| HashSetQueue.HashSetQueue.constructor | main/misc/HashSetQueue.h:77-82 | a new queue is empty |
| HashSetQueue.HashSetQueue.Empty | main/misc/HashSetQueue.h:89-92 | tells whether the sequence is empty |
| HashSetQueue.HashSetQueue.Size | main/misc/HashSetQueue.h:98-101 | tells the sequence's length |
| HashSetQueue.HashSetQueue.Push | main/misc/HashSetQueue.h:113-131 | appends a value, or refuses one that is present |
| HashSetQueue.HashSetQueue.Front | main/misc/HashSetQueue.h:139-145 | the first value, or an exception |
| HashSetQueue.HashSetQueue.Pop | main/misc/HashSetQueue.h:153-166 | drops the first value, or throws |
| HashSetQueue.HashSetQueue.Erase | main/misc/HashSetQueue.h:177-202 | removes a value from wherever it is and tells whether it was there |
| Disposer.ByLastUseMeaning | main/disposer/Disposer.cpp:84-106 | the reference order holds each persistently used action once, by time of last use |
| Disposer.TouchLast | main/disposer/Disposer.cpp:101-102 | evicting before a use loses nothing that evicting after it would keep |
| Disposer.CacheIsLru | main/disposer/Disposer.cpp:84-106 | after any trace of uses the queue holds the most recently used distinct persistent actions, in order of last use, as many as the bound allows |
| Disposer.UsedStays | main/disposer/Disposer.cpp:118-143 | with a positive bound, no number of evictions down to one takes away the action just used |
| Disposer.Disposer.constructor | main/disposer/Disposer.cpp:237-247 | a new cache is empty |
| Disposer.Disposer.EraseLru | main/disposer/Disposer.cpp:70-73 | set and queue lose the same least recently used action |
| Disposer.Disposer.Touch | main/disposer/Disposer.cpp:91-99 | the used action becomes the last one, in set and queue alike |
| Disposer.Disposer.Evict | main/disposer/Disposer.cpp:101-102 | the loop terminates with the bound's many most recent actions, all of them for a negative bound |
| Disposer.Disposer.GetAction | main/disposer/Disposer.cpp:84-106 | one use as the specification says; set and queue hold the same actions |
| Disposer.Disposer.Process | main/disposer/Disposer.cpp:118-143 | the retry loop terminates, gives up exactly one action per failure but never the last one, and succeeds exactly if the attempt that would succeed comes before that |
| Disposer.Disposer.Dispose | main/disposer/Disposer.cpp:323-355 | a persistent action that is processed is never evicted meanwhile when the bound is at least one |
| Disposer.Disposer.UseAll | main/disposer/Disposer.cpp:84-106 | a trace of calls on the object ends with as many of the reference order's last actions as the bound says, or all if it is negative |
| ByteOrder.Sent16IsBigEndian | main/inet/Xprt.cpp:42-66 | on either kind of machine a 16-bit integer is sent in big-endian order |
| ByteOrder.Sent32IsBigEndian | main/inet/Xprt.cpp:42-66 | the same for 32 bits |
| ByteOrder.Sent64IsBigEndian | main/inet/Xprt.cpp:58-66 | the same for 64 bits, which are sent as two translated halves |
| ByteOrder.Received16IsBigEndian | main/inet/Xprt.cpp:78-81 | on either kind of machine two received bytes are read in big-endian order |
| ByteOrder.Received32IsBigEndian | main/inet/Xprt.cpp:83-86 | the same for four bytes |
| ByteOrder.Received64IsBigEndian | main/inet/Xprt.cpp:88-91 | the same for eight bytes |
| ByteOrder.ValueBig | main/inet/Xprt.cpp:297-306 | reading undoes writing, for integers of any width |
| ByteOrder.Inet4ArrivesIff | main/inet/InetAddr.cpp:569-581 | an IPv4 address arrives unchanged if and only if both machines have the same byte order or it reads the same backwards, because its word is in network order already |
| ByteOrder.Inet4Reversed | main/inet/InetAddr.cpp:569-581 | a concrete address that arrives reversed |
| Codec.TimePartsBack | main/inet/Xprt.cpp:216-225 | seconds and microseconds as sent recombine, with 64-bit wrap-around, to the time truncated toward zero to microseconds, before the epoch too |
| Codec.ArrivingIsExact | main/inet/Xprt.cpp:336-346 | a second trip loses nothing; a first one loses nothing exactly for whole microseconds |
| Codec.Arriving | main/inet/Xprt.cpp:336-346 | what arrives differs by less than a microsecond and never lies farther from the epoch |
| Codec.DecTimeBack | main/inet/Xprt.cpp:216-225 | reading what was written for a time gives that truncated time and leaves the rest of the stream |
| Codec.DecTimeExtends | main/inet/Xprt.cpp:336-346 | more bytes do not change what was read |
| Wire.DecInetBack | main/inet/InetAddr.cpp:1179-1210 | tagged addresses of all three kinds are read back |
| Wire.DecSockBack | main/inet/SockAddr.cpp:201-213 | socket addresses are read back |
| Wire.DecInfoBack | main/p2p/P2pSrvrInfo.cpp:49-70 | server information is read back, with its time truncated |
| Wire.DecManyBack | main/BicastProto.cpp:177-190 | a counted list of values is read back if each value is |
| Wire.DecTrackerBack | main/p2p/Tracker.cpp:444-458 | a tracker's records are read back in the order of writing |
| Wire.DecIdListBack | main/BicastProto.cpp:160-190 | a set's identifiers are read back |
| Wire.DecSegIdBack | main/BicastProto.cpp:105-117 | segment identifiers are read back |
| Wire.DecProdInfoBack | main/BicastProto.cpp:374-427 | product information is read back, its time exactly |
| Wire.DecDataSegBackIff | main/p2p/DataSeg.cpp:159-205 | a segment, whose length is not sent, is read back if and only if the receiver computes the sender's length |
| Wire.DecInfoExtends | main/p2p/P2pSrvrInfo.cpp:65-70 | more bytes do not change server information that was read |
| Wire.DecPayloadExtends | main/p2p/Rpc.cpp:147-226 | more bytes do not change any payload that was read |
| Wire.RecvBack | main/p2p/Rpc.cpp:247-254 | one reception of an encoded unit makes exactly the matching call with an equal payload and leaves the rest |
| Wire.BrokenOff | main/p2p/Rpc.cpp:247-254 | no proper beginning of an encoded unit is received as anything |
| Wire.StreamDecodes | main/p2p/PeerConn.cpp:217-236 | of any beginning of any stream of units of the eleven kinds, the reader makes the calls of the units that arrived whole, in order, and no others |
| Wire.WholeStreamDecodes | main/p2p/PeerConn.cpp:217-236 | a whole stream makes the calls of all its units, is consumed to the last byte, and ends without an exception |
| Wire.UniqueDecoding | main/p2p/Rpc.cpp:127-135 | streams with equal bytes have equal meanings |
| Wire.TrackerArrives | main/p2p/Tracker.cpp:466-491 | a tracker within the receiver's capacity arrives as the same table, times truncated, whatever the order of writing |
| WireLayout.ValueHead | main/inet/Xprt.cpp:42-66 | of an integer's bytes the first counts most |
| WireLayout.KindFirst | main/BicastProto.h:49-63 | every unit begins with the 16-bit number of its kind |
| WireLayout.PayloadLayout | main/p2p/Rpc.cpp:147-226 | the bytes that follow it, kind by kind |
| WireLayout.InetLayout | main/inet/InetAddr.cpp:1179-1210 | a tag, then the machine's word, sixteen bytes, or a length and a name |
| WireLayout.InfoLayout | main/p2p/P2pSrvrInfo.cpp:49-63 | address, port, tier, free places and time |
| WireLayout.TwosComplement | main/p2p/P2pSrvrInfo.cpp:53-62 | tier and free places are sent in two's complement |
| WireLayout.TimeLayout | main/inet/Xprt.cpp:216-225 | eight bytes of seconds, then four of microseconds |
| WireLayout.TimePartsMeaning | main/inet/Xprt.cpp:216-225 | signed seconds and fewer than a million microseconds to add to them make up the time as it arrives |
| WireLayout.SegIdLayout | main/BicastProto.cpp:105-110 | product, then offset |
| WireLayout.ProdInfoLayout | main/BicastProto.cpp:374-392 | product, length of the name, name, size, time of creation |
| WireLayout.DataSegLayout | main/p2p/DataSeg.cpp:159-172 | identifier, size of the product, data |
| WireLayout.IdsLayout | main/BicastProto.cpp:160-169 | identifiers of eight bytes each, in order |
| WireLayout.NoUnit | main/p2p/Rpc.cpp:220-226 | fewer than two bytes are a lost connection, a kind other than those from 1 to 11 throws, and a heartbeat makes no call |
| WireLayout.NoInetAddr | main/inet/InetAddr.cpp:1184-1210 | an address of an unknown kind, or one that breaks off after its tag, throws; any other is read |
| WireLayout.NoName | main/BicastProto.cpp:404-413 | a name of more than 4095 bytes throws, whether or not it has arrived |
| Transport.Xprt.Write | main/inet/Xprt.cpp:176-180 | all bytes get through, or a beginning of them when the connection is lost |
| Transport.Xprt.Read | main/inet/Xprt.cpp:288-291 | takes exactly the next bytes, or fails |
| Transport.Xprt.WriteU16 | main/inet/Xprt.cpp:187-192 | the translation of the machine at hand produces the encoding |
| Transport.Xprt.WriteU32 | main/inet/Xprt.cpp:187-192 | likewise |
| Transport.Xprt.WriteU64 | main/inet/Xprt.cpp:187-192 | likewise |
| Transport.Xprt.ReadU16 | main/inet/Xprt.cpp:298-305 | the translation of the machine at hand undoes the encoding |
| Transport.Xprt.ReadU32 | main/inet/Xprt.cpp:298-305 | likewise |
| Transport.Xprt.ReadU64 | main/inet/Xprt.cpp:298-305 | likewise |
| Transport.Xprt.WriteTime | main/inet/Xprt.cpp:216-225 | writes the encoding of a time |
| Transport.Xprt.ReadTime | main/inet/Xprt.cpp:336-346 | reads a time |
| Transport.WriteInet | main/inet/InetAddr.cpp:1179-1182 | writes a tagged address |
| Transport.ReadInet | main/inet/InetAddr.cpp:1184-1210 | reads a tagged address; a connection lost within it is an exception |
| Transport.WriteSock | main/inet/SockAddr.cpp:201-203 | writes a socket address |
| Transport.ReadSock | main/inet/SockAddr.cpp:211-213 | reads a socket address |
| Transport.WriteInfo | main/p2p/P2pSrvrInfo.cpp:49-63 | writes server information |
| Transport.ReadInfo | main/p2p/P2pSrvrInfo.cpp:65-70 | reads server information |
| Transport.WriteSegId | main/BicastProto.cpp:105-110 | writes a segment identifier |
| Transport.ReadSegId | main/BicastProto.cpp:112-117 | reads a segment identifier |
| Transport.WriteProdInfo | main/BicastProto.cpp:374-392 | writes product information |
| Transport.ReadProdInfo | main/BicastProto.cpp:400-427 | reads product information; a name that is too long is an exception |
| Transport.WriteDataSeg | main/p2p/DataSeg.cpp:159-172 | writes a segment |
| Transport.ReadDataSeg | main/p2p/DataSeg.cpp:180-207 | reads a segment of the computed length |
| Transport.WriteProdIds | main/BicastProto.cpp:160-169 | writes identifiers after their number, in order |
| Transport.IdsInOrder | main/BicastProto.cpp:160-169 | an iteration over a set yields every identifier once |
| Transport.ReadProdIds | main/BicastProto.cpp:177-190 | reads a set |
| Transport.Xprt.constructor | main/inet/Xprt.cpp:99-101 | nothing was sent yet |
| Transport.Xprt.WriteU8 | main/inet/Xprt.cpp:165-168 | writes one byte |
| Transport.Xprt.ReadU8 | main/inet/Xprt.cpp:274-280 | reads one byte |
| Transport.PartsOf | main/inet/Xprt.cpp:217-224 | the machine's arithmetic yields the specified seconds and microseconds |
| Transport.WriteString8 | main/inet/Xprt.cpp:201-208 | writes a short string after its length |
| Transport.ReadString8 | main/inet/Xprt.cpp:315-328 | reads a short string |
| Transport.WriteMetrics | main/p2p/P2pSrvrInfo.cpp:53-62 | writes tier, availability and time |
| Transport.ReadMetrics | main/p2p/P2pSrvrInfo.cpp:67-69 | reads tier, availability and time |
| Transport.ReadName | main/BicastProto.cpp:405-413 | reads a product's name, if it is not too long |
| RpcImpl.Delivered | main/p2p/PeerConn.cpp:217-236 | whatever part of what was sent gets through, between machines of either kind, makes the calls of the units that got through whole |
| RpcImpl.WriteTracker | main/p2p/Tracker.cpp:444-458 | writes the records after their number, in order |
| RpcImpl.InfosInOrder | main/p2p/Tracker.cpp:444-458 | an iteration over the table yields every record once |
| RpcImpl.ReadInfos | main/p2p/Tracker.cpp:466-489 | reads the records of a tracker |
| RpcImpl.Rpc.Send | main/p2p/Rpc.cpp:127-135 | writes a unit of any of the eleven kinds, or a proper part of it exactly when the connection is lost |
| RpcImpl.Rpc.SendAll | main/p2p/Peer.cpp:219-262 | writes units of any kinds until the connection is lost: a beginning of the encoded stream, all of it exactly when it is not |
| RpcImpl.Rpc.Transmit | main/p2p/PeerConn.cpp:217-236 | units of any kinds, sent by one object and read by another on a machine of any kind, make the calls of those that got through whole, in order, and of all if nothing was lost |
| RpcImpl.Rpc.SendTracker | main/p2p/Rpc.cpp:239-245 | sends a tracker as a unit: every record of its table once |
| RpcImpl.Rpc.RequestProds | main/p2p/Rpc.cpp:304-312 | sends a set of products as a unit: every identifier once |
| RpcImpl.Rpc.Dispatch | main/p2p/Rpc.cpp:147-226 | reads the payload for an identifier and makes the one call, or throws |
| RpcImpl.Rpc.Recv | main/p2p/Rpc.cpp:247-254 | one reception, on the object |
| RpcImpl.Rpc.RunReader | main/p2p/PeerConn.cpp:217-236 | terminates with exactly the calls of the decoded stream, and tells whether an exception ended it |
| RpcImpl.TrackerFrom | main/p2p/Tracker.cpp:476-490 | the tracker that results from the records read |
| RpcImpl.Rpc.WritePayload | main/p2p/Rpc.cpp:127-135 | writes the payload of each of the eleven kinds of unit |
| RpcImpl.Rpc.ProcessSrvrInfo | main/p2p/Rpc.cpp:164-173 | one call with the server information that was read |
| RpcImpl.Rpc.ProcessTracker | main/p2p/Rpc.cpp:174-183 | one call with the tracker that was read |
| RpcImpl.Rpc.ProcessSrvrNotice | main/p2p/Rpc.cpp:80-92 | one call with the notice that was read |
| RpcImpl.Rpc.ProcessProdNotice | main/p2p/Rpc.cpp:80-92 | one call with the notice that was read |
| RpcImpl.Rpc.ProcessSegNotice | main/p2p/Rpc.cpp:80-92 | one call with the notice that was read |
| RpcImpl.Rpc.ProcessHaveProds | main/p2p/Rpc.cpp:195-201 | one call with the set that was read |
| RpcImpl.Rpc.ProcessProdRequest | main/p2p/Rpc.cpp:55-68 | one call with the request that was read |
| RpcImpl.Rpc.ProcessSegRequest | main/p2p/Rpc.cpp:55-68 | one call with the request that was read |
| RpcImpl.Rpc.ProcessProdInfo | main/p2p/Rpc.cpp:105-116 | one call with the product information that was read |
| RpcImpl.Rpc.ProcessDataSeg | main/p2p/Rpc.cpp:105-116 | one call with the segment that was read |
| Segmentation.NumSegsIff | main/p2p/DataSeg.cpp:63-65 | the number of segments is right if and only if its 32-bit sum does not wrap around, and zero otherwise |
| Segmentation.LargestProduct | mainpage.md:11-12 | of the largest promised product the number of segments is right for segments of one byte only |
| Segmentation.SegIndexBijection | main/p2p/DataSeg.cpp:72-74 | the k-th offset is a legal one and has index k |
| Segmentation.VettedIsPiece | main/repository/ProdFile.cpp:125-132 | every legal offset is that of a piece |
| Segmentation.SizesSum | main/p2p/DataSeg.cpp:49-56 | the sizes of the segments add up to the product's, for all sizes |
| Segmentation.InPiece | main/p2p/DataSeg.cpp:49-56 | segments overlap nowhere: a byte is in the segment with its quotient only |
| Segmentation.AfterStep | main/node/Node.cpp:329-331 | where the sending loop stands after any number of steps, with 32-bit wrap-around |
| Segmentation.SendProduct | main/node/Node.cpp:329-331 | the loop sends the pieces in order and ends if and only if they add up, at full size, to less than 2^32 bytes; to more, and it throws after the last one; to exactly that, and it never ends |
| Segmentation.StartsOver | main/node/Node.cpp:329-331 | pieces that add up to exactly 2^32 bytes start over for ever |
| Backlog.Inverse | main/p2p/Peer.cpp:178-180 | an odd number has an inverse modulo every power of two |
| Backlog.BacklogEndsIff | main/p2p/Peer.cpp:178-180 | the notifying loop, which has no check, ends if and only if the product's size is at most 2^32 less the largest power of two that divides the segment size |
| Backlog.NotifySegments | main/p2p/Peer.cpp:178-180 | its notices are those of the wrapped offsets, and of the pieces, once each, if these add up to less than 2^32 bytes |
| Backlog.OffsetAtMost | main/p2p/Peer.cpp:178-180 | every wrapped offset is at most 2^32 less that power of two |
| Backlog.OffsetReaches | main/p2p/Peer.cpp:178-180 | and that offset is reached |
| ProdFile.SaveAgrees | main/repository/ProdFile.cpp:434-462 | saving a piece keeps all bytes that are right and makes its own right |
| ProdFile.SavesRebuild | main/repository/ProdFile.cpp:434-473 | whatever the order and repetitions, the file is complete exactly when every piece has been saved, and then it is the product |
| ProdFile.CompleteWhenNewIff | main/repository/ProdFile.cpp:470-473 | a new file is complete exactly for an empty product or one whose number of segments wraps around; then every segment is outside its table |
| ProdFile.SubProdFile.constructor | main/repository/ProdFile.cpp:392-415 | a new file is zero-filled and has no segments |
| ProdFile.SubProdFile.Save | main/repository/ProdFile.cpp:434-462 | the four outcomes of saving a segment and the file after each; unless the segment is saved, the file is as it was |
| ProdFile.ResultMeans | main/repository/ProdFile.cpp:125-132 | exactly when a segment is invalid, out of range or a duplicate, by its offset and length |
| ProdFile.SavedMeans | main/repository/ProdFile.cpp:434-462 | a saved segment replaces just its bytes and marks just its segment |
| ProdFile.SubProdFile.Complete | main/repository/ProdFile.cpp:470-473 | counting segments tells whether all are there |
| ProdFile.SaveValid | main/repository/ProdFile.cpp:434-462 | saving keeps the count that of the table |
| ProdFile.SavesAgree | main/repository/ProdFile.cpp:434-462 | after any saves exactly the saved pieces are there, and right |
| PeerConn.AssignedMatches | main/p2p/PeerConn.cpp:182-197 | three sockets make a connection if and only if each is in the place that its client gave it, whatever their order |
| PeerConn.KeysEqualIff | main/p2p/PeerConn.cpp:475-479 | sockets have one key if and only if they come from one Internet address and name one notice port |
| PeerConn.Regroups | main/p2p/PeerConn.cpp:534-554 | in every run, the admitted sockets of a client (one Internet address and notice port) are, in order, those of the client's completed groups of three and fewer than three that wait; each group is of one client; connections are made of the groups, each socket in its place; accepting goes on exactly while every group is complete; no more connections wait than may |
| PeerConn.ClientConnects | main/p2p/PeerConn.cpp:500-516 | a client's three admitted sockets, in any order and between any others, make exactly one connection, which consists of them; no other connection has a socket of the client |
| PeerConn.ArrivalsAdmitted | main/p2p/PeerConn.cpp:534-554 | as long as the server accepts and there is room, every socket that sent a port is admitted |
| PeerConn.PeerConnFactory.constructor | main/p2p/PeerConn.cpp:486-488 | a new factory has no entries |
| PeerConn.PeerConnFactory.Add | main/p2p/PeerConn.cpp:500-506 | the socket joins the entry with its key and no other; the answer tells whether that fills it |
| PeerConn.PeerConnFactory.Get | main/p2p/PeerConn.cpp:508-515 | a full entry is taken out whole |
| PeerConn.SetXprts | main/p2p/PeerConn.cpp:182-197 | the loop over identifiers finds the connection, or fails |
| PeerConn.PeerConnSrvr.constructor | main/p2p/PeerConn.cpp:591-613 | a new server has no connections |
| PeerConn.PeerConnSrvr.ProcessSock | main/p2p/PeerConn.cpp:534-554 | one socket, as the state machine says; it changes nothing exactly when accepting has ended, it sent no port, or too many connections wait |
| PeerConn.PeerConnSrvr.Accept | main/p2p/PeerConn.cpp:646-656 | the oldest connection is handed out once and is gone from the queue |
| PeerConn.ArriveKeepsAt | main/p2p/PeerConn.cpp:534-554 | an arriving socket is neither lost nor duplicated, for any key |
| PeerConn.ArriveInv | main/p2p/PeerConn.cpp:534-554 | an arrival keeps entries below three and connections those of the groups |
| PeerConn.TakeInv | main/p2p/PeerConn.cpp:646-656 | so does the acceptance of a connection |
| PeerConn.RunInv | main/p2p/PeerConn.cpp:556-576 | so does every run |

## Left out

- Sockets, poll loops, datagram buffering, name resolution and socket options: foreign calls. A
  transport is a sequence of bytes, with a limit after which the connection is lost.
- Thread creation, cancellation and semaphores: interleavings of atomic steps. Logging and the nesting
  of exceptions.
- The repository and the publisher's product files: data present or absent; of a subscriber's file
  its buffer and table only.
- The improvement of the set of peers (replacing the worst one): of it only the bookkeeper's choice.
- Multicast address ranges (section 1 of RFC 4607): single branches.
- The disposer's YAML, regular expressions and child processes: an action is an identity, a flag and
  an attempt that succeeds.
- `HashMapQueue`, `DelayQueue`, `FixedDelayQueue`, `MapOfLists`, `MemProd`: similar to what is modelled,
  unfinished or disabled.
- SHA-256 product identifiers and Ed25519 signatures: identifiers are opaque 64-bit values.
- The publisher's bookkeeper, run-time parameters, usage texts, file utilities: plumbing.
- Subscription information and its exchange when a subscriber starts: the same encodings once more.
- RequestLifecycle.Enabled: the bounds on the number of peers, which are those of `PeerSet`; a peer
  arrives at any time.
- RequestLifecycle.Apply: heartbeats, the limit on the sending side of a connection, and the message
  that carries a request to the remote peer are not steps, because they do not touch the indexes; that
  sending the message throws is an outcome of the step that sends it.
- PeerConn.SetXprts: identifiers that are repeated or above two, with which the source reads and writes
  outside its array or leaves a transport unset, are a clean failure here.
- PeerSet.Next: when the addition of a peer throws, what becomes of the adding thread is left open; it
  may look for room again or take no more steps.
- Transport.ReadDataSeg: the buffer of an empty segment, which stays unallocated in the source and
  makes the segment test invalid, is an empty sequence; no empty segment is ever sent.
- Messages.Sendable: sets and trackers of 2^32 entries or more, whose count would be truncated, are not
  covered.
- TrackerImpl.Impl.InsertAll: the order in which the two locks are taken is not modelled.
- Disposer.Disposer.Dispose: one matching pattern of a product; the loop over patterns repeats it.
