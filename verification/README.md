# The directory authority of the ZK mix network, modelled and proved

The program in `pki/server` is one of several directory authorities of a mix network. In every epoch each authority
registers the descriptor of its own node with an application chain, reads back the descriptors of all nodes, makes a
document out of them (a layering of the mixes, gateways, service nodes) and submits it; the chain adopts one document
per epoch, and everybody fetches and caches it. The same process still answers the messages of the voting protocol it
was derived from: votes, certificates with commits and reveals for a shared random value, reveals and signatures.

This project models that behaviour and proves what it guarantees.

* `Prelude`, `Pki` - stock definitions and the records. An identity is the 32-byte hash of an identity key, read as a
  number; that is the order in which Go compares the hashes.
* `Topology` - the two topology generators, loop by loop, against the functions that say which layering they compute;
  a Go run-time panic is the result `None`. `TopologyFacts` and `Retention` prove what these layerings are: where every
  node lands, the exact layer sizes, exactly when the generator panics, how much of the old layering is retained, and
  that the order of lists and maps does not matter. `Placement` says which node stands at which place of which layer, in
  terms of the order in which the reader draws. The random reader is an arbitrary function that hands out
  permutations.
* `Directory` - one authority of the ZK-PKI as a value and what each of its operations does to it. `Authority` holds
  the class whose fields these operations assign; each method is verified against its function. `Wakeups` says what a
  wakeup does, phase by phase, `Posts` what an upload of a descriptor does and where stored descriptors come from, and
  `Restoring` what a new process finds in its database.
* `Appchain` - any number of authorities, each with its own clock and with background fetches under way, stepping
  against one write-once chain. Wakeups may be arbitrarily late but never early; messages may get lost; nodes post
  whatever they like; processes restart at any time with any disk. `Safety` proves the invariant of all reachable
  states, `Guarantees` the theorems about them, `Provenance` where the descriptors in chain documents come from,
  `Lineage` how each chain document follows from the one before, `Schedule` what happens in runs whose wakeups are
  punctual, and `Rounds` how a document gets into the cache and that this decides how the round ends.
* `Viability` - the check for enough descriptors and the check of a topology, and what one says about the other.
* `SharedRandom`, `RandomValue` - the commit and reveal check and the value computed from it. Go visits maps in an
  arbitrary order; the orders are parameters and the theorems quantify over them. `Readings` says which entries of the
  certificates are looked at and what follows from each.
* `Tally`, `Quorums`, `Elections` - the tally of the votes, its independence of any order, quorum intersection for two
  authorities, and who exactly is elected.
* `Uploads`, `Interleavings` - the handlers for votes, certificates, reveals and signatures, and the invariants of
  their tables over any sequence of messages, changes of the voting epoch and prunings. `Replies` says which reply each
  message gets, and that whatever is stored was signed by its author.
* `Wire` - the role of a connection and the dispatch of its command.

Readings that matter:

* `AuthorityVoteDeadline` is a quarter of the period (`pki/server/state.go:66-67`). The line that says 3/8 in
  `pki/server/aux.go:37` is a comment, so the wait after a punctual vote is never positive and ends at once.
* An authority whose only signed blobs of an epoch are one commit and its reveal is not always among the accepted
  ones, although its own certificate is sound: another certificate can present the signed reveal in the place of the
  commit, and then both authors are discredited. `SharedRandom.HonestAuthorityExcluded` gives such certificates, and
  `SharedRandom.AlwaysAcceptedExactly` the exact condition under which an authority is accepted in every order.
* The check for enough descriptors promises a service node, but a descriptor that is both gateway and service node is
  listed among the gateways only, so the document may lack service nodes: `Viability.ServiceNodesMayBeMissing` says
  exactly when, `Viability.MissingServiceNodes` gives a case. The check of the topology is not affected.
* "A stored commit is never overwritten" is false. A commit outlives its vote, because pruning reaches votes but not
  commits; when the vote is gone and the voting epoch is still the same, another vote of the same author is accepted and
  its commit replaces the stored one. `Interleavings.CommitOverwritten` is such a run. `Interleavings.CommitChangesExactly`
  says exactly when it happens, and `Interleavings.CommitsAreFinal` that it never does before the epoch is pruned.
* Assumptions about the chain: an epoch has at most one document, which is one of the submitted ones
  (`pki/server/state_chain_comm.go:111`), and a redundant or late descriptor is rejected (`pki/server/aux.go:140-143`).
  The chain itself is not part of this model; redundancy is taken to be by identity.
* A restart finds any descriptors in the database but no documents: only the consensus of the voting protocol writes them
  (`pki/server/state.go:491`), and nothing calls it any more.
* A reveal is too short if its buffer is: the epoch is sliced off the verified bytes, and a slice may reach behind them
  (`pki/server/state.go:1507`). What lies there is a parameter.
* A run is punctual for an authority if each of its wakeups is at most d late and takes at most d, where sixteen times
  d + 1 is at most the period. The first wakeup of a process may fall anywhere in an epoch.
* In the system of several authorities, clocks read epochs from 3 to 2^64 - 4, so that the unsigned epoch arithmetic does
  not wrap around. The operations of one authority are modelled with the wrap-around.

## Model

| member | source | states |
|---|---|---|
| Prelude.BytesRoundTrip | pki/server/state.go:2211-2219 | reading the big-endian bytes of an epoch gives the epoch back |
| Directory.ClockReading | pki/server/aux.go:46-50 | the clock's epoch and the time elapsed in it are quotient and remainder by the period |
| Topology.SortNodesByPublicKey | pki/server/state.go:2221-2227 | the result is sorted by identity and a rearrangement of the input |
| Topology.SortedIsUnique | pki/server/state.go:1231-1232 | with distinct identities there is only one sorted rearrangement, whatever sorting algorithm runs |
| Topology.IndexNodes | pki/server/state.go:1182-1186 | the map from identity to descriptor, the later of two equal identities winning |
| Topology.Keep | pki/server/state.go:1210-1223 | in the drawn order, nodes of a former layer that are pending stay in it until the target is reached |
| Topology.KeepSurvivors | pki/server/state.go:1206-1224 | the first pass over all former layers; never out of range with at most as many former layers as configured |
| Topology.PendingInOrder | pki/server/state.go:1226-1232 | the pending nodes in the one order of identities, whatever the map order and the sorting algorithm |
| Topology.Flatten | pki/server/state.go:1226-1230 | every pending node is listed once, in whatever order the map is visited |
| Topology.Fill | pki/server/state.go:1236-1245 | short layers are filled from the drawn queue; the exact cases in which an index is out of range |
| Topology.DealOut | pki/server/state.go:1247-1253 | what is left goes to the layers in turn |
| Topology.GenerateTopology | pki/server/state.go:1179-1256 | the generator computes the specified layering, or panics exactly when that is undefined |
| Topology.GenerateRandomTopology | pki/server/state.go:1302-1330 | the same for the generator without a former layering |
| TopologyFacts.KeepLayersCount | pki/server/state.go:1206-1224 | the first pass keeps exactly min(target, survivors) nodes in each layer |
| TopologyFacts.KeepLayersStay | pki/server/state.go:1215-1222 | it moves no node to another layer |
| TopologyFacts.KeepLayersConserve | pki/server/state.go:1206-1224 | kept and pending nodes together are all nodes, and no layer exceeds the target |
| TopologyFacts.FillFacts | pki/server/state.go:1236-1245 | the fill loop runs out of nodes exactly if the layers lack more than there are; it loses none and brings each layer to the target |
| TopologyFacts.DealSizes | pki/server/state.go:1247-1253 | how many of the remaining nodes each layer gets |
| TopologyFacts.DealConserves | pki/server/state.go:1247-1253 | every remaining node lands exactly once |
| TopologyFacts.NextTopologyExact | pki/server/state.go:1203-1255 | for every input: exactly when the generator panics, and otherwise the bag of placed nodes and every layer size |
| TopologyFacts.NextTopologyEven | pki/server/state.go:1203-1255 | with distinct identities and all former layers it does not panic, partitions the nodes, and layer i has n / layers nodes plus one iff i < n mod layers |
| TopologyFacts.RandomTopologyEven | pki/server/state.go:1319-1330 | the random generator gives the same partition and the same sizes |
| Placement.StayingPlaces | pki/server/state.go:1206-1224 | the node drawn k-th from its former layer keeps that layer if fewer than the target of those drawn before it come back, and stands right after these |
| Placement.FilledPlaces | pki/server/state.go:1226-1245 | the nodes that no layer keeps, sorted, fill the open places layer by layer in the order in which the reader draws them |
| Placement.DealtPlaces | pki/server/state.go:1247-1253 | after the open places are filled, the j-th node drawn goes to layer j mod layers, above what is there |
| Placement.RandomPlaces | pki/server/state.go:1319-1327 | without a former layering the j-th node drawn stands in layer j mod layers at place j / layers |
| Retention.LayerRetains | pki/server/state.go:1206-1224 | each layer retains at least min(target, survivors) of its former nodes |
| Retention.RetentionNearOptimal | pki/server/state.go:1192-1224 | no balanced layering of the same nodes retains more than n mod layers nodes more |
| Retention.UnchangedNodesStay | pki/server/state.go:1203-1253 | an unchanged node set on a layering of these generators moves at most n mod layers nodes, and none if that is 0 or 1 |
| Retention.OrderIrrelevant | pki/server/state.go:1226-1234 | with a former layering the order of the descriptor list does not matter |
| Directory.RestoresExactly | pki/server/state.go:1928-1947 | a persisted document comes back exactly if it parses, is for its epoch, and no earlier epoch or it lacks signatures |
| AuthorityState.DropBefore | pki/server/state.go:1345-1364 | deleting old epochs in any map order keeps exactly the recent entries |
| AuthorityState.ReadBucket | pki/server/state.go:1955-1983 | exactly the persisted descriptors that parse, match their key and are authorized come back |
| AuthorityState.Carve | pki/server/state.go:515-528 | the list is split into gateways, service nodes and mixes, in order |
| AuthorityState.Authority.constructor | pki/server/state.go:2123-2152 | a new process has what is restored and bootstraps, or ends if the database is of another version |
| AuthorityState.Authority.RestorePersistence | pki/server/state.go:1853-1992 | version check, documents and descriptors of three epochs, ended early by a badly signed document |
| AuthorityState.Authority.BackgroundFetch | pki/server/aux.go:159-165 | a fetch is started only for an epoch without a cached document |
| AuthorityState.Authority.Receive | pki/server/aux.go:170-187 | an answer is signed and cached unless the epoch was filled meanwhile or signing fails |
| AuthorityState.Authority.GetDocument | pki/server/state.go:514-589 | the document made from a descriptor list, by the generator that the cache selects |
| AuthorityState.Authority.ComputeVote | pki/server/state.go:290-305 | genesis, prior shared randoms and scheme taken from the cache, and the vote, its failure or its panic |
| AuthorityState.Authority.Fsm | pki/server/aux.go:46-123 | one wakeup: new state, what is sent and how long to sleep |
| AuthorityState.Authority.Advance | pki/server/aux.go:52-117 | the same for the switch over the phases |
| AuthorityState.Authority.Join | pki/server/aux.go:53-71 | the same for the bootstrap phase |
| AuthorityState.Authority.Vote | pki/server/aux.go:85-94 | the same for the phase in which the vote is made |
| AuthorityState.Authority.PruneDocuments | pki/server/state.go:1332-1354 | cached documents and descriptors older than three epochs are dropped, nothing else |
| AuthorityState.Authority.OnDescriptorUpload | pki/server/state.go:1754-1810 | new descriptors in time are stored and persisted, changed or late ones rejected |
| AuthorityState.Authority.OnPostDescriptor | pki/server/wire_handler.go:257-332 | the checks before that, and the status of the reply |
| Wakeups.BootstrapWakeup | pki/server/aux.go:53-71 | exactly the missing documents of this epoch and the one before are asked for; when it is too late, and what follows |
| Wakeups.SendWakeup | pki/server/aux.go:73-83 | the own node's descriptor for the voting epoch is sent exactly if there is one |
| Wakeups.VoteWakeup | pki/server/aux.go:85-94 | a vote is sent exactly if the list was read and the document made of it, given field by field, is well formed; a panic exactly if there is no such document |
| Wakeups.FetchWakeup | pki/server/aux.go:96-100 | exactly the document of the voting epoch is asked for, unless it is cached |
| Wakeups.ConfirmWakeup | pki/server/aux.go:102-114 | the round is confirmed, and the next epoch voted on, exactly if the next epoch's document is cached; else the bootstrap follows |
| Wakeups.VoteOfRuns | pki/server/aux.go:190-215 | in every run an authority that reads a list can make its document, and sends it exactly if it is well formed |
| Wakeups.CarvesInOrder | pki/server/state.go:515-528 | gateways, service nodes and mixes stand in a document in the order in which they were read, none added or lost |
| Wakeups.KeepsRecent | pki/server/state.go:1332-1354 | a wakeup keeps exactly the documents and descriptors from three epochs back on, and leaves the disk alone |
| Posts.ReplyExactly | pki/server/wire_handler.go:257-332 | what every status means: accepted iff the epoch is one of three, the upload opens to the peer's own descriptor, its key parses, it is signed and authorized, and it fits what is stored |
| Posts.StoresExactly | pki/server/state.go:1754-1810 | an entry appears exactly for the first such upload of an epoch without a document: the descriptor in the table, the payload on the disk |
| Posts.DescriptorsHaveSources | pki/server/wire_handler.go:283-318 | in every run each stored descriptor came in a signed upload to the living process, or was in the database it started with |
| Restoring.DescriptorsExactly | pki/server/state.go:1928-1983 | a persisted descriptor comes back exactly if its epoch is reached, it parses, is under its own identity and authorized |
| Restoring.StartedExactly | pki/server/state.go:1853-1992 | the whole state of a new process in terms of its database |
| Safety.VoteIsGood | pki/server/aux.go:190-215 | a vote never panics, places the descriptors read evenly and once, and its genesis is rooted in the chain |
| Safety.WakeKeeps | pki/server/aux.go:46-123 | every wakeup, however late, keeps the invariant of its authority |
| Safety.StoreKeeps | pki/server/aux.go:170-187 | so does the end of a background fetch |
| Safety.StepKeeps | pki/server/aux.go:46-215 | every step of the system keeps the invariant of all authorities and the chain |
| Safety.RunKeeps | pki/server/aux.go:46-215 | every reachable state satisfies it |
| Guarantees.ChainDocumentsAreEven | pki/server/aux.go:190-215 | in every run every chain document has all layers, even sizes with the smallest as its nodes per layer, each descriptor its author read exactly once, and nothing else that depends on the author |
| Guarantees.BallotsAreWellFormed | pki/server/aux.go:209-214 | in every run only well-formed documents are sent as votes or adopted |
| Provenance.SubmitsOwn | pki/server/aux.go:73-83 | an authority submits only its own node's descriptor, authorized by its roster |
| Provenance.StepOffers | pki/server/aux.go:140-149 | every step keeps: what is offered to the chain is vouched for, and only that is registered |
| Provenance.ChainDocumentsAreVouched | pki/server/aux.go:73-95 | in every run every descriptor in a chain document is that of some authority's own node and authorized by it |
| Guarantees.GenesisIsUnbroken | pki/server/state.go:290-305 | the genesis g of a chain document of epoch e has g <= e, and all epochs from g to e have documents with the same genesis |
| Guarantees.NoAuthorityPanics | pki/server/state.go:1203-1255 | no run makes an authority panic |
| Guarantees.VotingEpochAtWakeup | pki/server/aux.go:52-117 | outside the bootstrap the voting epoch is at most one ahead, and is the next epoch when its document is found |
| Guarantees.VotingEpochNeverDecreases | pki/server/aux.go:52-117 | as long as a process lives its voting epoch never decreases |
| Guarantees.CachesAgree | pki/server/aux.go:159-187 | cached documents are the chain's up to signatures, so no two authorities hold different ones |
| Guarantees.CachedOnce | pki/server/aux.go:176-184 | no step changes a cached document, however many fetches are under way |
| Rounds.StoreExactly | pki/server/aux.go:169-184 | an answer is cached, signed by the authority too, exactly if signing succeeds and the epoch has no document; nothing else changes |
| Rounds.CachedExactly | pki/server/aux.go:159-187 | between two wakeups a document gets into the cache exactly by arriving and being signed |
| Rounds.CachedAreSigned | pki/server/aux.go:176-182 | in every run a cached document is the chain's with the own signature and no other |
| Guarantees.CacheWindow | pki/server/state.go:1332-1350 | after a wakeup the cache holds epochs from now - 3 to now + 1 only, at most five |
| Guarantees.VotesAgree | pki/server/aux.go:190-215 | from one list two authorities compute the same vote exactly if both or neither have the last document, whatever signatures, genesis or prior randoms they hold |
| Guarantees.ShuffledVotesAgree | pki/server/state.go:530-546 | with the last document a vote depends on the order of the list only in its two lists of edge nodes |
| Guarantees.TablesAreAuthorized | pki/server/state.go:1955-1983 | every stored descriptor is keyed by its own identity and authorized for its role |
| Guarantees.TablesOnlyGrow | pki/server/state.go:1754-1810 | no descriptor is replaced or removed before pruning, and none is added once its epoch has a document |
| Lineage.FollowsFormer | pki/server/state.go:539-546 | a chain document that does not start its genesis is the generator's layering on the document before |
| Lineage.ChainRetains | pki/server/state.go:1192-1224 | in every run, along one genesis, no balanced layering retains more than n mod layers nodes more than the chain's |
| Lineage.UnchangedMixesStay | pki/server/state.go:1203-1253 | when two consecutive documents have the same mixes, at most n mod layers of them move, and none if that is 0 or 1 |
| Lineage.BallotsAgreeExactly | pki/server/aux.go:190-215 | two votes for one epoch from one list are equal exactly if both or neither restart the genesis |
| Schedule.StageWindow | pki/server/aux.go:34-44 | a punctual wakeup runs in the part of its epoch that belongs to its phase |
| Schedule.StageStep | pki/server/aux.go:52-117 | it leads to the next phase in its part of the same epoch, or of the next after a confirmation |
| Schedule.FirstWake | pki/server/aux.go:53-71 | a first wakeup at any time joins this epoch, or the next one if it is late |
| Schedule.OneSendAndOneVoteInEveryEpoch | pki/server/aux.go:73-95 | in punctual runs every epoch from the first stage on has exactly one descriptor-send and one vote step |
| Schedule.NeverTwice | pki/server/aux.go:73-95 | no epoch has two, and none before the first stage has any |
| Schedule.PunctualWakeup | pki/server/aux.go:52-117 | each wakeup is in its window and for the next epoch, the phases follow each other, and a failed round rejoins at the next epoch start |
| Rounds.RoundConfirmedExactly | pki/server/aux.go:96-114 | a punctual round is confirmed exactly if its document was cached at the fetch or has arrived since; then the next epoch is voted on, else it rejoins |
| Schedule.Sixteenths | pki/server/state.go:65-71 | the windows as fractions of the period: 2/16 to 3/16, 4/16 to 5/16, 10/16 |
| Viability.HasEnoughDescriptors | pki/server/state.go:591-614 | the check counts gateways, service nodes and the rest, those with both flags subtracted twice |
| Viability.VerifyTopology | pki/server/state.go:2235-2246 | all layers there and none too small |
| Viability.GeneratedTopologyPasses | pki/server/state.go:530-555 | a generated topology passes exactly if the mixes suffice, and the number behind lambdaG is the smallest layer size |
| Viability.EnoughIsViable | pki/server/state.go:591-614 | enough descriptors always give a topology that passes, and a gateway |
| Viability.EnoughIsExact | pki/server/state.go:591-614 | without descriptors of both flags the check is exact: gateways, service nodes and a topology that passes |
| Viability.ServiceNodesMayBeMissing | pki/server/state.go:515-528 | enough descriptors leave no service node in the document exactly if all of them are gateways too |
| Viability.MissingServiceNodes | pki/server/state.go:591-614 | such a map of descriptors |
| SharedRandom.ScanCertificate | pki/server/state.go:633-708 | reading one certificate in a given order, with its early exits |
| SharedRandom.VerifyCommits | pki/server/state.go:616-719 | the whole check, for any order in which the maps are visited |
| SharedRandom.AcceptedIsConsistent | pki/server/state.go:616-719 | equal authors of commits and reveals; every pair signed, for this epoch, opened, and listed alike by every certificate not discredited |
| SharedRandom.AlwaysAcceptedExactly | pki/server/state.go:626-709 | an authority that lists itself is accepted in every order iff its certificate is sound and no certificate has another pair of its signed blobs |
| Readings.LookedExactly | pki/server/state.go:626-709 | an entry is looked at exactly if its author is not discredited yet, the certificate's was not when it was opened, and no entry of it was flawed before |
| Readings.VerdictExactly | pki/server/state.go:637-687 | which entries are sound, which discredit the certificate's author only, and which their own author too |
| Readings.FoundExactly | pki/server/state.go:616-719 | for every order: who is discredited, by which entry; and each author's first sound entry is what is recorded |
| SharedRandom.HonestAuthorityExcluded | pki/server/state.go:633-687 | an authority that signed one commit and its reveal only, with a sound certificate, can be excluded |
| SharedRandom.CleanOrderIrrelevant | pki/server/state.go:616-719 | with clean certificates the result does not depend on the order |
| RandomValue.SortReveals | pki/server/state.go:1144-1162 | all reveals with their digests, in descending order, or failure if one has no content |
| RandomValue.LessMeans | pki/server/state.go:1160-1162 | digests are compared at their first difference, a proper prefix being smaller |
| RandomValue.DescendingIsUnique | pki/server/state.go:1160-1162 | with distinct digests there is one descending order |
| RandomValue.ComputeSharedRandom | pki/server/state.go:1132-1177 | the bytes that are hashed: label, epoch, sorted reveals, previous value or zeros |
| RandomValue.CleanCertificatesGiveOneRandom | pki/server/state.go:1132-1177 | clean certificates and distinct digests give one shared random value for all orders |
| Tally.Count | pki/server/state.go:1028-1039 | counting a list adds the occurrences of every encoding |
| Tally.CountMixes | pki/server/state.go:1027-1067 | gateways, service nodes and all layers are counted |
| Tally.CountVotes | pki/server/state.go:992-1080 | after any order of the votes each tally holds the total of every encoding |
| Tally.Elect | pki/server/state.go:1081-1109 | exactly the encodings that reach the threshold and are admitted, once each, or failure if one cannot be decoded |
| Tally.ChooseParameters | pki/server/state.go:1110-1129 | some parameters that reach the threshold, if any do |
| Tally.TallyVotes | pki/server/state.go:979-1130 | when the tally succeeds, and what it returns then, lambdaG being the counting authority's own |
| Elections.NodesExactly | pki/server/state.go:992-1095 | elected are exactly the admitted descriptors that more than half of all authorities have, as gateway, service node or in a layer, in votes that count |
| Elections.ReplicasExactly | pki/server/state.go:1068-1109 | the same for replicas, if no vote repeats one |
| Elections.ParametersExactly | pki/server/state.go:1110-1129 | the agreed parameters are exactly those that more than half of all authorities voted for, with the own lambdaG |
| Quorums.MajoritiesMeet | pki/server/state.go:2011-2016 | two sets that reach the threshold have a member in common |
| Quorums.ParametersAgree | pki/server/state.go:1111-1129 | at most one parameter set prevails, also across two authorities, if common voters voted the same |
| Quorums.DescriptorsAgree | pki/server/state.go:1081-1095 | two descriptors of one node never both win, also across two authorities |
| Quorums.TallyIsDetermined | pki/server/state.go:979-1130 | parameters and the sorted list of descriptors with distinct identities are determined by the votes, replicas up to order |
| Quorums.TalliesNeverDisagree | pki/server/state.go:979-1130 | two authorities with parts of one assignment of votes never succeed with different parameters or descriptors of one node |
| Quorums.ReceivedTalliesNeverDisagree | pki/server/state.go:1553-1638 | the same for the votes that any two runs of the upload handlers have stored |
| Uploads.Exchange.constructor | pki/server/state.go:2123-2131 | all tables start empty |
| Uploads.Exchange.OnVoteUpload | pki/server/state.go:1553-1638 | which reply a vote gets, and that vote and commit are stored together |
| Uploads.Exchange.OnCertUpload | pki/server/state.go:1418-1483 | which reply a certificate gets and what is stored |
| Uploads.Exchange.OnRevealUpload | pki/server/state.go:1485-1551 | the same for a reveal, including the panic on a short one |
| Uploads.Exchange.OnSigUpload | pki/server/state.go:1640-1694 | the same for a signature |
| Uploads.Exchange.PruneDocuments | pki/server/state.go:1355-1364 | old votes and certificates are dropped, commits, reveals and signatures stay |
| Interleavings.VoteChanges | pki/server/state.go:1553-1638 | an accepted vote is the only change, by an authorized author without one, for this epoch, with its commit |
| Replies.VoteReply | pki/server/state.go:1553-1638 | exactly which votes are accepted, and which reply every other one gets |
| Replies.CertReply | pki/server/state.go:1418-1483 | the same for certificates |
| Replies.RevealReply | pki/server/state.go:1485-1551 | the same for reveals, including the panic |
| Replies.SigReply | pki/server/state.go:1640-1694 | the same for signatures |
| Replies.EntriesAreSigned | pki/server/state.go:1418-1694 | after any interleaving each stored vote, certificate, reveal and signature is the content of an arrived message that its author signed |
| Replies.CommitsAreSigned | pki/server/state.go:1582-1636 | so is each stored commit, even if its vote has been pruned |
| Replies.PrunesExactly | pki/server/state.go:1355-1364 | pruning removes exactly the old votes and certificates |
| Interleavings.EventKeeps | pki/server/state.go:1418-1694 | every message, epoch change and pruning keeps the invariant of the tables |
| Interleavings.InterleavingKeeps | pki/server/state.go:1418-1694 | after any interleaving all authors are authorized, certificates have votes, reveals have commits, commits are those of the votes |
| Interleavings.MessageStores | pki/server/state.go:1418-1694 | an accepted message was not stored before and is stored then; nothing else changes |
| Interleavings.AcceptancesAreEntries | pki/server/state.go:1418-1694 | between prunings each kind, epoch and author gets at most one Ok: acceptances are exactly the new entries |
| Interleavings.EntriesAreFinal | pki/server/state.go:1418-1694 | nothing stored is overwritten until its epoch is pruned |
| Interleavings.CommitChangesExactly | pki/server/state.go:1582-1636 | an event overwrites a commit iff it is an accepted vote of its author with another commit, and then no vote of it was stored |
| Interleavings.CommitsHaveVotes | pki/server/state.go:1582-1636 | while an epoch is not pruned, exactly the authors with stored votes have stored commits |
| Interleavings.CommitsAreFinal | pki/server/state.go:1582-1636 | in runs that do not prune the epoch no commit is ever overwritten |
| Interleavings.CommitOverwritten | pki/server/state.go:1355-1364 | a run from the empty state in which a commit is overwritten |
| Interleavings.PrunedCommitIsReplaced | pki/server/state.go:1355-1364 | after its vote is pruned the next vote's commit is the stored one, from any state |
| Wire.Authenticator.constructor | pki/server/wire_handler.go:334-342 | a new authenticator has no role |
| Wire.Authenticator.IsPeerValid | pki/server/wire_handler.go:344-394 | an admitted peer gets exactly the flag of its role, any other none |
| Wire.Authenticator.OnConn | pki/server/wire_handler.go:81-91 | the command goes to the handler of the role; the panic for a missing role is unreachable |
| Wire.OnlyAuthoritiesVote | pki/server/wire_handler.go:144-162 | exactly the authorities with the link key on record that are no nodes reach the upload handlers |
| Wire.ReachesExactly | pki/server/wire_handler.go:81-162 | exactly which credentials reach which handler with which command |
| Wire.OnlyTheNodePosts | pki/server/wire_handler.go:283-289 | a post over an admitted connection changes no entry of another identity |

## Left out

- Cryptography and serialization: signatures, hashes, KEM, CBOR, gob and PEM are functions about which nothing is assumed, except in `Quorums` that decoding undoes encoding. A hash is identified with the key it belongs to.
- Network and disk: sockets, wire sessions, the chain bridge and bolt transactions. Left of them are messages that arrive or get lost, the chain's contract, and the persisted entries as a map.
- AuthorityState.Authority.GetDocument: does not model the static topology, which is mostly the reading of PEM files, nor the logarithm in lambdaG, only the number of nodes per layer that lambdaG is computed from.
- AuthorityState.Authority.RestorePersistence: does not model the restoring of replica descriptors, nor keys in the database that are not 32 bytes long.
- Replica descriptors: the ZK-PKI submits none; of the voting protocol's replica handling only the tally is modelled.
- One struct as three classes: the source keeps the fields of `Authority` and of `Exchange` in one object; the voting epoch is the only field that both use, and in `Interleavings` it may take any value at any time.
- The chain's descriptor list as read by an authority is any part of the registered list in its order, since single reads may fail; a read of the counter or of an entry that interleaves with new registrations is covered by that.
- Finality of `errGone`, the served document and its signatures: documentForEpoch is not modelled.
- Idempotent re-upload over the wire: onDescriptorUpload compares a marshalled descriptor with the signed upload it is passed (`pki/server/state.go:1776`, `pki/server/wire_handler.go:318`), so an unchanged descriptor is not recognised; the model follows the code and claims no round trip through the disk.
- Bounds on commits, reveals and signatures: pruning never touches them, and no bound holds.
- getMyConsensus, getCertificate and getThresholdConsensus, and the sending of votes, certificates, reveals and signatures: they are called only from the state machine that the ZK-PKI replaced.
- Locks: every handler and every wakeup runs under one lock and is one step of the model; only the background fetches are split into their parts.
- genconfig, walletshield, http_proxy, common/compression.go, Docker files and scripts: configuration, I/O and thin wrappers.
