# SmartBFT in Dafny

A model of SmartBFT, a PBFT-style replicated log: replicas run three-phase views over a write-ahead log, change views when a leader
fails, blacklist leaders that were skipped, and feed on a request pool. Everything here is proved for all inputs, all runs or all
reachable states.

`dafny verify dfyconfig.toml` checks the whole project.

## The parts

- **Quorums and votes** (`Quorum`, `Votes`): the quorum size, its intersection and minimality, and the vote set that keeps one vote per
  sender and never blocks.
- **One replica** (`Replica`, `ReplicaRuns`, `ViewProtocol`): `Replica` is a view as a state machine, one event per turn of its select
  loops. `ViewProtocol.View` is the object with its swapped vote sets; each method does what the event does. The double buffering of votes
  is proved equal to one tally per sequence, and `ReplicaRuns` says of every run which proposals are voted on, which votes are counted,
  how lagging replicas are answered, and what stops a view.
- **A cluster** (`Consensus`, `Agreement`, `Invariance`, `Safety`, `Proposals`, `Deliveries`, `Example`): correct replicas, up to f Byzantine
  ones, an asynchronous network, crashes and restarts. One inductive invariant gives agreement, certificates, and the survival of decisions
  across a view change; prepares are for what leaders sent, and what a new-view message delivers is certified.
- **View change** (`InFlight`, `NewView`, `NewViewChecks`, `ViewChange`, `ViewChangeRuns`): the in-flight check in terms of who holds what,
  new-view validation and installation in terms of the entries, and the view counters in terms of who voted and reported.
- **Leaders, blacklist, proposals** (`Leader`, `Blacklist`, `BlacklistUpdates`, `ProposalCheck`, `ProposalRules`): the leader of a view, the
  blacklist entry by entry and along any chain of updates, and exactly which proposals a follower accepts.
- **Write-ahead log** (`WalFormat`, `WalModel`, `WalLog`, `WalReading`, `WalFiles`, `WalRecovery`, `WriteAheadLog`): bytes, files, their size
  and deletion, the theorem that all of it refines a list of entries, that only unbroken chains of checksums are read, what a cut at any
  byte loses after any operations, and the objects that do the work.
- **Crash recovery** (`Recovery`): what a replica saves before it votes, and how a view is rebuilt from it, also when a synchronization
  came in between.
- **Around the core** (`Controller`, `ControllerRuns`, `PoolModel`, `PoolRuns`, `RequestPool`, `StateCollector`, `Partition`): the delivery
  gate and synchronization, the request pool, state collection, the per-sender request processor.

## Assumptions

- Signatures and channels are authentic: a signature is modelled as its signer and what was signed, and a message from a correct node
  is delivered only if that node sent it. Digests are injective: a digest is its preimage.
- A node aborts its view before it builds view data, and does not rejoin that view. In the source the abort is an asynchronous send
  (internal/bft/controller.go:484-490).
- A node runs one view instance per view and sequence: after a restart inside a view it resumes from its log, or at a sequence it has
  not voted at. A node that was overtaken by a synchronization is not alone in its cluster.
- The theorems on installing a new view take one entry per signer. Validation skips repeated signers (internal/bft/viewchanger.go:945-948),
  but the extraction of messages does not (internal/bft/viewchanger.go:1105-1116); `NewView.RepeatedSignerMatters` shows what a repeated
  signer can do in a cluster of four, and `NewView.OnlyRepeatsAreAhead` that only a repeat can leave a node behind an entry.
- Those theorems also assume that the entries strictly behind the node are genuine (`Safety.TrustedBehind`). Validation does not check
  the signatures of these entries (internal/bft/viewchanger.go:981-989 and 1017-1025), while every other counted signature is checked and
  taken to be genuine: `NewView.SignatureMattersExactlyWhenLevel` says exactly which signatures matter. The assumption holds by itself for
  a message whose entries are all level with the node. It is needed: with one entry per signer, unsigned entries behind a node make it
  panic (`NewView.UnsignedEntriesPanic`) or start the next view with nothing in flight (`NewView.UnsignedEntriesForget`), in a reachable
  state even at a sequence that has been decided (`Example.UnsignedEntriesLoseDecision`).
- What a new-view message delivers is certified in the run (`Deliveries.DeliveredIsCertified`) if the decision signatures in it that verify
  are genuine (`Deliveries.Genuine`): a signature of a correct node stands for a commit that node sent.
- The theorems on the check of the new leader (`Safety.CertificateSurvivesViewChange`, `Safety.DecisionSurvivesViewChange`) take view data
  that comes from its builder, which the authentic channels give.
- The cross-view theorems cover proposals certified in the normal path; commits of the in-flight view do not write the in-flight data
  (internal/bft/viewchanger.go:1194-1314).
- Counters are unbounded where the source uses 64-bit integers: they are taken not to wrap. The 32-bit record length of the log is
  modelled, with its error.
- The record encoding and the CRC-32C of section 12.1 of RFC 3720 are parameters of the log: encodings decode back and records that
  are written do not encode to nothing; of the checksum only that it is a function is used.
- Verifiers, the synchronizer, the application, map iteration order, timers and the directory listing are inputs.

## Where the code differs from its comments or its purpose

- `pruneBlacklist` is documented to remove a node that enough other nodes observed; it counts mentions, so one witness that names a
  node twice counts twice. `Blacklist.MentionsAreNotWitnesses` is an instance; `Blacklist.StaysByObservers` says exactly when the two decide alike.
- `NextRequests` documents that a full batch cannot be increased by calling again. A full batch can still take an empty request:
  `PoolModel.EmptyRequestJoins` says exactly when.
- Removing a request id again does not restart its stay among the removed ids. `PoolModel.RefusedExactlyWhenLatest` says exactly when a
  removed id gets its full thousand; `PoolModel.EarlierIsForgotten` gives the removals that forget it otherwise.
- `recoverProposed` (internal/bft/state.go:155-182) does not compare sequences, as `recoverPrepared` (internal/bft/state.go:201-211) does.
  After a synchronization past a saved proposal a restart comes up with that proposal at hand, at a later sequence:
  `Recovery.CrashRestores` says exactly when, `Recovery.OvertakenComesBack` gives such runs. `Invariance.OvertakenNeverPrepares` shows that such a view never commits to it.
- The controller counts the decisions of the current view, and proposals must carry that count (internal/bft/view.go:613-616). A
  synchronization that brings no later decision, while the view goes on, sets the count to zero and restarts the view
  (internal/bft/controller.go:655-708 and 435-448), as in `ControllerRuns.CountStartsOver`. `ControllerRuns.SyncingKeepsCount` says exactly
  which synchronizations keep the count right.
- A vote for the last sequence is meant to be answered with the node's own vote there. Between a decision and the next proposal the kept
  votes have not moved yet (internal/bft/view.go:384-391), so the answer is for the sequence before: `ReplicaRuns.RepliesHelp` says exactly when.
- `Open` reports a damaged last anchor as repairable (pkg/wal/writeaheadlog.go:278-292 describes the repair), but `InitializeAndReadAll`
  repairs only after a failed read, so such a log is not recovered: `WalRecovery.CutAnchorFails`.

## Model

| member | source | states |
|---|---|---|
| `Quorum.ComputeQuorum` | internal/bft/util.go:176-180 | f is the largest number of faults with n > 3f, and the quorum leaves f correct nodes out at most; the correct nodes alone are a quorum |
| `Quorum.QuorumsIntersect` | internal/bft/util.go:176-180 | any two quorums share at least f+1 nodes |
| `Quorum.QuorumsShareHonest` | internal/bft/util.go:176-180 | any two quorums share a node outside any set of f |
| `Quorum.QuorumIsLeast` | internal/bft/util.go:176-180 | two sets of one node less than a quorum can share only f nodes |
| `Votes.VoteSet.constructor` | internal/bft/util.go:107-121 | a new vote set is empty and has room for n votes |
| `Votes.VoteSet.Clear` | internal/bft/util.go:113-121 | clearing empties voters and queue alike |
| `Votes.VoteSet.RegisterVote` | internal/bft/util.go:123-136 | only a first valid vote is queued, voters and queue stay in step, and the queue of capacity n is never full when it is written |
| `Votes.VoteSet.Take` | internal/bft/view.go:476-554 | votes leave in order of arrival while their senders stay marked as voters |
| `Votes.RoomLeft` | internal/bft/util.go:123-136 | while a node has not voted there is room in a queue of n |
| `Replica.Apply` | internal/bft/view.go:309-326 | every event keeps what the phases rely on without checking |
| `Replica.TallyIsPure` | internal/bft/view.go:240-286 | a tally for a sequence holds votes for that view and sequence only, one per sender, none of the node's own |
| `Replica.EventKeepsBuffers` | internal/bft/view.go:214-287 | each event keeps the four vote sets equal to what is left of the tallies of the current and the next sequence |
| `Replica.RunKeepsBuffers` | internal/bft/view.go:897-931 | so does every run, across any number of swaps |
| `Replica.BuffersArePure` | internal/bft/view.go:240-286 | current vote sets hold only votes for the current sequence, next ones only for the next |
| `Replica.VoteSetsAreTallies` | internal/bft/view.go:897-931 | in every reachable state no vote for the next sequence was lost by a swap and none for an old one leaked |
| `ReplicaRuns.PrePreparesAreOffers` | internal/bft/view.go:214-351 | in every run, across decisions: a buffered pre-prepare came from the leader, for this view and its sequence, and is the first such one since its slot was emptied; the one for the next sequence is at hand after the decision; the proposal voted on is that of the first one heard |
| `ReplicaRuns.CountingLosesNothing` | internal/bft/view.go:476-588 | in every run the prepares counted are exactly the consumed ones for the proposal at hand, in order, and the own signature names their senders; each consumed commit is being verified, or its signature is counted exactly if it endorses the proposal |
| `ReplicaRuns.RepliesHelp` | internal/bft/view.go:755-793 | in every run a vote for the last sequence, unless it is an assist itself, is answered by an assist of the same kind, for that sequence exactly if the view is not idle |
| `ReplicaRuns.StoppedExactlyByCause` | internal/bft/view.go:214-462 | in every run a view is stopped exactly if some event was a cause: an abort, a message of the leader for another view, or a proposal that fails a check |
| `ViewProtocol.View.constructor` | internal/bft/view.go:131-202 | a started view is the initial state |
| `ViewProtocol.View.ProcessPrePrepare` | internal/bft/view.go:328-351 | stores a pre-prepare exactly as the state machine does |
| `ViewProtocol.View.ProcessVote` | internal/bft/view.go:260-286 | registers a vote in the vote set of its sequence and kind |
| `ViewProtocol.View.ProcessMsg` | internal/bft/view.go:214-287 | a received message has the state machine's effect and answer |
| `ViewProtocol.View.StartNextSeq` | internal/bft/view.go:897-931 | swapping the vote set objects is the swap of their contents |
| `ViewProtocol.View.BeginProposal` | internal/bft/view.go:384-391 | the sent votes move to the previous sequence |
| `ViewProtocol.View.TakeProposal` | internal/bft/view.go:384-462 | a pre-prepare is accepted or the view aborts, as the state machine says |
| `ViewProtocol.View.CollectPrepares` | internal/bft/view.go:476-497 | the counting loop consumes votes exactly as a run of events does, until a quorum or the end of input |
| `ViewProtocol.View.BecomePrepared` | internal/bft/view.go:499-554 | signing and saving the commit |
| `ViewProtocol.View.CollectCommits` | internal/bft/view.go:556-588 | the commit loop with its verifiers equals a run of events |
| `ViewProtocol.View.Decide` | internal/bft/view.go:888-895 | a decision starts the next sequence |
| `Invariance.ReceiveKeepsInv` | internal/bft/view.go:214-287 | receiving anything deliverable keeps the cluster invariant |
| `Invariance.AcceptKeepsInv` | internal/bft/view.go:384-462 | accepting a proposal votes for one digest at a sequence never voted at |
| `Invariance.PreparedKeepsInv` | internal/bft/view.go:476-554 | a commit is sent only behind a quorum of prepares for its digest |
| `Invariance.DecideKeepsInv` | internal/bft/view.go:556-588 | a decision is certified by a quorum of commits |
| `Invariance.DecisionIsCertified` | internal/bft/view.go:864-895 | the delivered signatures are of distinct signers, over this proposal, and include the node's own |
| `Invariance.RestartKeepsInv` | internal/bft/controller.go:402-423 | a new view instance after rotation or synchronization keeps the invariant |
| `Invariance.CrashKeepsInv` | internal/bft/state.go:115-247 | a crash with recovery from the log keeps the invariant, also with a saved proposal that a synchronization has passed |
| `Invariance.OvertakenNeverPrepares` | internal/bft/state.go:155-182 | a view restored with such a proposal never becomes prepared: a quorum less one holds a correct node, which prepares a proposal only at its own sequence |
| `Invariance.BuildKeepsInv` | internal/bft/viewchanger.go:439-505 | view data reports every commit the node has sent |
| `Invariance.StepKeepsInv` | internal/bft/view.go:289-326 | every step of any node keeps the invariant for all nodes |
| `Invariance.RunKeepsInv` | internal/bft/view.go:289-326 | every state of every run satisfies the invariant |
| `Example.FourDecideAndReport` | internal/bft/view.go:289-326 | the cluster model has a run of four nodes, one faulty and voting, in which one node decides, one only prepares, one hears nothing, and all three report |
| `Example.UnsignedEntriesLoseDecision` | internal/bft/viewchanger.go:939-1103 | in that run a valid message of unsigned entries behind a node makes it start the next view at a sequence that has been decided |
| `Example.Follows` | internal/bft/view.go:289-326 | what a node can do on its own it can do in any run in which the messages arrive |
| `Safety.CommitsAgree` | internal/bft/view.go:476-554 | commits of correct nodes at one sequence carry one digest |
| `Safety.CorrectNodesAgree` | internal/bft/view.go:476-588 | correct nodes that prepare or decide at one view and sequence, at any two points of a run, hold the same proposal |
| `Safety.DecisionsCarryQuorum` | internal/bft/view.go:864-895 | every decision carries signatures of a quorum of distinct nodes, its own among them, each backed by a commit |
| `Safety.CertificatesAgree` | internal/bft/view.go:556-588 | there are no two certificates for different proposals at one sequence, whoever holds them |
| `Proposals.PreparesAreForOffers` | internal/bft/view.go:328-462 | in every run with correct leaders, whatever faulty nodes send, a prepare of a correct node is for a proposal that a leader sent for this view and sequence |
| `Proposals.OneOfferOnePrepare` | internal/bft/view.go:328-462 | so with one correct leader that makes one proposal per sequence all correct nodes prepare the same |
| `Deliveries.DeliveredIsCertified` | internal/bft/viewchanger.go:1049-1093 | in every run each decision of the view that a new-view message makes a node deliver carries a certificate of the run |
| `Deliveries.DeliveredIsDecided` | internal/bft/viewchanger.go:1049-1093 | so it is what every correct node decides at that sequence |
| `Safety.QuorumMeetsCommitter` | internal/bft/viewchanger.go:439-462 | every quorum holds a correct node whose view data remembers a given certified proposal |
| `Safety.NoQuorumAgainst` | internal/bft/viewchanger.go:822-916 | against a certified proposal there is no quorum of view data |
| `Safety.CertificateSurvivesViewChange` | internal/bft/viewchanger.go:822-916 | for every certified proposal P at s, any authentic view data either reports a decision at or after s or makes the check answer P or not-ok |
| `Safety.DecisionSurvivesViewChange` | internal/bft/viewchanger.go:822-916 | if a correct node decided P at s, any authentic view data either reports a decision at or after s or makes the check answer P or not-ok, never no-in-flight and never another proposal |
| `Safety.ReportsReachDecision` | internal/bft/viewchanger.go:919-937 | a quorum of reports reaches at least the sequence before any certified proposal |
| `Safety.AcceptedIsAuthentic` | internal/bft/viewchanger.go:939-1103 | a message with one entry per signer that a node finds valid is a quorum of authentic reports, given that verified signatures and the entries strictly behind the node are genuine |
| `Safety.CertificateSurvivesInstallation` | internal/bft/viewchanger.go:1118-1222 | for every certified proposal P at s, a node that finds such a message valid has reached s, or does not start the next view, or first commits P |
| `Safety.DecisionSurvivesInstallation` | internal/bft/viewchanger.go:1118-1222 | so it is in every run with every decision of a correct node |
| `Safety.CertifiedCheckpointInstalls` | internal/bft/viewchanger.go:1118-1222 | a node whose checkpoint is certified, by whatever way it got there, settles on such a message within one of the largest reported sequence and does not panic |
| `Safety.CheckpointsNeverGoDown` | internal/bft/viewchanger.go:439-505 | in every run a checkpoint never goes down, and no view data reports less than its node started with |
| `Safety.ReportsReachStart` | internal/bft/viewchanger.go:919-937 | an authentic quorum of reports reaches at least the earliest start of a correct node |
| `Safety.InstallingNextViewNeverPanics` | internal/bft/viewchanger.go:1118-1222 | in every run, a node whose checkpoint carries a certificate of the view (decided, delivered in the view change or synchronized), or is within one decision of where every correct node started, never panics when it installs the next view |
| `InFlight.Answer` | internal/bft/viewchanger.go:822-916 | what each answer means in terms of conditions A1, A2 and B, with the error and panic cases |
| `InFlight.MaxLastSequence` | internal/bft/viewchanger.go:919-937 | the largest reported sequence, attained |
| `InFlight.ReportedSequence` | internal/bft/viewchanger.go:922-931 | a message is unreadable exactly without a decision or with malformed metadata |
| `InFlight.MaxLastDecisionSequence` | internal/bft/viewchanger.go:919-937 | the loop computes that maximum and panics exactly on an unreadable message |
| `InFlight.CollectPossible` | internal/bft/viewchanger.go:824-870 | the first loop finds the distinct prepared proposals and counts the messages without one |
| `InFlight.BumpAll` | internal/bft/viewchanger.go:874-889 | one message bumps exactly the counters it supports or does not argue against |
| `InFlight.FillCounters` | internal/bft/viewchanger.go:872-890 | the nested loops count supporters and non-arguing messages of every possible proposal |
| `InFlight.FindAgreed` | internal/bft/viewchanger.go:892-903 | the last loop finds the first proposal that meets A1 and A2 |
| `InFlight.CheckInFlight` | internal/bft/viewchanger.go:822-916 | the whole check equals the declarative answer |
| `InFlight.QualifyingIsUnique` | internal/bft/viewchanger.go:810-916 | with fewer than f+1+Q messages at most one proposal qualifies |
| `InFlight.AnswerIsFirstSupported` | internal/bft/viewchanger.go:822-916 | on readable messages, any number of them, the answer is the first proposal reported prepared right after the latest decision that f+1 messages hold and at most n-Q messages contradict; with none, nothing in flight exactly if all but n-Q messages hold nothing prepared there |
| `InFlight.AgreedExactly` | internal/bft/viewchanger.go:822-916 | with fewer than f+1+Q messages a proposal is agreed on exactly if one message reports it prepared there, f+1 hold it and at most n-Q hold another one |
| `InFlight.StrayProposalIsNone` | internal/bft/viewchanger.go:874-889 | an in-flight proposal that is not right after the latest decision counts as none |
| `InFlight.AnswerOfPermutation` | internal/bft/viewchanger.go:822-916 | with fewer than f+1+Q messages the answer is the same for every order of the messages |
| `InFlight.OrderMattersFrom` | internal/bft/viewchanger.go:822-916 | the bound is exact: from f+1+Q messages on there are messages whose order decides the answer |
| `NewView.CountSignatures` | internal/bft/viewchanger.go:708-730 | counts distinct signers and rejects a first signature that does not verify |
| `NewView.ValidateLastDecision` | internal/bft/viewchanger.go:689-735 | accepts exactly the decisions with a quorum of distinct valid signatures (or genesis) and returns their sequence |
| `NewView.InspectEntry` | internal/bft/viewchanger.go:950-1093 | one entry is judged against the own checkpoint, which a missing decision replaces |
| `NewView.ValidateNewViewMsg` | internal/bft/viewchanger.go:939-1103 | the loop over entries equals its specification |
| `NewView.DeliveryMakesProgress` | internal/bft/viewchanger.go:1049-1093 | each delivery raises the own sequence by one, up to the largest reported |
| `NewView.ValidMeansSettled` | internal/bft/viewchanger.go:939-1103 | a valid message has a quorum of distinct signers, none ahead of the own sequence, each signed or strictly behind it |
| `NewView.DeliverAllSettles` | internal/bft/viewchanger.go:1118-1123 | re-validation terminates and ends with every reported decision delivered, and every first entry signed or strictly behind the final checkpoint |
| `NewView.SignatureMattersExactlyWhenLevel` | internal/bft/viewchanger.go:939-1103 | without the signature of an entry a valid message stays valid exactly when the entry repeats a signer or is strictly behind the node |
| `NewView.ProcessNewViewMsg` | internal/bft/viewchanger.go:1118-1175 | re-validation loop, in-flight check and settling of the agreed proposal |
| `NewViewChecks.ValidExactly` | internal/bft/viewchanger.go:939-1103 | a message is valid exactly when the first entries of all signers are countable and a quorum signed |
| `NewViewChecks.CallsExactly` | internal/bft/viewchanger.go:939-1103 | it leads to a synchronization exactly when the first problem is an entry more than one decision ahead, and to a delivery exactly when that is a signed entry with the next decision, signed by a quorum |
| `NewViewChecks.MissingExactly` | internal/bft/viewchanger.go:1049-1093 | an entry brings a decision exactly if it is the next one and a quorum of distinct nodes signed it |
| `NewViewChecks.DeliveriesAreSigned` | internal/bft/viewchanger.go:1118-1123 | every decision delivered while a message is re-validated is the last decision of some entry with a quorum of distinct signers, and the checkpoint ends at the last of them |
| `NewViewChecks.NewCheckpointIsSigned` | internal/bft/viewchanger.go:1049-1093 | so a checkpoint that moved was signed by a quorum of distinct nodes |
| `NewViewChecks.SettlesByPosition` | internal/bft/viewchanger.go:1194-1222 | an agreed proposal is committed by a node at the latest reported decision, compared by one right past it, and a panic for any other |
| `NewView.InstallationNeverPanics` | internal/bft/viewchanger.go:1194-1222 | on a valid exit the own sequence is the largest reported or one more, so the mismatch panic is out of reach |
| `NewView.PanicsExactlyWhenPast` | internal/bft/viewchanger.go:1118-1222 | on a valid exit with one entry per signer the panic happens exactly when a proposal is agreed on and the node was more than one decision past all entries from the start |
| `NewView.PanicsExactlyWhenApart` | internal/bft/viewchanger.go:1205-1222 | the mismatch panic happens exactly when the own sequence is below the largest reported or more than one above it |
| `NewView.OnlyRepeatsAreAhead` | internal/bft/viewchanger.go:939-1103 | on a valid exit the own sequence is behind exactly when some entry is ahead of it, and every such entry repeats a signer |
| `NewView.RepeatedSignerMatters` | internal/bft/viewchanger.go:1105-1116 | in a cluster of four, second entries of a signer are not validated and can lead to the panic |
| `NewView.UncheckedDecides` | internal/bft/viewchanger.go:980-1025 | in a cluster of four, any unsigned view data strictly behind a node is accepted from three names, and its content alone decides what becomes of the view |
| `NewView.UnsignedEntriesPanic` | internal/bft/viewchanger.go:1017-1025 | so a node past the second decision can be made to panic |
| `NewView.UnsignedEntriesForget` | internal/bft/viewchanger.go:1017-1025 | so a node past the first decision can be made to start the next view with nothing in flight |
| `ViewChange.ViewChanger.constructor` | internal/bft/viewchanger.go:119-159 | all counters start at the start view, with nothing collected, and the object is valid |
| `ViewChange.ViewChanger.Begin` | internal/bft/viewchanger.go:367-394 | starting a view change, with its broadcasts and aborts in order |
| `ViewChange.ViewChanger.SendData` | internal/bft/viewchanger.go:411-437 | joining the next view and reporting to its leader |
| `ViewChange.ViewChanger.TryAdvance` | internal/bft/viewchanger.go:402-437 | nothing moves below a quorum of votes unless restoring |
| `ViewChange.ViewChanger.ProcessViewChangeMsg` | internal/bft/viewchanger.go:396-437 | both SpeedUp modes and recovery |
| `ViewChange.ViewChanger.OnViewChange` | internal/bft/viewchanger.go:274-302 | votes for the next view only; lagging nodes are helped at the latest view they announced; the view moves only on a quorum |
| `ViewChange.ViewChanger.OnViewData` | internal/bft/viewchanger.go:755-793 | view data for the current view, and the new-view message at a quorum; the object stays valid |
| `ViewChange.ViewChanger.OnNewView` | internal/bft/viewchanger.go:1158-1175 | an installed view becomes the real one; the object stays valid |
| `ViewChange.ViewChanger.OnInform` | internal/bft/viewchanger.go:337-355 | news of a view that is not older resets everything to it; the object stays valid |
| `ViewChange.ViewChanger.Process` | internal/bft/viewchanger.go:210-229 | one turn of the event loop keeps the counters in order and the vote sets pure, and moves the view only by one on a quorum or recovery, or on news |
| `ViewChange.AdvanceMoves` | internal/bft/viewchanger.go:402-437 | the current view moves by exactly one, on a quorum counting the node itself, or on recovery |
| `ViewChange.StepKeepsSound` | internal/bft/viewchanger.go:210-229 | every input keeps the order of the counters and the vote sets pure |
| `ViewChange.RunIsSound` | internal/bft/viewchanger.go:274-437 | in every run realView <= currView <= nextView <= currView+1, vote sets hold votes for one view, in both SpeedUp modes |
| `ViewChange.EveryMoveIsJustified` | internal/bft/viewchanger.go:396-437 | in every run the current view moves only as said above, or forward on news of a view |
| `ViewChangeRuns.RecordsAreInputs` | internal/bft/viewchanger.go:274-302 | in every run the vote sets hold exactly those who voted or reported since the node joined its view, and the record of announced views the latest of each node |
| `ViewChangeRuns.MovesExactly` | internal/bft/viewchanger.go:396-437 | in every run the current view moves exactly on the vote that completes a quorum with the node itself, on recovery, or on news |
| `ViewChangeRuns.StartsExactly` | internal/bft/viewchanger.go:367-410 | in every run a view change gets under way exactly by a complaint about a view that is not older, or by the vote of the (f+1)-th voter with SpeedUp |
| `ViewChangeRuns.AnnouncesExactly` | internal/bft/viewchanger.go:755-793 | in every run a new-view message is broadcast exactly when a report to the leader of the current view completes a quorum of distinct reporters since it joined or last broadcast, and the in-flight check succeeds |
| `ViewChangeRuns.RealViewExactly` | internal/bft/viewchanger.go:337-355 | in every run the real view changes exactly with such a broadcast that installs the view, with an installed new-view message of the leader, or with news, and then to the current view |
| `ViewChangeRuns.DoneExactly` | internal/bft/viewchanger.go:367-437 | in every run each step does to the outside exactly what the votes and reports so far ask for, in order |
| `Leader.GetLeaderID` | internal/bft/util.go:72-100 | the loop computes the leader, with the panic as no leader |
| `Leader.LeaderIsFirstFree` | internal/bft/util.go:72-100 | without rotation the node at the view number; with it the first node off the blacklist in cyclic order from view number plus full turns, and none exactly when all nodes are listed |
| `Leader.ShortBlacklistLeavesALeader` | internal/bft/util.go:72-100 | with at most f entries there always is a leader |
| `Blacklist.CountAcks` | internal/bft/util.go:514-521 | counts mentions of a node over all witnesses, whatever the map order |
| `Blacklist.PruneBlacklist` | internal/bft/util.go:502-541 | keeps exactly the nodes of the configuration without enough mentions, in order |
| `Blacklist.AddSkippedLeaders` | internal/bft/util.go:437-458 | appends the leaders of the views that were passed over |
| `Blacklist.DropOldest` | internal/bft/util.go:467-471 | keeps the last f entries |
| `Blacklist.ComputeUpdate` | internal/bft/util.go:429-490 | the whole update equals its specification, no leader being the panic |
| `Blacklist.SkippedAreAbandonedLeaders` | internal/bft/util.go:437-458 | every added node led a view that was passed over, and is not the current leader |
| `Blacklist.UpdateIsSound` | internal/bft/util.go:429-490 | at most f entries, never gaining the current leader; within a view exactly the entries that stay |
| `Blacklist.BlacklistStaysShort` | internal/bft/util.go:429-490 | along any chain of updates the list has at most f entries and a leader exists |
| `Blacklist.ChainExtends` | internal/bft/util.go:429-490 | any chain can be continued: the update never panics |
| `BlacklistUpdates.UpdateExactly` | internal/bft/util.go:429-490 | the update is exactly the last f of the entries that stay, or of the previous entries followed by the leaders of the given-up views without the current one, in order |
| `BlacklistUpdates.SkippedExactly` | internal/bft/util.go:437-458 | the skipped leaders are exactly those, one per given-up view, and there are none exactly if some view had no leader |
| `BlacklistUpdates.GainedLedBefore` | internal/bft/util.go:437-471 | at most f entries, and each new one led a given-up view and is not the current leader, however long the previous list was |
| `BlacklistUpdates.KeptExactly` | internal/bft/util.go:499-541 | inside a view a list of at most f entries keeps exactly the nodes of the configuration that were named at most f times |
| `Blacklist.AcksCountObservers` | internal/bft/util.go:514-521 | mentions are at least the observers, and equal exactly when no witness names the node twice |
| `Blacklist.StaysByObservers` | internal/bft/util.go:499-541 | for every threshold f a node stays exactly when at most f witnesses saw its prepares, if and only if no witness names it twice |
| `Blacklist.MentionsAreNotWitnesses` | internal/bft/util.go:499-541 | one witness can outvote the threshold by naming a node twice |
| `ProposalCheck.CollectAcknowledgements` | internal/bft/view.go:643-684 | reads the prepares that each commit signature attests to, or fails on the first unreadable one |
| `ProposalCheck.CountWitnesses` | internal/bft/view.go:1101-1125 | counts the signatures with auxiliary data |
| `ProposalCheck.VerifyBlacklist` | internal/bft/view.go:686-753 | the follower's recomputation and comparison of the blacklist |
| `ProposalCheck.VerifyProposal` | internal/bft/view.go:590-641 | the checks in order, each with its own verdict |
| `ProposalCheck.GetMetadata` | internal/bft/view.go:934-985 | the metadata a leader builds, with updated blacklist and bound commit signatures |
| `ProposalCheck.LeaderCanPropose` | internal/bft/view.go:934-962 | a correct leader can always build metadata |
| `ProposalCheck.LeaderProposalIsAccepted` | internal/bft/view.go:590-1029 | a follower with the same view state and checkpoint accepts a correct leader's proposal exactly under the stated condition on signatures, rotation and auxiliary data |
| `ProposalRules.CollectedExactly` | internal/bft/view.go:643-684 | the acknowledgements exist exactly if every signature can be read, and are the lists in the last signature of each signer |
| `ProposalRules.ListExactly` | internal/bft/view.go:686-753 | the blacklist check passes exactly for the list that follows from the last decision and the attached commits, or for the previous one after a reconfiguration, or without rotation for none |
| `ProposalRules.AcceptedExactly` | internal/bft/view.go:590-641 | a proposal is accepted exactly if it is valid, of this configuration, its previous commits can be read, and view, sequence, decisions, blacklist and with rotation the digest are those of the rules |
| `ProposalRules.AcceptedMetadataIsFixed` | internal/bft/view.go:590-641 | with the same previous commits no two proposals are accepted whose metadata differ |
| `ProposalRules.OnlyTheLeadersMetadata` | internal/bft/view.go:590-985 | where leader and follower fit, the follower accepts exactly the valid proposals with the leader's metadata |
| `ProposalRules.AcceptedListIsSound` | internal/bft/view.go:719-753 | with rotation on and nothing reconfigured, an accepted list has at most f entries and does not gain the current leader; inside a view it holds exactly the previous entries still in the configuration that the commits name at most f times |
| `WalFormat.LittleEndianRoundTrip` | pkg/wal/reader.go:147-162 | fixed-width little-endian numbers decode back |
| `WalFormat.HeaderRoundTrip` | pkg/wal/writeaheadlog.go:444-457 | length and checksum share a header and come apart again |
| `WalFormat.FrameReadsBack` | pkg/wal/reader.go:109-143 | a written frame anywhere in a file reads back as its record, with the checksum chained |
| `WalFormat.CutFrameDoesNotRead` | pkg/wal/reader.go:109-177 | a frame cut short reads as a clean end exactly when nothing is left of it or of its payload, and as torn otherwise |
| `WalFormat.WholeRecordsReadBack` | pkg/wal/reader.go:109-143 | reading on from any record passes all later whole records and stops where they stop |
| `WalFormat.CutIsWholeAndRest` | pkg/wal/util.go:241-309 | any cut of a file is its whole frames before the cut and a rest of one frame |
| `WalFormat.CutReads` | pkg/wal/util.go:241-309 | the rest after a cut reads as an end exactly when it is empty or a bare header |
| `WalModel.FileReads` | pkg/wal/reader.go:28-143 | a file of an anchor and records reads as those records |
| `WalModel.FilesRead` | pkg/wal/writeaheadlog.go:534-592 | the file loop collects the records of all files in order |
| `WalModel.DropsUpToMark` | pkg/wal/writeaheadlog.go:675-693 | deletion stops at the file of the last truncation mark |
| `WalModel.DroppedRecordsDoNotMatter` | pkg/wal/writeaheadlog.go:675-693 | no reader is owed anything from the deleted files |
| `WalModel.SwitchKeepsValid` | pkg/wal/writeaheadlog.go:639-758 | moving to a new file keeps indexes contiguous, checksums chained and every live entry |
| `WalLog.AppendKeeps` | pkg/wal/writeaheadlog.go:419-503 | an appended record adds its data to the live entries, after a mark alone, and ends the last file |
| `WalLog.OpenKeeps` | pkg/wal/writeaheadlog.go:207-276 | opening what the log wrote always succeeds |
| `WalLog.ReadKeeps` | pkg/wal/writeaheadlog.go:516-608 | reading returns exactly the live entries and leaves a writable log |
| `WalLog.StepRefines` | pkg/wal/writeaheadlog.go:340-608 | every operation answers as a list of entries does, errors included |
| `WalLog.LogRefinesList` | pkg/wal/writeaheadlog.go:340-608 | after any operations, under any file-size limit, the log is indistinguishable from that list |
| `WalReading.HeaderLayout` | pkg/wal/writeaheadlog.go:444-457 | length in the first four bytes of a header, checksum in the next four, low byte first |
| `WalReading.ReadExactlyIfChecked` | pkg/wal/reader.go:109-143 | a record in a file is read exactly if it decodes, is of a known kind and its checksum continues the one before |
| `WalReading.ReadsAChain` | pkg/wal/writeaheadlog.go:545-565 | reading on through any bytes collects a chain of such records up to one that does not read |
| `WalReading.OnlyCheckedEntries` | pkg/wal/writeaheadlog.go:516-608 | whatever the files hold, entries are returned only if every file is one unbroken chain to its end that continues the file before, and they are what those records owe a reader |
| `WalFiles.OldFilesAreGone` | pkg/wal/writeaheadlog.go:639-758 | after any operations the directory holds exactly the active files, of which only the first and the last can hold a truncation mark |
| `WalFiles.FilesStaySmall` | pkg/wal/writeaheadlog.go:485-503 | after any operations no file is larger than the limit less 16 bytes by more than one frame, and the one being written not at all |
| `WalRecovery.RepairTrims` | pkg/wal/writeaheadlog.go:293-337 | repairing a torn last file keeps its whole records and nothing else |
| `WalRecovery.CutRecovers` | pkg/wal/writeaheadlog.go:760-806 | a log whose last file is cut at or after the end of its anchor, also right after a header, comes back with exactly the whole records before the cut |
| `WalRecovery.CutAnchorFails` | pkg/wal/writeaheadlog.go:760-806 | a cut inside the anchor is an error |
| `WalRecovery.CutLosesTheEnd` | pkg/wal/writeaheadlog.go:760-806 | after any operations, under any file-size limit, a cut of the last file at or after its anchor brings back the log as of some earlier operation, and the records of the later operations are exactly those not left whole |
| `WalLog.RunIsKept` | pkg/wal/writeaheadlog.go:340-608 | after any operations the last file ends the history of all records written, and the files before it hold what a reader is owed of the rest |
| `WalRecovery.NothingIsLost` | pkg/wal/writeaheadlog.go:760-806 | a crash between any two operations loses no entry |
| `WriteAheadLog.LogRecordReader.Read` | pkg/wal/reader.go:109-143 | reads one record and advances position and checksum, or tells why not |
| `WriteAheadLog.LogRecordReader.ReadFirst` | pkg/wal/reader.go:28-89 | a file opens exactly when it starts with an anchor |
| `WriteAheadLog.LogRecordReader.ReadToEnd` | pkg/wal/writeaheadlog.go:545-565 | the read loop collects entries and marks up to the first failure |
| `WriteAheadLog.ReadFilesBounded` | pkg/wal/writeaheadlog.go:516-608 | after reading, the truncation index is among the active files |
| `WriteAheadLog.ValidIsBounded` | pkg/wal/writeaheadlog.go:675-693 | every log in order meets what the deletion loop relies on |
| `WriteAheadLog.WriteAheadLogFile.Create` | pkg/wal/writeaheadlog.go:125-195 | a new log is one file with an anchor |
| `WriteAheadLog.WriteAheadLogFile.CloseLog` | pkg/wal/writeaheadlog.go:340-371 | closing changes nothing on disk |
| `WriteAheadLog.WriteAheadLogFile.DeleteOldFiles` | pkg/wal/writeaheadlog.go:675-693 | the deletion loop stays within the active files and removes exactly those before the mark |
| `WriteAheadLog.WriteAheadLogFile.DeleteAndCreateFile` | pkg/wal/writeaheadlog.go:667-758 | old files go, a new one starts with the running checksum |
| `WriteAheadLog.WriteAheadLogFile.WriteRecord` | pkg/wal/writeaheadlog.go:428-482 | one framed record is written and the checksum moves |
| `WriteAheadLog.WriteAheadLogFile.AddRecord` | pkg/wal/writeaheadlog.go:419-503 | append with its errors and the switch at the size limit |
| `WriteAheadLog.WriteAheadLogFile.Append` | pkg/wal/writeaheadlog.go:402-417 | appending data, refused when empty |
| `WriteAheadLog.WriteAheadLogFile.TruncateTo` | pkg/wal/writeaheadlog.go:383-393 | appending a mark |
| `WriteAheadLog.WriteAheadLogFile.ReadOne` | pkg/wal/writeaheadlog.go:535-591 | one file of the read loop, with its three kinds of failure |
| `WriteAheadLog.WriteAheadLogFile.ReadAllEntries` | pkg/wal/writeaheadlog.go:516-608 | reading all files and moving to write mode |
| `WriteAheadLog.CheckWalFiles` | pkg/wal/util.go:88-142 | anchors and contiguity of all files |
| `WriteAheadLog.ScanVerifyFiles` | pkg/wal/util.go:189-237 | all files read to their end with chained checksums |
| `WriteAheadLog.ScanRepairFile` | pkg/wal/util.go:241-309 | cuts a file after its last good record, or drops it |
| `WriteAheadLog.RepairLog` | pkg/wal/writeaheadlog.go:293-337 | verifies all but the last file and repairs the last |
| `WriteAheadLog.OpenLog` | pkg/wal/writeaheadlog.go:207-276 | a handle in read mode, exactly when the files pass the checks |
| `WriteAheadLog.InitializeAndReadAll` | pkg/wal/writeaheadlog.go:760-806 | create, or open and read, with one repair |
| `Recovery.PersistedState.SaveMessage` | internal/bft/state.go:38-75 | what is saved is logged and tracked; only a proposal truncates |
| `Recovery.PersistedState.RecoverProposed` | internal/bft/state.go:155-182 | the view continues at the saved proposal |
| `Recovery.PersistedState.RecoverPrepared` | internal/bft/state.go:184-247 | the view continues at the saved commit, or after it when it was delivered |
| `Recovery.PersistedState.RestoreView` | internal/bft/state.go:115-153 | the last record decides how a view is restored |
| `Recovery.RestoreGivesBack` | internal/bft/state.go:115-247 | a log that remembers a view gives back what the crash step of the cluster model gives: phase, proposal, vote, signature and in-flight data |
| `Recovery.EventKeepsHold` | internal/bft/view.go:439-550 | every event keeps the log in that relation, so truncation never drops the pre-prepare a saved commit needs |
| `Recovery.ConsistentStays` | internal/bft/view.go:384-554 | every event keeps one digest per sequence among all votes ever sent, helping votes included |
| `Recovery.RestartKeepsSafe` | internal/bft/state.go:115-247 | so does a restart, which always succeeds |
| `Recovery.SyncKeepsSafe` | internal/bft/controller.go:605-709 | so does a synchronization of a running view, which leaves the log as it is |
| `Recovery.SyncKeepsSecure` | internal/bft/controller.go:605-709 | and one of a view that has ended |
| `Recovery.RunIsSafe` | internal/bft/state.go:38-247 | all of this holds in every run of events, synchronizations and crashes, also for views that have ended |
| `Recovery.RestartNeverFails` | internal/bft/state.go:115-247 | so a restart never fails, whatever happened before |
| `Recovery.OvertakenComesBack` | internal/bft/state.go:155-182 | runs in which a saved proposal is passed by a synchronization and a restart comes up with it at a later sequence |
| `Recovery.CrashRestores` | internal/bft/state.go:115-247 | whatever happened before, a crash restores the state that the crash step of the cluster model gives, and that is the view as it was exactly unless the log ends with a proposal that was passed |
| `Recovery.OneDigestPerSequence` | internal/bft/state.go:38-247 | however often it restarts and synchronizes, a replica never votes for two digests at one view and sequence |
| `Recovery.SavesSurvive` | internal/bft/state.go:38-59 | reading the write-ahead log gives back exactly the saved messages since the last proposal |
| `Controller.ControllerState.DeliverProposal` | internal/bft/controller.go:973-1006 | delivers, or takes the synchronizer's answer when the sequence was reached already |
| `Controller.ControllerState.MaybePruneInFlight` | internal/bft/controller.go:711-734 | drops the in-flight proposal exactly when its sequence was synchronized |
| `Controller.ControllerState.SyncState` | internal/bft/controller.go:605-709 | synchronization with and without a collected state |
| `Controller.ControllerState.MoveToView` | internal/bft/controller.go:425-453 | older views and the running one are ignored |
| `Controller.ControllerState.OnDecision` | internal/bft/controller.go:557-587 | a decision is delivered, counted, and may rotate the leader; deliveries stay in order |
| `Controller.ControllerState.OnSync` | internal/bft/controller.go:539-552 | the event loop's use of a synchronization; deliveries stay in order |
| `Controller.ControllerState.Process` | internal/bft/controller.go:516-555 | one turn of the event loop keeps delivered sequences increasing, and neither view nor checkpoint goes back |
| `Controller.StartAt` | internal/bft/controller.go:792-807 | the start is at the later view and the later sequence of the two, with the synchronized decisions exactly if either is later |
| `Controller.SyncAnswerFollowsCheckpoint` | internal/bft/controller.go:605-709 | every answer that is not empty has the sequence after the checkpoint and no older view |
| `Controller.DeliverKeepsSound` | internal/bft/controller.go:973-1006 | nothing is delivered at or below a sequence delivered before |
| `Controller.RunDeliversInOrder` | internal/bft/controller.go:516-709 | through any interleaving of decisions, view-change deliveries and synchronizations delivered sequences strictly increase, and view and checkpoint never go back |
| `Controller.GateCondition` | internal/bft/controller.go:973-1006 | the gate keeps this exactly when a refused proposal meets a synchronizer that is not behind what was delivered |
| `Controller.OlderAnswerRedelivers` | internal/bft/controller.go:989-990 | an older answer lets a sequence through twice |
| `ControllerRuns.DeliversTheNews` | internal/bft/controller.go:516-709 | in every run the application gets exactly the decisions that are newer than all the node knows when they come, and the checkpoint is the newest decision it has heard of |
| `ControllerRuns.ViewIsHighestHeard` | internal/bft/controller.go:425-453 | in every run the view is the highest the node has heard of, an answer of other nodes counting if it continues from the decision that came with it |
| `ControllerRuns.SyncingExactly` | internal/bft/controller.go:605-709 | what a synchronization does to the count, the in-flight proposal and the outside, in order |
| `ControllerRuns.MovingExactly` | internal/bft/controller.go:425-587 | a decision counts once and restarts the view only to rotate; a view change starts the view it asks for unless that is older or runs already |
| `ControllerRuns.DecidingKeepsCount` | internal/bft/controller.go:557-587 | a decision of the current view keeps the count of decisions in the view right |
| `ControllerRuns.ChangingKeepsCount` | internal/bft/controller.go:425-453 | a later view counts anew; being asked for the current view again keeps the count right exactly if nothing was decided in it |
| `ControllerRuns.SyncingKeepsCount` | internal/bft/controller.go:605-709 | a synchronization keeps the count right exactly if it neither goes on in the view without a later decision, nor takes a later decision of an earlier view with an answer that does not continue from it |
| `ControllerRuns.CountStartsOver` | internal/bft/controller.go:605-709 | an instance in which it does not |
| `PoolModel.FinishKeepsGood` | internal/bft/requestpool.go:235-286 | inserting keeps queue and index in bijection, the byte count and the permits |
| `PoolModel.RemoveKeepsGood` | internal/bft/requestpool.go:381-423 | so does removing, which keeps live and removed ids apart |
| `PoolModel.EraseKeepsGood` | internal/bft/requestpool.go:425-444 | erasing keeps the removed ids and their order in step |
| `PoolModel.RunIsGood` | internal/bft/requestpool.go:193-444 | in every run, Close included: bijection, permits equal to queued plus pending, live and removed ids disjoint, and until Close the exact byte count |
| `PoolModel.EmptyIsGood` | internal/bft/requestpool.go:92-146 | a new pool starts that way |
| `PoolModel.CloseEmpties` | internal/bft/requestpool.go:446-458 | closing empties queue and index in whatever order the map yields, and releases their permits |
| `PoolModel.ErasedExactly` | internal/bft/requestpool.go:425-444 | erasing keeps a removed id exactly when fewer than a thousand were removed after it |
| `PoolModel.RemovedIsRefused` | internal/bft/requestpool.go:415-444 | an id that is new to the removed ids, or the latest of them, is refused after its removal until a thousand other ids were removed |
| `PoolModel.RefusedExactlyWhenLatest` | internal/bft/requestpool.go:415-444 | after a removal the id is refused in every continuation with fewer than a thousand other removals, if and only if it was new to the removed ids or the latest of them |
| `PoolModel.EarlierIsForgotten` | internal/bft/requestpool.go:415-444 | any removed id that is not the latest is forgotten by some continuation with fewer than a thousand removals |
| `PoolModel.BatchIsLongest` | internal/bft/requestpool.go:304-339 | a batch is within both limits and no longer prefix of the queue is |
| `PoolModel.FullBatchIsFinal` | internal/bft/requestpool.go:301-339 | a full batch is unchanged by later submissions of non-empty requests |
| `PoolModel.EmptyRequestJoins` | internal/bft/requestpool.go:301-339 | exactly when an empty request can still join a full batch |
| `PoolModel.FullBatchIsNotEmpty` | pkg/types/config.go:164-166 | with the limits the configuration demands a full batch holds a request |
| `PoolModel.IndexHasSizeOfQueue` | internal/bft/requestpool.go:271-273 | map and list have the same length, so the panics on it are out of reach |
| `PoolRuns.RunIsWithinCapacity` | internal/bft/requestpool.go:193-286 | in every run the queued and pending requests are within the capacity |
| `PoolRuns.QueueIsInOrder` | internal/bft/requestpool.go:235-286 | in every run the queue holds requests in the order in which their submissions finished |
| `PoolRuns.QueuedUntilRemoved` | internal/bft/requestpool.go:381-423 | a queued request stays queued until its id is removed |
| `PoolRuns.SubmissionEnters` | internal/bft/requestpool.go:193-286 | a small enough request with a new id enters an open pool with a free permit, unless its id is queued or removed before the submission finishes |
| `RequestPool.RequestPool.BeginSubmit` | internal/bft/requestpool.go:193-233 | the first checks and the permit |
| `RequestPool.RequestPool.FinishSubmit` | internal/bft/requestpool.go:235-286 | the second checks, then insertion or release of the permit; the pool stays in order |
| `RequestPool.RequestPool.Unlink` | internal/bft/requestpool.go:398-403 | takes one request out and leaves the order of the others |
| `RequestPool.RequestPool.RemoveRequest` | internal/bft/requestpool.go:381-423 | removal, also of an id that is not in the pool |
| `RequestPool.RequestPool.EraseFromDelSlice` | internal/bft/requestpool.go:425-444 | forgets all but the last thousand removed ids; the pool stays in order |
| `RequestPool.RequestPool.CloseAll` | internal/bft/requestpool.go:446-458 | closing leaves an empty pool in order, with the removed ids remembered |
| `RequestPool.RequestPool.NextRequests` | internal/bft/requestpool.go:304-339 | the longest batch, full exactly when the pool holds maxCount requests or maxSizeBytes bytes; with check nothing unless full |
| `StateCollector.Collector.RegisterVote` | internal/bft/util.go:123-136 | the first response of each sender is kept |
| `StateCollector.Collector.CountVotes` | internal/bft/statecollector.go:103-121 | counts every pair and leaves the queue unchanged |
| `StateCollector.Collector.CollectedEnoughEqualVotes` | internal/bft/statecollector.go:103-129 | finds a pair past f whenever there is one, whichever the map yields first |
| `StateCollector.Collector.CollectStateResponses` | internal/bft/statecollector.go:77-101 | the result is a function of the arrival order |
| `StateCollector.OnlyLastPairCrosses` | internal/bft/statecollector.go:103-129 | only the last vote's pair can get past f |
| `StateCollector.AgreedExactly` | internal/bft/statecollector.go:77-129 | something is agreed on exactly when some pair has more than f of the first responses |
| `StateCollector.AgreedIsBacked` | internal/bft/statecollector.go:103-129 | the pair was reported by f+1 distinct senders, one of them correct |
| `StateCollector.FirstOnesExactly` | internal/bft/util.go:123-136 | the votes kept are exactly the first responses of all senders |
| `StateCollector.AgreesOnFirst` | internal/bft/statecollector.go:77-129 | the answer is the pair that is first to be reported by more than f senders, counting first responses, and there is none exactly while no pair is |
| `Partition.PartitionedProcessor.AddRequest` | internal/bft/util.go:606-631 | accepted exactly for a known sender whose queue has room |
| `Partition.PartitionedProcessor.ProcessRound` | internal/bft/util.go:633-702 | a round takes at most one request from each queue |
| `Partition.HandledIsPrefix` | internal/bft/util.go:633-668 | what was handled for a sender is a prefix of what was accepted, and the rest waits in order |
| `Partition.HandledByRounds` | internal/bft/util.go:670-702 | after n rounds exactly the first n waiting requests were handled, whatever anyone enqueued |
| `Partition.HandledInItsRound` | internal/bft/util.go:670-702 | a request at position p is handled in the (p+1)-th next round, not before and not after |
| `Partition.LastIndexOwns` | internal/bft/util.go:606-616 | a sender is served by the queue of its last position, and unknown exactly if it has none |
| `Partition.AcceptsExactly` | internal/bft/util.go:606-631 | a queue accepts a payload sent to it exactly if there is room, and nothing else |
| `Partition.NothingIsLost` | internal/bft/util.go:606-631 | with room for all that is sent a queue accepts it all, in order |

## Left out

- gRPC servers and clients, the example chain, scripts, generated message code, mocks, metrics and logging: input, output and measurement.
- Real time, timers, goroutine scheduling, mutexes and channel deadlock: events are atomic and come in any order; nothing is claimed about progress.
- Cryptography and encodings: replaced by the assumptions above.
- internal/bft/heartbeatmonitor.go: flags driven by ticks, it would only add easy members.
- internal/bft/sched.go: not wired into the consensus object.
- Reconfiguration and the wiring of components in pkg/consensus/consensus.go: the set of nodes is fixed.
- Crash recovery in the middle of a view change, and the commits of the in-flight view.
- discoverIfSyncNeeded in internal/bft/view.go:795-855: its outcome, stopping the view, is the event `Stop`, which may happen at any time.
- Aliasing of Go slices in computeUpdate (internal/bft/util.go:429-490): lists are values.
- A crash between two system calls of the log (half a deletion, a file without its anchor's bytes on disk) other than a cut of the last file.
- Receiving a state response on a full channel: a dropped response is one that did not arrive.
- Timeouts of pooled requests and ChangeOptions: the options of a pool are fixed.
- Recovery.PersistedState.RestoreView: the view it fills is passed and returned as a value, so aliasing of a view object is not captured.
- Recovery.OneDigestPerSequence: runs in which a view restored behind its checkpoint becomes prepared are left out; `Invariance.OvertakenNeverPrepares` shows that a cluster has no such runs.
- Recovery.RunIsSafe: what a node saves during a view change is not followed.
- RequestPool.RequestPool.NextRequests: closing does not adjust the byte count, so after Close a batch handed out with check set need not be full.
- RequestPool.RequestPool.Unlink: list elements are identified by their request, which is unique in the queue, not by their address.
- ViewChange.ViewChanger.OnViewData: whether the reported decisions and the in-flight check pass is an input here; those checks are modelled in `InFlight` and `NewView`.
- ViewProtocol.View.CollectCommits: verifier goroutines are a set of votes being verified, finishing in any order.
