# Verified models of ruv-drone coordination

Dafny models of the decision-making core of a drone swarm, with proofs of what the
source's documentation and tests promise of it.

- **LatentMesh delta protocol.** `AdvisoryState` is the Q16.16 telemetry codec, `Air` the
  contract assumed of the message crate, `Protocol` the transmit and receive sessions as
  classes, each method proved against a state function. `ProtocolRuns` puts honest senders,
  one receiver and a hostile network into runs and proves agreement and order;
  `ProtocolBounds` proves the resource limits, `ProtocolDelivery` that the frames of a
  message complete it, `ProtocolRecovery` that rejections leave no trace and what replay
  windows hold, `ProtocolResync` that keyframes recover from loss, `ProtocolIsolation` that
  sources do not disturb each other, `AdvisoryStore` what the orchestrator makes of the accepted advisories.
- **Cluster-head election.** `Raft` is one node, `RaftCluster` a cluster over a network that
  loses, repeats and reorders, `RaftElection` election safety with its exact condition.
- **Jellyfish gait.** `Energy`, `PulseGait`, `GaitProgress` and `Budget`: the conservation
  law over arbitrary step sequences, the closed-form cost bound, speed bounds and progress,
  and the exact energy budget.
- **Geometry and planning.** `Gdop` (dilution of precision), `Geofence` (ray casting and
  distance to the boundary) with `GeofenceMoves` (what inside means along a flight),
  `Coverage` (serpentine strips).
- **Statistics and policy.** `RobustStats`, `Bootstrap` and `BootstrapPoint`, `Gossip`, `Policy`.

`Foundation` holds results, machine integer ranges and shared arithmetic.

## How the source is modelled

- `f64` and `f32` values are reals, with a separate non-finite case where the code tests for
  one. For the codec this is exact: scaling by 65536 is, and the codes of the `f32` fields
  fit in 24 bits. Rounding elsewhere is not modelled.
- Dafny has no square root. Dilution and distances are compared through their squares, and
  the source's thresholds are squared with them.
- Integers keep their width where the code wraps, saturates or casts: 16-bit wire numbers,
  saturating clocks, 64-bit generator arithmetic, 32-bit message ids.
- What comes from outside is a parameter: clocks, received frames, link measurements, the
  first failure of a foreign call when encoding, the relative flow of a loiter tick.
- The Air crate is represented by its contract. Hashes are collision-free; `between` and
  `apply` are a map difference bound to the hashes of both ends; signatures are symbolic,
  and a run is unforgeable when every envelope heard under an honest key was signed by its
  owner. The replay window is an arbitrary function of the wire numbers committed to it and
  the reassembler an arbitrary function of the frames it holds, so the results hold for any
  implementation of either. Recovery alone asks something of them: a window whose committed
  numbers have each been ahead of the one before by less than half the 16-bit range takes
  the next number that is, which a fixed-size sliding window does, and the frames of a
  message are held until the last of them completes it, which a reassembler that counts
  fragments does in any order (`ProtocolDelivery.InAnyOrder`). Runs before a recovery must
  keep accepted messages of an epoch less than half the range apart (`ShortSilences`).

## Results worth knowing

- The codec does not round-trip headings next to a full turn: codes beyond 411774 are
  encoded and then rejected by the decoder.
- Election safety, for replies that reach only the candidate they answer and nodes that do
  not hear their own requests, depends on three things that the environment controls.
  Ticking a node with fewer than two peers breaks it for every size; a voter granting a
  second candidate after a same-term `AppendEntries` cleared its vote breaks it from three
  nodes on; counting a grant twice breaks it from four nodes on. A repeated request is
  answered with a second grant, so delivering every reply once is not enough: the grants of
  one voter must be counted once. Under those two hypotheses every other behaviour of the
  network is safe, and `RaftElection.ElectionSafety` is an equivalence.
- A boundary edge shorter than a micrometre is measured from its first end only.
- The scheduler's deadline test saturates, so a deadline at the last 64-bit instant is
  always found reachable, and `Policy.LateSend` is a message sent too late; every other
  deadline is tested exactly.
- The bootstrap interval need not contain its point estimate. Over all draws it does exactly
  when no resampling within the strata can move the interquartile mean, which is one
  comparison of two pools; then it does for every seed of the source's generator. Whether
  some seed of that generator misses for given unsettled strata is shown for two samples.
- After a sweep the advisory store takes older advisories again; only the receiver's order
  keeps it from going back.

## Model

| member | source | states |
|---|---|---|
| AdvisoryState.ToCriticalState | src/latentmesh/state.rs:89-167 | fills the field map one field at a time and returns either the whole canonical state or the first failing range check, never a partial state |
| AdvisoryState.ValidationIsDomain | src/latentmesh/state.rs:220-300 | the sequence of range checks passes exactly for drones whose every field is finite and inside its documented range; every field then fits a Q16.16 code |
| AdvisoryState.ValidateFieldSet | src/latentmesh/state.rs:206-218 | a field map passes exactly when its fields are the fourteen of the schema, no fewer and no more |
| AdvisoryState.CodeIsClose | src/latentmesh/state.rs:302-319 | the code of an in-range value decodes to within 1/131072 of it |
| AdvisoryState.DecodeShape | src/latentmesh/state.rs:170-204 | an accepted state has exactly the schema fields, every fixed-point field of the snapshot is its code over 65536, and the drone is in range |
| AdvisoryState.DecodeThenEncode | src/latentmesh/state.rs:89-204 | decoding and encoding again returns the accepted state itself |
| AdvisoryState.EncodeThenDecode | src/latentmesh/state.rs:89-204 | for every valid drone the decoder accepts what the encoder produced exactly when the heading code is at most 411774 in magnitude, and then integers are exact and fixed-point fields within 1/131072 |
| AdvisoryState.FullTurnDoesNotRoundTrip | src/latentmesh/state.rs:232-239 | a heading of exactly 2*pi is encoded, and the decoder rejects the result |
| Air.ApplyBetween | src/latentmesh/protocol.rs:276-293 | a delta applied to its own base gives its target and to any other base fails, from the assumed hash contract |
| Protocol.LatentMeshTxSession.New | src/latentmesh/protocol.rs:177-238 | a frame size out of range, a priority or keyframe interval out of range and flags that are unknown or the session's own are refused, in that order; any other settings give a new sender at sequence zero with an empty delta base |
| Protocol.LatentMeshTxSession.RotateEpoch | src/latentmesh/protocol.rs:252-263 | only a greater epoch is taken, and it restarts the sequence and the delta base; a refusal changes nothing |
| Protocol.LatentMeshTxSession.EncodeAdvisoryState | src/latentmesh/protocol.rs:265-336 | sequence and delta base move exactly when a whole message is produced; every failure leaves the session as it was |
| Protocol.LatentMeshRxSession.New | src/latentmesh/protocol.rs:374-495 | limits out of range, flags that are unknown or the session's own and a reassembler that cannot be made are refused, in that order; any other configuration gives a receiver that knows no source |
| Protocol.LatentMeshRxSession.RestoreReplayCheckpoint | src/latentmesh/protocol.rs:527-563 | the new state and the first refusal, for every checkpoint: trust, range, rollback and capacity in that order |
| Protocol.LatentMeshRxSession.ExpireStale | src/latentmesh/protocol.rs:566-579 | exactly the snapshots past their time to live are dropped and counted; every mark and window stays |
| Protocol.LatentMeshRxSession.ClearContexts | src/latentmesh/protocol.rs:663-674 | removing the collected contexts one by one removes exactly those, from the reassembler and the start times |
| Protocol.LatentMeshRxSession.ThrottleFrame | src/latentmesh/protocol.rs:653-685 | clock regression, context timeout, window reset and rate limit, with the state each refusal leaves behind |
| Protocol.LatentMeshRxSession.Push | src/latentmesh/protocol.rs:687-712 | the context bookkeeping round one reassembler call, in all four outcomes |
| Protocol.LatentMeshRxSession.TakeFrame | src/latentmesh/protocol.rs:616-712 | the receiver after one frame up to completion, and which check refuses it |
| Protocol.LatentMeshRxSession.IngestDecodedFrame | src/latentmesh/protocol.rs:616-716 | one frame as a step of the receiver: refused, held, or completed and admitted |
| Protocol.Authentic | src/latentmesh/protocol.rs:725-768 | a message that passes is bound to the hinted source, signed under that source key, and carries the delta that was signed |
| Protocol.LatentMeshRxSession.RebuildFrom | src/latentmesh/protocol.rs:769-869 | base and window selection, replay, order, delta application, decoding and freshness, in that order, with the first failure |
| Protocol.LatentMeshRxSession.AdmitComplete | src/latentmesh/protocol.rs:718-907 | a message changes the receiver only if every check passes, and then only the record of its own source |
| ProtocolRuns.DeliveredIsGated | src/latentmesh/protocol.rs:622-637 | a frame that changes anything or gets further has the configured profile and flags, the stream of the hinted source, and a trusted source |
| ProtocolRuns.AuthenticExact | src/latentmesh/protocol.rs:725-768 | a message is authentic exactly when its outer metadata repeats the envelope, the trusted key of the hinted source signed that envelope, and it carries a delta without learned residuals |
| ProtocolRuns.AdmittedIsNamed | src/latentmesh/protocol.rs:718-907 | an accepted message is authentic, and record and report carry the epoch and sequence of the signed envelope |
| ProtocolRuns.AdmittedIsRebuilt | src/latentmesh/protocol.rs:838-848 | the stored state is the signed delta applied to some base, decodes to the reported snapshot and describes the hinted source |
| ProtocolRuns.AdmittedIsNewer | src/latentmesh/protocol.rs:772-836 | an accepted message lies strictly beyond the receiver mark for its source |
| ProtocolRuns.AdmittedIsTimely | src/latentmesh/protocol.rs:840-869 | an accepted snapshot is within the age and skew limits without wrap-around, and not older than the one before it in its epoch |
| ProtocolRuns.NextKeepsAgreement | src/latentmesh/protocol.rs:265-336 | every step of sender, network, expiry and restore keeps the agreement invariant |
| ProtocolRuns.Agreement | src/latentmesh/protocol.rs:265-907 | in every run of honest senders over a lossy, duplicating, reordering and injecting network, each accepted snapshot is the decoding of exactly the state encoded under that epoch and sequence |
| ProtocolRuns.EveryRunAgrees | src/latentmesh/protocol.rs:265-907 | the same from the initial state, with no invariant assumed |
| ProtocolRuns.NextOrdered | src/latentmesh/protocol.rs:527-579 | every step keeps accepted messages ordered and covered by the high-water marks, and no mark moves back |
| ProtocolRuns.AcceptedInOrder | src/latentmesh/protocol.rs:769-836 | in every run, authentic or not, for any replay window and any checkpoint, the accepted (epoch, sequence) pairs of a source strictly increase |
| ProtocolBounds.KnownSourcesBounded | src/latentmesh/protocol.rs:545-588 | in every run the number of sources the receiver keeps anything about never exceeds max_peers |
| ProtocolBounds.CompletedInTime | src/latentmesh/protocol.rs:663-674 | a message that completes has all fragments within reassembly_timeout_ms of the first |
| ProtocolBounds.RunKeepsSource | src/latentmesh/protocol.rs:638-712 | every run keeps the context and rate invariants of every source |
| ProtocolBounds.SourceResourcesBounded | src/latentmesh/protocol.rs:638-712 | in every run tracked contexts stay within max_contexts and include all in flight, and any interval of one window length admits at most twice the frame limit |
| ProtocolBounds.MessagesCompleteInTime | src/latentmesh/protocol.rs:663-711 | in every run every completed message took at most reassembly_timeout_ms from first to last fragment |
| ProtocolRecovery.RejectedLeaveNoTrace | src/latentmesh/protocol.rs:718-907 | any list of complete messages leaves the same receiver and reports as its accepted sub-list alone |
| ProtocolRecovery.EpochStartsAtZero | src/latentmesh/protocol.rs:800-808 | without a record for its epoch the receiver refuses every later sequence of that epoch, whatever it carries |
| ProtocolRecovery.SerialAcceptsNewer | src/latentmesh/protocol.rs:797-824 | a fixed-size sliding window, as the copied replay window is, meets the one demand that recovery makes of it |
| ProtocolRecovery.LongSilenceMisleads | src/latentmesh/protocol.rs:810-824 | after a silence of almost a whole cycle of wire numbers such a window takes the next message for a repeat, so the bound on silences is needed |
| ProtocolRecovery.RunKeepsTracked | src/latentmesh/protocol.rs:810-905 | in a run without long silences the window of a source only ever moves forward and ends at its mark |
| ProtocolRecovery.AdmittedRecord | src/latentmesh/protocol.rs:772-905 | an admitted message was accepted by the replay window of its epoch, and the record holds its mark, its timestamp and that window with its wire number committed |
| ProtocolDelivery.MessageReceived | src/latentmesh/protocol.rs:616-716 | a message of any number of frames from a known source, when each passes the gate and the rate limit, comes before the timeout and the first finds its context free: nothing is reported before the last frame, which has the message admitted; its context is closed, every other stays or times out |
| ProtocolDelivery.InAnyOrder | src/latentmesh/protocol.rs:1022-1087 | with a reassembler that counts distinct fragments, a message is deliverable in any order of its fragments, with repeats |
| ProtocolResync.KeyframeInEveryInterval | src/latentmesh/protocol.rs:283-283 | any keyframe_interval consecutive sequences contain a keyframe |
| ProtocolResync.SyncedIsAccepted | src/latentmesh/protocol.rs:718-907 | a fresh message that is a keyframe, or finds the receiver on the sender base, is accepted |
| ProtocolResync.AdmittedInReach | src/latentmesh/protocol.rs:718-907 | accepted or not, a message leaves the receiver within reach of the sender, and an accepted one leaves the two synchronised |
| ProtocolResync.StreamAccepted | src/latentmesh/protocol.rs:265-907 | in a stream sent and heard frame by frame, in messages of any number of frames, everything from the first keyframe on is accepted as sent and nothing is reported before the last frame of a message |
| ProtocolResync.Recovers | src/latentmesh/protocol.rs:265-907 | after any run without long silences, whatever was lost or left half received in it, once the receiver knows the sender epoch and a keyframe is in reach: consecutive fresh states whose frames it can take (gate, rate limit, timeout, a free context) re-synchronise it at the first keyframe, and everything from the end of one keyframe interval on is accepted as sent |
| ProtocolIsolation.OthersDoNotMatter | src/latentmesh/protocol.rs:616-907 | for a source that has a record, or when there is room for one source more than is trusted, the results of its frames and everything held of it are exactly as if no event of any other source had happened, even on a colliding stream |
| ProtocolIsolation.OthersNeverMatter | src/latentmesh/protocol.rs:1383-1432 | the same from the start of a run, for every source |
| ProtocolIsolation.RecoversAmongOthers | src/latentmesh/protocol.rs:265-907 | the same recovery when the frames of the stream are scattered among any frames, rotations and checkpoints of other sources and sweeps that leave this source alone |
| AdvisoryStore.SwarmOrchestrator.ReceiveAdvisory | src/orchestrator/mod.rs:234-253 | an advisory is stored exactly when its source has none or its (epoch, sequence) is strictly later |
| AdvisoryStore.SwarmOrchestrator.ExpireAdvisories | src/orchestrator/mod.rs:271-276 | exactly the advisories past their expiry are deleted and counted |
| AdvisoryStore.SwarmOrchestrator.PeerIsEligible | src/orchestrator/mod.rs:258-268 | the eligibility query, with every missing or unhealthy case refused |
| AdvisoryStore.EligibilityKept | src/orchestrator/mod.rs:234-276 | sweeping changes nobody eligibility from the time of the sweep on, and an offer only that of its own source |
| AdvisoryStore.EligibilityLapses | src/orchestrator/mod.rs:258-268 | eligibility only runs out with time |
| AdvisoryStore.StoreTakesForward | src/orchestrator/mod.rs:234-276 | a store offered strictly forward advisories takes every one, whenever it is swept |
| AdvisoryStore.StoreFollowsReceiver | src/orchestrator/mod.rs:234-276 | fed in order with what a receive session accepts in any run, or with any part of that, the store takes everything although its sweeps delete its own marks |
| AdvisoryStore.SweptStoreGoesBack | src/orchestrator/mod.rs:271-276 | out of order, an older advisory is taken after a sweep exactly when the newer one had expired |
| Raft.RaftNode.constructor | src/topology/raft.rs:88-100 | a node starts as a follower of term zero with no vote |
| Raft.RaftNode.Tick | src/topology/raft.rs:110-156 | the node and its broadcast after any elapsed time, in every role |
| Raft.RaftNode.HandleMessage | src/topology/raft.rs:159-216 | the node and its reply for every message, including the vote that a same-term AppendEntries clears and the vote count without de-duplication |
| Raft.RaftNode.TryPromote | src/topology/raft.rs:219-226 | a candidate leads exactly when its count reaches the quorum |
| RaftCluster.NextKeepsInvariant | src/topology/raft.rs:108-226 | every cluster step keeps votes remembered or excused, tallies backed by distinct voters and leaders backed by a quorum |
| RaftCluster.BackedLeadersAreUnique | src/topology/raft.rs:219-226 | two leaders of one term would need quorums that share a voter |
| RaftCluster.PairKept | src/topology/raft.rs:108-226 | in a cluster of two, a leader peer never stood in that term, kept by every step |
| RaftElection.SafeWithoutFaults | src/topology/raft.rs:108-226 | at most one leader per term in every run of a cluster without the faults that its size is exposed to |
| RaftElection.UnsafeBySolo | src/topology/raft.rs:141-145 | a node ticked with fewer than two peers elects itself, so two can lead one term |
| RaftElection.UnsafeByRegrants | src/topology/raft.rs:187-191 | from three nodes on, voters that grant a second candidate after a same-term AppendEntries elect a second leader |
| RaftElection.UnsafeByRecounts | src/topology/raft.rs:179-186 | from four nodes on, a grant counted twice elects a second leader |
| RaftElection.ElectionSafety | src/topology/raft.rs:108-226 | election safety with its exact condition: which cluster sizes are safe under which of the three faults, both directions |
| PulseGait.Sanitized | crates/ruv-jellyfish/src/pulse.rs:64-68 | whatever the parameters, the band has room between floor and peak and the thrust is positive |
| PulseGait.PulseDriftGait.constructor | crates/ruv-jellyfish/src/pulse.rs:129-142 | a gait starts at the floor with empty books, primed to pulse |
| PulseGait.PulseDriftGait.Step | crates/ruv-jellyfish/src/pulse.rs:155-190 | the whole gait state after one step of any dt, and the commanded speed |
| PulseGait.DriftStepped | crates/ruv-jellyfish/src/pulse.rs:178-189 | a coasting step loses exactly k times the distance it covers |
| PulseGait.PulseBooked | crates/ruv-jellyfish/src/pulse.rs:161-177 | a powered step keeps the conservation law |
| PulseGait.DriftBooked | crates/ruv-jellyfish/src/pulse.rs:178-184 | a coasting step keeps the conservation law |
| PulseGait.ConservationLaw | crates/ruv-jellyfish/src/pulse.rs:155-190 | after any sequence of steps, speed over the floor is (1+r) times the closed impulse plus the open impulse minus k times the distance drifted |
| PulseGait.IdleLaw | crates/ruv-jellyfish/src/pulse.rs:156-190 | after any sequence of steps the idle energy is the idle power times the elapsed time |
| PulseGait.CostBound | crates/ruv-jellyfish/src/energy.rs:80-86 | at every end of a drift, in every run, actuation energy is at most the documented closed-form cost of the distance, and its exact shortfall |
| GaitProgress.SpeedBounded | crates/ruv-jellyfish/src/pulse.rs:155-190 | with steps between d and D, speed stays between zero and (1+r)(peak + accel D) |
| GaitProgress.StepUsesOne | crates/ruv-jellyfish/src/pulse.rs:161-184 | every step ends a drift or uses up one of a computed number of steps |
| GaitProgress.DriftEnds | crates/ruv-jellyfish/src/pulse.rs:161-184 | a drift ends within the computed number of steps, from any state |
| GaitProgress.CyclesForever | crates/ruv-jellyfish/src/pulse.rs:161-184 | any n times as many steps as one cycle can take complete n cycles |
| GaitProgress.SpeedBoundedFromStart | crates/ruv-jellyfish/src/pulse.rs:129-190 | the speed bound for every run of a gait as constructed |
| GaitProgress.CyclesFromStart | crates/ruv-jellyfish/src/pulse.rs:129-190 | a gait as constructed never stalls: from any point of any run it goes on completing cycles |
| Energy.SavingFactor | crates/ruv-jellyfish/src/energy.rs:80-106 | pulse-and-drift costs a factor 1+r less actuation than constant thrust, per metre and on station, at the same hotel load |
| Budget.JellyfishController.constructor | crates/ruv-jellyfish/src/controller.rs:50-64 | a controller starts with nothing spent and a non-negative budget |
| Budget.JellyfishController.Cruise | crates/ruv-jellyfish/src/controller.rs:73-80 | gait, mark and spent after one transit step |
| Budget.JellyfishController.Loiter | crates/ruv-jellyfish/src/controller.rs:84-99 | power, spent and remaining after one loiter tick |
| Budget.JellyfishController.Debit | crates/ruv-jellyfish/src/controller.rs:101-103 | spending stops at the budget |
| Budget.RunBalanced | crates/ruv-jellyfish/src/controller.rs:73-103 | every run keeps spent equal to the capped sum of the gait meter and the loiter energy |
| Budget.BudgetExact | crates/ruv-jellyfish/src/controller.rs:73-117 | after any interleaving, spent is exactly the smaller of the budget and the gait energy plus loiter energy, and continuing never lowers it |
| Gdop.GdopSquared | src/evals/gdop.rs:23-62 | the accumulation loop computes the trace of the inverse normal matrix, or nothing for the same inputs as the source |
| Gdop.SineIsMixed | src/evals/gdop.rs:49-50 | the mixed term of two unit rays is the squared sine between them |
| Gdop.DeterminantIsPairwise | src/evals/gdop.rs:28-50 | the determinant is the sum of squared sines over all pairs of sight lines, and the trace counts the observers |
| Gdop.DilutionExact | src/evals/gdop.rs:23-62 | the result is defined exactly for two or more observers away from the target whose pairwise squared sines reach the threshold, and is their number over that sum |
| Gdop.SinesAtMost | src/evals/gdop.rs:49-50 | the pairwise squared sines of n observers sum to at most n^2/4 |
| Gdop.DilutionAtLeast | src/evals/gdop.rs:56-61 | squared dilution is at least 4/n |
| Gdop.OrderIndependent | src/evals/gdop.rs:34-47 | permuting the observers changes nothing |
| Gdop.ObserverHelps | src/evals/gdop.rs:23-62 | one more observer away from the target, inserted anywhere, keeps the result defined and never makes it larger |
| Geofence.PointInPolygon | src/security/geofence.rs:64-80 | the toggling loop computes the parity of edges crossed by the ray, and false below three vertices |
| Geofence.DistanceToBoundary | src/security/geofence.rs:83-100 | the minimising loop computes the least segment distance, or infinity without vertices |
| Geofence.CheckPosition | src/security/geofence.rs:29-61 | the verdict in the order of the source checks |
| Geofence.InsideOfRotation | src/security/geofence.rs:64-80 | starting the vertex list elsewhere does not change inside or outside |
| Geofence.InsideOfReversal | src/security/geofence.rs:64-80 | nor does reversing it |
| Geofence.ChangesEven | src/security/geofence.rs:71-78 | round the whole boundary an even number of edges lead into or out of any set of vertices |
| Geofence.InsideIsInBox | src/security/geofence.rs:64-80 | an inside point has vertices on all four sides |
| Geofence.MoveRight | src/security/geofence.rs:74-76 | moving right loses exactly the crossings that are passed |
| Geofence.HorizontalMove | src/security/geofence.rs:64-80 | a horizontal move that touches no boundary point stays inside or stays outside |
| GeofenceMoves.EdgeParity | src/security/geofence.rs:71-78 | an edge that does not meet a segment crosses just one of the rays from its ends when just one end of the edge lies in the zone between the rays |
| GeofenceMoves.StraightMove | src/security/geofence.rs:64-80 | a straight move in any direction that meets no boundary point stays inside or stays outside |
| GeofenceMoves.PathMove | src/security/geofence.rs:64-80 | so does any flight along straight legs |
| GeofenceMoves.NoWayOut | src/security/geofence.rs:64-80 | from inside no such flight leaves the bounding box |
| Geofence.SegmentDistanceLeast | src/security/geofence.rs:103-115 | no point of a long enough edge is nearer than the measured distance |
| Geofence.MeasuredExactly | src/security/geofence.rs:103-115 | the measured distance is right for every position exactly when the edge is not below the threshold or has no length |
| Geofence.VerdictExact | src/security/geofence.rs:29-61 | without short edges the verdict is a hard breach, or safe, exactly when the position is not, or is, known, in the band, inside and clear of every boundary point by the margins |
| Geofence.WarningIsNearest | src/security/geofence.rs:56-57 | a warning reports the distance of a boundary point, and none is nearer |
| Geofence.VerdictSound | src/security/geofence.rs:29-61 | on every fence a verdict other than hard breach implies a finite position, the altitude band, the bounding box and clearance of the boundary, to within a micrometre on short edges |
| Coverage.EachCellOnce | src/planning/patterns.rs:117-131 | in any window of one period every grid cell is visited at exactly one step |
| Coverage.StepsToNeighbour | src/planning/patterns.rs:121-131 | consecutive cells of a sweep share a side |
| Coverage.BandCovers | src/planning/patterns.rs:126-133 | every point of a side is within half a scan width of the centre of some band |
| Coverage.BandsTight | src/planning/patterns.rs:113-119 | no row or column is superfluous: all but the last fall short of the side |
| Coverage.StaysInRegion | src/planning/patterns.rs:105-136 | a walk never leaves its region |
| Coverage.StripsApart | src/planning/patterns.rs:160-162 | the strips of two drones share at most a border |
| Coverage.StaysInStrip | src/planning/patterns.rs:157-167 | drone waypoints stay in its own strip and clamping moves none of them |
| Coverage.RegionCovered | src/planning/patterns.rs:105-136 | in any period every point of a region is within half a scan width in each axis of some waypoint |
| Coverage.AreaCovered | src/planning/patterns.rs:157-167 | in any sweep every point of the whole area is within half a scan width in each axis of a waypoint of the drone whose strip holds it |
| Coverage.BoustrophedonCovers | src/planning/patterns.rs:139-149 | the single-drone pattern covers the whole area in one period too |
| RobustStats.SortedShape | src/evals/stats.rs:24-25 | sorting orders the samples and keeps each of them |
| RobustStats.IqmRobust | src/evals/stats.rs:17-34 | replacing a quarter of the samples or fewer by anything keeps the interquartile mean within any bounds of the untouched ones |
| RobustStats.IqmBreaks | src/evals/stats.rs:24-33 | and one sample more is enough to carry it past any bound, so a quarter is exactly the breakdown point |
| RobustStats.IqmWithin | src/evals/stats.rs:17-34 | the interquartile mean of any samples lies within their bounds |
| RobustStats.IqmMonotone | src/evals/stats.rs:17-34 | raising samples never lowers the interquartile mean |
| RobustStats.PercentileMonotone | src/evals/stats.rs:112-127 | percentiles of ordered samples do not fall as p grows and stay among the samples |
| Bootstrap.Lcg.constructor | src/evals/stats.rs:48-51 | the generator starts from the scrambled seed |
| Bootstrap.Lcg.NextU64 | src/evals/stats.rs:53-59 | one wrapping step of the generator |
| Bootstrap.Lcg.Index | src/evals/stats.rs:62-67 | an index below n from the upper bits, and no draw for an empty range |
| Bootstrap.Resample | src/evals/stats.rs:95-101 | one replicate draws every stratum to its own size, in order, from one generator |
| Bootstrap.StratifiedBootstrapCi | src/evals/stats.rs:78-109 | the interval is a function of strata, replicate count and seed |
| Bootstrap.ResampledWithin | src/evals/stats.rs:94-101 | resampling keeps the pool size and its bounds |
| Bootstrap.IntervalWithin | src/evals/stats.rs:78-109 | for every seed and replicate count lo is at most hi, and lo, hi and the point lie within the bounds of the samples |
| BootstrapPoint.ContainsExactly | src/evals/stats.rs:78-109 | for each number of replicates, the interval contains its point estimate for all draws exactly when there are no replicates or the interquartile mean is the same with every sample at the least and at the greatest value of its stratum |
| BootstrapPoint.SettledForEverySeed | src/evals/stats.rs:78-109 | under that condition every seed and replicate count give an interval that is the point |
| BootstrapPoint.ConstantIsSettled | src/evals/stats.rs:78-109 | constant strata meet the condition |
| BootstrapPoint.PairContainsExactly | src/evals/stats.rs:78-109 | for two samples and one replicate of the real generator, the point lies in the interval for every seed exactly when the samples are equal |
| Gossip.GossipState.constructor | src/topology/gossip.rs:17-19 | a new state has version one |
| Gossip.GossipState.Bump | src/topology/gossip.rs:35-37 | bumping raises the version by one and changes nothing else |
| Gossip.BumpWins | src/topology/gossip.rs:22-37 | a bumped copy wins on either side against everything not newer than its original |
| Gossip.FoldIsGreatest | src/topology/gossip.rs:22-32 | any way of merging a collection picks a lexicographic maximum of (version, origin) |
| Gossip.ConvergesExactly | src/topology/gossip.rs:22-32 | replicas that merge the same states in any order, grouping and repetition agree exactly when one state alone has the greatest (version, origin) |
| Gossip.KeysConverge | src/topology/gossip.rs:22-32 | so they agree when (version, origin) determines the state |
| Policy.CapabilityGate.constructor | src/latentmesh/policy.rs:158-163 | a new gate approves no manifest |
| Policy.CapabilityGate.ApproveManifest | src/latentmesh/policy.rs:172-174 | approval adds exactly the manifest, never zero, and reports whether it was new |
| Policy.CapabilityGate.RevokeManifest | src/latentmesh/policy.rs:176-178 | revocation removes exactly the manifest |
| Policy.AuthorizeExact | src/latentmesh/policy.rs:185-265 | the gate opens exactly to authenticated, trusted, fresh requests for one of the five coordination capabilities with no more authority than it bears |
| Policy.BytesExact | src/latentmesh/policy.rs:794-799 | the byte count is the exact ceiling of base copies (100+parity)/100 for every input: nothing saturates |
| Policy.TreatmentBands | src/latentmesh/policy.rs:727-768 | the redundancy in hundredths and the acknowledgement of every band of packet loss, and exactly which classes are refused when |
| Policy.WorseLossCostsMore | src/latentmesh/policy.rs:727-768 | a link that loses more is never given fewer bytes or a weaker acknowledgement, and a refused class stays refused |
| Policy.DensityExact | src/latentmesh/policy.rs:778-792 | the score exists exactly for a utility in range, some bytes and an age within the limit of the class, and score times bytes is utility times weight times the share of lifetime left |
| Policy.DeadlineTest | src/latentmesh/policy.rs:603-605 | the saturating deadline test is exact except for a deadline at the last instant, which it always finds reachable |
| Policy.PlanIsSound | src/latentmesh/policy.rs:595-643 | a plan meets its deadline and its byte, latency, energy and utility figures are what they claim |
| Policy.SendIsSound | src/latentmesh/policy.rs:546-644 | everything sent is authorised for the one capability of its class, fresh, treated as its link requires, on time, within reserve and share of energy, and a learned residual has convincing evidence |
| Policy.LateSend | src/latentmesh/policy.rs:603-605 | at any time, a message with a deadline at the last instant that is sent although it cannot arrive by then |
| Policy.AuthorityIndependent | src/latentmesh/policy.rs:546-644 | link, priority, redundancy and learned evidence never change what a message may do |
| Policy.Schedule | src/latentmesh/policy.rs:648-675 | the result is a permutation of the evaluated inputs in the sort order |
| Policy.ScheduleMeans | src/latentmesh/policy.rs:648-675 | each input index appears exactly once with its own decision, sends before drops, by non-increasing utility per byte, ties in caller order |
| Policy.ScheduleUnique | src/latentmesh/policy.rs:662-673 | there is only one such list, however the sort goes about it |

## Left out

- Foreign code: Ed25519, hashing, CRC, the byte format of frames and envelopes, and the inside of the reassembler and the replay window are not part of this model; their contracts are stated above.
- Fragmentation on the sending side: a batch carries the message that its frames reassemble to, not the frames, so how many there are and what they contain is left to the run.
- Error payloads: an unknown field or an out-of-range field is reported without its number or printed limits.
- Metrics counters of the receive session and `record_result`: they are never read back.
- Reads of receiver state that change nothing (`peer_snapshot`, `replay_checkpoints`).
- ProtocolResync.Recovers: needs a record for the sender's epoch, because without one the receiver refuses the rest of the epoch (`ProtocolRecovery.EpochStartsAtZero`), and accepted messages less than half the wire range apart before it; every frame of the stream passes the gate, keeps within the rate limit and comes before its message times out, and each message finds its own context not in flight and one of `max_contexts` free once timed-out ones are swept (`ProtocolDelivery.Free`), which contexts left open by lost fragments can prevent until they time out.
- ProtocolIsolation.OthersDoNotMatter: needs a record of the source or fewer trusted keys than `max_peers`, because otherwise other sources can use up the capacity before it is known.
- BootstrapPoint.ContainsExactly: quantifies over all draws within the strata; which of them the 64-bit generator can reach from some seed is decided for two samples and one replicate only.
- Raft log replication: `AppendEntries` ignores its previous-entry fields and votes ignore log freshness, so log matching and leader completeness are not claimed; only elections are.
- Raft integer widths: terms, vote counts and elapsed times are unbounded naturals.
- RaftElection.ElectionSafety: a vote reply reaches only the candidate that it answers, and heartbeats come from nodes that led; a reply carries no candidate in the source, and a node does not hear its own request; a reply counted by another candidate of the term, or a node granting itself again, would be further faults.
- Raft eligibility by battery and link, which the election itself does not use.
- Gdop.GdopSquared: returns the square of the dilution, and the `is_finite` test of a real cannot fail.
- Geofence.DistanceToBoundary: returns squared distances; margins and vertices are finite reals.
- Coverage: `Flyable` asks for a positive scan width and a non-negative area, where the source divides by the one and panics on the other; the step and band counts are unbounded where the source uses 64-bit integers.
- Spiral, pheromone, potential-field and Levy patterns: trigonometry and randomness with little to prove.
- Statistics over non-finite samples and `probability_of_improvement`.
- Budget.BudgetExact: for non-negative drag, impulse cost and idle power, as the documentation describes them; the bloom rule that produces the relative flow of a loiter tick is a parameter.
- PulseGait.PulseDriftGait.Step: excludes only a step whose divisor is zero, where the source's division gives infinity; the laws over runs ask for a positive divisor, which every drag that is not negative gives.
- Budget.JellyfishController.Cruise: excludes the same zero divisor of the gait that it steps.
- Gossip `spread`, which only shuffles peers.
- Gossip.GossipState.Bump: excludes the last version, on which the increment panics or wraps depending on the build.
- Policy.SendIsSound: `is_finite` of the estimates cannot fail over reals; the sort is the library's stable sort, of which only the order and the permutation matter.
- Fail-safe machine, auction, formations, MAVLink packing, frequency hopping, reward and neural parts: properties local to one branch, or floating-point functions.
- Transports, telemetry files, command line, HTTP and mock back ends: plumbing.
