/** The orchestrator's store of verified advisories (src/orchestrator/mod.rs). Its expiry
    deletes a source's entry together with the mark that guards against going back. */
module AdvisoryStore {
  import opened Foundation
  import opened AdvisoryState
  import opened Protocol
  import opened ProtocolRuns

  datatype VerifiedAdvisory = VerifiedAdvisory(received: Received, expiresAtMs: U64)

  type Advisories = map<U32, VerifiedAdvisory>

  predicate Supersedes(incoming: Received, current: Received) {
    Before(MarkOf(current), MarkOf(incoming))
  }

  function SourceOf(advisory: VerifiedAdvisory): U32 {
    advisory.received.snapshot.drone.id
  }

  predicate Takes(store: Advisories, advisory: VerifiedAdvisory) {
    SourceOf(advisory) in store ==> Supersedes(advisory.received, store[SourceOf(advisory)].received)
  }

  function Offer(store: Advisories, advisory: VerifiedAdvisory): Advisories {
    if Takes(store, advisory) then store[SourceOf(advisory) := advisory] else store
  }

  function Sweep(store: Advisories, nowMs: U64): Advisories {
    map source | source in store && nowMs <= store[source].expiresAtMs :: store[source]
  }

  predicate AtLeast(x: F64, bound: real) {
    x.Finite? && x.value >= bound
  }

  /** Without an unexpired advisory that reports a healthy peer, a source is not eligible. */
  predicate Eligible(store: Advisories, batteryWarnPct: real, source: U32, nowMs: U64) {
    && source in store
    && nowMs <= store[source].expiresAtMs
    && AtLeast(store[source].received.snapshot.drone.batteryPct, batteryWarnPct)
    && AtLeast(store[source].received.snapshot.drone.linkQuality, 0.2)
    && store[source].received.snapshot.failsafe == Nominal
  }

  class SwarmOrchestrator {
    var advisories: Advisories
    const batteryWarnPct: real

    constructor (batteryWarnPct: real)
      ensures advisories == map[]
    {
      this.batteryWarnPct := batteryWarnPct;
      advisories := map[];
    }

    method ReceiveAdvisory(advisory: VerifiedAdvisory) returns (taken: bool)
      modifies this
      ensures taken == Takes(old(advisories), advisory)
      ensures advisories == Offer(old(advisories), advisory)
    {
      var source := advisory.received.snapshot.drone.id;
      if source in advisories {
        var incoming, current := advisory.received.metadata, advisories[source].received.metadata;
        if incoming.epoch < current.epoch
           || (incoming.epoch == current.epoch && incoming.logicalSequence <= current.logicalSequence)
        {
          return false;
        }
      }
      advisories := advisories[source := advisory];
      return true;
    }

    method ExpireAdvisories(nowMs: U64) returns (dropped: nat)
      modifies this
      ensures advisories == Sweep(old(advisories), nowMs)
      ensures dropped == |old(advisories)| - |Sweep(old(advisories), nowMs)|
    {
      var before := |advisories|;
      advisories := map source | source in advisories && nowMs <= advisories[source].expiresAtMs :: advisories[source];
      assert advisories.Keys <= old(advisories).Keys;
      SubsetSize(advisories.Keys, old(advisories).Keys);
      dropped := before - |advisories|;
    }

    method PeerIsEligible(source: U32, nowMs: U64) returns (eligible: bool)
      ensures eligible == Eligible(advisories, batteryWarnPct, source, nowMs)
    {
      if source !in advisories {
        return false;
      }
      var snapshot := advisories[source].received.snapshot;
      return nowMs <= advisories[source].expiresAtMs
        && AtLeast(snapshot.drone.batteryPct, batteryWarnPct)
        && AtLeast(snapshot.drone.linkQuality, 0.2)
        && snapshot.failsafe == Nominal;
    }
  }

  /** Sweeping changes nobody's eligibility from the time of the sweep on, and an offer only
      that of its own source. */
  lemma EligibilityKept(store: Advisories, batteryWarnPct: real, source: U32, sweptMs: U64, nowMs: U64,
                        advisory: VerifiedAdvisory)
    requires sweptMs <= nowMs
    ensures Eligible(Sweep(store, sweptMs), batteryWarnPct, source, nowMs)
            == Eligible(store, batteryWarnPct, source, nowMs)
    ensures source != SourceOf(advisory) ==>
              Eligible(Offer(store, advisory), batteryWarnPct, source, nowMs)
                  == Eligible(store, batteryWarnPct, source, nowMs)
  {
  }

  /** Eligibility runs out and never comes back without a new advisory. */
  lemma EligibilityLapses(store: Advisories, batteryWarnPct: real, source: U32, nowMs: U64, laterMs: U64)
    requires nowMs <= laterMs && Eligible(store, batteryWarnPct, source, laterMs)
    ensures Eligible(store, batteryWarnPct, source, nowMs)
  {
  }

  // ---------------------------------------------------------------- whole runs

  datatype StoreEvent = Offered(advisory: VerifiedAdvisory) | Swept(nowMs: U64)

  /** The advisories offered during a run, in order. */
  function Offers(events: seq<StoreEvent>): seq<Received> {
    if events == [] then []
    else (if events[0].Offered? then [events[0].advisory.received] else []) + Offers(events[1..])
  }

  function StoreAfter(store: Advisories, events: seq<StoreEvent>): Advisories
    decreases |events|
  {
    if events == [] then store
    else if events[0].Offered? then StoreAfter(Offer(store, events[0].advisory), events[1..])
    else StoreAfter(Sweep(store, events[0].nowMs), events[1..])
  }

  /** Every offer of the run was taken. */
  predicate AllTaken(store: Advisories, events: seq<StoreEvent>)
    decreases |events|
  {
    events == [] ||
    if events[0].Offered? then Takes(store, events[0].advisory)
        && AllTaken(Offer(store, events[0].advisory), events[1..])
    else AllTaken(Sweep(store, events[0].nowMs), events[1..])
  }

  /** What is stored came from `past`, under its own source. */
  predicate StoredFrom(store: Advisories, past: seq<Received>) {
    forall source | source in store ::
      && store[source].received in past
      && store[source].received.metadata.sourceId == source
  }

  predicate SelfDescribed(offers: seq<Received>) {
    forall k | 0 <= k < |offers| :: offers[k].snapshot.drone.id == offers[k].metadata.sourceId
  }

  lemma {:induction false} StoreTakesForward(store: Advisories, past: seq<Received>, events: seq<StoreEvent>)
    requires StoredFrom(store, past)
    requires StrictlyForward(past + Offers(events)) && SelfDescribed(past + Offers(events))
    decreases |events|
    ensures AllTaken(store, events)
    ensures StoredFrom(StoreAfter(store, events), past + Offers(events))
  {
    if events == [] {
      assert past + Offers(events) == past;
    } else if events[0].Offered? {
      var received := events[0].advisory.received;
      assert Offers(events) == [received] + Offers(events[1..]);
      assert past + Offers(events) == past + [received] + Offers(events[1..]);
      assert (past + Offers(events))[|past|] == received;
      var source := SourceOf(events[0].advisory);
      if source in store {
        var k :| 0 <= k < |past| && past[k] == store[source].received;
        assert (past + Offers(events))[k] == past[k];
      }
      StoreTakesForward(Offer(store, events[0].advisory), past + [received], events[1..]);
    } else {
      assert Offers(events) == Offers(events[1..]);
      StoreTakesForward(Sweep(store, events[0].nowMs), past, events[1..]);
    }
  }

  /** The list in order, with some elements left out. */
  predicate InOrderPart(part: seq<Received>, whole: seq<Received>)
    decreases |whole|
  {
    part == [] ||
    (whole != [] &&
     ((part[0] == whole[0] && InOrderPart(part[1..], whole[1..])) || InOrderPart(part, whole[1..])))
  }

  lemma {:induction false} PartIsForward(part: seq<Received>, whole: seq<Received>)
    requires InOrderPart(part, whole) && StrictlyForward(whole)
    decreases |whole|
    ensures StrictlyForward(part) && forall r | r in part :: r in whole
  {
    if part != [] {
      assert forall i, j | 0 <= i < j < |whole[1..]| :: whole[1..][i] == whole[i + 1] && whole[1..][j] == whole[j + 1];
      if part[0] == whole[0] && InOrderPart(part[1..], whole[1..]) {
        PartIsForward(part[1..], whole[1..]);
        FirstStaysForward(part, whole);
      } else {
        PartIsForward(part, whole[1..]);
      }
    }
  }

  lemma FirstStaysForward(part: seq<Received>, whole: seq<Received>)
    requires part != [] && whole != [] && part[0] == whole[0]
    requires StrictlyForward(whole) && StrictlyForward(part[1..]) && forall r | r in part[1..] :: r in whole[1..]
    ensures StrictlyForward(part) && forall r | r in part :: r in whole
  {
    forall i, j | 0 <= i < j < |part| && part[i].metadata.sourceId == part[j].metadata.sourceId
      ensures Before(MarkOf(part[i]), MarkOf(part[j]))
    {
      assert part[j] == part[1..][j - 1] && part[j] in part[1..];
      if i == 0 {
        var k :| 0 <= k < |whole[1..]| && whole[1..][k] == part[j];
        assert whole[k + 1] == part[j];
      } else {
        assert part[i] == part[1..][i - 1];
      }
    }
    forall r | r in part
      ensures r in whole
    {
      assert r == part[0] || r in part[1..];
    }
  }

  lemma PartIsTaken(accepted: seq<Received>, events: seq<StoreEvent>)
    requires StrictlyForward(accepted) && SelfDescribed(accepted) && InOrderPart(Offers(events), accepted)
    ensures AllTaken(map[], events) && StoredFrom(StoreAfter(map[], events), accepted)
  {
    PartIsForward(Offers(events), accepted);
    assert forall k | 0 <= k < |Offers(events)| :: Offers(events)[k] in accepted;
    NothingBefore(Offers(events));
    StoreTakesForward(map[], [], events);
  }

  /** Fed with what a receive session accepts, or any part of it in order, and with sweeps at
      any time, the store takes every advisory: it never meets one that is not newer than what
      it holds, although each sweep may delete the mark it compares with. */
  lemma StoreFollowsReceiver(rx: Receiver, w: World, run: seq<Event>, events: seq<StoreEvent>)
    requires Initial(rx, w)
    requires InOrderPart(Offers(events), Run(rx, w, run).accepted)
    ensures AllTaken(map[], events)
    ensures StoredFrom(StoreAfter(map[], events), Run(rx, w, run).accepted)
  {
    AcceptedInOrder(rx, w, run);
    PartIsTaken(Run(rx, w, run).accepted, events);
  }

  /** Without that order the store does go back: after a sweep it takes any older advisory. */
  lemma SweptStoreGoesBack(newer: VerifiedAdvisory, older: VerifiedAdvisory, nowMs: U64)
    requires SourceOf(newer) == SourceOf(older)
    requires Before(MarkOf(older.received), MarkOf(newer.received))
    ensures AllTaken(map[], [Offered(newer), Swept(nowMs), Offered(older)]) <==> newer.expiresAtMs < nowMs
  {
    var events := [Offered(newer), Swept(nowMs), Offered(older)];
    var held := Offer(map[], newer);
    assert events[1..] == [Swept(nowMs), Offered(older)];
    assert events[1..][1..] == [Offered(older)];
    assert [Offered(older)][1..] == [];
    var swept := Sweep(held, nowMs);
    assert AllTaken(map[], events) == AllTaken(held, events[1..]);
    assert AllTaken(held, events[1..]) == AllTaken(swept, [Offered(older)]);
    assert AllTaken(swept, [Offered(older)]) == Takes(swept, older);
  }
}
