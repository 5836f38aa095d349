/** Resource bounds of the receive session over whole runs, whatever the network sends. */
module ProtocolBounds {
  import opened Foundation
  import opened Air
  import opened Protocol
  import opened ProtocolRuns

  // ------------------------------------------------------------- known sources

  function Known(state: RxState): set<U32> {
    state.peers.Keys + state.ingress.Keys
  }

  lemma ActiveSourcesAreKnown(state: RxState)
    ensures ActiveSourceCount(state) == |Known(state)|
  {
    assert Known(state) == state.peers.Keys + IngressOnly(state);
    assert |state.peers| == |state.peers.Keys|;
  }

  /** The step makes at most one source known, and none when the receiver is full. */
  predicate AdmitsOne(rx: Receiver, before: RxState, after: RxState, source: U32) {
    && Known(after) <= Known(before) + {source}
    && (source !in Known(before) && ActiveSourceCount(before) == rx.config.maxPeers ==> Known(after) <= Known(before))
  }

  lemma OneMoreStaysBounded(rx: Receiver, before: RxState, after: RxState, source: U32)
    requires ActiveSourceCount(before) <= rx.config.maxPeers
    requires AdmitsOne(rx, before, after, source)
    ensures ActiveSourceCount(after) <= rx.config.maxPeers
  {
    ActiveSourcesAreKnown(before);
    ActiveSourcesAreKnown(after);
    if source in Known(before) {
      assert Known(before) + {source} == Known(before);
    }
    if Known(after) <= Known(before) {
      SubsetSize(Known(after), Known(before));
    } else {
      SubsetSize(Known(after), Known(before) + {source});
    }
  }

  lemma StoredKeys(ingress: map<U32, PeerIngress>, hint: U32, own: PeerIngress)
    ensures ingress[hint := own].Keys == ingress.Keys + {hint}
  {
  }

  /** A frame that passes the gate and finds room leaves exactly its source opened. */
  lemma DeliverPassed(rx: Receiver, state: RxState, hint: U32, nowMs: U64, frame: Frame)
    requires GateFrame(rx, hint, frame).Success? && OpenIngress(rx, state, hint, nowMs).Success?
    ensures Deliver(rx, state, hint, nowMs, frame).0.peers == state.peers
    ensures Deliver(rx, state, hint, nowMs, frame).0.ingress.Keys == state.ingress.Keys + {hint}
  {
    var (throttled, pass) := Throttle(rx, OpenIngress(rx, state, hint, nowMs).value, hint, nowMs);
    StoredKeys(state.ingress, hint, throttled);
    if pass.Success? {
      StoredKeys(state.ingress, hint, PushFrame(rx, throttled, nowMs, frame).0);
    }
  }

  /** Any other frame is refused and changes nothing. */
  lemma DeliverRefused(rx: Receiver, state: RxState, hint: U32, nowMs: U64, frame: Frame)
    requires GateFrame(rx, hint, frame).Failure? || OpenIngress(rx, state, hint, nowMs).Failure?
    ensures Deliver(rx, state, hint, nowMs, frame).0 == state && Deliver(rx, state, hint, nowMs, frame).1.Failure?
  {
  }

  lemma DeliverOpens(rx: Receiver, state: RxState, hint: U32, nowMs: U64, frame: Frame)
    ensures var (after, complete) := Deliver(rx, state, hint, nowMs, frame);
            && after.peers == state.peers
            && (if GateFrame(rx, hint, frame).Success? && OpenIngress(rx, state, hint, nowMs).Success?
                then after.ingress.Keys == state.ingress.Keys + {hint}
                else after == state && complete.Failure?)
  {
    if GateFrame(rx, hint, frame).Success? && OpenIngress(rx, state, hint, nowMs).Success? {
      DeliverPassed(rx, state, hint, nowMs, frame);
    } else {
      DeliverRefused(rx, state, hint, nowMs, frame);
    }
  }

  lemma DeliverAdmitsOne(rx: Receiver, state: RxState, hint: U32, nowMs: U64, frame: Frame)
    ensures AdmitsOne(rx, state, Deliver(rx, state, hint, nowMs, frame).0, hint)
    ensures Deliver(rx, state, hint, nowMs, frame).1.Success? ==>
            hint in Deliver(rx, state, hint, nowMs, frame).0.ingress
  {
    DeliverOpens(rx, state, hint, nowMs, frame);
  }

  lemma AdmitKnown(rx: Receiver, state: RxState, hint: U32, nowMs: U64, fragments: U8, message: ReassembledMessage)
    requires hint in state.ingress
    ensures Known(Admit(rx, state, hint, nowMs, fragments, message).0) == Known(state)
  {
  }

  lemma HearAdmitsOne(rx: Receiver, state: RxState, hint: U32, nowMs: U64, frame: Frame)
    ensures AdmitsOne(rx, state, Receive(rx, state, hint, nowMs, frame).0, hint)
  {
    DeliverAdmitsOne(rx, state, hint, nowMs, frame);
    var (delivered, complete) := Deliver(rx, state, hint, nowMs, frame);
    if complete.Success? && complete.value.Some? {
      AdmitKnown(rx, delivered, hint, nowMs, frame.fragmentCount, complete.value.value);
    }
  }

  lemma RestoreAdmitsOne(rx: Receiver, state: RxState, checkpoint: ReplayCheckpoint)
    requires ActiveSourceCount(state) <= rx.config.maxPeers
    ensures AdmitsOne(rx, state, Restore(rx, state, checkpoint), checkpoint.sourceId)
  {
  }

  lemma NextKeepsSourceBound(rx: Receiver, w: World, e: Event)
    requires ActiveSourceCount(w.rx) <= rx.config.maxPeers
    ensures ActiveSourceCount(Next(rx, w, e).rx) <= rx.config.maxPeers
  {
    match e
    case Hear(hint, nowMs, frame) =>
      HearAdmitsOne(rx, w.rx, hint, nowMs, frame);
      OneMoreStaysBounded(rx, w.rx, Receive(rx, w.rx, hint, nowMs, frame).0, hint);
    case RestoreCheckpoint(checkpoint) =>
      RestoreAdmitsOne(rx, w.rx, checkpoint);
      OneMoreStaysBounded(rx, w.rx, Restore(rx, w.rx, checkpoint), checkpoint.sourceId);
    case ExpireSnapshots(nowMs) =>
      OneMoreStaysBounded(rx, w.rx, Expire(rx, w.rx, nowMs), 0);
    case _ =>
  }

  /** The number of sources the receiver keeps anything about never exceeds `max_peers`. */
  lemma {:induction false} KnownSourcesBounded(rx: Receiver, w: World, events: seq<Event>)
    requires ActiveSourceCount(w.rx) <= rx.config.maxPeers
    decreases |events|
    ensures ActiveSourceCount(Run(rx, w, events).rx) <= rx.config.maxPeers
  {
    if events != [] {
      NextKeepsSourceBound(rx, w, events[0]);
      KnownSourcesBounded(rx, Next(rx, w, events[0]), events[1..]);
    }
  }

  // ------------------------------------------------------------------ contexts

  /** Tracked contexts are bounded and include every context in flight; a context's start is
      the arrival of its first fragment, and nothing arrived after the last receive time. */
  predicate ContextInvariant(rx: Receiver, ingress: PeerIngress) {
    && |ingress.contextStartedMs| <= rx.config.reassembly.maxContexts
    && ingress.inFlight.Keys <= ingress.contextStartedMs.Keys
    && (forall key | key in ingress.inFlight ::
          && ingress.lastReceivedMs.Some?
          && ArrivedFrom(ingress.inFlight[key], ingress.contextStartedMs[key], ingress.lastReceivedMs.value))
  }

  /** Fragments that arrived from `first` on, the first of them then, none after `last`. */
  predicate ArrivedFrom(held: seq<Arrival>, first: U64, last: U64) {
    && held != []
    && held[0].atMs == first
    && forall k | 0 <= k < |held| :: first <= held[k].atMs <= last
  }

  lemma SweepKeepsContexts(rx: Receiver, ingress: PeerIngress, nowMs: U64)
    requires ContextInvariant(rx, ingress)
    ensures var swept := DropContexts(ingress, ExpiredKeys(rx, ingress, nowMs));
            && ContextInvariant(rx, swept)
            && forall key | key in swept.contextStartedMs :: !Expired(rx, swept.contextStartedMs[key], nowMs)
  {
    var swept := DropContexts(ingress, ExpiredKeys(rx, ingress, nowMs));
    SubsetSize(swept.contextStartedMs.Keys, ingress.contextStartedMs.Keys);
    assert |swept.contextStartedMs| == |swept.contextStartedMs.Keys|;
    assert |ingress.contextStartedMs| == |ingress.contextStartedMs.Keys|;
  }

  lemma ThrottleKeepsContexts(rx: Receiver, ingress: PeerIngress, hint: U32, nowMs: U64)
    requires ContextInvariant(rx, ingress)
    ensures var (after, pass) := Throttle(rx, ingress, hint, nowMs);
            && ContextInvariant(rx, after)
            && (pass.Success? ==>
                  && after.lastReceivedMs == Some(nowMs)
                  && forall key | key in after.contextStartedMs :: !Expired(rx, after.contextStartedMs[key], nowMs))
  {
    SweepKeepsContexts(rx, ingress, nowMs);
    var swept := DropContexts(ingress, ExpiredKeys(rx, ingress, nowMs));
    var (after, pass) := Throttle(rx, ingress, hint, nowMs);
    if after.lastReceivedMs == Some(nowMs) && after != ingress {
      forall key | key in after.inFlight
        ensures ArrivedFrom(after.inFlight[key], after.contextStartedMs[key], nowMs)
      {
        assert ArrivedFrom(swept.inFlight[key], swept.contextStartedMs[key], swept.lastReceivedMs.value);
      }
    }
  }

  lemma WithoutKey<K, V>(m: map<K, V>, key: K)
    ensures |m - {key}| <= |m|
  {
    assert (m - {key}).Keys == m.Keys - {key};
    SubsetSize(m.Keys - {key}, m.Keys);
    assert |m| == |m.Keys| && |m - {key}| == |(m - {key}).Keys|;
  }

  lemma WithKey<K, V>(m: map<K, V>, key: K, value: V)
    ensures |m[key := value]| <= |m| + 1
    ensures |m[key := value] - {key}| <= |m|
  {
    assert m[key := value].Keys == m.Keys + {key};
    SubsetSize(m.Keys - {key}, m.Keys);
    assert (m[key := value] - {key}).Keys == m.Keys - {key};
    assert |m| == |m.Keys| && |m[key := value]| == |m[key := value].Keys|;
    assert |m[key := value] - {key}| == |(m[key := value] - {key}).Keys|;
  }

  /** Opening a context, or taking over a stale start time, keeps the invariant; so does
      leaving no trace of a refused fragment. */
  lemma NewContextKept(rx: Receiver, ingress: PeerIngress, key: ContextKey, arrival: Arrival)
    requires ContextInvariant(rx, ingress) && ingress.lastReceivedMs == Some(arrival.atMs)
    requires key !in ingress.inFlight && |ingress.contextStartedMs| != rx.config.reassembly.maxContexts
    ensures var started := ingress.contextStartedMs[key := arrival.atMs];
            && ContextInvariant(rx,
               ingress.(contextStartedMs := started, inFlight := ingress.inFlight[key := [arrival]]))
            && ContextInvariant(rx, ingress.(contextStartedMs := started - {key}))
  {
    WithKey(ingress.contextStartedMs, key, arrival.atMs);
  }

  lemma OldContextKept(rx: Receiver, ingress: PeerIngress, key: ContextKey, arrival: Arrival)
    requires ContextInvariant(rx, ingress) && ingress.lastReceivedMs == Some(arrival.atMs)
    requires key in ingress.inFlight
    ensures ContextInvariant(rx, ingress.(inFlight := ingress.inFlight[key := ingress.inFlight[key] + [arrival]]))
  {
  }

  lemma ClosedContextKept(rx: Receiver, ingress: PeerIngress, key: ContextKey)
    requires ContextInvariant(rx, ingress)
    ensures ContextInvariant(rx, ingress.(inFlight := ingress.inFlight - {key}))
    ensures ContextInvariant(rx, ingress.(inFlight := ingress.inFlight - {key},
                                          contextStartedMs := ingress.contextStartedMs - {key}))
  {
    WithoutKey(ingress.contextStartedMs, key);
  }

  lemma PushOldKeepsContexts(rx: Receiver, ingress: PeerIngress, nowMs: U64, frame: Frame)
    requires ContextInvariant(rx, ingress) && ingress.lastReceivedMs == Some(nowMs)
    requires (frame.streamId, frame.sequence) in ingress.inFlight
    ensures ContextInvariant(rx, PushFrame(rx, ingress, nowMs, frame).0)
  {
    var key := (frame.streamId, frame.sequence);
    OldContextKept(rx, ingress, key, Arrival(frame, nowMs));
    ClosedContextKept(rx, ingress, key);
  }

  lemma PushNewKeepsContexts(rx: Receiver, ingress: PeerIngress, nowMs: U64, frame: Frame)
    requires ContextInvariant(rx, ingress) && ingress.lastReceivedMs == Some(nowMs)
    requires (frame.streamId, frame.sequence) !in ingress.inFlight
    ensures ContextInvariant(rx, PushFrame(rx, ingress, nowMs, frame).0)
  {
    var key := (frame.streamId, frame.sequence);
    if |ingress.contextStartedMs| != rx.config.reassembly.maxContexts {
      NewContextKept(rx, ingress, key, Arrival(frame, nowMs));
      assert ingress.inFlight - {key} == ingress.inFlight;
      assert [] + [Arrival(frame, nowMs)] == [Arrival(frame, nowMs)];
    }
  }

  /** The fragments that the reassembler holds for a frame's context when it is pushed. */
  function FragmentsAt(rx: Receiver, state: RxState, hint: U32, nowMs: U64, frame: Frame): seq<Arrival>
    requires OpenIngress(rx, state, hint, nowMs).Success?
  {
    var own := Throttle(rx, OpenIngress(rx, state, hint, nowMs).value, hint, nowMs).0;
    var key := (frame.streamId, frame.sequence);
    (if key in own.inFlight then own.inFlight[key] else []) + [Arrival(frame, nowMs)]
  }

  /** A message that completes does so within `reassembly_timeout_ms` of its first fragment,
      and every fragment arrived in between. */
  lemma CompletedInTime(rx: Receiver, state: RxState, hint: U32, nowMs: U64, frame: Frame)
    requires hint in state.ingress ==> ContextInvariant(rx, state.ingress[hint])
    requires Deliver(rx, state, hint, nowMs, frame).1.Success?
    ensures OpenIngress(rx, state, hint, nowMs).Success?
    ensures var fragments := FragmentsAt(rx, state, hint, nowMs, frame);
            forall k | 0 <= k < |fragments| ::
              fragments[0].atMs <= fragments[k].atMs <= nowMs <= fragments[0].atMs + rx.config.reassemblyTimeoutMs
  {
    var own := OpenIngress(rx, state, hint, nowMs).value;
    ThrottleKeepsContexts(rx, own, hint, nowMs);
  }

  // ------------------------------------------------------------------ frame rate

  /** A frame that passed the rate limit, with the start of the window it was counted in. */
  datatype Admitted = Admitted(atMs: U64, windowMs: U64)

  function CountWindow(past: seq<Admitted>, windowMs: U64): nat {
    if past == [] then 0
    else CountWindow(past[..|past| - 1], windowMs) + if past[|past| - 1].windowMs == windowMs then 1 else 0
  }

  function CountBetween(past: seq<Admitted>, from: nat, to: nat): nat {
    if past == [] then 0
    else CountBetween(past[..|past| - 1], from, to) + if from <= past[|past| - 1].atMs < to then 1 else 0
  }

  /** Windows start at least one window length apart and hold at most the limit each; the
      current one, started at `windowMs`, holds at most `frames`. */
  predicate WindowInvariant(rx: Receiver, windowMs: U64, frames: nat, past: seq<Admitted>) {
    && frames <= rx.config.maxFramesPerWindow
    && CountWindow(past, windowMs) <= frames
    && (forall w :: CountWindow(past, w) <= rx.config.maxFramesPerWindow)
    && (forall k | 0 <= k < |past| ::
          && past[k].windowMs <= past[k].atMs < past[k].windowMs + rx.config.frameWindowMs
          && (past[k].windowMs == windowMs || past[k].windowMs + rx.config.frameWindowMs <= windowMs))
    && WindowsApart(past, rx.config.frameWindowMs)
  }

  predicate WindowsApart(past: seq<Admitted>, length: U64) {
    forall i, j | 0 <= i < |past| && 0 <= j < |past| && past[i].windowMs < past[j].windowMs ::
      past[i].windowMs + length <= past[j].windowMs
  }

  predicate RateInvariant(rx: Receiver, ingress: PeerIngress, past: seq<Admitted>) {
    && (ingress.lastReceivedMs.Some? ==> ingress.windowStartedMs <= ingress.lastReceivedMs.value)
    && WindowInvariant(rx, ingress.windowStartedMs, ingress.framesInWindow, past)
  }

  lemma CountNewWindow(past: seq<Admitted>, windowMs: U64)
    requires forall k | 0 <= k < |past| :: past[k].windowMs != windowMs
    ensures CountWindow(past, windowMs) == 0
  {
  }

  lemma NewWindow(rx: Receiver, windowMs: U64, frames: nat, past: seq<Admitted>, nowMs: U64)
    requires 0 < rx.config.frameWindowMs && WindowInvariant(rx, windowMs, frames, past)
    requires windowMs + rx.config.frameWindowMs <= nowMs
    ensures WindowInvariant(rx, nowMs, 0, past)
  {
    CountNewWindow(past, nowMs);
  }

  lemma OneMoreFrame(rx: Receiver, windowMs: U64, frames: nat, past: seq<Admitted>, nowMs: U64)
    requires WindowInvariant(rx, windowMs, frames, past)
    requires frames < rx.config.maxFramesPerWindow
    requires windowMs <= nowMs < windowMs + rx.config.frameWindowMs
    ensures WindowInvariant(rx, windowMs, frames + 1, past + [Admitted(nowMs, windowMs)])
  {
    var now := past + [Admitted(nowMs, windowMs)];
    assert now[..|now| - 1] == past;
    forall w
      ensures CountWindow(now, w) == CountWindow(past, w) + if w == windowMs then 1 else 0
    {
    }
  }

  lemma ThrottleClock(rx: Receiver, ingress: PeerIngress, hint: U32, nowMs: U64)
    ensures var (after, pass) := Throttle(rx, ingress, hint, nowMs);
            var reset := SaturatingSub(nowMs, ingress.windowStartedMs) >= rx.config.frameWindowMs;
            var regressed := ingress.lastReceivedMs.Some? && nowMs < ingress.lastReceivedMs.value;
            var frames := if reset then 0 else ingress.framesInWindow;
            && pass.Success? == (!regressed && frames < rx.config.maxFramesPerWindow)
            && after.windowStartedMs == (if reset && !regressed then nowMs else ingress.windowStartedMs)
            && after.framesInWindow
               == (if regressed then ingress.framesInWindow else if pass.Success? then frames + 1 else frames)
            && after.lastReceivedMs == (if pass.Success? then Some(nowMs) else ingress.lastReceivedMs)
  {
  }

  /** The current window, reset when it is over. */
  lemma WindowAtNow(rx: Receiver, ingress: PeerIngress, nowMs: U64, past: seq<Admitted>)
    requires ValidRxConfig(rx.config) && RateInvariant(rx, ingress, past) && ingress.windowStartedMs <= nowMs
    ensures var reset := SaturatingSub(nowMs, ingress.windowStartedMs) >= rx.config.frameWindowMs;
            var windowMs := if reset then nowMs else ingress.windowStartedMs;
            && WindowInvariant(rx, windowMs, if reset then 0 else ingress.framesInWindow, past)
            && windowMs <= nowMs < windowMs + rx.config.frameWindowMs
  {
    if nowMs - ingress.windowStartedMs >= rx.config.frameWindowMs {
      NewWindow(rx, ingress.windowStartedMs, ingress.framesInWindow, past, nowMs);
    }
  }

  lemma ThrottleKeepsRate(rx: Receiver, ingress: PeerIngress, hint: U32, nowMs: U64, past: seq<Admitted>)
    requires ValidRxConfig(rx.config)
    requires RateInvariant(rx, ingress, past) && (ingress.lastReceivedMs.None? ==> ingress.windowStartedMs == nowMs)
    ensures var (after, pass) := Throttle(rx, ingress, hint, nowMs);
            && RateInvariant(rx, after, if pass.Success? then past + [Admitted(nowMs, after.windowStartedMs)] else past)
            && (ingress.lastReceivedMs.None? && ingress.framesInWindow == 0 ==> pass.Success?)
  {
    ThrottleClock(rx, ingress, hint, nowMs);
    var (after, pass) := Throttle(rx, ingress, hint, nowMs);
    if pass.Success? {
      WindowAtNow(rx, ingress, nowMs, past);
      OneMoreFrame(rx, after.windowStartedMs, after.framesInWindow - 1, past, nowMs);
    } else {
      RefusedKeepsRate(rx, ingress, after, nowMs, past);
    }
  }

  /** A refused frame leaves the windows as they were. */
  lemma RefusedKeepsRate(rx: Receiver, ingress: PeerIngress, after: PeerIngress, nowMs: U64, past: seq<Admitted>)
    requires ValidRxConfig(rx.config) && RateInvariant(rx, ingress, past)
    requires after.lastReceivedMs == ingress.lastReceivedMs
    requires after.windowStartedMs == ingress.windowStartedMs && after.framesInWindow == ingress.framesInWindow
    ensures RateInvariant(rx, after, past)
  {
  }

  lemma CountWithinTwoWindows(past: seq<Admitted>, from: nat, to: nat, a: U64, b: U64)
    requires forall k | 0 <= k < |past| && from <= past[k].atMs < to :: past[k].windowMs == a || past[k].windowMs == b
    ensures CountBetween(past, from, to) <= CountWindow(past, a) + CountWindow(past, b)
  {
    if past != [] {
      CountWithinTwoWindows(past[..|past| - 1], from, to, a, b);
    }
  }

  lemma CountNone(past: seq<Admitted>, from: nat, to: nat)
    requires forall k | 0 <= k < |past| :: !(from <= past[k].atMs < to)
    ensures CountBetween(past, from, to) == 0
  {
  }

  /** An interval of one window length meets at most two windows. */
  lemma RateFromInvariant(rx: Receiver, ingress: PeerIngress, past: seq<Admitted>, from: nat)
    requires RateInvariant(rx, ingress, past)
    ensures CountBetween(past, from, from + rx.config.frameWindowMs) <= 2 * rx.config.maxFramesPerWindow
  {
    var to := from + rx.config.frameWindowMs;
    if i :| 0 <= i < |past| && from <= past[i].atMs < to {
      var a := past[i].windowMs;
      var b := a;
      if j :| 0 <= j < |past| && from <= past[j].atMs < to && past[j].windowMs != a {
        b := past[j].windowMs;
      }
      CountWithinTwoWindows(past, from, to, a, b);
    } else {
      CountNone(past, from, to);
    }
  }

  // ----------------------------------------------------------------- whole runs

  /** The frame of this step, if it is hinted to come from the source and admitted. */
  function AdmittedNow(rx: Receiver, state: RxState, e: Event, source: U32): seq<Admitted> {
    if e.Hear? && e.hint == source
       && GateFrame(rx, source, e.frame).Success?
       && OpenIngress(rx, state, source, e.nowMs).Success?
    then
      var (after, pass) := Throttle(rx, OpenIngress(rx, state, source, e.nowMs).value, source, e.nowMs);
      if pass.Success? then [Admitted(e.nowMs, after.windowStartedMs)] else []
    else []
  }

  /** The admitted frames of a source after a run, given those before it. */
  function AdmittedAfter(rx: Receiver, w: World, events: seq<Event>, source: U32, past: seq<Admitted>): seq<Admitted>
    decreases |events|
  {
    if events == [] then past
    else AdmittedAfter(rx, Next(rx, w, events[0]), events[1..], source, past + AdmittedNow(rx, w.rx, events[0], source))
  }

  predicate SourceInvariant(rx: Receiver, state: RxState, source: U32, past: seq<Admitted>) {
    if source in state.ingress
    then
      && ContextInvariant(rx, state.ingress[source])
      && RateInvariant(rx, state.ingress[source], past)
      && state.ingress[source].lastReceivedMs.Some?
    else past == []
  }

  lemma AdmittedKeepsSource(rx: Receiver, own: PeerIngress, source: U32, nowMs: U64, frame: Frame, past: seq<Admitted>)
    requires ValidRxConfig(rx.config)
    requires ContextInvariant(rx, own) && RateInvariant(rx, own, past)
    requires own.lastReceivedMs.Some? || own == NewIngress(nowMs)
    ensures var (throttled, pass) := Throttle(rx, own, source, nowMs);
            var after := if pass.Success? then PushFrame(rx, throttled, nowMs, frame).0 else throttled;
            && ContextInvariant(rx, after)
            && RateInvariant(rx, after, if pass.Success? then past + [Admitted(nowMs, after.windowStartedMs)] else past)
            && after.lastReceivedMs.Some?
  {
    ThrottleKeepsContexts(rx, own, source, nowMs);
    ThrottleKeepsRate(rx, own, source, nowMs, past);
    var (throttled, pass) := Throttle(rx, own, source, nowMs);
    if pass.Success? {
      if (frame.streamId, frame.sequence) in throttled.inFlight {
        PushOldKeepsContexts(rx, throttled, nowMs, frame);
      } else {
        PushNewKeepsContexts(rx, throttled, nowMs, frame);
      }
      PushKeepsClock(rx, throttled, nowMs, frame);
    }
  }

  lemma PushKeepsClock(rx: Receiver, ingress: PeerIngress, nowMs: U64, frame: Frame)
    ensures var after := PushFrame(rx, ingress, nowMs, frame).0;
            && after.lastReceivedMs == ingress.lastReceivedMs
            && after.windowStartedMs == ingress.windowStartedMs
            && after.framesInWindow == ingress.framesInWindow
  {
  }

  lemma HearKeepsSource(rx: Receiver, state: RxState, e: Event, source: U32, past: seq<Admitted>)
    requires ValidRxConfig(rx.config) && e.Hear?
    requires SourceInvariant(rx, state, source, past)
    ensures SourceInvariant(rx, Deliver(rx, state, e.hint, e.nowMs, e.frame).0, source,
            past + AdmittedNow(rx, state, e, source))
  {
    assert past + [] == past;
    if e.hint == source && GateFrame(rx, source, e.frame).Success? && OpenIngress(rx, state, source, e.nowMs).Success? {
      var own := OpenIngress(rx, state, source, e.nowMs).value;
      AdmittedKeepsSource(rx, own, source, e.nowMs, e.frame, past);
      var (throttled, pass) := Throttle(rx, own, source, e.nowMs);
      PushKeepsClock(rx, throttled, e.nowMs, e.frame);
    }
  }

  lemma NextKeepsSource(rx: Receiver, w: World, e: Event, source: U32, past: seq<Admitted>)
    requires ValidRxConfig(rx.config)
    requires SourceInvariant(rx, w.rx, source, past)
    ensures SourceInvariant(rx, Next(rx, w, e).rx, source, past + AdmittedNow(rx, w.rx, e, source))
  {
    assert past + [] == past;
    if e.Hear? {
      HearKeepsSource(rx, w.rx, e, source, past);
      assert Next(rx, w, e).rx.ingress == Deliver(rx, w.rx, e.hint, e.nowMs, e.frame).0.ingress;
    }
  }

  lemma {:induction false} RunKeepsSource(rx: Receiver, w: World, events: seq<Event>, source: U32, past: seq<Admitted>)
    requires ValidRxConfig(rx.config)
    requires SourceInvariant(rx, w.rx, source, past)
    decreases |events|
    ensures SourceInvariant(rx, Run(rx, w, events).rx, source, AdmittedAfter(rx, w, events, source, past))
  {
    if events != [] {
      NextKeepsSource(rx, w, events[0], source, past);
      RunKeepsSource(rx, Next(rx, w, events[0]), events[1..], source, past + AdmittedNow(rx, w.rx, events[0], source));
    }
  }

  /** In every run the tracked contexts of a source stay within `max_contexts` and include
      all of its contexts in flight, and any interval of one window length admits at most
      twice the configured number of its frames. */
  lemma SourceResourcesBounded(rx: Receiver, w: World, events: seq<Event>, source: U32, from: nat)
    requires ValidRxConfig(rx.config) && Initial(rx, w)
    ensures var end := Run(rx, w, events).rx;
            source in end.ingress ==>
              && |end.ingress[source].contextStartedMs| <= rx.config.reassembly.maxContexts
              && end.ingress[source].inFlight.Keys <= end.ingress[source].contextStartedMs.Keys
    ensures CountBetween(AdmittedAfter(rx, w, events, source, []), from, from + rx.config.frameWindowMs)
            <= 2 * rx.config.maxFramesPerWindow
  {
    RunKeepsSource(rx, w, events, source, []);
    var past := AdmittedAfter(rx, w, events, source, []);
    var end := Run(rx, w, events).rx;
    if source in end.ingress {
      RateFromInvariant(rx, end.ingress[source], past, from);
    }
  }

  /** In every run, whenever a frame completes a message, all of the message's fragments
      arrived within `reassembly_timeout_ms` of the first. */
  lemma MessagesCompleteInTime(rx: Receiver, w: World, events: seq<Event>, hint: U32, nowMs: U64, frame: Frame)
    requires ValidRxConfig(rx.config) && Initial(rx, w)
    requires Deliver(rx, Run(rx, w, events).rx, hint, nowMs, frame).1.Success?
    ensures OpenIngress(rx, Run(rx, w, events).rx, hint, nowMs).Success?
    ensures var fragments := FragmentsAt(rx, Run(rx, w, events).rx, hint, nowMs, frame);
            forall k | 0 <= k < |fragments| ::
              fragments[0].atMs <= fragments[k].atMs <= fragments[0].atMs + rx.config.reassemblyTimeoutMs
  {
    RunKeepsSource(rx, w, events, hint, []);
    CompletedInTime(rx, Run(rx, w, events).rx, hint, nowMs, frame);
  }
}
