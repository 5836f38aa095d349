/** Versioned gossip state and its merge (src/topology/gossip.rs). */
module Gossip {
  import opened Foundation

  datatype State<T> = State(value: T, version: U64, origin: U32, timestampMs: U64)

  /** Last write wins: the higher version, then the higher origin, then the first argument. */
  function Merge<T>(a: State<T>, b: State<T>): State<T> {
    if a.version > b.version then a
    else if b.version > a.version then b
    else if a.origin >= b.origin then a
    else b
  }

  class GossipState<T> {
    var value: T
    var version: U64
    var origin: U32
    var timestampMs: U64

    function Snapshot(): State<T>
      reads this
    {
      State(value, version, origin, timestampMs)
    }

    constructor (value: T, origin: U32, timestampMs: U64)
      ensures Snapshot() == State(value, 1, origin, timestampMs)
    {
      this.value, this.version, this.origin, this.timestampMs := value, 1, origin, timestampMs;
    }

    /** The increment panics on the last version. */
    method Bump()
      requires version < U64_MAX
      modifies this`version
      ensures Snapshot() == Bumped(old(Snapshot()))
    {
      version := version + 1;
    }
  }

  function Bumped<T>(s: State<T>): State<T>
    requires s.version < U64_MAX
  {
    s.(version := s.version + 1)
  }

  /** A bumped copy wins, on either side, against everything not newer than the copy it was
      bumped from. */
  lemma BumpWins<T>(s: State<T>, t: State<T>)
    requires s.version < U64_MAX && t.version <= s.version
    ensures Merge(Bumped(s), t) == Bumped(s) && Merge(t, Bumped(s)) == Bumped(s)
  {
  }

  // ------------------------------------------------------------------ dissemination

  /** One way of merging a collection of states: any order, any grouping, any repetition. */
  datatype Tree<T> = Leaf(state: State<T>) | Node(left: Tree<T>, right: Tree<T>)

  function Fold<T>(t: Tree<T>): State<T> {
    match t
    case Leaf(state) => state
    case Node(left, right) => Merge(Fold(left), Fold(right))
  }

  function Leaves<T(==)>(t: Tree<T>): set<State<T>> {
    match t
    case Leaf(state) => {state}
    case Node(left, right) => Leaves(left) + Leaves(right)
  }

  /** `a` is at most `b` in the lexicographic order of (version, origin). */
  predicate AtMost<T>(a: State<T>, b: State<T>) {
    a.version < b.version || (a.version == b.version && a.origin <= b.origin)
  }

  predicate SameKey<T>(a: State<T>, b: State<T>) {
    a.version == b.version && a.origin == b.origin
  }

  ghost predicate Greatest<T(!new)>(states: set<State<T>>, a: State<T>) {
    a in states && forall b | b in states :: AtMost(b, a)
  }

  /** Folding picks a lexicographic maximum of the states. */
  lemma {:induction false} FoldIsGreatest<T(!new)>(t: Tree<T>)
    ensures Greatest(Leaves(t), Fold(t))
  {
    match t
    case Leaf(state) =>
    case Node(left, right) =>
      FoldIsGreatest(left);
      FoldIsGreatest(right);
  }

  /** Only one state has the greatest (version, origin). */
  ghost predicate OneGreatest<T(!new)>(states: set<State<T>>) {
    forall a, b | Greatest(states, a) && Greatest(states, b) :: a == b
  }

  /** Replicas that have seen the same set of states agree. */
  ghost predicate Converges<T(!new)>(states: set<State<T>>) {
    forall t: Tree<T>, u: Tree<T> | Leaves(t) == states && Leaves(u) == states :: Fold(t) == Fold(u)
  }

  lemma AnyGreatestCanWin<T(!new)>(t: Tree<T>, a: State<T>)
    requires Greatest(Leaves(t), a)
    ensures Leaves(Node(Leaf(a), t)) == Leaves(t) && Fold(Node(Leaf(a), t)) == a
  {
    FoldIsGreatest(t);
  }

  /** Whatever order, grouping and repetition replicas merge the same states in, they agree
      exactly when one state alone has the greatest (version, origin). */
  lemma ConvergesExactly<T(!new)>(seen: Tree<T>)
    ensures Converges(Leaves(seen)) <==> OneGreatest(Leaves(seen))
  {
    var states := Leaves(seen);
    if OneGreatest(states) {
      forall t: Tree<T>, u: Tree<T> | Leaves(t) == states && Leaves(u) == states
        ensures Fold(t) == Fold(u)
      {
        FoldIsGreatest(t);
        FoldIsGreatest(u);
      }
    }
    if Converges(states) {
      forall a, b | Greatest(states, a) && Greatest(states, b)
        ensures a == b
      {
        AnyGreatestCanWin(seen, a);
        AnyGreatestCanWin(seen, b);
      }
    }
  }

  /** (version, origin) determines the state. */
  ghost predicate KeysDetermine<T(!new)>(states: set<State<T>>) {
    forall a, b | a in states && b in states && SameKey(a, b) :: a == b
  }

  /** So replicas agree when no origin has published two states under one version. */
  lemma KeysConverge<T(!new)>(seen: Tree<T>, other: Tree<T>)
    requires KeysDetermine(Leaves(seen)) && Leaves(other) == Leaves(seen)
    ensures Fold(other) == Fold(seen)
  {
    FoldIsGreatest(seen);
    FoldIsGreatest(other);
    assert SameKey(Fold(seen), Fold(other));
  }
}
