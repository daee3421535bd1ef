/** The three replacement policies of a cache set (replacement_policy.rs) and the contract the cache relies on. */
module Replacement {
  import opened Words

  /** `valid` has one bit per way. FIFO's queue has its newest way in front. The pseudo-LRU tree is a heap of
      ways - 1 bits; a set bit says that the right subtree was used last. */
  datatype Policy =
    | Random(valid: seq<bool>)
    | Fifo(valid: seq<bool>, queue: seq<nat>)
    | Plru(valid: seq<bool>, tree: seq<bool>)

  datatype PolicyKind = RandomKind | FifoKind | PlruKind

  function NewPolicy(kind: PolicyKind, ways: nat): Policy
    requires ways >= 1
  {
    var valid := seq(ways, i => false);
    match kind
    case RandomKind => Random(valid)
    case FifoKind => Fifo(valid, [])
    case PlruKind => Plru(valid, seq(ways - 1, i => false))
  }

  /** The first clear bit, or |valid| if there is none. */
  function FirstInvalid(valid: seq<bool>): (i: nat)
    ensures i <= |valid|
    ensures i < |valid| ==> !valid[i]
    ensures forall j :: 0 <= j < i ==> valid[j]
  {
    if |valid| == 0 || !valid[0] then 0 else 1 + FirstInvalid(valid[1..])
  }

  predicate AllValid(valid: seq<bool>) {
    forall i :: 0 <= i < |valid| ==> valid[i]
  }

  // ---------- The pseudo-LRU heap ----------

  predicate IsLeft(node: nat) {
    node % 2 == 1
  }

  function Parent(node: nat): nat
    requires node > 0
  {
    (node - 1) / 2
  }

  /** Walk from a leaf to the root, turning every bit on the way against it. */
  function PromoteFrom(tree: seq<bool>, node: nat): (r: seq<bool>)
    requires node <= 2 * |tree|
    ensures |r| == |tree|
    decreases node
  {
    if node == 0 then tree else PromoteFrom(tree[Parent(node) := !IsLeft(node)], Parent(node))
  }

  /** Walk from a node down to a leaf, following the bits. */
  function Walk(tree: seq<bool>, node: nat): (leaf: nat)
    requires node <= 2 * |tree|
    ensures |tree| <= leaf <= 2 * |tree|
    decreases 2 * |tree| - node
  {
    if node < |tree| then Walk(tree, if tree[node] then 2 * node + 1 else 2 * node + 2) else node
  }

  // ---------- The operations ----------

  predicate WellFormed(p: Policy) {
    && |p.valid| >= 1
    && (p.Plru? ==> |p.tree| == |p.valid| - 1)
    && (p.Fifo? ==>
          && (forall i :: 0 <= i < |p.queue| ==> p.queue[i] < |p.valid|)
          && (forall w :: 0 <= w < |p.valid| ==> (w in p.queue <==> p.valid[w]))
          && (forall i, j :: 0 <= i < j < |p.queue| ==> p.queue[i] != p.queue[j]))
  }

  datatype Eviction = Eviction(full: bool, way: nat, policy: Policy)

  /** Choose a way to replace: an unused one if there is one, and otherwise the policy's victim, which stops
      being valid. None is FIFO's unwrap of an empty queue. `random` stands for the random generator. */
  function Evict(p: Policy, random: nat): Option<Eviction>
    requires |p.valid| >= 1 && (p.Plru? ==> |p.tree| == |p.valid| - 1)
  {
    var i := FirstInvalid(p.valid);
    if i < |p.valid| then Some(Eviction(false, i, p))
    else
      match p
      case Random(valid) =>
        var w := random % |valid|;
        Some(Eviction(true, w, Random(valid[w := false])))
      case Fifo(valid, queue) =>
        if |queue| == 0 || queue[|queue| - 1] >= |valid| then None
        else
          var w := queue[|queue| - 1];
          Some(Eviction(true, w, Fifo(valid[w := false], queue[..|queue| - 1])))
      case Plru(valid, tree) =>
        var w := Walk(tree, 0) - (|valid| - 1);
        Some(Eviction(true, w, Plru(valid[w := false], tree)))
  }

  function Promote(p: Policy, way: nat): Policy
    requires WellFormed(p) && way < |p.valid|
  {
    match p
    case Random(_) => p
    case Fifo(_, _) => p
    case Plru(valid, tree) => if |valid| == 1 then p else Plru(valid, PromoteFrom(tree, way + (|valid| - 1)))
  }

  function Insert(p: Policy, way: nat): Policy
    requires WellFormed(p) && way < |p.valid|
  {
    match p
    case Random(valid) => Random(valid[way := true])
    case Fifo(valid, queue) => Fifo(valid[way := true], [way] + queue)
    case Plru(valid, tree) => Promote(Plru(valid[way := true], tree), way)
  }

  function Invalidate(p: Policy, way: nat): Policy
    requires WellFormed(p) && way < |p.valid|
  {
    match p
    case Random(valid) => Random(valid[way := false])
    case Fifo(valid, queue) => Fifo(valid[way := false], Without(queue, way))
    case Plru(valid, tree) => Plru(valid[way := false], tree)
  }

  /** The queue with every occurrence of `way` dropped. */
  function Without(queue: seq<nat>, way: nat): (r: seq<nat>)
    ensures forall w :: w in r <==> w in queue && w != way
  {
    if |queue| == 0 then []
    else if queue[0] == way then Without(queue[1..], way)
    else [queue[0]] + Without(queue[1..], way)
  }

  // ---------- The contract ----------

  lemma NewPolicyOk(kind: PolicyKind, ways: nat)
    requires ways >= 1
    ensures var p := NewPolicy(kind, ways);
            && WellFormed(p) && |p.valid| == ways && (forall w :: 0 <= w < ways ==> !p.valid[w])
            && (p.Random? <==> kind.RandomKind?) && (p.Fifo? <==> kind.FifoKind?) && (p.Plru? <==> kind.PlruKind?)
  {}

  /** A full FIFO set queues every way, so its unwrap never fails. */
  lemma FullFifoQueue(p: Policy)
    requires WellFormed(p) && p.Fifo? && AllValid(p.valid)
    ensures |p.queue| > 0
  {
    assert p.valid[0];
  }

  /** Eviction always succeeds on a well-formed policy, reports `full` exactly when every way is valid, and then
      and only then clears the victim's bit. */
  lemma EvictContract(p: Policy, random: nat)
    requires WellFormed(p)
    ensures var e := Evict(p, random);
            && e.Some?
            && e.value.way < |p.valid|
            && e.value.full == AllValid(p.valid)
            && e.value.policy.valid == (if e.value.full then p.valid[e.value.way := false] else p.valid)
            && !e.value.policy.valid[e.value.way]
            && WellFormed(e.value.policy)
  {
    if p.Fifo? && AllValid(p.valid) {
      FullFifoQueue(p);
      var q := p.queue[..|p.queue| - 1];
      var last := p.queue[|p.queue| - 1];
      assert p.queue == q + [last];
    }
  }

  /** Every way of a full set can be the random policy's victim: it is the one that its own number draws. */
  lemma RandomDrawsAnyWay(p: Policy, way: nat)
    requires WellFormed(p) && p.Random? && AllValid(p.valid) && way < |p.valid|
    ensures Evict(p, way) == Some(Eviction(true, way, Random(p.valid[way := false])))
  {}

  /** Promotion touches no valid bit. */
  lemma PromoteContract(p: Policy, way: nat)
    requires WellFormed(p) && way < |p.valid|
    ensures WellFormed(Promote(p, way)) && Promote(p, way).valid == p.valid
  {}

  /** Insertion of a way that is not valid makes it valid and nothing else. */
  lemma InsertContract(p: Policy, way: nat)
    requires WellFormed(p) && way < |p.valid| && !p.valid[way]
    ensures WellFormed(Insert(p, way)) && Insert(p, way).valid == p.valid[way := true]
  {}
}
