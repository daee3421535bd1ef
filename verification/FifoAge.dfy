/** FIFO over any history of its operations (replacement_policy.rs): the queue is ordered by the time of last
    insertion, so a full set gives up the way inserted longest ago. */
module FifoAge {
  import opened Words
  import opened Replacement

  datatype Operation = Evicting(random: nat) | Inserting(way: nat) | Promoting(way: nat) | Invalidating(way: nat)

  /** The operations name a way of the set, and only a way that is not valid is inserted. */
  predicate Allowed(p: Policy, o: Operation) {
    match o
    case Evicting(_) => true
    case Inserting(way) => way < |p.valid| && !p.valid[way]
    case Promoting(way) => way < |p.valid|
    case Invalidating(way) => way < |p.valid|
  }

  function Perform(p: Policy, o: Operation): (q: Policy)
    requires WellFormed(p) && Allowed(p, o)
    ensures WellFormed(q) && |q.valid| == |p.valid| && (p.Fifo? ==> q.Fifo?)
  {
    match o
    case Evicting(random) =>
      EvictContract(p, random);
      Evict(p, random).value.policy
    case Inserting(way) =>
      InsertContract(p, way);
      Insert(p, way)
    case Promoting(way) =>
      PromoteContract(p, way);
      Promote(p, way)
    case Invalidating(way) =>
      InvalidateContract(p, way);
      Invalidate(p, way)
  }

  /** Invalidation makes the way invalid and nothing else. */
  lemma InvalidateContract(p: Policy, way: nat)
    requires WellFormed(p) && way < |p.valid|
    ensures WellFormed(Invalidate(p, way)) && Invalidate(p, way).valid == p.valid[way := false]
  {
    if p.Fifo? {
      WithoutDistinct(p.queue, way);
      var r := Without(p.queue, way);
      assert Distinct(r);
      forall i | 0 <= i < |r|
        ensures r[i] < |p.valid|
      {
        assert r[i] in p.queue;
      }
    }
  }

  predicate Distinct(queue: seq<nat>) {
    forall i, j :: 0 <= i < j < |queue| ==> queue[i] != queue[j]
  }

  lemma {:induction false} WithoutDistinct(queue: seq<nat>, way: nat)
    requires Distinct(queue)
    ensures Distinct(Without(queue, way))
  {
    if |queue| > 0 {
      var front, rest := queue[0], Without(queue[1..], way);
      WithoutDistinct(queue[1..], way);
      assert front !in queue[1..];
      assert front !in rest;
      PrependDistinct(front, rest);
    }
  }

  lemma PrependDistinct(front: nat, rest: seq<nat>)
    requires front !in rest && Distinct(rest)
    ensures Distinct([front] + rest)
  {}

  /** Dropping a way leaves the others in the order of their ages. */
  lemma {:induction false} WithoutInOrder(queue: seq<nat>, way: nat, log: seq<nat>)
    requires NewestFirst(queue, log)
    ensures NewestFirst(Without(queue, way), log)
  {
    hide LastIn;
    if |queue| > 0 {
      var rest := Without(queue[1..], way);
      WithoutInOrder(queue[1..], way, log);
      forall k | 0 <= k < |rest|
        ensures LastIn(log, queue[0]) > LastIn(log, rest[k])
      {
        assert rest[k] in queue[1..];
      }
    }
  }

  /** When `way` was inserted last, where `log` lists the ways inserted so far, oldest first; -1 if it never was. */
  function LastIn(log: seq<nat>, way: nat): (t: int)
    ensures -1 <= t < |log|
    ensures t >= 0 ==> log[t] == way
    ensures forall i :: t < i < |log| ==> log[i] != way
  {
    if |log| == 0 then -1
    else if log[|log| - 1] == way then |log| - 1
    else LastIn(log[..|log| - 1], way)
  }

  /** The ways of the queue were all inserted, each before the one in front of it. */
  predicate NewestFirst(queue: seq<nat>, log: seq<nat>) {
    && (forall i :: 0 <= i < |queue| ==> LastIn(log, queue[i]) >= 0)
    && (forall i, j :: 0 <= i < j < |queue| ==> LastIn(log, queue[i]) > LastIn(log, queue[j]))
  }

  /** The operations performed one after another; None as soon as one is not allowed. */
  function Play(p: Policy, ops: seq<Operation>): (r: Option<Policy>)
    requires WellFormed(p)
    ensures r.Some? ==> WellFormed(r.value) && |r.value.valid| == |p.valid| && (p.Fifo? ==> r.value.Fifo?)
  {
    if |ops| == 0 then Some(p)
    else
      match Play(p, ops[..|ops| - 1])
      case None => None
      case Some(q) =>
        var o := ops[|ops| - 1];
        if Allowed(q, o) then Some(Perform(q, o)) else None
  }

  /** The ways the operations insert, in order. */
  function InsertedBy(ops: seq<Operation>): (log: seq<nat>)
    ensures |log| <= |ops|
  {
    if |ops| == 0 then []
    else InsertedBy(ops[..|ops| - 1]) + Insertion(ops[|ops| - 1])
  }

  function Insertion(o: Operation): seq<nat> {
    if o.Inserting? then [o.way] else []
  }

  predicate ByAge(p: Policy, log: seq<nat>) {
    p.Fifo? ==> NewestFirst(p.queue, log)
  }

  lemma LastInserted(log: seq<nat>, way: nat, other: nat)
    ensures LastIn(log + [way], other) == if other == way then |log| else LastIn(log, other)
  {
    assert (log + [way])[..|log|] == log;
  }

  /** Every operation keeps the queue in order. */
  lemma OperationKeepsAge(p: Policy, o: Operation, log: seq<nat>)
    requires WellFormed(p) && Allowed(p, o) && ByAge(p, log)
    ensures ByAge(Perform(p, o), log + Insertion(o))
  {
    hide LastIn;
    assert log + [] == log;
    if p.Fifo? {
      match o {
        case Evicting(random) =>
          EvictContract(p, random);
        case Inserting(way) =>
          assert way !in p.queue;
          forall w
            ensures LastIn(log + [way], w) == if w == way then |log| else LastIn(log, w)
          {
            LastInserted(log, way, w);
          }
        case Promoting(way) =>
        case Invalidating(way) => WithoutInOrder(p.queue, way, log);
      }
    }
  }

  lemma {:induction false} PlayKeepsAge(p: Policy, ops: seq<Operation>, log: seq<nat>)
    requires WellFormed(p) && ByAge(p, log) && Play(p, ops).Some?
    ensures ByAge(Play(p, ops).value, log + InsertedBy(ops))
  {
    hide ByAge, WellFormed, Perform, Allowed;
    if |ops| == 0 {
      assert log + [] == log;
    } else {
      var before, o := ops[..|ops| - 1], ops[|ops| - 1];
      PlayKeepsAge(p, before, log);
      OperationKeepsAge(Play(p, before).value, o, log + InsertedBy(before));
      assert (log + InsertedBy(before)) + Insertion(o) == log + (InsertedBy(before) + Insertion(o));
    }
  }

  /** A full set in order gives up the way that was inserted longest ago. */
  lemma EvictsOldest(p: Policy, log: seq<nat>, random: nat)
    requires p.Fifo? && WellFormed(p) && ByAge(p, log) && AllValid(p.valid)
    ensures Evict(p, random).Some?
    ensures var w := Evict(p, random).value.way;
            0 <= LastIn(log, w) && forall v: nat :: v < |p.valid| && v != w ==> LastIn(log, w) < LastIn(log, v)
  {
    hide LastIn;
    EvictContract(p, random);
    var w := Evict(p, random).value.way;
    forall v: nat | v < |p.valid| && v != w
      ensures LastIn(log, w) < LastIn(log, v)
    {
      assert v in p.queue;
    }
  }

  /** First in, first out: after any sequence of evictions, promotions, invalidations and insertions of ways that are
      not valid, a new FIFO policy whose ways are all valid gives up the one inserted longest ago. */
  lemma FifoEvictsOldest(ways: nat, ops: seq<Operation>, random: nat)
    requires ways >= 1
    requires var r := Play(NewPolicy(FifoKind, ways), ops);
             r.Some? && AllValid(r.value.valid)
    ensures var p, log := Play(NewPolicy(FifoKind, ways), ops).value, InsertedBy(ops);
            && Evict(p, random).Some?
            && var w := Evict(p, random).value.way;
               && w < ways && 0 <= LastIn(log, w)
               && forall v: nat :: v < ways && v != w ==> LastIn(log, w) < LastIn(log, v)
  {
    hide LastIn, Play, InsertedBy, Evict, NewestFirst;
    var start := NewPolicy(FifoKind, ways);
    NewPolicyOk(FifoKind, ways);
    assert ByAge(start, []) by { EmptyInOrder(); }
    PlayKeepsAge(start, ops, []);
    assert [] + InsertedBy(ops) == InsertedBy(ops);
    var p := Play(start, ops).value;
    assert start.Fifo? && p.Fifo? && |p.valid| == ways;
    EvictContract(p, random);
    EvictsOldest(p, InsertedBy(ops), random);
  }

  lemma EmptyInOrder()
    ensures NewestFirst([], [])
  {}
}
