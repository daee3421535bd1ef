/** What the replacement policies guarantee over histories of any length. */
module ReplacementTheorems {
  import opened Words
  import opened Replacement
  import opened PlruTree
  import PlruHeap

  // ---------- Pseudo-LRU ----------

  /** A pseudo-LRU policy over 2^k ways that are all valid. */
  predicate FullPlru(p: Policy, k: nat) {
    p.Plru? && |p.valid| == Pow2(k) && |p.tree| + 1 == Pow2(k) && AllValid(p.valid)
  }

  function TreeOf(p: Policy, k: nat): (t: Tree)
    requires FullPlru(p, k)
    ensures Perfect(t, k)
  {
    assert PlruHeap.Complete(|p.tree|, 0, k);
    PlruHeap.Abs(p.tree, 0, k)
  }

  /** The victim of a full policy is the one its tree leads to. */
  lemma PlruEvicts(p: Policy, k: nat, random: nat)
    requires FullPlru(p, k)
    ensures var w := Victim(TreeOf(p, k), k);
            Evict(p, random) == Some(Eviction(true, w, Plru(p.valid[w := false], p.tree)))
  {
    PlruHeap.WalkIsVictim(p.tree, 0, k);
  }

  lemma PlruPromotes(p: Policy, k: nat, w: nat)
    requires FullPlru(p, k) && w < Pow2(k)
    ensures FullPlru(Promote(p, w), k) && TreeOf(Promote(p, w), k) == Use(TreeOf(p, k), k, w)
  {
    if k == 0 {
      assert Use(TreeOf(p, 0), 0, w) == TreeOf(p, 0);
    } else {
      PlruHeap.PromotionIsUse(p.tree, k, w);
    }
  }

  function PromoteAll(p: Policy, k: nat, ws: seq<nat>): (q: Policy)
    requires FullPlru(p, k) && Ways(ws, k)
    ensures FullPlru(q, k)
    ensures TreeOf(q, k) == UseAll(TreeOf(p, k), k, ws)
  {
    if |ws| == 0 then p
    else
      var q := PromoteAll(p, k, ws[..|ws| - 1]);
      PlruPromotes(q, k, ws[|ws| - 1]);
      Promote(q, ws[|ws| - 1])
  }

  /** Protection: after a promotion, no history of promotions of fewer than k distinct other ways, in whatever order
      and number, makes the policy evict the promoted way. */
  lemma PlruProtects(p: Policy, k: nat, w: nat, ws: seq<nat>, random: nat)
    requires FullPlru(p, k) && w < Pow2(k) && Ways(ws, k) && w !in ws
    requires |Elements(ws)| < k
    ensures FullPlru(Promote(p, w), k)
    ensures Evict(PromoteAll(Promote(p, w), k, ws), random).value.way != w
  {
    hide PromoteAll, Promote, TreeOf, UseAll, Evict, Use, Victim;
    PlruPromotes(p, k, w);
    PlruEvicts(PromoteAll(Promote(p, w), k, ws), k, random);
    if Victim(UseAll(Use(TreeOf(p, k), k, w), k, ws), k) == w {
      Protected(TreeOf(p, k), k, w, ws);
    }
  }

  /** The bound cannot be improved: k other ways are always enough. */
  lemma PlruBoundIsSharp(p: Policy, k: nat, w: nat, random: nat)
    requires FullPlru(p, k) && w < Pow2(k)
    ensures var ws := Threat(k, w);
            && |ws| == k && w !in ws && FullPlru(Promote(p, w), k)
            && Evict(PromoteAll(Promote(p, w), k, ws), random).value.way == w
  {
    hide PromoteAll, Promote, TreeOf, UseAll, Evict, Use, Victim;
    PlruPromotes(p, k, w);
    PlruEvicts(PromoteAll(Promote(p, w), k, Threat(k, w)), k, random);
    ThreatSucceeds(TreeOf(Promote(p, w), k), k, w);
  }

  /** One replacement: evict, insert the way that was returned, and promote it `again` more times. */
  function Replace(p: Policy, k: nat, again: nat): (r: (nat, Policy))
    requires FullPlru(p, k)
    ensures r.0 == Victim(TreeOf(p, k), k) && FullPlru(r.1, k)
    ensures TreeOf(r.1, k) == Use(TreeOf(p, k), k, r.0)
  {
    PlruEvicts(p, k, 0);
    var e := Evict(p, 0).value;
    assert e.policy.valid[e.way := true] == p.valid;
    assert Insert(e.policy, e.way) == Promote(p, e.way);
    PlruPromotes(p, k, e.way);
    (e.way, PromoteAgain(Insert(e.policy, e.way), k, e.way, again, TreeOf(p, k)))
  }

  function PromoteAgain(p: Policy, k: nat, w: nat, again: nat, ghost before: Tree): (q: Policy)
    requires FullPlru(p, k) && w < Pow2(k) && Perfect(before, k) && TreeOf(p, k) == Use(before, k, w)
    ensures FullPlru(q, k) && TreeOf(q, k) == Use(before, k, w)
    decreases again
  {
    if again == 0 then p
    else
      PlruPromotes(p, k, w);
      UseIdempotent(before, k, w);
      PromoteAgain(Promote(p, w), k, w, again - 1, before)
  }

  /** The ways that successive replacements pick, with `agains[i]` extra promotions in round i. */
  function Sweep(p: Policy, k: nat, agains: seq<nat>): (r: (seq<nat>, Policy))
    requires FullPlru(p, k)
    ensures |r.0| == |agains| && FullPlru(r.1, k)
    ensures TreeOf(r.1, k) == Swept(TreeOf(p, k), k, |agains|)
    ensures forall i :: 0 <= i < |agains| ==> r.0[i] == VictimAt(TreeOf(p, k), k, i)
  {
    if |agains| == 0 then ([], p)
    else
      var (ws, q) := Sweep(p, k, agains[..|agains| - 1]);
      var (w, after) := Replace(q, k, agains[|agains| - 1]);
      (ws + [w], after)
  }

  /** Full sweep: from any bits, as many replacements as there are ways pick every way exactly once, whatever
      repeated promotions of the way just filled come in between. */
  lemma PlruSweepsAllWays(p: Policy, k: nat, agains: seq<nat>)
    requires FullPlru(p, k) && |agains| == Pow2(k)
    ensures var ws := Sweep(p, k, agains).0;
            && (forall i, j :: 0 <= i < j < Pow2(k) ==> ws[i] != ws[j])
            && (forall w :: 0 <= w < Pow2(k) ==> w in ws)
  {
    hide Sweep, TreeOf, VictimAt;
    var ws := Sweep(p, k, agains).0;
    forall i, j | 0 <= i < j < Pow2(k)
      ensures ws[i] != ws[j]
    {
      SweepIsInjective(TreeOf(p, k), k, i, j);
    }
    forall w | 0 <= w < Pow2(k)
      ensures w in ws
    {
      var i := SweepFinds(TreeOf(p, k), k, w);
      assert ws[i] == w;
    }
  }

  // ---------- FIFO ----------

  predicate FullFifo(p: Policy) {
    p.Fifo? && WellFormed(p) && AllValid(p.valid)
  }

  function UpTo(bound: nat): (s: set<nat>)
    ensures |s| == bound && forall w: nat :: w in s <==> w < bound
  {
    if bound == 0 then {} else UpTo(bound - 1) + {bound - 1}
  }

  lemma {:induction false} CountDistinct(queue: seq<nat>)
    requires forall i, j :: 0 <= i < j < |queue| ==> queue[i] != queue[j]
    ensures |Elements(queue)| == |queue|
  {
    if |queue| > 0 {
      var front, last := queue[..|queue| - 1], queue[|queue| - 1];
      CountDistinct(front);
      assert queue == front + [last];
      assert Elements(queue) == Elements(front) + {last};
    }
  }

  /** A full set's queue holds every way exactly once. */
  lemma FullFifoLength(p: Policy)
    requires FullFifo(p)
    ensures |p.queue| == |p.valid|
  {
    CountDistinct(p.queue);
    assert Elements(p.queue) == UpTo(|p.valid|);
  }

  /** Evict, then insert the way that was returned. */
  function FifoReplace(p: Policy): (r: (nat, Policy))
    requires WellFormed(p) && p.Fifo?
    ensures WellFormed(r.1) && r.1.Fifo? && r.0 < |r.1.valid| == |p.valid|
  {
    EvictContract(p, 0);
    var e := Evict(p, 0).value;
    InsertContract(e.policy, e.way);
    (e.way, Insert(e.policy, e.way))
  }

  function FifoAfter(p: Policy, n: nat): (q: Policy)
    requires WellFormed(p) && p.Fifo?
    ensures WellFormed(q) && q.Fifo? && |q.valid| == |p.valid|
  {
    if n == 0 then p else FifoReplace(FifoAfter(p, n - 1)).1
  }

  lemma FullPick(p: Policy)
    requires FullFifo(p)
    ensures var last := |p.queue| - 1;
            && last >= 0
            && FifoReplace(p) == (p.queue[last], Fifo(p.valid, [p.queue[last]] + p.queue[..last]))
  {
    FullFifoQueue(p);
    var w := p.queue[|p.queue| - 1];
    assert p.valid[w := false][w := true] == p.valid;
  }

  /** From any full set, the ways leave in the order in which they came in: round n takes the way that was n-th
      from the back of the queue. */
  lemma {:induction false} FifoOrder(p: Policy, n: nat)
    requires FullFifo(p) && n <= |p.queue|
    ensures var q, m := FifoAfter(p, n), |p.queue| - n;
            && q == Fifo(p.valid, p.queue[m..] + p.queue[..m])
            && (n < |p.queue| ==> FifoReplace(q).0 == p.queue[m - 1])
  {
    hide FifoReplace, WellFormed, AllValid;
    FullFifoLength(p);
    if n == 0 {
      assert p.queue[|p.queue|..] + p.queue[..|p.queue|] == p.queue;
    } else {
      FifoOrder(p, n - 1);
      FifoStep(p, n - 1);
    }
    if n < |p.queue| {
      FifoStep(p, n);
    }
  }

  lemma FifoStep(p: Policy, n: nat)
    requires FullFifo(p) && n < |p.queue|
    ensures var m := |p.queue| - n;
            var q := Fifo(p.valid, p.queue[m..] + p.queue[..m]);
            && WellFormed(q)
            && FifoReplace(q) == (p.queue[m - 1], Fifo(p.valid, p.queue[m - 1..] + p.queue[..m - 1]))
  {
    hide FifoReplace;
    var m := |p.queue| - n;
    var queue := p.queue[m..] + p.queue[..m];
    assert forall w :: w in queue <==> w in p.queue by {
      assert p.queue == p.queue[..m] + p.queue[m..];
    }
    FullPick(Fifo(p.valid, queue));
    assert [p.queue[m - 1]] + queue[..|queue| - 1] == p.queue[m - 1..] + p.queue[..m - 1];
  }

  /** The set after n rounds from empty. */
  predicate InRound(q: Policy, ways: nat, n: nat)
    requires ways >= 1
  {
    && q.Fifo? && WellFormed(q) && |q.valid| == ways
    && (forall w :: 0 <= w < ways ==> (q.valid[w] <==> w < n))
    && |q.queue| == (if n < ways then n else ways)
    && (forall i :: 0 <= i < |q.queue| ==> q.queue[i] == (n - 1 - i) % ways)
  }

  lemma FillingPick(q: Policy, n: nat)
    requires q.Fifo? && WellFormed(q) && n < |q.valid|
    requires forall w :: 0 <= w < |q.valid| ==> (q.valid[w] <==> w < n)
    ensures FifoReplace(q) == (n, Fifo(q.valid[n := true], [n] + q.queue))
  {
    var first := FirstInvalid(q.valid);
    assert !q.valid[n];
    assert !(n < first);
  }

  lemma RoundStep(q: Policy, ways: nat, n: nat)
    requires ways >= 1 && InRound(q, ways, n)
    ensures FifoReplace(q).0 == n % ways && InRound(FifoReplace(q).1, ways, n + 1)
  {
    hide FifoReplace, WellFormed;
    var r := FifoReplace(q).1;
    if n < ways {
      FillingPick(q, n);
      DivModUnique(n, ways, 0, n);
    } else {
      FullPick(q);
      DivModUnique(n, ways, (n - ways) / ways + 1, (n - ways) % ways);
    }
    forall i | 0 <= i < |r.queue|
      ensures r.queue[i] == (n - i) % ways
    {
      if i > 0 {
        assert r.queue[i] == q.queue[i - 1];
      }
    }
  }

  /** From an empty set, round n takes way n modulo the number of ways. */
  lemma {:induction false} FifoRoundRobin(ways: nat, n: nat)
    requires ways >= 1
    ensures var q := FifoAfter(NewPolicy(FifoKind, ways), n);
            InRound(q, ways, n) && FifoReplace(q).0 == n % ways
  {
    hide FifoReplace;
    if n > 0 {
      FifoRoundRobin(ways, n - 1);
      RoundStep(FifoAfter(NewPolicy(FifoKind, ways), n - 1), ways, n - 1);
    }
    RoundStep(FifoAfter(NewPolicy(FifoKind, ways), n), ways, n);
  }
}
