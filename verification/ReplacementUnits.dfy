/** The policies as the source runs them: arrays and a queue updated in place, with its search, climb and descent
    loops. Each operation is proved equal to the function of the same name on policies. */
module ReplacementUnits {
  import opened Words
  import R = Replacement

  /** The scan that every eviction starts with. */
  method ScanInvalid(valid: array<bool>) returns (i: nat)
    ensures i == R.FirstInvalid(valid[..])
    ensures i < valid.Length ==> !valid[i]
    ensures i == valid.Length ==> R.AllValid(valid[..])
  {
    i := 0;
    while i < valid.Length
      invariant i <= valid.Length
      invariant forall j :: 0 <= j < i ==> valid[j]
    {
      if !valid[i] {
        FirstInvalidIs(valid[..], i);
        return;
      }
      i := i + 1;
    }
    FirstInvalidIs(valid[..], i);
  }

  lemma FirstInvalidIs(valid: seq<bool>, i: nat)
    requires i <= |valid| && (forall j :: 0 <= j < i ==> valid[j]) && (i < |valid| ==> !valid[i])
    ensures R.FirstInvalid(valid) == i
  {
    var f := R.FirstInvalid(valid);
    assert !(f < i) && !(i < f);
  }

  class RandomRP {
    const valid: array<bool>

    ghost function View(): R.Policy
      reads valid
    {
      R.Random(valid[..])
    }

    ghost predicate Valid()
      reads valid
    {
      R.WellFormed(View())
    }

    constructor (ways: nat)
      requires ways >= 1
      ensures fresh(valid) && Valid() && View() == R.NewPolicy(R.RandomKind, ways)
    {
      valid := new bool[ways](i => false);
      new;
      assert valid[..] == seq(ways, i => false);
    }

    method Insert(way: nat)
      requires Valid() && way < valid.Length
      modifies valid
      ensures View() == R.Insert(old(View()), way)
    {
      valid[way] := true;
    }

    method Invalidate(way: nat)
      requires Valid() && way < valid.Length
      modifies valid
      ensures View() == R.Invalidate(old(View()), way)
    {
      valid[way] := false;
    }

    method Evict(random: nat) returns (full: bool, way: nat)
      requires Valid()
      modifies valid
      ensures Valid()
      ensures R.Evict(old(View()), random) == Some(R.Eviction(full, way, View()))
    {
      R.EvictContract(View(), random);
      way := ScanInvalid(valid);
      full := way == valid.Length;
      if full {
        way := random % valid.Length;
        valid[way] := false;
      }
    }
  }

  class FifoRP {
    const valid: array<bool>
    var queue: seq<nat>

    ghost function View(): R.Policy
      reads this, valid
    {
      R.Fifo(valid[..], queue)
    }

    ghost predicate Valid()
      reads this, valid
    {
      R.WellFormed(View())
    }

    constructor (ways: nat)
      requires ways >= 1
      ensures fresh(valid) && Valid() && View() == R.NewPolicy(R.FifoKind, ways)
    {
      valid := new bool[ways](i => false);
      queue := [];
      new;
      assert valid[..] == seq(ways, i => false);
    }

    /** The cache inserts only ways that are not valid; the queue then stays free of duplicates. */
    method Insert(way: nat)
      requires Valid() && way < valid.Length
      modifies this, valid
      ensures View() == R.Insert(old(View()), way)
      ensures !old(valid[way]) ==> Valid()
    {
      ghost var before := View();
      valid[way] := true;
      queue := [way] + queue;
      if !before.valid[way] {
        R.InsertContract(before, way);
      }
    }

    /** Drop the way from the queue, wherever it is. */
    method Invalidate(way: nat)
      requires Valid() && way < valid.Length
      modifies this, valid
      ensures View() == R.Invalidate(old(View()), way)
    {
      valid[way] := false;
      var kept: seq<nat> := [];
      var i := 0;
      while i < |queue|
        invariant i <= |queue|
        invariant kept + R.Without(queue[i..], way) == R.Without(queue, way)
      {
        assert queue[i..][1..] == queue[i + 1..];
        if queue[i] != way {
          kept := kept + [queue[i]];
        }
        i := i + 1;
      }
      queue := kept;
    }

    /** The queue is not empty when every way is valid. */
    method Evict(random: nat) returns (full: bool, way: nat)
      requires Valid()
      modifies this, valid
      ensures Valid()
      ensures R.Evict(old(View()), random) == Some(R.Eviction(full, way, View()))
    {
      R.EvictContract(View(), random);
      way := ScanInvalid(valid);
      full := way == valid.Length;
      if full {
        R.FullFifoQueue(View());
        way := queue[|queue| - 1];
        queue := queue[..|queue| - 1];
        valid[way] := false;
      }
    }
  }

  class PseudoLruRP {
    const valid: array<bool>
    const tree: array<bool>

    ghost function View(): R.Policy
      reads valid, tree
    {
      R.Plru(valid[..], tree[..])
    }

    ghost predicate Valid()
      reads valid, tree
    {
      valid != tree && R.WellFormed(View())
    }

    constructor (ways: nat)
      requires ways >= 1
      ensures fresh(valid) && fresh(tree) && Valid() && View() == R.NewPolicy(R.PlruKind, ways)
    {
      valid := new bool[ways](i => false);
      tree := new bool[ways - 1](i => false);
      new;
      assert valid[..] == seq(ways, i => false);
      assert tree[..] == seq(ways - 1, i => false);
    }

    /** Climb from the way's leaf to the root, turning each bit away from it. */
    method Promote(way: nat)
      requires Valid() && way < valid.Length
      modifies tree
      ensures Valid() && View() == R.Promote(old(View()), way)
    {
      if valid.Length == 1 {
        return;
      }
      var node: nat := way + (valid.Length - 1);
      ghost var promoted := R.PromoteFrom(tree[..], node);
      while node > 0
        invariant node <= 2 * tree.Length
        invariant R.PromoteFrom(tree[..], node) == promoted
      {
        var parent := (node - 1) / 2;
        ghost var before := tree[..];
        tree[parent] := node != 2 * parent + 1;
        assert R.Parent(node) == parent && R.IsLeft(node) == (node == 2 * parent + 1);
        assert tree[..] == before[parent := !R.IsLeft(node)];
        node := parent;
      }
    }

    method Insert(way: nat)
      requires Valid() && way < valid.Length
      modifies valid, tree
      ensures Valid() && View() == R.Insert(old(View()), way)
    {
      valid[way] := true;
      Promote(way);
    }

    method Invalidate(way: nat)
      requires Valid() && way < valid.Length
      modifies valid
      ensures Valid() && View() == R.Invalidate(old(View()), way)
    {
      valid[way] := false;
    }

    /** Descend from the root, away from the ways used last. */
    method Evict(random: nat) returns (full: bool, way: nat)
      requires Valid()
      modifies valid
      ensures Valid()
      ensures R.Evict(old(View()), random) == Some(R.Eviction(full, way, View()))
    {
      R.EvictContract(View(), random);
      way := ScanInvalid(valid);
      full := way == valid.Length;
      if full {
        var node := 0;
        while node < valid.Length - 1
          invariant node <= 2 * tree.Length
          invariant R.Walk(tree[..], node) == R.Walk(tree[..], 0)
          decreases 2 * tree.Length - node
        {
          node := if tree[node] then 2 * node + 1 else 2 * node + 2;
        }
        way := node - (valid.Length - 1);
        valid[way] := false;
      }
    }
  }
}
