/** The pseudo-LRU bits as the source keeps them, in a heap array, refine the functional tree: its leaf-to-root
    loop is Use, and its root-to-leaf loop finds Victim. */
module PlruHeap {
  import opened Words
  import opened PlruTree
  import opened Replacement

  /** A heap of `bits` inner nodes has a complete subtree of height `h` at `node`, with its leaves among the ways. */
  predicate Complete(bits: nat, node: nat, h: nat) {
    bits + 1 <= (node + 1) * Pow2(h) && (node + 2) * Pow2(h) <= 2 * (bits + 1)
  }

  lemma Children(tree: seq<bool>, node: nat, h: nat)
    requires h > 0 && Complete(|tree|, node, h)
    ensures node < |tree|
    ensures Complete(|tree|, 2 * node + 1, h - 1) && Complete(|tree|, 2 * node + 2, h - 1)
  {
    var half := Pow2(h - 1);
    assert (node + 2) * (2 * half) == 2 * ((node + 2) * half);
    assert (node + 2) * half >= node + 2;
    assert (2 * node + 2) * half == (node + 1) * (2 * half);
    assert (2 * node + 3) * half == (node + 1) * (2 * half) + half == (node + 2) * (2 * half) - half;
    assert (2 * node + 4) * half == (node + 2) * (2 * half);
  }

  function Abs(tree: seq<bool>, node: nat, h: nat): (t: Tree)
    requires Complete(|tree|, node, h)
    ensures Perfect(t, h)
    decreases h
  {
    if h == 0 then Leaf
    else
      Children(tree, node, h);
      Node(tree[node], Abs(tree, 2 * node + 1, h - 1), Abs(tree, 2 * node + 2, h - 1))
  }

  /** The heap index of the subtree's way `w`. */
  function LeafOf(node: nat, h: nat, w: nat): nat {
    (node + 1) * Pow2(h) - 1 + w
  }

  lemma LeafOfChild(node: nat, h: nat, w: nat)
    requires h > 0
    ensures LeafOf(2 * node + 1, h - 1, w) == LeafOf(node, h, w)
    ensures LeafOf(2 * node + 2, h - 1, w) == LeafOf(node, h, Pow2(h - 1) + w)
  {
    var half := Pow2(h - 1);
    assert (2 * node + 2) * half == (node + 1) * (2 * half);
    assert (2 * node + 3) * half == (node + 1) * (2 * half) + half;
  }

  lemma {:induction false} WalkIsVictim(tree: seq<bool>, node: nat, h: nat)
    requires Complete(|tree|, node, h)
    ensures node <= 2 * |tree|
    ensures Walk(tree, node) == LeafOf(node, h, Victim(Abs(tree, node, h), h))
    decreases h
  {
    if h > 0 {
      Children(tree, node, h);
      var v := Victim(Abs(tree, node, h), h);
      if tree[node] {
        WalkIsVictim(tree, 2 * node + 1, h - 1);
        LeafOfChild(node, h, v);
      } else {
        WalkIsVictim(tree, 2 * node + 2, h - 1);
        LeafOfChild(node, h, v - Pow2(h - 1));
      }
    }
  }

  /** `i` lies in the subtree of `node`. */
  predicate Below(i: nat, node: nat)
    decreases i
  {
    i == node || (i > node && Below(Parent(i), node))
  }

  lemma {:induction false} BelowParent(i: nat, node: nat)
    requires node > 0 && Below(i, node)
    ensures Below(i, Parent(node))
    decreases i
  {
    if i != node {
      BelowParent(Parent(i), node);
    }
  }

  lemma {:induction false} SiblingsApart(i: nat, node: nat)
    ensures !(Below(i, 2 * node + 1) && Below(i, 2 * node + 2))
    decreases i
  {
    if i > 2 * node + 2 {
      SiblingsApart(Parent(i), node);
    }
  }

  lemma {:induction false} AbsFrame(a: seq<bool>, b: seq<bool>, node: nat, h: nat)
    requires |a| == |b| && Complete(|a|, node, h)
    requires forall i :: 0 <= i < |a| && Below(i, node) ==> a[i] == b[i]
    ensures Abs(a, node, h) == Abs(b, node, h)
    decreases h
  {
    if h > 0 {
      Children(a, node, h);
      forall c, i: nat | (c == 2 * node + 1 || c == 2 * node + 2) && i < |a| && Below(i, c)
        ensures a[i] == b[i]
      {
        BelowParent(i, c);
      }
      AbsFrame(a, b, 2 * node + 1, h - 1);
      AbsFrame(a, b, 2 * node + 2, h - 1);
    }
  }

  /** What the climb from way `w` has written once it reaches `node`. */
  function Climbed(tree: seq<bool>, node: nat, h: nat, w: nat): (r: seq<bool>)
    requires Complete(|tree|, node, h) && w < Pow2(h)
    ensures |r| == |tree|
    decreases h
  {
    if h == 0 then tree
    else
      Children(tree, node, h);
      if w < Pow2(h - 1) then Climbed(tree, 2 * node + 1, h - 1, w)[node := false]
      else Climbed(tree, 2 * node + 2, h - 1, w - Pow2(h - 1))[node := true]
  }

  lemma {:induction false} ClimbStaysBelow(tree: seq<bool>, node: nat, h: nat, w: nat, i: nat)
    requires Complete(|tree|, node, h) && w < Pow2(h) && i < |tree| && !Below(i, node)
    ensures Climbed(tree, node, h, w)[i] == tree[i]
    decreases h
  {
    if h > 0 {
      Children(tree, node, h);
      var c := if w < Pow2(h - 1) then 2 * node + 1 else 2 * node + 2;
      if Below(i, c) {
        BelowParent(i, c);
      }
      ClimbStaysBelow(tree, c, h - 1, if w < Pow2(h - 1) then w else w - Pow2(h - 1), i);
    }
  }

  lemma LeafBound(tree: seq<bool>, node: nat, h: nat, w: nat)
    requires Complete(|tree|, node, h) && w < Pow2(h)
    ensures node <= 2 * |tree| && |tree| <= LeafOf(node, h, w) <= 2 * |tree|
    ensures h == 0 ==> LeafOf(node, h, w) == node
  {
    var p := Pow2(h);
    assert (node + 2) * p == (node + 1) * p + p;
  }

  /** The last step of a climb. */
  lemma Step(tree: seq<bool>, node: nat)
    requires node < |tree|
    ensures PromoteFrom(tree, 2 * node + 1) == PromoteFrom(tree[node := false], node)
    ensures PromoteFrom(tree, 2 * node + 2) == PromoteFrom(tree[node := true], node)
  {}

  lemma {:induction false} ClimbIsPromotion(tree: seq<bool>, node: nat, h: nat, w: nat)
    requires Complete(|tree|, node, h) && w < Pow2(h)
    requires node <= 2 * |tree| && LeafOf(node, h, w) <= 2 * |tree|
    ensures PromoteFrom(tree, LeafOf(node, h, w)) == PromoteFrom(Climbed(tree, node, h, w), node)
    decreases h
  {
    hide LeafOf, Complete, PromoteFrom;
    if h == 0 {
      LeafBound(tree, node, h, w);
    } else {
      Children(tree, node, h);
      if w < Pow2(h - 1) {
        LeafOfChild(node, h, w);
        LeafBound(tree, 2 * node + 1, h - 1, w);
        ClimbIsPromotion(tree, 2 * node + 1, h - 1, w);
        Step(Climbed(tree, 2 * node + 1, h - 1, w), node);
      } else {
        var v := w - Pow2(h - 1);
        LeafOfChild(node, h, v);
        LeafBound(tree, 2 * node + 2, h - 1, v);
        ClimbIsPromotion(tree, 2 * node + 2, h - 1, v);
        Step(Climbed(tree, 2 * node + 2, h - 1, v), node);
      }
    }
  }

  /** Climbing out of one child writes nothing in the other, and the node's own bit is in neither. */
  lemma ClimbFrame(tree: seq<bool>, node: nat, c: nat, s: nat, h: nat, w: nat, bit: bool)
    requires (c == 2 * node + 1 && s == 2 * node + 2) || (c == 2 * node + 2 && s == 2 * node + 1)
    requires node < |tree| && Complete(|tree|, c, h) && Complete(|tree|, s, h) && w < Pow2(h)
    ensures var inner := Climbed(tree, c, h, w);
            && Abs(inner[node := bit], c, h) == Abs(inner, c, h)
            && Abs(inner[node := bit], s, h) == Abs(tree, s, h)
  {
    hide Climbed, Complete, Pow2, Abs;
    var inner := Climbed(tree, c, h, w);
    AbsFrame(inner, inner[node := bit], c, h);
    forall i: nat | i < |tree| && Below(i, s)
      ensures tree[i] == inner[node := bit][i]
    {
      SiblingsApart(i, node);
      ClimbStaysBelow(tree, c, h, w, i);
    }
    AbsFrame(tree, inner[node := bit], s, h);
  }

  lemma {:induction false} ClimbIsUse(tree: seq<bool>, node: nat, h: nat, w: nat)
    requires Complete(|tree|, node, h) && w < Pow2(h)
    ensures Abs(Climbed(tree, node, h, w), node, h) == Use(Abs(tree, node, h), h, w)
    decreases h
  {
    hide Complete;
    if h > 0 {
      Children(tree, node, h);
      if w < Pow2(h - 1) {
        ClimbIsUse(tree, 2 * node + 1, h - 1, w);
        ClimbFrame(tree, node, 2 * node + 1, 2 * node + 2, h - 1, w, false);
      } else {
        ClimbIsUse(tree, 2 * node + 2, h - 1, w - Pow2(h - 1));
        ClimbFrame(tree, node, 2 * node + 2, 2 * node + 1, h - 1, w - Pow2(h - 1), true);
      }
    }
  }

  /** The source's promotion loop, run over the whole heap, is Use on the tree it stands for. */
  lemma PromotionIsUse(tree: seq<bool>, k: nat, w: nat)
    requires |tree| + 1 == Pow2(k) && w < Pow2(k)
    ensures w + |tree| <= 2 * |tree|
    ensures Complete(|tree|, 0, k) && Abs(PromoteFrom(tree, w + |tree|), 0, k) == Use(Abs(tree, 0, k), k, w)
  {
    assert Complete(|tree|, 0, k);
    assert LeafOf(0, k, w) == w + |tree|;
    hide Complete, LeafOf, PromoteFrom, Climbed, Abs, Use, Pow2;
    ClimbIsPromotion(tree, 0, k, w);
    ClimbIsUse(tree, 0, k, w);
    AtTheRoot(Climbed(tree, 0, k, w));
  }

  lemma AtTheRoot(tree: seq<bool>)
    ensures PromoteFrom(tree, 0) == tree
  {}
}
