/** Tree pseudo-LRU as a functional tree: what one use of a way does to the way it would evict, over any history. */
module PlruTree {
  import opened Words

  /** An inner node's bit says that its right subtree was used last, so that eviction goes left. */
  datatype Tree = Leaf | Node(bit: bool, left: Tree, right: Tree)

  predicate Perfect(t: Tree, h: nat) {
    if h == 0 then t.Leaf? else t.Node? && Perfect(t.left, h - 1) && Perfect(t.right, h - 1)
  }

  /** The way the bits lead to. */
  function Victim(t: Tree, h: nat): (w: nat)
    requires Perfect(t, h)
    ensures w < Pow2(h)
  {
    if h == 0 then 0
    else if t.bit then Victim(t.left, h - 1)
    else Pow2(h - 1) + Victim(t.right, h - 1)
  }

  /** Using a way turns every bit on its path away from it. */
  function Use(t: Tree, h: nat, w: nat): (u: Tree)
    requires Perfect(t, h) && w < Pow2(h)
    ensures Perfect(u, h)
  {
    if h == 0 then t
    else if w < Pow2(h - 1) then Node(false, Use(t.left, h - 1, w), t.right)
    else Node(true, t.left, Use(t.right, h - 1, w - Pow2(h - 1)))
  }

  predicate Ways(xs: seq<nat>, h: nat) {
    forall i :: 0 <= i < |xs| ==> xs[i] < Pow2(h)
  }

  function UseAll(t: Tree, h: nat, xs: seq<nat>): (u: Tree)
    requires Perfect(t, h) && Ways(xs, h)
    ensures Perfect(u, h)
  {
    if |xs| == 0 then t else Use(UseAll(t, h, xs[..|xs| - 1]), h, xs[|xs| - 1])
  }

  /** The uses that go left, and those that go right, counted from the middle. */
  function Lefts(xs: seq<nat>, half: nat): (r: seq<nat>)
    ensures forall i :: 0 <= i < |r| ==> r[i] < half
  {
    if |xs| == 0 then []
    else
      var r := Lefts(xs[..|xs| - 1], half);
      if xs[|xs| - 1] < half then r + [xs[|xs| - 1]] else r
  }

  function Rights(xs: seq<nat>, half: nat): (r: seq<nat>)
    ensures (forall i :: 0 <= i < |xs| ==> xs[i] < half + half) ==> forall i :: 0 <= i < |r| ==> r[i] < half
  {
    if |xs| == 0 then []
    else
      var r := Rights(xs[..|xs| - 1], half);
      if xs[|xs| - 1] < half then r else r + [xs[|xs| - 1] - half]
  }

  lemma {:induction false} SideMembers(xs: seq<nat>, half: nat)
    ensures forall x: nat :: x in Lefts(xs, half) <==> x in xs && x < half
    ensures forall x: nat :: x in Rights(xs, half) <==> x + half in xs
  {
    if |xs| > 0 {
      var front, last := xs[..|xs| - 1], xs[|xs| - 1];
      SideMembers(front, half);
      forall x: nat
        ensures x in Rights(xs, half) <==> x + half in xs
      {
        assert xs == front + [last];
        assert x + half in xs <==> x + half in front || x + half == last;
      }
      assert xs == front + [last];
    }
  }

  /** A history splits: each subtree sees its own uses, and the bit at the top remembers the last one. */
  lemma {:induction false} UsesSplit(t: Tree, h: nat, xs: seq<nat>)
    requires h > 0 && Perfect(t, h) && Ways(xs, h)
    ensures var half := Pow2(h - 1);
            UseAll(t, h, xs) ==
              Node(if |xs| == 0 then t.bit else xs[|xs| - 1] >= half,
                   UseAll(t.left, h - 1, Lefts(xs, half)),
                   UseAll(t.right, h - 1, Rights(xs, half)))
  {
    var half := Pow2(h - 1);
    if |xs| > 0 {
      var front, last := xs[..|xs| - 1], xs[|xs| - 1];
      UsesSplit(t, h, front);
      hide Use, Pow2;
      if last < half {
        assert Lefts(xs, half)[..|Lefts(xs, half)| - 1] == Lefts(front, half);
      } else {
        assert Rights(xs, half)[..|Rights(xs, half)| - 1] == Rights(front, half);
      }
      UseTop(UseAll(t, h, front), h, last);
    }
  }

  /** One use, at the top. */
  lemma UseTop(t: Tree, h: nat, w: nat)
    requires h > 0 && Perfect(t, h) && w < Pow2(h)
    ensures var half := Pow2(h - 1);
            && t.Node? && Perfect(t.left, h - 1) && Perfect(t.right, h - 1) && w < half + half
            && Use(t, h, w) == if w < half then Node(false, Use(t.left, h - 1, w), t.right)
                               else Node(true, t.left, Use(t.right, h - 1, w - half))
  {}

  function Elements(xs: seq<nat>): set<nat> {
    set x | x in xs
  }

  lemma ShiftCount(s: set<nat>, half: nat, t: set<nat>)
    requires forall x :: x in s <==> x + half in t
    requires forall y :: y in t ==> y >= half
    ensures |s| == |t|
  {
    if s == {} {
      assert forall y :: y in t ==> y - half in s;
      assert t == {};
    } else {
      var x :| x in s;
      ShiftCount(s - {x}, half, t - {x + half});
    }
  }

  lemma SubsetCount(s: set<nat>, t: set<nat>)
    requires s <= t
    ensures |s| <= |t|
  {
    if s != {} {
      var x :| x in s;
      SubsetCount(s - {x}, t - {x});
    }
  }

  /** The side that was not used last saw at least one way fewer. */
  lemma OneMore(xs: seq<nat>, half: nat)
    ensures |xs| > 0 && xs[|xs| - 1] >= half ==> |Elements(xs)| >= |Elements(Lefts(xs, half))| + 1
    ensures |xs| > 0 && xs[|xs| - 1] < half ==> |Elements(xs)| >= |Elements(Rights(xs, half))| + 1
  {
    hide Lefts, Rights;
    if |xs| > 0 {
      SideMembers(xs, half);
      var last := xs[|xs| - 1];
      assert last in xs;
      if last >= half {
        SubsetCount(Elements(Lefts(xs, half)) + {last}, Elements(xs));
      } else {
        var far := set x | x in xs && x >= half;
        ShiftCount(Elements(Rights(xs, half)), half, far);
        SubsetCount(far + {last}, Elements(xs));
      }
    }
  }

  /** Protection: once a way was used, evicting it takes uses of at least as many distinct other ways as the tree
      is high. */
  lemma {:induction false} Protected(t: Tree, h: nat, w: nat, xs: seq<nat>)
    requires Perfect(t, h) && w < Pow2(h) && Ways(xs, h) && w !in xs
    requires Victim(UseAll(Use(t, h, w), h, xs), h) == w
    ensures |Elements(xs)| >= h
  {
    hide Lefts, Rights, UseAll, Elements;
    if h > 0 {
      var half := Pow2(h - 1);
      var u := Use(t, h, w);
      SideMembers(xs, half);
      UsesSplit(u, h, xs);
      OneMore(xs, half);
      if w < half {
        Protected(t.left, h - 1, w, Lefts(xs, half));
      } else {
        Protected(t.right, h - 1, w - half, Rights(xs, half));
      }
    }
  }

  /** A history of as many distinct uses as the tree is high that evicts the way after all. */
  function Threat(h: nat, w: nat): (xs: seq<nat>)
    requires w < Pow2(h)
    ensures |xs| == h && Ways(xs, h) && w !in xs
  {
    if h == 0 then []
    else
      var half := Pow2(h - 1);
      if w < half then
        Threat(h - 1, w) + [half]
      else
        Shift(Threat(h - 1, w - half), half) + [0]
  }

  function Shift(xs: seq<nat>, half: nat): (r: seq<nat>)
    ensures |r| == |xs| && forall i :: 0 <= i < |xs| ==> r[i] == xs[i] + half
  {
    seq(|xs|, i requires 0 <= i < |xs| => xs[i] + half)
  }

  lemma {:induction false} LeftsOfSmall(xs: seq<nat>, half: nat)
    requires forall i :: 0 <= i < |xs| ==> xs[i] < half
    ensures Lefts(xs, half) == xs && Rights(xs, half) == []
  {
    if |xs| > 0 {
      LeftsOfSmall(xs[..|xs| - 1], half);
    }
  }

  lemma {:induction false} RightsOfShift(xs: seq<nat>, half: nat)
    ensures Rights(Shift(xs, half), half) == xs && Lefts(Shift(xs, half), half) == []
  {
    if |xs| > 0 {
      var s := Shift(xs, half);
      assert s[..|s| - 1] == Shift(xs[..|xs| - 1], half);
      RightsOfShift(xs[..|xs| - 1], half);
    }
  }

  lemma ThreatSides(h: nat, w: nat)
    requires h > 0 && w < Pow2(h)
    ensures var half, xs := Pow2(h - 1), Threat(h, w);
            if w < half then xs[h - 1] >= half && Lefts(xs, half) == Threat(h - 1, w)
            else xs[h - 1] < half && Rights(xs, half) == Threat(h - 1, w - half)
  {
    var half, xs := Pow2(h - 1), Threat(h, w);
    var front := xs[..h - 1];
    if w < half {
      assert front == Threat(h - 1, w);
      LeftsOfSmall(front, half);
    } else {
      assert front == Shift(Threat(h - 1, w - half), half);
      RightsOfShift(Threat(h - 1, w - half), half);
    }
  }

  /** The bound is sharp: those uses do evict the way. */
  lemma {:induction false} ThreatSucceeds(t: Tree, h: nat, w: nat)
    requires Perfect(t, h) && w < Pow2(h)
    ensures Victim(UseAll(t, h, Threat(h, w)), h) == w
  {
    hide UseAll, Use, Threat, Lefts, Rights;
    if h > 0 {
      UsesSplit(t, h, Threat(h, w));
      ThreatSides(h, w);
      if w < Pow2(h - 1) {
        ThreatSucceeds(t.left, h - 1, w);
      } else {
        ThreatSucceeds(t.right, h - 1, w - Pow2(h - 1));
      }
    }
  }

  // ---------- Sweeps ----------

  /** The tree after `n` rounds of using the way it would evict. */
  function Swept(t: Tree, h: nat, n: nat): (u: Tree)
    requires Perfect(t, h)
    ensures Perfect(u, h)
  {
    if n == 0 then t
    else
      var u := Swept(t, h, n - 1);
      Use(u, h, Victim(u, h))
  }

  /** Two rounds visit each side once: after an even number, each subtree has seen half of them. */
  lemma {:induction false} SweptSplits(t: Tree, h: nat, m: nat)
    requires h > 0 && Perfect(t, h)
    ensures Swept(t, h, 2 * m) == Node(t.bit, Swept(t.left, h - 1, m), Swept(t.right, h - 1, m))
    ensures Swept(t, h, 2 * m + 1) ==
              if t.bit then Node(false, Swept(t.left, h - 1, m + 1), Swept(t.right, h - 1, m))
              else Node(true, Swept(t.left, h - 1, m), Swept(t.right, h - 1, m + 1))
  {
    if m > 0 {
      SweptSplits(t, h, m - 1);
      var u := Swept(t, h, 2 * m - 1);
      assert Swept(t, h, 2 * m) == Use(u, h, Victim(u, h));
    }
    var v := Swept(t, h, 2 * m);
    assert Swept(t, h, 2 * m + 1) == Use(v, h, Victim(v, h));
  }

  function VictimAt(t: Tree, h: nat, n: nat): nat
    requires Perfect(t, h)
  {
    Victim(Swept(t, h, n), h)
  }

  /** Full sweep: as many rounds as there are ways pick different ways. */
  lemma {:induction false} SweepIsInjective(t: Tree, h: nat, i: nat, j: nat)
    requires Perfect(t, h) && i < j < Pow2(h)
    ensures VictimAt(t, h, i) != VictimAt(t, h, j)
  {
    hide Swept, Use;
    if h > 0 {
      SweptSplits(t, h, i / 2);
      SweptSplits(t, h, j / 2);
      if i % 2 == j % 2 {
        SweepIsInjective(t.left, h - 1, i / 2, j / 2);
        SweepIsInjective(t.right, h - 1, i / 2, j / 2);
      }
    }
  }

  /** ... and every way is picked. */
  lemma {:induction false} SweepFinds(t: Tree, h: nat, w: nat) returns (i: nat)
    requires Perfect(t, h) && w < Pow2(h)
    ensures i < Pow2(h) && VictimAt(t, h, i) == w
  {
    hide Swept, Use;
    if h == 0 {
      i := 0;
    } else {
      var m: nat;
      if w < Pow2(h - 1) {
        m := SweepFinds(t.left, h - 1, w);
      } else {
        m := SweepFinds(t.right, h - 1, w - Pow2(h - 1));
      }
      SweptSplits(t, h, m);
      i := if t.bit == (w < Pow2(h - 1)) then 2 * m else 2 * m + 1;
    }
  }

  /** Using a way again changes nothing. */
  lemma {:induction false} UseIdempotent(t: Tree, h: nat, w: nat)
    requires Perfect(t, h) && w < Pow2(h)
    ensures Use(Use(t, h, w), h, w) == Use(t, h, w)
  {
    if h > 0 {
      if w < Pow2(h - 1) {
        UseIdempotent(t.left, h - 1, w);
      } else {
        UseIdempotent(t.right, h - 1, w - Pow2(h - 1));
      }
    }
  }
}
