/** A cache set as the source runs it: one flat data array for all ways and arrays of tags and bits, updated in
    place, with the search loop of the tag comparison. */
module CacheSetUnits {
  import opened Words
  import R = Replacement
  import S = CacheSet

  /** The source's Ok(way) or Err((write back, victim)). */
  datatype Comparison = Found(way: nat) | NotFound(writeBack: bool, victim: nat)

  lemma Slot(way: nat, ways: nat, size: nat)
    requires way < ways
    ensures 0 <= way * size <= way * size + size <= ways * size
    ensures way * size + size == (way + 1) * size
  {
    var rest := ways - way - 1;
    assert rest * size >= 0;
    assert (way + 1) * size == way * size + size;
    assert (way + 1 + rest) * size == (way + 1) * size + rest * size;
    assert ways == way + 1 + rest;
  }

  lemma SlotsApart(v: nat, w: nat, size: nat)
    requires v != w
    ensures v * size + size <= w * size || w * size + size <= v * size
  {
    if v < w {
      Slot(v, w, size);
    } else {
      Slot(w, v, size);
    }
  }

  function BlockIn(data: seq<Byte>, way: nat, ways: nat, size: nat): (b: seq<Byte>)
    requires way < ways && |data| == ways * size
    ensures |b| == size
  {
    Slot(way, ways, size);
    data[way * size..way * size + size]
  }

  function BlocksIn(data: seq<Byte>, ways: nat, size: nat): (bs: seq<seq<Byte>>)
    requires |data| == ways * size
    ensures |bs| == ways
  {
    seq(ways, w requires 0 <= w < ways => BlockIn(data, w, ways, size))
  }

  /** Overwriting one way's slice of the flat array changes that way's block and no other. */
  lemma Overwrite(before: seq<Byte>, after: seq<Byte>, way: nat, ways: nat, size: nat, block: seq<Byte>)
    requires way < ways && |before| == |after| == ways * size && |block| == size
    requires way * size + size <= ways * size
    requires forall i :: 0 <= i < ways * size ==>
               after[i] == if way * size <= i < way * size + size then block[i - way * size] else before[i]
    ensures BlocksIn(after, ways, size) == BlocksIn(before, ways, size)[way := block]
  {
    var bs, cs := BlocksIn(before, ways, size), BlocksIn(after, ways, size);
    forall w | 0 <= w < ways
      ensures cs[w] == bs[way := block][w]
    {
      Slot(w, ways, size);
      if w != way {
        SlotsApart(w, way, size);
      }
      assert BlockIn(after, w, ways, size) == if w == way then block else BlockIn(before, w, ways, size);
    }
  }

  lemma Product(x: nat, y: nat)
    ensures x * y >= 0
  {}

  lemma ZeroBlocks(data: seq<Byte>, ways: nat, size: nat)
    requires |data| == ways * size && forall i :: 0 <= i < |data| ==> data[i] == 0
    ensures BlocksIn(data, ways, size) == seq(ways, i => seq(size, j => 0))
  {
    forall w | 0 <= w < ways
      ensures BlockIn(data, w, ways, size) == seq(size, j => 0)
    {
      Slot(w, ways, size);
    }
  }

  class CacheSetUnit {
    const ways: nat
    const blockSize: nat
    const data: array<Byte>
    const tags: array<nat>
    const valid: array<bool>
    const dirty: array<bool>
    var rp: R.Policy

    ghost function Footprint(): set<object> {
      {this, data, tags, valid, dirty}
    }

    ghost predicate Sized()
    {
      && data.Length == ways * blockSize
      && tags.Length == valid.Length == dirty.Length == ways
      && valid != dirty
    }

    ghost function View(): (s: S.SetState)
      reads Footprint()
      requires Sized()
      ensures s.ways == ways && s.blockSize == blockSize && s.valid == valid[..] && s.tags == tags[..] && s.rp == rp
    {
      S.SetState(ways, blockSize, BlocksIn(data[..], ways, blockSize), tags[..], valid[..], dirty[..], rp)
    }

    ghost predicate Valid()
      reads Footprint()
    {
      Sized() && S.Shaped(View())
    }

    constructor (kind: R.PolicyKind, ways: nat, blockSize: nat)
      requires ways >= 1
      ensures this.ways == ways && this.blockSize == blockSize
      ensures fresh(Footprint())
      ensures Valid() && View() == S.NewSet(kind, ways, blockSize)
    {
      Product(ways, blockSize);
      this.ways, this.blockSize := ways, blockSize;
      data := new Byte[ways * blockSize](i => 0);
      tags := new nat[ways](i => 0);
      valid := new bool[ways](i => false);
      dirty := new bool[ways](i => false);
      rp := R.NewPolicy(kind, ways);
      new;
      ZeroBlocks(data[..], ways, blockSize);
      ghost var empty := S.NewSet(kind, ways, blockSize);
      assert tags[..] == empty.tags && valid[..] == empty.valid && dirty[..] == empty.dirty;
      R.NewPolicyOk(kind, ways);
    }

    /** Search the ways in order; on a miss let the policy choose a victim. */
    method TagCompare(tag: nat, random: nat) returns (c: Comparison)
      requires Valid()
      modifies `rp
      ensures Valid()
      ensures match S.TagCompare(old(View()), tag, random)
              case Hit(way) => c == Found(way) && View() == old(View())
              case Miss(writeBack, victim, policy) =>
                c == NotFound(writeBack, victim) && View() == old(View()).(rp := policy)
              case EmptyQueue => false
    {
      ghost var s := View();
      var i := 0;
      while i < ways
        invariant i <= ways
        invariant S.Find(s, tag) == S.FindFrom(s, tag, i)
      {
        if valid[i] && tags[i] == tag {
          return Found(i);
        }
        i := i + 1;
      }
      R.EvictContract(rp, random);
      var e := R.Evict(rp, random).value;
      rp := e.policy;
      c := NotFound(e.full && dirty[e.way], e.way);
    }

    method ReadBlock(way: nat) returns (block: seq<Byte>)
      requires Valid() && way < ways && valid[way]
      modifies `rp
      ensures Valid() && View() == S.Touch(old(View()), way)
      ensures block == old(View()).blocks[way]
    {
      Slot(way, ways, blockSize);
      block := [];
      var i := 0;
      while i < blockSize
        invariant i <= blockSize && block == data[way * blockSize..way * blockSize + i]
      {
        block := block + [data[blockSize * way + i]];
        i := i + 1;
      }
      R.PromoteContract(rp, way);
      rp := R.Promote(rp, way);
    }

    /** Copy a block over a way's slice. */
    method Fill(way: nat, block: seq<Byte>)
      requires Sized() && way < ways && |block| == blockSize
      modifies data
      ensures Sized() && View() == old(View()).(blocks := old(View()).blocks[way := block])
    {
      Slot(way, ways, blockSize);
      ghost var before := data[..];
      var i := 0;
      while i < blockSize
        invariant i <= blockSize
        invariant forall j :: 0 <= j < data.Length ==>
                    data[j] == if way * blockSize <= j < way * blockSize + i then block[j - way * blockSize] else before[j]
      {
        data[blockSize * way + i] := block[i];
        i := i + 1;
      }
      Overwrite(before, data[..], way, ways, blockSize, block);
    }

    method WriteBlock(way: nat, block: seq<Byte>)
      requires Valid() && way < ways && valid[way] && |block| == blockSize
      modifies this, data, dirty
      ensures Valid() && View() == S.WriteBlock(old(View()), way, block)
    {
      R.PromoteContract(rp, way);
      Fill(way, block);
      dirty[way] := true;
      rp := R.Promote(rp, way);
    }

    method WriteBlockClean(way: nat, block: seq<Byte>)
      requires Valid() && way < ways && valid[way] && |block| == blockSize
      modifies this, data
      ensures Valid() && View() == S.WriteBlockClean(old(View()), way, block)
    {
      R.PromoteContract(rp, way);
      Fill(way, block);
      rp := R.Promote(rp, way);
    }

    /** The policy never hands out a way that is valid for it, so the set stays well formed. */
    method InsertBlock(way: nat, tag: nat, block: seq<Byte>)
      requires Valid() && way < ways && |block| == blockSize
      modifies this, data, tags, valid, dirty
      ensures Sized() && View() == S.InsertBlock(old(View()), way, tag, block)
      ensures !old(rp.valid[way]) ==> Valid()
    {
      if !rp.valid[way] {
        R.InsertContract(rp, way);
      }
      Fill(way, block);
      valid[way] := true;
      tags[way] := tag;
      dirty[way] := false;
      rp := R.Insert(rp, way);
    }
  }
}
