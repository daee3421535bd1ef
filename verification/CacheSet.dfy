/** One set of the cache (cache_set.rs): its ways' blocks, tags, valid and dirty bits, and its replacement policy. */
module CacheSet {
  import opened Words
  import opened Replacement

  datatype SetState = SetState(
    ways: nat,
    blockSize: nat,
    blocks: seq<seq<Byte>>,
    tags: seq<nat>,
    valid: seq<bool>,
    dirty: seq<bool>,
    rp: Policy)

  function NewSet(kind: PolicyKind, ways: nat, blockSize: nat): SetState
    requires ways >= 1
  {
    SetState(ways, blockSize,
             seq(ways, i => seq(blockSize, j => 0)), seq(ways, i => 0), seq(ways, i => false), seq(ways, i => false), NewPolicy(kind, ways))
  }

  predicate Shaped(s: SetState) {
    && |s.blocks| == |s.tags| == |s.valid| == |s.dirty| == |s.rp.valid| == s.ways
    && WellFormed(s.rp)
    && forall w :: 0 <= w < s.ways ==> |s.blocks[w]| == s.blockSize
  }

  predicate Holds(s: SetState, way: nat, tag: nat)
    requires |s.tags| == |s.valid|
  {
    way < |s.valid| && s.valid[way] && s.tags[way] == tag
  }

  /** The first way from `i` on that holds the tag. */
  function FindFrom(s: SetState, tag: nat, i: nat): (way: Option<nat>)
    requires |s.tags| == |s.valid|
    ensures way.Some? ==> i <= way.value && Holds(s, way.value, tag)
    ensures way.Some? ==> forall w :: i <= w < way.value ==> !Holds(s, w, tag)
    ensures way.None? ==> forall w :: i <= w ==> !Holds(s, w, tag)
    decreases |s.valid| - i
  {
    if i >= |s.valid| then None
    else if s.valid[i] && s.tags[i] == tag then Some(i)
    else FindFrom(s, tag, i + 1)
  }

  function Find(s: SetState, tag: nat): Option<nat>
    requires |s.tags| == |s.valid|
  {
    FindFrom(s, tag, 0)
  }

  datatype Compared =
    | Hit(way: nat)
    | Miss(writeBack: bool, victim: nat, rp: Policy)
    | EmptyQueue

  /** Look the tag up; on a miss choose a victim, to be written back if the policy calls the set full and the
      victim is dirty. */
  function TagCompare(s: SetState, tag: nat, random: nat): Compared
    requires Shaped(s)
  {
    var found := Find(s, tag);
    if found.Some? then Hit(found.value)
    else
      match Evict(s.rp, random)
      case None => EmptyQueue
      case Some(e) =>
        EvictContract(s.rp, random);
        Miss(e.full && s.dirty[e.way], e.way, e.policy)
  }

  /** Reading a block promotes its way. */
  function Touch(s: SetState, way: nat): SetState
    requires Shaped(s) && way < s.ways
  {
    s.(rp := Promote(s.rp, way))
  }

  function WriteBlock(s: SetState, way: nat, block: seq<Byte>): SetState
    requires Shaped(s) && way < s.ways
  {
    s.(blocks := s.blocks[way := block], dirty := s.dirty[way := true], rp := Promote(s.rp, way))
  }

  function WriteBlockClean(s: SetState, way: nat, block: seq<Byte>): SetState
    requires Shaped(s) && way < s.ways
  {
    s.(blocks := s.blocks[way := block], rp := Promote(s.rp, way))
  }

  function InsertBlock(s: SetState, way: nat, tag: nat, block: seq<Byte>): SetState
    requires Shaped(s) && way < s.ways
  {
    s.(blocks := s.blocks[way := block], tags := s.tags[way := tag], valid := s.valid[way := true],
       dirty := s.dirty[way := false], rp := Insert(s.rp, way))
  }
}
