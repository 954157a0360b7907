/**
 * The part of the backend IR that generate_function inspects before
 * verification: a function is a list of basic blocks, each with its
 * instructions and its number of predecessors. The cleanup pass removes the
 * empty blocks nobody jumps to and flags non-empty blocks that do not end in
 * a terminator.
 */
module IR {

  /** An instruction, reduced to whether it transfers control. */
  datatype Instr = Instr(isTerminator: bool)

  /** The identity of a block (its address in the backend). */
  type BlockId = nat

  datatype Block = Block(id: BlockId, insts: seq<Instr>, preds: nat)

  predicate IsEmpty(b: Block) {
    |b.insts| == 0
  }

  /** An empty block with no predecessors: dead scaffolding, erased by cleanup. */
  predicate Removable(b: Block) {
    IsEmpty(b) && b.preds == 0
  }

  /** A non-empty block whose last instruction is not a terminator. */
  predicate MissingTerminator(b: Block) {
    !IsEmpty(b) && !b.insts[|b.insts| - 1].isTerminator
  }

  /** A block that ends in a terminator (so it is non-empty). */
  predicate Terminated(b: Block) {
    !IsEmpty(b) && b.insts[|b.insts| - 1].isTerminator
  }

  predicate HasMissingTerminator(bs: seq<Block>) {
    exists i :: 0 <= i < |bs| && MissingTerminator(bs[i])
  }

  predicate WellTerminated(bs: seq<Block>) {
    forall i :: 0 <= i < |bs| ==> Terminated(bs[i])
  }

  predicate DistinctIds(bs: seq<Block>) {
    forall i, j :: 0 <= i < j < |bs| ==> bs[i].id != bs[j].id
  }

  /** The blocks cleanup leaves, in their original order. */
  function Kept(bs: seq<Block>): seq<Block> {
    if bs == [] then []
    else (if Removable(bs[0]) then [] else [bs[0]]) + Kept(bs[1..])
  }

  /** The contents of the to_remove vector after the scan, in list order. */
  function RemovableIds(bs: seq<Block>): seq<BlockId> {
    if bs == [] then []
    else (if Removable(bs[0]) then [bs[0].id] else []) + RemovableIds(bs[1..])
  }

  /** The non-empty blocks, in order. */
  function NonEmpty(bs: seq<Block>): seq<Block> {
    if bs == [] then []
    else (if IsEmpty(bs[0]) then [] else [bs[0]]) + NonEmpty(bs[1..])
  }

  /** The list once every block whose identity is in ids has been erased. */
  function Without(bs: seq<Block>, ids: set<BlockId>): seq<Block> {
    if bs == [] then []
    else (if bs[0].id in ids then [] else [bs[0]]) + Without(bs[1..], ids)
  }

  function Elems(s: seq<BlockId>): set<BlockId> {
    set x | x in s
  }

  lemma ElemsGrow(s: seq<BlockId>, i: nat)
    requires i < |s|
    ensures Elems(s[..i + 1]) == Elems(s[..i]) + {s[i]}
  {
    assert s[..i + 1] == s[..i] + [s[i]];
  }

  /**
   * The first loop of generate_function: collect the empty blocks without
   * predecessors, and raise Broken for a non-empty block without terminator.
   * Empty blocks with predecessors are only reported.
   */
  method ScanBlocks(blocks: seq<Block>) returns (toRemove: seq<BlockId>, broken: bool)
    ensures toRemove == RemovableIds(blocks)
    ensures broken <==> HasMissingTerminator(blocks)
  {
    toRemove, broken := [], false;
    var k := 0;
    while k < |blocks|
      invariant 0 <= k <= |blocks|
      invariant toRemove == RemovableIds(blocks[..k])
      invariant broken <==> exists i :: 0 <= i < k && MissingTerminator(blocks[i])
    {
      var b := blocks[k];
      assert blocks[..k + 1] == blocks[..k] + [b];
      RemovableIdsSnoc(blocks[..k], b);
      if |b.insts| == 0 {
        if b.preds == 0 {
          toRemove := toRemove + [b.id];
        }
      } else if !b.insts[|b.insts| - 1].isTerminator {
        broken := true;
      }
      k := k + 1;
    }
    assert blocks[..k] == blocks;
  }

  /** The backend function object: its block list, and whether its body was released. */
  class IRFunction {
    var blocks: seq<Block>
    var released: bool

    ghost predicate Valid()
      reads this
    {
      DistinctIds(blocks)
    }

    constructor (blocks: seq<Block>)
      requires DistinctIds(blocks)
      ensures Valid() && this.blocks == blocks && !released
    {
      this.blocks := blocks;
      released := false;
    }

    /** The second loop of generate_function: erase each collected block from the list. */
    method EraseBlocks(ids: seq<BlockId>)
      requires Valid()
      modifies this
      ensures Valid()
      ensures blocks == Without(old(blocks), Elems(ids))
      ensures released == old(released)
    {
      var i := 0;
      WithoutNothing(blocks);
      assert Elems(ids[..0]) == {};
      while i < |ids|
        invariant 0 <= i <= |ids|
        invariant Valid()
        invariant blocks == Without(old(blocks), Elems(ids[..i]))
        invariant released == old(released)
      {
        WithoutUnion(old(blocks), Elems(ids[..i]), {ids[i]});
        WithoutDistinct(blocks, {ids[i]});
        blocks := Without(blocks, {ids[i]});
        ElemsGrow(ids, i);
        i := i + 1;
      }
      assert ids[..i] == ids;
    }

    /**
     * The block cleanup of generate_function: scan, then erase the collected
     * blocks; the answer is the Broken flag.
     */
    method Cleanup() returns (broken: bool)
      requires Valid()
      modifies this
      ensures Valid()
      ensures blocks == Kept(old(blocks))
      ensures broken <==> HasMissingTerminator(old(blocks))
      ensures released == old(released)
    {
      var toRemove;
      toRemove, broken := ScanBlocks(blocks);
      EraseBlocks(toRemove);
      EraseRemovableLeavesKept(old(blocks));
    }

    /** dropAllReferences: the body is released, the block list stays. */
    method DropAllReferences()
      modifies this
      ensures released && blocks == old(blocks)
    {
      released := true;
    }
  }

  // ---------------------------------------------------------------------
  // Lemmas about the scan

  lemma {:induction false} RemovableIdsSnoc(bs: seq<Block>, b: Block)
    ensures RemovableIds(bs + [b]) == RemovableIds(bs) + (if Removable(b) then [b.id] else [])
  {
    if bs != [] {
      assert (bs + [b])[1..] == bs[1..] + [b];
      RemovableIdsSnoc(bs[1..], b);
    }
  }

  /** The to_remove vector names exactly the removable blocks. */
  lemma {:induction false} RemovableIdsMembers(bs: seq<Block>, x: BlockId)
    ensures x in RemovableIds(bs) <==> exists i :: 0 <= i < |bs| && bs[i].id == x && Removable(bs[i])
  {
    if bs != [] {
      RemovableIdsMembers(bs[1..], x);
      if x in RemovableIds(bs[1..]) {
        var i :| 0 <= i < |bs[1..]| && bs[1..][i].id == x && Removable(bs[1..][i]);
        assert bs[i + 1] == bs[1..][i];
      }
      if exists i :: 0 <= i < |bs| && bs[i].id == x && Removable(bs[i]) {
        var i :| 0 <= i < |bs| && bs[i].id == x && Removable(bs[i]);
        if i > 0 {
          assert bs[1..][i - 1] == bs[i];
        }
      }
    }
  }

  // ---------------------------------------------------------------------
  // Lemmas about erasing

  lemma {:induction false} WithoutMember(bs: seq<Block>, ids: set<BlockId>, b: Block)
    ensures b in Without(bs, ids) <==> b in bs && b.id !in ids
  {
    if bs != [] {
      WithoutMember(bs[1..], ids, b);
      assert bs == [bs[0]] + bs[1..];
    }
  }

  lemma {:induction false} WithoutUnion(bs: seq<Block>, a: set<BlockId>, b: set<BlockId>)
    ensures Without(Without(bs, a), b) == Without(bs, a + b)
  {
    if bs != [] {
      WithoutUnion(bs[1..], a, b);
      var x, rest := bs[0], Without(bs[1..], a);
      if x.id !in a {
        var w := [x] + rest;
        assert Without(bs, a) == w;
        assert w[0] == x && w[1..] == rest;
        assert Without(w, b) == (if x.id in b then [] else [x]) + Without(rest, b);
      } else {
        assert Without(bs, a) == rest;
      }
    }
  }

  lemma {:induction false} WithoutDistinct(bs: seq<Block>, ids: set<BlockId>)
    requires DistinctIds(bs)
    ensures DistinctIds(Without(bs, ids))
  {
    if bs != [] {
      var rest := Without(bs[1..], ids);
      WithoutDistinct(bs[1..], ids);
      if bs[0].id !in ids {
        var w := [bs[0]] + rest;
        forall i, j | 0 <= i < j < |w| ensures w[i].id != w[j].id {
          if i == 0 {
            WithoutMember(bs[1..], ids, w[j]);
            var k :| 0 <= k < |bs[1..]| && bs[1..][k] == w[j];
            assert bs[k + 1] == w[j];
          } else {
            assert w[i] == rest[i - 1] && w[j] == rest[j - 1];
          }
        }
      }
    }
  }

  lemma {:induction false} WithoutNothing(bs: seq<Block>)
    ensures Without(bs, {}) == bs
  {
    if bs != [] {
      WithoutNothing(bs[1..]);
      assert bs == [bs[0]] + bs[1..];
    }
  }

  lemma {:induction false} WithoutForeign(bs: seq<Block>, ids: set<BlockId>, y: BlockId)
    requires forall i :: 0 <= i < |bs| ==> bs[i].id != y
    ensures Without(bs, ids + {y}) == Without(bs, ids)
  {
    if bs != [] {
      WithoutForeign(bs[1..], ids, y);
    }
  }

  /** Erasing the collected blocks leaves exactly the blocks cleanup keeps. */
  lemma {:induction false} EraseRemovableLeavesKept(bs: seq<Block>)
    requires DistinctIds(bs)
    ensures Without(bs, Elems(RemovableIds(bs))) == Kept(bs)
  {
    if bs != [] {
      var x, rest := bs[0], bs[1..];
      assert DistinctIds(rest);
      EraseRemovableLeavesKept(rest);
      var r := RemovableIds(rest);
      var head := if Removable(x) then [x.id] else [];
      assert RemovableIds(bs) == head + r;
      assert Elems(head + r) == Elems(head) + Elems(r);
      forall i | 0 <= i < |rest| ensures rest[i].id != x.id {
        assert rest[i] == bs[i + 1];
      }
      WithoutForeign(rest, Elems(r), x.id);
      if !Removable(x) {
        RemovableIdsMembers(rest, x.id);
        assert Elems(RemovableIds(bs)) == Elems(r);
      } else {
        assert Elems(RemovableIds(bs)) == Elems(r) + {x.id};
      }
    }
  }

  // ---------------------------------------------------------------------
  // What cleanup keeps

  /** A block survives cleanup iff it was there and is not an unused empty block. */
  lemma {:induction false} KeptMembers(bs: seq<Block>, b: Block)
    ensures b in Kept(bs) <==> b in bs && !Removable(b)
  {
    if bs != [] {
      KeptMembers(bs[1..], b);
      assert bs == [bs[0]] + bs[1..];
    }
  }

  /** Cleanup keeps relative order: it works block by block. */
  lemma {:induction false} KeptConcat(a: seq<Block>, b: seq<Block>)
    ensures Kept(a + b) == Kept(a) + Kept(b)
  {
    if a != [] {
      assert (a + b)[1..] == a[1..] + b;
      KeptConcat(a[1..], b);
    } else {
      assert a + b == b;
    }
  }

  /** Every non-empty block is kept, in its original order. */
  lemma {:induction false} KeptNonEmpty(bs: seq<Block>)
    ensures NonEmpty(Kept(bs)) == NonEmpty(bs)
  {
    if bs != [] {
      KeptNonEmpty(bs[1..]);
      if !Removable(bs[0]) {
        var k := [bs[0]] + Kept(bs[1..]);
        assert k[0] == bs[0] && k[1..] == Kept(bs[1..]);
        assert NonEmpty(k) == (if IsEmpty(bs[0]) then [] else [bs[0]]) + NonEmpty(Kept(bs[1..]));
      } else {
        assert Kept(bs) == Kept(bs[1..]);
        assert NonEmpty(bs) == NonEmpty(bs[1..]);
      }
    }
  }

  /** Exactly the collected blocks disappear. */
  lemma {:induction false} KeptSize(bs: seq<Block>)
    ensures |Kept(bs)| + |RemovableIds(bs)| == |bs|
  {
    if bs != [] {
      KeptSize(bs[1..]);
    }
  }

  /** After cleanup no removable block remains, so a second cleanup does nothing. */
  lemma {:induction false} KeptIdempotent(bs: seq<Block>)
    ensures Kept(Kept(bs)) == Kept(bs)
    ensures RemovableIds(Kept(bs)) == []
  {
    if bs != [] {
      KeptIdempotent(bs[1..]);
      if !Removable(bs[0]) {
        var k := [bs[0]] + Kept(bs[1..]);
        assert k[0] == bs[0] && k[1..] == Kept(bs[1..]);
        assert Kept(k) == [bs[0]] + Kept(Kept(bs[1..]));
        assert RemovableIds(k) == RemovableIds(Kept(bs[1..]));
      } else {
        assert Kept(bs) == Kept(bs[1..]);
      }
    }
  }

  /** An empty block nobody jumps to can never affect what cleanup hands to the verifier. */
  lemma RemovableBlockIsInvisible(a: seq<Block>, b: Block, c: seq<Block>)
    requires Removable(b)
    ensures Kept(a + [b] + c) == Kept(a + c)
  {
    KeptConcat(a + [b], c);
    KeptConcat(a, [b]);
    KeptConcat(a, c);
    assert Kept([b]) == [];
  }

  lemma KeptDistinct(bs: seq<Block>)
    requires DistinctIds(bs)
    ensures DistinctIds(Kept(bs))
  {
    EraseRemovableLeavesKept(bs);
    WithoutDistinct(bs, Elems(RemovableIds(bs)));
  }

  /** Broken is decided alike before and after cleanup: no missing terminator is erased. */
  lemma BrokenSurvivesCleanup(bs: seq<Block>)
    ensures HasMissingTerminator(Kept(bs)) <==> HasMissingTerminator(bs)
  {
    if HasMissingTerminator(bs) {
      var i :| 0 <= i < |bs| && MissingTerminator(bs[i]);
      KeptMembers(bs, bs[i]);
      var j :| 0 <= j < |Kept(bs)| && Kept(bs)[j] == bs[i];
    }
    if HasMissingTerminator(Kept(bs)) {
      var j :| 0 <= j < |Kept(bs)| && MissingTerminator(Kept(bs)[j]);
      KeptMembers(bs, Kept(bs)[j]);
    }
  }

  /**
   * An empty block that has predecessors is only reported, so it survives
   * cleanup and the cleaned list is not well terminated.
   */
  lemma UsedEmptyBlockSurvives(bs: seq<Block>, i: nat)
    requires i < |bs| && IsEmpty(bs[i]) && bs[i].preds > 0
    ensures bs[i] in Kept(bs)
    ensures !WellTerminated(Kept(bs))
  {
    KeptMembers(bs, bs[i]);
    var j :| 0 <= j < |Kept(bs)| && Kept(bs)[j] == bs[i];
    assert !Terminated(Kept(bs)[j]);
  }

  /** A well-terminated list has no removable block and no missing terminator. */
  lemma WellTerminatedIsClean(bs: seq<Block>)
    requires WellTerminated(bs)
    ensures Kept(bs) == bs
    ensures !HasMissingTerminator(bs)
  {
    KeptAllWhenNoneRemovable(bs);
  }

  lemma {:induction false} KeptAllWhenNoneRemovable(bs: seq<Block>)
    requires forall i :: 0 <= i < |bs| ==> !Removable(bs[i])
    ensures Kept(bs) == bs
  {
    if bs != [] {
      KeptAllWhenNoneRemovable(bs[1..]);
      assert bs == [bs[0]] + bs[1..];
    }
  }
}
