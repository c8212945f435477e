/**
 The bump allocator of one task. Addresses are numbers; a block is what `posix_memalign` answers.
 Requests are rounded up to whole cache lines, in 32-bit arithmetic.
 */
module MemChunks {

  const LINE: nat := 64
  const WORD: nat := 0x1_0000_0000
  /** Blocks are sized by an `int`. */
  const MAX_BLOCK: nat := 0x7FFF_FFFF
  const MAX_REQUEST: nat := 0x7FFF_FFC0

  /** `index_increment`: the 32-bit mask also clears the upper half of a 64-bit size. */
  function Increment(size: nat): nat {
    (size % WORD - size % LINE + if size % LINE != 0 then LINE else 0) % WORD
  }

  /** The region reaches over the request for every size up to the last full line below 2^32, and for no other. */
  lemma IncrementCovers(size: nat)
    ensures Increment(size) % LINE == 0
    ensures Increment(size) >= size <==> size <= WORD - LINE
    ensures size <= WORD - LINE ==> Increment(size) < size + LINE
  {
  }

  datatype Region = Region(start: nat, size: nat) {
    predicate Apart(other: Region) {
      start + size <= other.start || other.start + other.size <= start
    }

    predicate Inside(other: Region) {
      other.start <= start && start + size <= other.start + other.size
    }
  }

  /** The memory of a block list that is in use: all of each block, but only the front of the last one. */
  function Used(blocks: seq<Region>, k: nat, free_index: nat): Region
    requires k < |blocks|
  {
    Region(blocks[k].start, if k == |blocks| - 1 then free_index else blocks[k].size)
  }

  ghost predicate AllApart(regions: seq<Region>) {
    forall i, j :: 0 <= i < j < |regions| ==> regions[i].Apart(regions[j])
  }

  ghost predicate AllAligned(regions: seq<Region>) {
    forall i :: 0 <= i < |regions| ==> regions[i].start % LINE == 0
  }

  lemma OneMoreAligned(regions: seq<Region>, start: nat, offset: nat, size: nat)
    requires AllAligned(regions) && start % LINE == 0 && offset % LINE == 0
    ensures (start + offset) % LINE == 0 && AllAligned(regions + [Region(start + offset, size)])
  {
  }

  ghost predicate PlacedIn(r: Region, blocks: seq<Region>, free_index: nat) {
    exists k :: 0 <= k < |blocks| && r.Inside(Used(blocks, k, free_index))
  }

  /** What is taken behind the used part of the last block overlaps nothing, and everything stays in its place. */
  lemma Behind(blocks: seq<Region>, free_index: nat, increment: nat, regions: seq<Region>)
    requires blocks != [] && AllApart(blocks) && AllApart(regions)
        && free_index + increment <= blocks[|blocks| - 1].size
    requires forall i :: 0 <= i < |regions| ==> PlacedIn(regions[i], blocks, free_index)
    ensures var r := Region(blocks[|blocks| - 1].start + free_index, increment);
            AllApart(regions + [r]) && forall i :: 0 <= i <= |regions| ==>
                PlacedIn((regions + [r])[i], blocks, free_index + increment)
  {
    var last := |blocks| - 1;
    var r := Region(blocks[last].start + free_index, increment);
    assert r.Inside(Used(blocks, last, free_index + increment));
    forall i | 0 <= i < |regions| ensures PlacedIn(regions[i], blocks, free_index + increment) && regions[i].Apart(r) {
      var k :| 0 <= k < |blocks| && regions[i].Inside(Used(blocks, k, free_index));
      assert regions[i].Inside(Used(blocks, k, free_index + increment));
      assert k < last ==> blocks[k].Apart(blocks[last]);
    }
  }

  class MemChunk {
    const dynamic_block_size: nat
    var allocations: int
    var dynamic_block_list: seq<Region>
    var number_of_blocks: nat
    var free_index: nat
    /** What has been handed out since the blocks were last released, and how often that has happened. */
    ghost var regions: seq<Region>
    ghost var releases: nat

    /** Regions handed out are aligned, lie within the blocks, and do not overlap. */
    ghost predicate Sound()
      reads this
    {
      && dynamic_block_size <= MAX_BLOCK && number_of_blocks == |dynamic_block_list| && free_index % LINE == 0
      && (dynamic_block_list == [] ==> free_index == 0 && regions == [])
      && (dynamic_block_list != [] ==> free_index <= dynamic_block_list[|dynamic_block_list| - 1].size)
      && (forall k :: 0 <= k < |dynamic_block_list| ==>
          dynamic_block_list[k].start % LINE == 0 && dynamic_block_size <= dynamic_block_list[k].size <= MAX_BLOCK)
      && AllApart(dynamic_block_list) && AllApart(regions) && AllAligned(regions)
      && forall i :: 0 <= i < |regions| ==> PlacedIn(regions[i], dynamic_block_list, free_index)
    }

    /** The free part of the last block begins where the last region ends. */
    ghost predicate Valid()
      reads this
    {
      && Sound() && (dynamic_block_list == [] <==> regions == [])
      && (regions != [] ==>
          var last := regions[|regions| - 1];
          last.start + last.size == dynamic_block_list[|dynamic_block_list| - 1].start + free_index)
    }

    constructor (dbsize: nat)
      requires dbsize <= MAX_BLOCK
      ensures Valid() && allocations == 0 && dynamic_block_list == [] && regions == [] && releases == 0
      ensures dynamic_block_size == dbsize
    {
      dynamic_block_size := dbsize;
      allocations, dynamic_block_list, number_of_blocks, free_index := 0, [], 0, 0;
      regions, releases := [], 0;
    }

    /** The request does not fit behind the last one. The sum is a 32-bit word. */
    predicate NeedsBlock(size: nat)
      reads this
    {
      number_of_blocks == 0 || (free_index + Increment(size)) % WORD >= dynamic_block_size
    }

    function NewBlock(size: nat, ptr: nat): Region {
      Region(ptr, if Increment(size) > dynamic_block_size then Increment(size) else dynamic_block_size)
    }

    /**
     A region of at least `size` bytes, on a cache line of its own: behind the last one, if the last block
     has more room than that, or else at the start of one new block. The number ptr stands for the
     answer of the system allocator if a block is needed: aligned, and away from the live blocks.
     */
    method GetAddress(size: nat, ptr: nat) returns (pointer: nat)
      requires Valid() && size <= MAX_REQUEST
      requires NeedsBlock(size) ==> ptr % LINE == 0 && forall k :: 0 <= k < |dynamic_block_list| ==>
          dynamic_block_list[k].Apart(NewBlock(size, ptr))
      modifies this
      ensures Valid() && allocations == old(allocations) && releases == old(releases)
      ensures pointer % LINE == 0 && Increment(size) >= size
          && regions == old(regions) + [Region(pointer, Increment(size))]
      ensures old(regions) != [] && old(free_index) + Increment(size) < dynamic_block_size ==>
          var last := old(regions)[|old(regions)| - 1];
          dynamic_block_list == old(dynamic_block_list) && pointer == last.start + last.size
      ensures old(regions) == [] || old(free_index) + Increment(size) >= dynamic_block_size ==>
          && |dynamic_block_list| == |old(dynamic_block_list)| + 1 && old(dynamic_block_list) <= dynamic_block_list
          && var block := dynamic_block_list[|old(dynamic_block_list)|];
          && pointer == block.start == ptr && block.size >= Increment(size) && block.size >= dynamic_block_size
          && (block.size == Increment(size) || block.size == dynamic_block_size)
    {
      hide AllApart, AllAligned, PlacedIn;
      IncrementCovers(size);
      NoWrap(size);
      var index_increment := Increment(size);
      if NeedsBlock(size) {
        StartBlock(NewBlock(size, ptr));
      }
      pointer := Take(index_increment);
    }

    /** The 32-bit sum does not wrap around: neither a block nor a request reaches 2^31 bytes. */
    lemma NoWrap(size: nat)
      requires Sound() && size <= MAX_REQUEST
      ensures NeedsBlock(size) <==> dynamic_block_list == [] || free_index + Increment(size) >= dynamic_block_size
    {
      hide AllApart, AllAligned, PlacedIn;
    }

    method StartBlock(block: Region)
      requires Sound() && block.start % LINE == 0 && dynamic_block_size <= block.size <= MAX_BLOCK
      requires forall k :: 0 <= k < |dynamic_block_list| ==> dynamic_block_list[k].Apart(block)
      modifies this`dynamic_block_list, this`number_of_blocks, this`free_index
      ensures Sound() && dynamic_block_list == old(dynamic_block_list) + [block] && free_index == 0
    {
      hide AllAligned;
      ghost var was := dynamic_block_list;
      ghost var index := free_index;
      dynamic_block_list := dynamic_block_list + [block];
      number_of_blocks := number_of_blocks + 1;
      free_index := 0;
      forall i | 0 <= i < |regions| ensures PlacedIn(regions[i], dynamic_block_list, free_index) {
        var k :| 0 <= k < |was| && regions[i].Inside(Used(was, k, index));
        assert regions[i].Inside(Used(dynamic_block_list, k, free_index));
      }
    }

    method Take(increment: nat) returns (pointer: nat)
      requires Sound() && increment % LINE == 0 && dynamic_block_list != []
      requires free_index + increment <= dynamic_block_list[|dynamic_block_list| - 1].size
      modifies this`free_index, this`regions
      ensures Valid() && pointer % LINE == 0
      ensures pointer == dynamic_block_list[|dynamic_block_list| - 1].start + old(free_index)
      ensures regions == old(regions) + [Region(pointer, increment)]
    {
      hide AllApart, AllAligned, PlacedIn, Used;
      pointer := dynamic_block_list[|dynamic_block_list| - 1].start + free_index;
      Behind(dynamic_block_list, free_index, increment, regions);
      OneMoreAligned(regions, dynamic_block_list[|dynamic_block_list| - 1].start, free_index, increment);
      OneMoreAligned([], free_index, increment, 0);
      free_index := free_index + increment;
      regions := regions + [Region(pointer, increment)];
    }

    method IncrementAllocations()
      requires Valid()
      modifies this`allocations
      ensures Valid() && allocations == old(allocations) + 1
    {
      allocations := allocations + 1;
    }

    /** The last set gives all blocks back. */
    method DecrementAllocations()
      requires Valid()
      modifies this
      ensures Valid() && allocations == old(allocations) - 1
      ensures if allocations == 0 then dynamic_block_list == [] && regions == [] && releases == old(releases) + 1
              else dynamic_block_list == old(dynamic_block_list) && regions == old(regions) && releases == old(releases)
    {
      allocations := allocations - 1;
      if allocations == 0 {
        DeleteDynamicBlocks();
      }
    }

    method DeleteDynamicBlocks()
      requires Valid()
      modifies this`dynamic_block_list, this`number_of_blocks, this`free_index, this`regions, this`releases
      ensures Valid() && dynamic_block_list == [] && regions == [] && releases == old(releases) + 1
    {
      dynamic_block_list, number_of_blocks, free_index := [], 0, 0;
      regions, releases := [], releases + 1;
    }
  }
}
