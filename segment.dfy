/** One FEC segment of a splitfile and its reinsertion status (keepalive.model.Segment). */
module SegmentModel {
  import opened Wrappers
  import opened BlockModel
  import opened FetchBlocksResultModel

  /** The (segment id, success, failed) triple a segment hands to `Reinserter.updateBlockStatistic`. */
  datatype BlockStatistic = BlockStatistic(segmentId: int, success: int, failed: int)

  class Segment {
    const id: int
    const size: nat
    /** The block slots; null once the segment has finished. */
    var blocks: array?<Block?>
    var dataBlocksCount: int
    var success: int
    var failed: int
    var persistenceCheckOk: bool
    var healingNotPossible: bool

    /** The array has one slot per block and slot i holds the block whose id is i. */
    ghost predicate Valid()
      reads this, blocks
    {
      blocks != null ==>
        blocks.Length == size &&
        forall i :: 0 <= i < blocks.Length && blocks[i] != null ==> blocks[i].id == i
    }

    /** The blocks currently held. */
    ghost function Blocks(): set<Block>
      reads this, blocks
    {
      if blocks == null then {} else set i | 0 <= i < blocks.Length && blocks[i] != null :: blocks[i]
    }

    constructor (id: int, size: nat)
      ensures this.id == id && this.size == size
      ensures blocks != null && fresh(blocks) && blocks.Length == size
      ensures forall i :: 0 <= i < size ==> blocks[i] == null
      ensures dataBlocksCount == 0 && success == 0 && failed == 0
      ensures !persistenceCheckOk && !healingNotPossible
      ensures Valid()
    {
      this.id := id;
      this.size := size;
      blocks := new Block?[size](_ => null);
      dataBlocksCount := 0;
      success := 0;
      failed := 0;
      persistenceCheckOk := false;
      healingNotPossible := false;
    }

    /**
     * Stores a block in the slot named by its id. An id above `size` is refused; an id equal
     * to `size` passes that guard and then fails on the array, as does a negative id.
     */
    method AddBlock(block: Block) returns (r: Result<bool>)
      requires blocks != null && Valid()
      modifies blocks, this`dataBlocksCount
      ensures Valid()
      ensures block.id > size ==> r == Ok(false)
      ensures (block.id < 0 || block.id == size) ==> r == Err(INDEX_OUT_OF_BOUNDS)
      ensures r.Ok? <==> block.id > size || 0 <= block.id < size
      ensures !(0 <= block.id < size) ==>
        blocks[..] == old(blocks[..]) && dataBlocksCount == old(dataBlocksCount)
      ensures 0 <= block.id < size ==>
        r == Ok(true) && blocks[..] == old(blocks[..])[block.id := block] &&
        dataBlocksCount == old(dataBlocksCount) + (if block.dataBlock then 1 else 0)
    {
      if block.id > size {
        return Ok(false);
      }
      if block.id < 0 || block.id == size {
        return Err(INDEX_OUT_OF_BOUNDS);
      }
      blocks[block.id] := block;
      if block.dataBlock {
        dataBlocksCount := dataBlocksCount + 1;
      }
      return Ok(true);
    }

    function DataSize(): int
      reads this
    {
      dataBlocksCount
    }

    /** The data and the check blocks together make up the segment. */
    function CheckSize(): (n: int)
      reads this
      ensures DataSize() + n == size
    {
      size - dataBlocksCount
    }

    /** `getDataBlock(i)`: data blocks occupy the first `dataSize()` slots. */
    function GetDataBlock(i: int): (b: Block?)
      requires blocks != null && 0 <= i < blocks.Length
      reads this, blocks
    {
      blocks[i]
    }

    /** `getCheckBlock(i)`: check block i sits right after the data blocks. */
    function GetCheckBlock(i: int): (b: Block?)
      requires blocks != null && 0 <= DataSize() + i < blocks.Length
      reads this, blocks
    {
      blocks[DataSize() + i]
    }

    /** Every slot is either data block k or check block k - dataSize(). */
    lemma SlotsAreDataThenCheck(k: int)
      requires blocks != null && Valid() && 0 <= DataSize() <= size && 0 <= k < size
      ensures k < DataSize() ==> GetDataBlock(k) == blocks[k]
      ensures k >= DataSize() ==> 0 <= k - DataSize() < CheckSize() && GetCheckBlock(k - DataSize()) == blocks[k]
    {
    }

    /** Starts the insert phase: both counters go back to 0. */
    method InitInsert()
      modifies this`success, this`failed
      ensures success == 0 && failed == 0
    {
      success := 0;
      failed := 0;
    }

    /**
     * Accepts the segment on its persistence rate: `success` is the rounded share of the
     * segment, `failed` the rest, and the pair is handed on as a statistic.
     */
    method RegFetchRate(rate: Rate) returns (stat: BlockStatistic)
      modifies this`persistenceCheckOk, this`success, this`failed
      ensures persistenceCheckOk
      ensures success == RoundedShare(rate, size) && failed == size - success
      ensures 0 <= success <= size && success + failed == size
      ensures stat == BlockStatistic(id, success, failed)
    {
      persistenceCheckOk := true;
      success := RoundedShare(rate, size);
      failed := size - success;
      stat := BlockStatistic(id, success, failed);
    }

    /** Counts one block outcome: exactly one counter goes up by one. */
    method RegFetchOutcome(ok: bool) returns (stat: BlockStatistic)
      modifies this`success, this`failed
      ensures ok ==> success == old(success) + 1 && failed == old(failed)
      ensures !ok ==> failed == old(failed) + 1 && success == old(success)
      ensures stat == BlockStatistic(id, success, failed)
    {
      if ok {
        success := success + 1;
      } else {
        failed := failed + 1;
      }
      stat := BlockStatistic(id, success, failed);
    }

    method SetHealingNotPossible(notPossible: bool)
      modifies this`healingNotPossible
      ensures healingNotPossible == notPossible
    {
      healingNotPossible := notPossible;
    }

    /** Every block held is fetched or inserted. */
    ghost predicate AllBlocksSettled()
      reads this, blocks, Blocks()
      requires blocks != null
    {
      forall i :: 0 <= i < blocks.Length && blocks[i] != null ==>
        blocks[i].fetchSuccessful || blocks[i].insertDone
    }

    /**
     * The answer `isFinished()` gives in the current state: a segment without blocks is
     * finished; an accepted or unhealable one is finished; a single-block segment is finished
     * once its block is inserted (its slot must be filled); a larger one once every block it
     * holds is fetched or inserted.
     */
    ghost function FinishedNow(): Result<bool>
      reads this, blocks, Blocks()
    {
      if blocks == null || persistenceCheckOk || healingNotPossible then Ok(true)
      else if size == 1 then
        if blocks.Length == 0 || blocks[0] == null then Err(NULL_POINTER) else Ok(blocks[0].insertDone)
      else Ok(AllBlocksSettled())
    }

    /**
     * `isFinished()`. On its first true answer every held bucket is freed and the array is
     * dropped, so every later call answers true; otherwise nothing changes.
     */
    method IsFinished() returns (r: Result<bool>)
      requires Valid()
      modifies this`blocks, Blocks()`bucket
      ensures r == old(FinishedNow())
      ensures Valid()
      ensures r == Ok(true) ==> blocks == null
      ensures r == Ok(true) ==> forall b :: b in old(Blocks()) ==> b.bucket == Freed(old(b.bucket))
      ensures r != Ok(true) ==> blocks == old(blocks)
      ensures r != Ok(true) ==> forall b :: b in old(Blocks()) ==> b.bucket == old(b.bucket)
    {
      if blocks == null {
        return Ok(true);
      }
      var finished := true;
      if !persistenceCheckOk && !healingNotPossible {
        if size == 1 {
          var b := blocks[0];
          if b == null {
            return Err(NULL_POINTER);
          }
          finished := b.insertDone;
        } else {
          var i := 0;
          while i < blocks.Length && finished
            invariant 0 <= i <= blocks.Length
            invariant finished <==> forall k :: 0 <= k < i && blocks[k] != null ==>
              blocks[k].fetchSuccessful || blocks[k].insertDone
            invariant !finished ==> !AllBlocksSettled()
          {
            var b := blocks[i];
            if b != null && !b.fetchSuccessful && !b.insertDone {
              finished := false;
            }
            i := i + 1;
          }
        }
      }
      if finished {
        FreeAll();
        blocks := null;
      }
      return Ok(finished);
    }

    /** Frees the bucket of every block held. */
    method FreeAll()
      requires blocks != null && Valid()
      modifies Blocks()`bucket
      ensures forall b :: b in old(Blocks()) ==> b.bucket == Freed(old(b.bucket))
    {
      var i := 0;
      while i < blocks.Length
        invariant 0 <= i <= blocks.Length
        invariant forall k :: 0 <= k < i && blocks[k] != null ==> blocks[k].bucket == Freed(old(blocks[k].bucket))
        invariant forall k :: i <= k < blocks.Length && blocks[k] != null ==> blocks[k].bucket == old(blocks[k].bucket)
      {
        var b := blocks[i];
        if b != null && b.bucket.Some? {
          b.FreeBucket();
        }
        i := i + 1;
      }
    }
  }
}
