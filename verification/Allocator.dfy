/** The block allocator of the memory manager: sixteen megabytes handed out in
    32 blocks of 512 KB, with one bit of a 32-bit word for each block. Addresses
    are 32-bit words too, and their arithmetic wraps around. */
module Allocator {
  import opened Bits

  const WRAP: nat := 0x1_0000_0000
  const BLOCK: nat := 0x8_0000
  const BLOCKS: nat := 32
  const POOL: nat := 0x100_0000

  type Word = x: int | 0 <= x < WRAP

  lemma WordsHave32Bits()
    ensures OneBit(BLOCKS) == WRAP
  {
    assert OneBit(8) == 0x100;
    assert OneBit(16) == 0x1_0000;
    assert OneBit(24) == 0x100_0000;
  }

  // ---- The map of used blocks

  function Mark(used: Word, i: nat): (w: Word)
    requires i < BLOCKS
    ensures forall j: nat :: Bit(w, j) <==> Bit(used, j) || i == j
  {
    WordsHave32Bits();
    OneBitGrows(i, BLOCKS);
    OrFits(used, OneBit(i), BLOCKS);
    forall j: nat ensures Bit(Or(used, OneBit(i)), j) <==> Bit(used, j) || i == j {
      BitOfOr(used, OneBit(i), j);
      BitOfOneBit(i, j);
    }
    Or(used, OneBit(i))
  }

  function Clear(used: Word, i: nat): (w: Word)
    requires i < BLOCKS
    ensures forall j: nat :: j < BLOCKS ==> (Bit(w, j) <==> Bit(used, j) && i != j)
  {
    WordsHave32Bits();
    OneBitGrows(i, BLOCKS);
    var mask := Not(OneBit(i), BLOCKS);
    AndFits(used, mask);
    forall j: nat | j < BLOCKS ensures Bit(And(used, mask), j) <==> Bit(used, j) && i != j {
      BitOfAnd(used, mask, j);
      BitOfNot(OneBit(i), BLOCKS, j);
      BitOfOneBit(i, j);
    }
    And(used, mask)
  }

  /** The lowest free block from `i` on, or 32. */
  function FirstFree(used: Word, i: nat): (k: nat)
    requires i <= BLOCKS
    ensures i <= k <= BLOCKS && (k < BLOCKS ==> !Bit(used, k))
    ensures forall j: nat :: i <= j < k ==> Bit(used, j)
    decreases BLOCKS - i
  {
    if i == BLOCKS || !Bit(used, i) then i else FirstFree(used, i + 1)
  }

  // ---- Addresses

  function Address(start: Word, i: nat): Word {
    (start + i * BLOCK) % WRAP
  }

  function BlockAt(start: Word, address: Word): nat {
    (address - start) % WRAP / BLOCK
  }

  /** Every byte of a block leads back to the block. */
  lemma BlockAtByte(start: Word, i: nat, x: nat)
    requires i < BLOCKS && x < BLOCK
    ensures BlockAt(start, (Address(start, i) + x) % WRAP) == i
  {
    var offset := i * BLOCK + x;
    assert (Address(start, i) + x) % WRAP == (start + offset) % WRAP;
    assert ((start + offset) % WRAP - start) % WRAP == offset;
  }

  lemma BlockAtAddress(start: Word, i: nat)
    requires i < BLOCKS
    ensures BlockAt(start, Address(start, i)) == i
  {
    BlockAtByte(start, i, 0);
  }

  /** No byte belongs to two blocks. */
  lemma BlocksAreDisjoint(start: Word, i: nat, j: nat, x: nat, y: nat)
    requires i < BLOCKS && j < BLOCKS && i != j && x < BLOCK && y < BLOCK
    ensures (Address(start, i) + x) % WRAP != (Address(start, j) + y) % WRAP
  {
    BlockAtByte(start, i, x);
    BlockAtByte(start, j, y);
  }

  // ---- The calls

  class Memory {
    var used: Word
    var start: Word

    /** `mm_init`: the pool is the last sixteen megabytes. */
    constructor (size: Word)
      ensures used == 0 && start == PoolStart(size)
    {
      used := 0;
      start := (size - POOL) % WRAP;
    }

    /** `find_free_area` */
    method FindFreeArea() returns (i: int)
      modifies this`used
      ensures var k := FirstFree(old(used), 0);
        if k == BLOCKS then i == -1 && used == old(used) else i == k && used == Mark(old(used), k)
    {
      i := 0;
      while i < BLOCKS
        invariant 0 <= i <= BLOCKS && used == old(used) && FirstFree(used, 0) == FirstFree(used, i)
      {
        if !Bit(used, i) {
          used := Mark(used, i);
          return;
        }
        i := i + 1;
      }
      i := -1;
    }

    /** `alloc_mem` */
    method AllocMem() returns (address: Word)
      modifies this`used
      ensures used == UsedAfterAlloc(old(used)) && address == Allocated(old(used), start)
    {
      var i := FindFreeArea();
      if i == -1 {
        address := 0;
      } else {
        address := (start + i * BLOCK) % WRAP;
      }
    }

    /** `free_mem` */
    method FreeMem(address: Word)
      requires address == 0 || BlockAt(start, address) < BLOCKS
      modifies this`used
      ensures used == UsedAfterFree(old(used), start, address)
    {
      if address == 0 {
        return;
      }
      used := Clear(used, (address - start) % WRAP / BLOCK);
    }
  }

  function UsedAfterAlloc(used: Word): Word {
    var k := FirstFree(used, 0);
    if k == BLOCKS then used else Mark(used, k)
  }

  function Allocated(used: Word, start: Word): Word {
    var k := FirstFree(used, 0);
    if k == BLOCKS then 0 else Address(start, k)
  }

  function UsedAfterFree(used: Word, start: Word, address: Word): Word
    requires address == 0 || BlockAt(start, address) < BLOCKS
  {
    if address == 0 then used else Clear(used, BlockAt(start, address))
  }

  /** Freeing what was just allocated restores the map. */
  lemma FreeUndoesAlloc(used: Word, start: Word)
    requires Allocated(used, start) != 0
    ensures BlockAt(start, Allocated(used, start)) < BLOCKS
    ensures UsedAfterFree(UsedAfterAlloc(used), start, Allocated(used, start)) == used
  {
    var k := FirstFree(used, 0);
    BlockAtAddress(start, k);
    WordsHave32Bits();
    BitsDecide(Clear(Mark(used, k), k), used, BLOCKS);
  }

  // ---- Histories

  datatype Step = Alloc | Free(address: Word)

  /** The map, and the addresses that callers were given and have not given back. */
  datatype Pool = Pool(used: Word, held: set<Word>)

  function After(p: Pool, start: Word, step: Step): Pool
    requires step.Free? ==> step.address == 0 || BlockAt(start, step.address) < BLOCKS
  {
    match step
    case Alloc =>
      var address := Allocated(p.used, start);
      Pool(UsedAfterAlloc(p.used), if address == 0 then p.held else p.held + {address})
    case Free(address) => Pool(UsedAfterFree(p.used, start, address), p.held - {address})
  }

  /** A history that starts with an empty map and frees only what is held. */
  ghost predicate History(ps: seq<Pool>, steps: seq<Step>, start: Word) {
    && |ps| == |steps| + 1 && ps[0] == Pool(0, {})
    && forall i :: 0 <= i < |steps| ==> Happens(ps[i], ps[i + 1], start, steps[i])
  }

  ghost predicate Happens(p: Pool, q: Pool, start: Word, step: Step) {
    && (step.Free? ==> step.address == 0 || (step.address in p.held && BlockAt(start, step.address) < BLOCKS))
    && q == After(p, start, step)
  }

  /** What is held are the addresses of the used blocks; only a block that lies at
      address 0 is used without being held. */
  ghost predicate MapIsHeld(p: Pool, start: Word) {
    && 0 !in p.held
    && (forall a :: a in p.held ==> BlockAt(start, a) < BLOCKS && a == Address(start, BlockAt(start, a)))
    && forall i: nat :: i < BLOCKS ==>
         (Bit(p.used, i) && Address(start, i) != 0 <==> Address(start, i) in p.held)
  }

  lemma StepKeepsMap(p: Pool, q: Pool, start: Word, step: Step)
    requires MapIsHeld(p, start) && Happens(p, q, start, step)
    ensures MapIsHeld(q, start)
  {
    forall i: nat | i < BLOCKS ensures BlockAt(start, Address(start, i)) == i {
      BlockAtAddress(start, i);
    }
  }

  /** In every state of every history the bits are the held blocks. */
  lemma {:induction false} HistoryKeepsMap(ps: seq<Pool>, steps: seq<Step>, start: Word, n: nat)
    requires History(ps, steps, start) && n < |ps|
    ensures MapIsHeld(ps[n], start)
  {
    if n == 0 {
      forall i: nat | i < BLOCKS ensures !Bit(0, i) {
        ZeroHasNoBit(i);
      }
    } else {
      HistoryKeepsMap(ps, steps, start, n - 1);
      StepKeepsMap(ps[n - 1], ps[n], start, steps[n - 1]);
    }
  }

  /** Exactly the first `n` blocks are used. */
  ghost predicate FirstUsed(used: Word, n: nat) {
    forall i: nat :: i < BLOCKS ==> (Bit(used, i) <==> i < n)
  }

  lemma {:induction false} NextIsFree(used: Word, i: nat, n: nat)
    requires FirstUsed(used, n) && i <= n <= BLOCKS
    ensures FirstFree(used, i) == n
    decreases n - i
  {
    if i < n {
      NextIsFree(used, i + 1, n);
    }
  }

  lemma {:induction false} AllocsUseFirst(ps: seq<Pool>, steps: seq<Step>, start: Word, n: nat)
    requires History(ps, steps, start) && n <= |steps| && n <= BLOCKS && forall i :: 0 <= i < n ==> steps[i] == Alloc
    ensures FirstUsed(ps[n].used, n)
  {
    if n == 0 {
      forall i: nat | i < BLOCKS ensures !Bit(0, i) {
        ZeroHasNoBit(i);
      }
    } else {
      AllocsUseFirst(ps, steps, start, n - 1);
      NextIsFree(ps[n - 1].used, 0, n - 1);
      assert Happens(ps[n - 1], ps[n], start, steps[n - 1]);
      assert ps[n].used == Mark(ps[n - 1].used, n - 1);
    }
  }

  /** From an empty map the blocks are handed out one behind the other, 512 KB
      each, from sixteen megabytes below the end of memory on; then 0 is answered. */
  lemma AllocsInOrder(ps: seq<Pool>, steps: seq<Step>, size: Word, n: nat)
    requires History(ps, steps, PoolStart(size)) && n <= |steps| && n <= 32
    requires forall i :: 0 <= i < n ==> steps[i] == Alloc
    ensures Allocated(ps[n].used, PoolStart(size))
         == if n == 32 then 0 else (size - 0x100_0000 + n * 0x8_0000) % 0x1_0000_0000
  {
    AllocsUseFirst(ps, steps, PoolStart(size), n);
    NextIsFree(ps[n].used, 0, n);
  }

  /** An allocation hands out a block no byte of which is held, or it answers 0. */
  lemma AllocIsFresh(p: Pool, start: Word, a: Word, x: nat, y: nat)
    requires MapIsHeld(p, start) && a in p.held && x < BLOCK && y < BLOCK
    ensures var b := Allocated(p.used, start); b == 0 || (a + x) % WRAP != (b + y) % WRAP
  {
    var k := FirstFree(p.used, 0);
    if k < BLOCKS {
      BlocksAreDisjoint(start, BlockAt(start, a), k, x, y);
    }
  }

  // ---- When the answer 0 means that the pool is full

  ghost predicate NoBlockAtZero(start: Word) {
    forall i: nat {:trigger Address(start, i)} :: i < BLOCKS ==> Address(start, i) != 0
  }

  function PoolStart(size: Word): Word {
    (size - POOL) % WRAP
  }

  lemma ZeroBlock(size: Word)
    ensures NoBlockAtZero(PoolStart(size)) <==> size == 0 || size > POOL || size % BLOCK != 0
  {
    if 0 < size <= POOL && size % BLOCK == 0 {
      assert Address(PoolStart(size), BLOCKS - size / BLOCK) == 0;
    }
  }

  /** The map in which exactly the first `i` blocks are used. */
  lemma {:induction false} FirstBlocksUsed(i: nat)
    requires i < BLOCKS
    ensures OneBit(i) - 1 < WRAP && FirstFree(OneBit(i) - 1, 0) == i
  {
    WordsHave32Bits();
    OneBitGrows(i, BLOCKS);
    var w := OneBit(i) - 1;
    NoBitAbove(w, i);
    forall j: nat | j < i ensures Bit(w, j) {
      BitOfNot(0, i, j);
      ZeroHasNoBit(j);
    }
  }

  /** The answer 0 tells a full pool, whatever the map, exactly on machines whose
      pool has no block at address 0: not on one with sixteen megabytes or with a
      smaller multiple of a block. */
  lemma ZeroMeansFull(size: Word)
    ensures (size == 0 || size > POOL || size % BLOCK != 0)
       <==> forall used: Word :: Allocated(used, PoolStart(size)) == 0 ==> FirstFree(used, 0) == BLOCKS
  {
    var start := PoolStart(size);
    ZeroBlock(size);
    if NoBlockAtZero(start) {
      forall used: Word | FirstFree(used, 0) < BLOCKS ensures Allocated(used, start) != 0 {
        assert Address(start, FirstFree(used, 0)) != 0;
      }
    } else {
      var i: nat :| i < BLOCKS && Address(start, i) == 0;
      FirstBlocksUsed(i);
      assert Allocated(OneBit(i) - 1, start) == 0;
    }
  }

  /** Over every history on such a machine, 0 is answered exactly when callers
      hold all 32 blocks. */
  lemma FullPoolAnswersZero(ps: seq<Pool>, steps: seq<Step>, size: Word, n: nat)
    requires History(ps, steps, PoolStart(size)) && n < |ps|
    requires size == 0 || size > POOL || size % BLOCK != 0
    ensures Allocated(ps[n].used, PoolStart(size)) == 0
       <==> forall i: nat :: i < BLOCKS ==> Address(PoolStart(size), i) in ps[n].held
  {
    var start, p := PoolStart(size), ps[n];
    HistoryKeepsMap(ps, steps, start, n);
    ZeroBlock(size);
    var k := FirstFree(p.used, 0);
    if k < BLOCKS {
      assert Address(start, k) !in p.held;
    }
  }

  ghost predicate InMemory(start: Word, size: Word) {
    forall i: nat {:trigger Address(start, i)} :: i < BLOCKS ==>
      start <= Address(start, i) && Address(start, i) + BLOCK <= size
  }

  /** No block wraps around or leaves the memory exactly on machines with sixteen
      megabytes or more. */
  lemma BlocksLieInMemory(size: Word)
    ensures InMemory(PoolStart(size), size) <==> size >= POOL
  {
    if size >= POOL {
      assert PoolStart(size) == size - POOL;
    } else {
      assert Address(PoolStart(size), 0) == PoolStart(size) > size;
    }
  }
}
