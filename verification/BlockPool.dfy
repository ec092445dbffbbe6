// The allocator of equal-sized blocks that the memory master runs over the shared memory.
//
// The free ring holds the indices of the free blocks, oldest first, in BlockNum + 1 slots.
module BlockPool {
  import opened Arith
  import opened Counting
  import opened Ring

  const WORD64: nat := 0x1_0000_0000_0000_0000
  const WORD32: nat := 0x1_0000_0000

  function AddressOf(storage: nat, blockSize: nat, index: nat): nat {
    (storage + blockSize * index) % WORD64
  }

  function IndexOf(storage: nat, blockSize: nat, address: nat): nat
    requires blockSize > 0
  {
    (address - storage) % WORD64 / blockSize
  }

  // What PoolFree leaves in the ring.  It never looks whether the ring is full: one index too many
  // makes put meet get, and the ring reads as empty.
  function AfterFree(free: seq<nat>, blockNum: nat, index: nat): seq<nat> {
    if |free| < blockNum then free + [index] else []
  }

  // The offset of block i while the pool is initialised: a product of two 32-bit numbers.
  function InitIndex(blockSize: nat, i: nat): nat
    requires blockSize > 0
  {
    blockSize * i % WORD32 / blockSize
  }

  function InitialFree(blockNum: nat, blockSize: nat): (s: seq<nat>)
    requires blockSize > 0
    ensures |s| == blockNum && forall i :: 0 <= i < blockNum ==> s[i] == InitIndex(blockSize, i)
  {
    if blockNum == 0 then [] else InitialFree(blockNum - 1, blockSize) + [InitIndex(blockSize, blockNum - 1)]
  }

  // POOL
  class Pool {
    const StoragePtr: nat
    const BlockNum: nat
    const BlockSize: nat
    const FreePtr: array<nat>
    var FreePut: nat
    var FreeGet: nat

    ghost predicate Valid()
      reads this, FreePtr
    {
      BlockSize > 0 && FreePtr.Length == BlockNum + 1 && FreePut <= BlockNum && FreeGet <= BlockNum
    }

    // Indices of the free blocks in the order they will be handed out.
    ghost function Free(): (s: seq<nat>)
      requires Valid()
      reads this, FreePtr
    {
      Items(FreePtr[..], FreeGet, FreePut)
    }

    // PoolInit
    constructor (storage: nat, blockNum: nat, blockSize: nat)
      requires blockSize > 0 && storage < WORD64 && blockNum < WORD32 && blockSize < WORD32
      ensures Valid() && Free() == InitialFree(blockNum, blockSize) && fresh(FreePtr)
      ensures StoragePtr == storage && BlockNum == blockNum && BlockSize == blockSize
    {
      StoragePtr, BlockNum, BlockSize := storage, blockNum, blockSize;
      FreePtr := new nat[blockNum + 1](_ => 0);
      FreePut, FreeGet := 0, 0;
      new;
      var i := 0;
      while i < blockNum
        invariant Valid() && i <= blockNum
        invariant Free() == InitialFree(i, blockSize)
      {
        OffsetIndex(storage, blockSize, blockSize * i % WORD32);
        PutBack((storage + blockSize * i % WORD32) % WORD64);
        i := i + 1;
      }
    }

    // PoolAlloc; 0 stands for NULL.
    method Alloc() returns (p: nat)
      requires Valid()
      modifies this`FreeGet
      ensures Valid()
      ensures old(Free()) == [] ==> p == 0 && Free() == []
      ensures old(Free()) != [] ==>
        && p == AddressOf(StoragePtr, BlockSize, old(Free())[0])
        && Free() == old(Free())[1..]
    {
      LevelIsCount(FreePtr[..], FreeGet, FreePut);
      if FreeGet == FreePut {
        return 0;
      }
      PopItems(FreePtr[..], FreeGet, FreePut);
      var nIndex := FreePtr[FreeGet];
      FreeGet := FreeGet + 1;
      if FreeGet >= BlockNum + 1 {
        FreeGet := 0;
      }
      p := (StoragePtr + BlockSize * nIndex) % WORD64;
    }

    // PoolFree
    method PutBack(pBlock: nat)
      requires Valid()
      modifies this`FreePut, FreePtr
      ensures Valid() && Free() == AfterFree(old(Free()), BlockNum, IndexOf(StoragePtr, BlockSize, pBlock))
    {
      LevelIsCount(FreePtr[..], FreeGet, FreePut);
      var index := (pBlock - StoragePtr) % WORD64 / BlockSize;
      if Next(FreePut, BlockNum + 1) != FreeGet {
        PushItems(FreePtr[..], FreeGet, FreePut, index);
      }
      FreePtr[FreePut] := index;
      assert FreePtr[..] == old(FreePtr[..])[old(FreePut) := index];
      FreePut := FreePut + 1;
      if FreePut >= BlockNum + 1 {
        FreePut := 0;
      }
    }

    // PoolGetFreeNum
    method GetFreeNum() returns (nCount: nat)
      requires Valid()
      ensures nCount == |Free()|
    {
      LevelIsCount(FreePtr[..], FreeGet, FreePut);
      if FreePut >= FreeGet {
        nCount := FreePut - FreeGet;
      } else {
        nCount := BlockNum + 1 - (FreeGet - FreePut);
      }
    }
  }

  // ---- Addresses and indices ----

  lemma OffsetIndex(storage: nat, blockSize: nat, offset: nat)
    requires blockSize > 0 && storage < WORD64 && offset < WORD64
    ensures IndexOf(storage, blockSize, (storage + offset) % WORD64) == offset / blockSize
  {
    var a := (storage + offset) % WORD64;
    assert a == if storage + offset < WORD64 then storage + offset else storage + offset - WORD64;
    assert (a - storage) % WORD64 == offset;
  }

  lemma SmallSum(storage: nat, start: nat, inside: nat)
    requires storage + start + inside < WORD64
    ensures (storage + start) % WORD64 == storage + start
    ensures (storage + (start + inside)) % WORD64 == storage + start + inside
  {
  }

  // Any address within block `index` frees that block; the address handed out for an index is one.
  lemma AddressRoundTrip(storage: nat, blockSize: nat, blockNum: nat, index: nat, inside: nat)
    requires inside < blockSize && index < blockNum && storage + blockSize * blockNum <= WORD64
    ensures AddressOf(storage, blockSize, index) == storage + blockSize * index
    ensures IndexOf(storage, blockSize, storage + blockSize * index + inside) == index
  {
    Scale(blockSize, index + 1, blockNum);
    var start := blockSize * index;
    assert start + blockSize <= blockSize * blockNum;
    Quotient(blockSize * index + inside, blockSize, index, inside);
    SmallSum(storage, start, inside);
    OffsetIndex(storage, blockSize, start + inside);
  }

  // ---- The pool after initialisation ----

  lemma InitIndexBound(blockSize: nat, i: nat)
    requires blockSize > 0
    ensures blockSize * i < WORD32 ==> InitIndex(blockSize, i) == i
    ensures blockSize * i >= WORD32 ==> InitIndex(blockSize, i) < i && blockSize * InitIndex(blockSize, i) < WORD32
  {
    if blockSize * i < WORD32 {
      Quotient(blockSize * i, blockSize, i, 0);
    } else {
      var r := blockSize * i % WORD32;
      var q := r / blockSize;
      assert blockSize * q <= r < WORD32 <= blockSize * i;
      if q >= i {
        Scale(blockSize, i, q);
      }
    }
  }

  lemma InitInOrder(blockNum: nat, blockSize: nat, i: nat)
    requires i < blockNum && blockSize > 0 && blockSize * (blockNum - 1) < WORD32
    ensures InitIndex(blockSize, i) == i
  {
    Scale(blockSize, i, blockNum - 1);
    InitIndexBound(blockSize, i);
  }

  lemma InitTwin(blockSize: nat, last: nat) returns (twin: nat)
    requires blockSize > 0 && blockSize * last >= WORD32
    ensures twin < last && InitIndex(blockSize, twin) == InitIndex(blockSize, last)
  {
    InitIndexBound(blockSize, last);
    twin := InitIndex(blockSize, last);
    InitIndexBound(blockSize, twin);
  }

  // Initialisation offers every block exactly once precisely when the last offset fits 32 bits; past
  // that, blocks at the start are listed twice and the later ones never.
  lemma InitListsEachOnce(blockNum: nat, blockSize: nat)
    requires blockNum > 0 && blockSize > 0
    ensures Distinct(InitialFree(blockNum, blockSize)) <==> blockSize * (blockNum - 1) < WORD32
    ensures blockSize * (blockNum - 1) < WORD32 ==>
      forall i :: 0 <= i < blockNum ==> InitialFree(blockNum, blockSize)[i] == i
  {
    var s := InitialFree(blockNum, blockSize);
    hide InitialFree, InitIndex;
    if blockSize * (blockNum - 1) < WORD32 {
      forall i | 0 <= i < blockNum ensures s[i] == i {
        InitInOrder(blockNum, blockSize, i);
      }
    } else {
      var twin := InitTwin(blockSize, blockNum - 1);
      assert s[twin] == s[blockNum - 1];
    }
  }

  // ---- Any sequence of allocations and frees ----

  datatype Op = Allocate | Release(index: nat)

  // free: the ring.  out: the blocks the callers hold.
  datatype Holding = Holding(free: seq<nat>, out: set<nat>)

  // A caller releases only a block it holds; an allocation from an empty pool changes nothing.
  predicate WellFormed(h: Holding, op: Op) {
    op.Allocate? || op.index in h.out
  }

  function Do(h: Holding, op: Op, blockNum: nat): Holding {
    match op
    case Allocate => if h.free == [] then h else Holding(h.free[1..], h.out + {h.free[0]})
    case Release(index) => Holding(AfterFree(h.free, blockNum, index), h.out - {index})
  }

  function DoAll(h: Holding, ops: seq<Op>, blockNum: nat): Holding
    decreases |ops|
  {
    if ops == [] then h else DoAll(Do(h, ops[0], blockNum), ops[1..], blockNum)
  }

  predicate AllWellFormed(h: Holding, ops: seq<Op>, blockNum: nat)
    decreases |ops|
  {
    ops != [] ==> WellFormed(h, ops[0]) && AllWellFormed(Do(h, ops[0], blockNum), ops[1..], blockNum)
  }

  // Every block is on the ring once or out once.
  ghost predicate Partition(h: Holding, blockNum: nat) {
    && Distinct(h.free)
    && (forall i :: 0 <= i < |h.free| ==> h.free[i] < blockNum && h.free[i] !in h.out)
    && (forall b :: b in h.out ==> b < blockNum)
    && |h.free| + |h.out| == blockNum
  }

  lemma DoKeepsPartition(h: Holding, op: Op, blockNum: nat)
    requires Partition(h, blockNum) && WellFormed(h, op)
    ensures Partition(Do(h, op, blockNum), blockNum)
    ensures op.Release? ==> |h.free| < blockNum && op.index !in h.free
  {
    if op.Release? {
      assert |h.out - {op.index}| == |h.out| - 1;
    } else if h.free != [] {
      var b := h.free[0];
      assert |h.out + {b}| == |h.out| + 1;
      assert forall i :: 0 < i < |h.free| ==> h.free[i] != b;
    }
  }

  // Over any sequence of allocations and frees of held blocks, the ring and the blocks held partition
  // the pool, and the free count and the number held add up to the number of blocks.
  lemma {:induction false} EveryRun(h: Holding, ops: seq<Op>, blockNum: nat)
    requires Partition(h, blockNum) && AllWellFormed(h, ops, blockNum)
    ensures Partition(DoAll(h, ops, blockNum), blockNum)
    decreases |ops|
  {
    hide Partition, WellFormed, Do;
    if ops != [] {
      DoKeepsPartition(h, ops[0], blockNum);
      EveryRun(Do(h, ops[0], blockNum), ops[1..], blockNum);
    }
  }

  // A pool just initialised is the start of such runs exactly when its last offset fits 32 bits.
  lemma InitialPartition(blockNum: nat, blockSize: nat)
    requires blockNum > 0 && blockSize > 0
    ensures Partition(Holding(InitialFree(blockNum, blockSize), {}), blockNum) <==> blockSize * (blockNum - 1) < WORD32
  {
    InitListsEachOnce(blockNum, blockSize);
  }
}
