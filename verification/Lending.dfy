// The master's loop that lends blocks to the slave until its queue is full, with the real pool and
// queue, as it runs when nobody interferes.
module Lending {
  import opened Arith
  import opened BlockPool
  import opened Counting
  import opened MsgQueue

  // Blocks moved by the loop: free is what the pool offers afterwards, queued went to the slave,
  // leaked was allocated but could not be queued because of an error.  exits: the pool ran dry and the
  // program ended.
  datatype Outcome = Outcome(free: seq<nat>, queued: seq<nat>, leaked: seq<nat>, exits: bool)

  function Lend(free: seq<nat>, blockNum: nat, room: int, pa: nat -> nat, connected: bool): Outcome
    decreases |free|
  {
    if free == [] then Outcome([], [], [], true)
    else if pa(free[0]) == 0 || !connected then
      var r := Lend(free[1..], blockNum, room, pa, connected);
      r.(leaked := [free[0]] + r.leaked)
    else if room > 0 then
      var r := Lend(free[1..], blockNum, room - 1, pa, connected);
      r.(queued := [free[0]] + r.queued)
    else Outcome(AfterFree(free[1..], blockNum, free[0]), [], [], false)
  }

  function Mapped(s: seq<nat>, f: nat -> nat): (r: seq<nat>)
    ensures |r| == |s| && forall i :: 0 <= i < |s| ==> r[i] == f(s[i])
  {
    if s == [] then [] else [f(s[0])] + Mapped(s[1..], f)
  }

  lemma MappedSnoc(s: seq<nat>, x: nat, f: nat -> nat)
    ensures Mapped(s + [x], f) == Mapped(s, f) + [f(x)]
  {
  }

  // WLS_EnqueueBlock, called by the master: 1 queued, 0 queue full, -1 error.
  method EnqueueBlock(queue: BlockQueue, pMsg: nat, connected: bool) returns (ret: int)
    requires queue.Valid()
    modifies queue`put, queue.storage
    ensures queue.Valid()
    ensures ret == if pMsg == 0 || !connected then -1
                   else if |old(queue.Contents())| < queue.Capacity() then 1 else 0
    ensures queue.Contents() == if ret == 1 then old(queue.Contents()) + [pMsg] else old(queue.Contents())
  {
    if pMsg == 0 || !connected {
      return -1;
    }
    var ok := queue.Enqueue(pMsg);
    ret := if ok then 1 else 0;
  }

  // What the loop still has to do, after queueing Q and leaking L.
  function Prefixed(r: Outcome, queued: seq<nat>, leaked: seq<nat>): Outcome {
    r.(queued := queued + r.queued, leaked := leaked + r.leaked)
  }

  // One turn of the loop, as the outcome sees it.
  lemma TurnQueues(free: seq<nat>, blockNum: nat, room: int, pa: nat -> nat, queued: seq<nat>, leaked: seq<nat>)
    requires free != [] && pa(free[0]) != 0 && room - |queued| > 0
    ensures Prefixed(Lend(free, blockNum, room - |queued|, pa, true), queued, leaked)
         == Prefixed(Lend(free[1..], blockNum, room - |queued + [free[0]]|, pa, true), queued + [free[0]], leaked)
  {
    var r := Lend(free[1..], blockNum, room - |queued| - 1, pa, true);
    assert queued + ([free[0]] + r.queued) == (queued + [free[0]]) + r.queued;
  }

  lemma TurnLeaks(free: seq<nat>, blockNum: nat, room: int, pa: nat -> nat, connected: bool,
                  queued: seq<nat>, leaked: seq<nat>)
    requires free != [] && (pa(free[0]) == 0 || !connected)
    ensures Prefixed(Lend(free, blockNum, room, pa, connected), queued, leaked)
         == Prefixed(Lend(free[1..], blockNum, room, pa, connected), queued, leaked + [free[0]])
  {
    var r := Lend(free[1..], blockNum, room, pa, connected);
    assert leaked + ([free[0]] + r.leaked) == (leaked + [free[0]]) + r.leaked;
  }

  lemma TurnEnds(free: seq<nat>, blockNum: nat, room: int, pa: nat -> nat, connected: bool,
                 queued: seq<nat>, leaked: seq<nat>)
    requires free == [] || (pa(free[0]) != 0 && connected && room <= 0)
    ensures Prefixed(Lend(free, blockNum, room, pa, connected), queued, leaked)
         == Outcome(if free == [] then [] else AfterFree(free[1..], blockNum, free[0]), queued, leaked, free == [])
  {
    assert queued + [] == queued && leaked + [] == leaked;
  }

  // The loop has queued and leaked these blocks, and whole is what it will have done at its end.
  ghost predicate Progress(whole: Outcome, free: seq<nat>, q: seq<nat>, start: seq<nat>, blockNum: nat, capacity: int,
                           pa: nat -> nat, connected: bool, queued: seq<nat>, leaked: seq<nat>)
  {
    && whole == Prefixed(Lend(free, blockNum, capacity - |q|, pa, connected), queued, leaked)
    && q == start + Mapped(queued, pa)
  }

  ghost predicate InPool(free: seq<nat>, storage: nat, blockNum: nat, blockSize: nat)
    requires blockSize > 0
  {
    forall i :: 0 <= i < |free| ==>
      && free[i] < blockNum
      && AddressOf(storage, blockSize, free[i]) != 0
      && IndexOf(storage, blockSize, AddressOf(storage, blockSize, free[i])) == free[i]
  }

  lemma InPoolHead(free: seq<nat>, storage: nat, blockNum: nat, blockSize: nat)
    requires blockSize > 0 && free != [] && InPool(free, storage, blockNum, blockSize)
    ensures InPool(free[1..], storage, blockNum, blockSize)
    ensures AddressOf(storage, blockSize, free[0]) != 0
    ensures IndexOf(storage, blockSize, AddressOf(storage, blockSize, free[0])) == free[0]
  {
  }

  // Any pool whose storage is a proper piece of the address space, away from address 0.
  lemma ProperStorage(free: seq<nat>, storage: nat, blockNum: nat, blockSize: nat)
    requires blockSize > 0 && 0 < storage && storage + blockSize * blockNum <= WORD64
    requires forall i :: 0 <= i < |free| ==> free[i] < blockNum
    ensures InPool(free, storage, blockNum, blockSize)
  {
    forall i | 0 <= i < |free|
      ensures AddressOf(storage, blockSize, free[i]) != 0
      ensures IndexOf(storage, blockSize, AddressOf(storage, blockSize, free[i])) == free[i]
    {
      AddressRoundTrip(storage, blockSize, blockNum, free[i], 0);
    }
  }

  // pa gives the physical address of a block that toPa gives for its virtual one.
  ghost predicate Translates(pa: nat -> nat, toPa: nat -> nat, storage: nat, blockSize: nat) {
    forall i :: pa(i) == toPa(AddressOf(storage, blockSize, i))
  }

  lemma TranslatesAt(pa: nat -> nat, toPa: nat -> nat, storage: nat, blockSize: nat, i: nat)
    requires Translates(pa, toPa, storage, blockSize)
    ensures pa(i) == toPa(AddressOf(storage, blockSize, i))
  {
  }

  ghost predicate MapsAll(pa: nat -> nat, n: int) {
    forall i :: 0 <= i < n ==> pa(i) != 0
  }

  ghost predicate MapsEach(pa: nat -> nat, blocks: seq<nat>) {
    forall i :: 0 <= i < |blocks| ==> pa(blocks[i]) != 0
  }

  // What a turn that found a block does to the pool's free blocks and the queue.
  ghost predicate TurnDoes(free: seq<nat>, q: seq<nat>, blockNum: nat, capacity: int, pa: nat -> nat, connected: bool,
                           free': seq<nat>, q': seq<nat>, res: int)
  {
    && free != []
    && res == TurnResult(free, q, capacity, pa, connected)
    && free' == (if res == 0 then AfterFree(free[1..], blockNum, free[0]) else free[1..])
    && q' == (if res == 1 then q + [pa(free[0])] else q)
  }

  // What a turn that found a block comes to.
  function TurnResult(free: seq<nat>, q: seq<nat>, capacity: int, pa: nat -> nat, connected: bool): int
    requires free != []
  {
    if pa(free[0]) == 0 || !connected then -1 else if |q| < capacity then 1 else 0
  }

  lemma TurnIs(free: seq<nat>, q: seq<nat>, blockNum: nat, capacity: int, pa: nat -> nat, connected: bool,
               free': seq<nat>, q': seq<nat>, res: int)
    requires free != []
    requires res == if pa(free[0]) == 0 || !connected then -1 else if |q| < capacity then 1 else 0
    requires free' == (if res == 0 then AfterFree(free[1..], blockNum, free[0]) else free[1..])
    requires q' == (if res == 1 then q + [pa(free[0])] else q)
    ensures TurnDoes(free, q, blockNum, capacity, pa, connected, free', q', res)
  {
  }

  // One turn: allocate a block, lend it, free it again if the queue is full.  exits: nothing to
  // allocate, which ends the program.
  method Turn(pool: Pool, queue: BlockQueue, toPa: nat -> nat, ghost pa: nat -> nat, connected: bool)
    returns (exits: bool, res: int)
    requires pool.Valid() && queue.Valid() && pool.FreePtr != queue.storage
    requires Translates(pa, toPa, pool.StoragePtr, pool.BlockSize)
    requires pool.BlockSize > 0 && InPool(pool.Free(), pool.StoragePtr, pool.BlockNum, pool.BlockSize)
    modifies pool`FreeGet, pool`FreePut, pool.FreePtr, queue`put, queue.storage
    ensures pool.Valid() && queue.Valid() && (exits <==> old(pool.Free()) == [])
    ensures if exits then pool.Free() == [] && queue.Contents() == old(queue.Contents())
            else TurnDoes(old(pool.Free()), old(queue.Contents()), pool.BlockNum, queue.Capacity(), pa, connected,
                          pool.Free(), queue.Contents(), res)
  {
    ghost var free, q := pool.Free(), queue.Contents();
    if free != [] {
      InPoolHead(free, pool.StoragePtr, pool.BlockNum, pool.BlockSize);
      TranslatesAt(pa, toPa, pool.StoragePtr, pool.BlockSize, free[0]);
    }
    hide *;
    var pBlock := pool.Alloc();
    if pBlock == 0 {
      return true, 0;
    }
    res := EnqueueBlock(queue, toPa(pBlock), connected);
    if res == 0 {
      pool.PutBack(pBlock);
    }
    exits := false;
    TurnIs(free, q, pool.BlockNum, queue.Capacity(), pa, connected, pool.Free(), queue.Contents(), res);
  }

  // What the loop makes of the pool's free blocks and the queue q, with its result.
  ghost predicate DoneBy(free: seq<nat>, q: seq<nat>, blockNum: nat, capacity: int, pa: nat -> nat, connected: bool,
                         free': seq<nat>, q': seq<nat>, exits: bool, lent: nat)
  {
    var r := Lend(free, blockNum, capacity - |q|, pa, connected);
    free' == r.free && exits == r.exits && lent == |r.queued| + |r.leaked| && q' == q + Mapped(r.queued, pa)
  }

  // Before a turn: blocks queued and leaked so far, and the loop still has to do the rest.  After the
  // last one: the loop is done.
  ghost predicate LoopAt(free0: seq<nat>, start: seq<nat>, blockNum: nat, capacity: int, pa: nat -> nat,
                         connected: bool, free: seq<nat>, q: seq<nat>, res: int, lent: nat)
  {
    if res == 0 then DoneBy(free0, start, blockNum, capacity, pa, connected, free, q, false, lent)
    else exists queued, leaked ::
      && |queued| + |leaked| == lent
      && Progress(Lend(free0, blockNum, capacity - |start|, pa, connected), free, q, start, blockNum, capacity, pa,
                  connected, queued, leaked)
  }

  lemma LoopStart(free: seq<nat>, q: seq<nat>, blockNum: nat, capacity: int, pa: nat -> nat, connected: bool)
    ensures LoopAt(free, q, blockNum, capacity, pa, connected, free, q, 1, 0)
  {
    hide Lend;
    assert q + Mapped([], pa) == q;
    assert Progress(Lend(free, blockNum, capacity - |q|, pa, connected), free, q, q, blockNum, capacity, pa, connected,
                    [], []);
  }

  lemma LoopExits(free0: seq<nat>, start: seq<nat>, blockNum: nat, capacity: int, pa: nat -> nat, connected: bool,
                  q: seq<nat>, res: int, lent: nat)
    requires LoopAt(free0, start, blockNum, capacity, pa, connected, [], q, res, lent) && res != 0
    ensures DoneBy(free0, start, blockNum, capacity, pa, connected, [], q, true, lent)
  {
    hide Lend, Mapped, AfterFree, Prefixed;
    var whole := Lend(free0, blockNum, capacity - |start|, pa, connected);
    var queued, leaked :| |queued| + |leaked| == lent
      && Progress(whole, [], q, start, blockNum, capacity, pa, connected, queued, leaked);
    TurnEnds([], blockNum, capacity - |q|, pa, connected, queued, leaked);
  }

  // One turn: queued, leaked, or the loop is done.
  lemma TurnProgress(whole: Outcome, free: seq<nat>, q: seq<nat>, start: seq<nat>, blockNum: nat, capacity: int,
                     pa: nat -> nat, connected: bool, queued: seq<nat>, leaked: seq<nat>)
    returns (queued': seq<nat>, leaked': seq<nat>)
    requires Progress(whole, free, q, start, blockNum, capacity, pa, connected, queued, leaked) && free != []
    ensures var res := TurnResult(free, q, capacity, pa, connected);
      if res == 0 then whole == Outcome(AfterFree(free[1..], blockNum, free[0]), queued, leaked, false)
      else
        && Progress(whole, free[1..], if res == 1 then q + [pa(free[0])] else q, start, blockNum, capacity, pa,
                    connected, queued', leaked')
        && |queued'| + |leaked'| == |queued| + |leaked| + 1
  {
    queued', leaked' := queued, leaked;
    var room := capacity - |q| + |queued|;
    if pa(free[0]) == 0 || !connected {
      TurnLeaks(free, blockNum, capacity - |q|, pa, connected, queued, leaked);
      leaked' := leaked + [free[0]];
    } else if |q| < capacity {
      TurnQueues(free, blockNum, room, pa, queued, leaked);
      MappedSnoc(queued, free[0], pa);
      queued' := queued + [free[0]];
      assert q + [pa(free[0])] == start + Mapped(queued', pa);
    } else {
      TurnEnds(free, blockNum, capacity - |q|, pa, connected, queued, leaked);
    }
  }

  lemma LoopTurn(free0: seq<nat>, start: seq<nat>, blockNum: nat, capacity: int, pa: nat -> nat, connected: bool,
                 free: seq<nat>, q: seq<nat>, res: int, lent: nat, free': seq<nat>, q': seq<nat>, res': int)
    requires LoopAt(free0, start, blockNum, capacity, pa, connected, free, q, res, lent) && res != 0
    requires TurnDoes(free, q, blockNum, capacity, pa, connected, free', q', res')
    ensures LoopAt(free0, start, blockNum, capacity, pa, connected, free', q', res', lent + if res' != 0 then 1 else 0)
    ensures res' != 0 ==> |free'| < |free|
  {
    hide Lend, Mapped, AfterFree;
    var whole := Lend(free0, blockNum, capacity - |start|, pa, connected);
    var queued, leaked :| |queued| + |leaked| == lent
      && Progress(whole, free, q, start, blockNum, capacity, pa, connected, queued, leaked);
    var queued', leaked' := TurnProgress(whole, free, q, start, blockNum, capacity, pa, connected, queued, leaked);
  }

  lemma TurnInPool(free: seq<nat>, q: seq<nat>, blockNum: nat, capacity: int, pa: nat -> nat, connected: bool,
                   free': seq<nat>, q': seq<nat>, res: int, storage: nat, blockSize: nat)
    requires blockSize > 0 && InPool(free, storage, blockNum, blockSize) && res != 0
    requires TurnDoes(free, q, blockNum, capacity, pa, connected, free', q', res)
    ensures InPool(free', storage, blockNum, blockSize)
  {
    hide AfterFree;
    InPoolHead(free, storage, blockNum, blockSize);
  }

  // The replenish loop of App_MemoryInit and app_SanityTestReceiver.
  method Replenish(pool: Pool, queue: BlockQueue, toPa: nat -> nat, ghost pa: nat -> nat, connected: bool)
    returns (exits: bool, lent: nat)
    requires pool.Valid() && queue.Valid() && pool.FreePtr != queue.storage
    requires Translates(pa, toPa, pool.StoragePtr, pool.BlockSize)
    requires pool.BlockSize > 0 && InPool(pool.Free(), pool.StoragePtr, pool.BlockNum, pool.BlockSize)
    modifies pool`FreeGet, pool`FreePut, pool.FreePtr, queue`put, queue.storage
    ensures pool.Valid() && queue.Valid()
    ensures DoneBy(old(pool.Free()), old(queue.Contents()), pool.BlockNum, queue.Capacity(), pa, connected,
                   pool.Free(), queue.Contents(), exits, lent)
  {
    ghost var free0, start := pool.Free(), queue.Contents();
    exits, lent := false, 0;
    var res := 1;
    hide *;
    LoopStart(free0, start, pool.BlockNum, queue.Capacity(), pa, connected);
    while res != 0
      invariant pool.Valid() && queue.Valid() && !exits
      invariant LoopAt(free0, start, pool.BlockNum, queue.Capacity(), pa, connected,
                       pool.Free(), queue.Contents(), res, lent)
      invariant res != 0 ==> InPool(pool.Free(), pool.StoragePtr, pool.BlockNum, pool.BlockSize)
      decreases res != 0, |pool.Free()|
    {
      ghost var free, q, res0 := pool.Free(), queue.Contents(), res;
      exits, res := Turn(pool, queue, toPa, pa, connected);
      if exits {
        LoopExits(free0, start, pool.BlockNum, queue.Capacity(), pa, connected, q, res0, lent);
        return;
      }
      LoopTurn(free0, start, pool.BlockNum, queue.Capacity(), pa, connected, free, q, res0, lent,
               pool.Free(), queue.Contents(), res);
      if res != 0 {
        TurnInPool(free, q, pool.BlockNum, queue.Capacity(), pa, connected, pool.Free(), queue.Contents(), res,
                   pool.StoragePtr, pool.BlockSize);
        lent := lent + 1;
      }
    }
    LoopDone(free0, start, pool.BlockNum, queue.Capacity(), pa, connected, pool.Free(), queue.Contents(), lent);
  }

  lemma LoopDone(free0: seq<nat>, start: seq<nat>, blockNum: nat, capacity: int, pa: nat -> nat, connected: bool,
                 free: seq<nat>, q: seq<nat>, lent: nat)
    requires LoopAt(free0, start, blockNum, capacity, pa, connected, free, q, 0, lent)
    ensures DoneBy(free0, start, blockNum, capacity, pa, connected, free, q, false, lent)
  {
  }

  // ---- What the loop comes to ----

  // With the peer connected and every block mapped, the loop fills the queue in order and puts the one
  // block too many at the end of the ring; it ends the program exactly when the pool has no block more
  // than the queue has room.
  lemma {:induction false} LendFills(free: seq<nat>, blockNum: nat, room: nat, pa: nat -> nat)
    requires |free| <= blockNum && MapsEach(pa, free)
    ensures Lend(free, blockNum, room, pa, true)
         == if |free| > room then Outcome(free[room + 1..] + [free[room]], free[..room], [], false)
            else Outcome([], free, [], true)
    decreases room
  {
    if free != [] {
      if room > 0 {
        LendFills(free[1..], blockNum, room - 1, pa);
        var rest := free[1..];
        if |free| > room {
          assert rest[..room - 1] == free[1..room] && [free[0]] + free[1..room] == free[..room];
          assert rest[room..] == free[room + 1..];
        } else {
          assert [free[0]] + rest == free;
        }
      } else {
        assert free[..0] == [];
      }
    }
  }

  // With no peer, every block leaks and the program ends.
  lemma {:induction false} LendWithoutPeer(free: seq<nat>, blockNum: nat, room: int, pa: nat -> nat)
    ensures Lend(free, blockNum, room, pa, false) == Outcome([], [], free, true)
    decreases |free|
  {
    if free != [] {
      LendWithoutPeer(free[1..], blockNum, room, pa);
    }
  }

  // ---- Initialisation ----

  // Blocks of a memory, counted in 32 bits; one is held back.
  function BlockCount(size: nat, blockSize: nat): int
    requires blockSize > 0
  {
    size / blockSize % WORD32 - 1
  }

  lemma BlocksFit(size: nat, blockSize: nat, n: nat)
    requires 0 < blockSize && n == BlockCount(size, blockSize)
    ensures n < WORD32 && blockSize * n <= size
  {
    var q := size / blockSize;
    assert size == blockSize * q + size % blockSize;
    assert q >= 0 by { if q < 0 { Scale(blockSize, q, -1); } }
    Residue(q, WORD32);
    Scale(blockSize, n, q);
  }

  // As long as the number of blocks fits 32 bits, the pool has all the blocks of the memory but one.
  lemma BlocksFill(size: nat, blockSize: nat)
    requires 0 < blockSize <= size < blockSize * WORD32
    ensures var n := BlockCount(size, blockSize);
      n >= 0 && (n + 1) * blockSize <= size < (n + 2) * blockSize
  {
    var q := size / blockSize;
    assert size == blockSize * q + size % blockSize;
    if q >= WORD32 { Scale(blockSize, WORD32, q); }
    if q <= 0 { Scale(blockSize, q, 0); }
    SmallMod(q, WORD32);
    assert (q + 1) * blockSize == blockSize * q + blockSize;
  }

  lemma Residue(q: nat, m: nat)
    requires m > 0
    ensures q % m <= q
  {
    if q >= m { assert q % m < m; } else { SmallMod(q, m); }
  }

  // The index computed for a block is never past it.
  lemma InitIndexBounded(blockSize: nat, i: nat)
    requires blockSize > 0
    ensures 0 <= InitIndex(blockSize, i) <= i
  {
    var x := blockSize * i % WORD32;
    Residue(blockSize * i, WORD32);
    var q := x / blockSize;
    assert x == blockSize * q + x % blockSize;
    if q > i { Scale(blockSize, i + 1, q); }
  }

  lemma Prepared(h: nat, blockSize: nat, n: nat)
    requires 0 < h && 0 < blockSize && h + blockSize * n <= WORD64
    ensures InPool(InitialFree(n, blockSize), h, n, blockSize)
  {
    var free := InitialFree(n, blockSize);
    hide InitialFree;
    forall i | 0 <= i < |free| ensures free[i] < n {
      InitIndexBounded(blockSize, i);
    }
    ProperStorage(free, h, n, blockSize);
  }

  // What lending comes to, from these free blocks with this much room.
  ghost predicate Lent(free: seq<nat>, room: int, pa: nat -> nat, connected: bool,
                       ret: bool, lent: nat, queued: seq<nat>, left: seq<nat>)
  {
    && room >= 0
    && (ret <==> connected && |free| > room)
    && (ret ==> lent == room && queued == Mapped(free[..room], pa) && left == free[room + 1..] + [free[room]])
  }

  // What the loop does from an empty queue.
  lemma LoopLends(free: seq<nat>, q: seq<nat>, blockNum: nat, capacity: nat, pa: nat -> nat, connected: bool,
                  free': seq<nat>, q': seq<nat>, exits: bool, lent: nat)
    requires |free| <= blockNum && MapsEach(pa, free) && q == []
    requires DoneBy(free, q, blockNum, capacity, pa, connected, free', q', exits, lent)
    ensures Lent(free, capacity, pa, connected, !exits, lent, q', free')
  {
    hide Lend, Mapped;
    if connected {
      LendFills(free, blockNum, capacity, pa);
    } else {
      LendWithoutPeer(free, blockNum, capacity, pa);
    }
    assert [] + q' == q';
  }

  // A pool just initialised meets the demands of the loop.
  lemma LoopStarts(h: nat, size: nat, blockSize: nat, n: nat, pa: nat -> nat)
    requires 0 < h && 0 < blockSize && n == BlockCount(size, blockSize) && h + size <= WORD64
    requires MapsAll(pa, n)
    ensures var free := InitialFree(n, blockSize);
      InPool(free, h, n, blockSize) && |free| <= n && MapsEach(pa, free)
  {
    hide InPool, BlockCount, InitialFree, InitIndex;
    BlocksFit(size, blockSize, n);
    Prepared(h, blockSize, n);
    forall i | 0 <= i < n ensures pa(InitialFree(n, blockSize)[i]) != 0 {
      InitIndexBounded(blockSize, i);
    }
  }

  // The loop of App_MemoryInit, on a pool just initialised.
  method LendFirst(pool: Pool, size: nat, queue: BlockQueue, toPa: nat -> nat, ghost pa: nat -> nat, connected: bool)
    returns (ret: bool, lent: nat)
    requires pool.Valid() && queue.Valid() && pool.FreePtr != queue.storage && queue.Contents() == []
    requires pool.Free() == InitialFree(pool.BlockNum, pool.BlockSize)
    requires pool.BlockNum == BlockCount(size, pool.BlockSize) && 0 < pool.StoragePtr
    requires pool.StoragePtr + size <= WORD64
    requires Translates(pa, toPa, pool.StoragePtr, pool.BlockSize)
    requires MapsAll(pa, pool.BlockNum)
    modifies pool`FreeGet, pool`FreePut, pool.FreePtr, queue`put, queue.storage
    ensures pool.Valid() && queue.Valid()
    ensures Lent(InitialFree(pool.BlockNum, pool.BlockSize), queue.Capacity(), pa, connected,
                 ret, lent, queue.Contents(), pool.Free())
  {
    queue.Bounded();
    hide *;
    LoopStarts(pool.StoragePtr, size, pool.BlockSize, pool.BlockNum, pa);
    ghost var free, q := pool.Free(), queue.Contents();
    var exits;
    exits, lent := Replenish(pool, queue, toPa, pa, connected);
    LoopLends(free, q, pool.BlockNum, queue.Capacity(), pa, connected, pool.Free(), queue.Contents(), exits, lent);
    ret := !exits;
  }

  // App_MemoryInit; ret is false when the program exits instead.
  method MemoryInit(h: nat, size: nat, blockSize: nat, queue: BlockQueue, toPa: nat -> nat, ghost pa: nat -> nat,
                    connected: bool)
    returns (pool: Pool, ret: bool, nBlocksSlave: nat)
    requires queue.Valid() && queue.Contents() == []
    requires 0 < h && 0 < blockSize < WORD32 && BlockCount(size, blockSize) >= 0 && h + size <= WORD64
    requires Translates(pa, toPa, h, blockSize)
    requires MapsAll(pa, BlockCount(size, blockSize))
    modifies queue`put, queue.storage
    ensures queue.Valid() && pool.Valid() && fresh(pool)
    ensures pool.BlockNum == BlockCount(size, blockSize)
    ensures Lent(InitialFree(pool.BlockNum, blockSize), queue.Capacity(), pa, connected,
                 ret, nBlocksSlave, queue.Contents(), pool.Free())
  {
    BlocksFit(size, blockSize, BlockCount(size, blockSize));
    hide *;
    pool := new Pool(h, BlockCount(size, blockSize), blockSize);
    ret, nBlocksSlave := LendFirst(pool, size, queue, toPa, pa, connected);
  }

  // Block numbers from a up to b.
  function BlocksFrom(a: nat, b: nat): (s: seq<nat>)
    ensures |s| == (if a <= b then b - a else 0) && forall i :: 0 <= i < |s| ==> s[i] == a + i
    decreases b - a
  {
    if a < b then [a] + BlocksFrom(a + 1, b) else []
  }

  // As long as the last offset fits 32 bits, the blocks lent are the first of the memory, in order, and
  // those that stay are the rest, the one the queue had no room for last.
  lemma LentBlocks(n: nat, blockSize: nat, room: nat)
    requires blockSize > 0 && room < n && blockSize * (n - 1) < WORD32
    ensures var free := InitialFree(n, blockSize);
      free[..room] == BlocksFrom(0, room) && free[room + 1..] + [free[room]] == BlocksFrom(room + 1, n) + [room]
  {
    InitListsEachOnce(n, blockSize);
    hide InitialFree, InitIndex, BlocksFrom, Distinct;
  }
}
