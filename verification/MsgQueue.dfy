// The two queues of the shared-memory library, as their operations run when nobody interferes.
module MsgQueue {
  import opened Ring

  datatype Msg = Msg(pIaPaMsg: nat, MsgSize: nat, TypeID: nat, flags: bv16)

  // WLS_MSG_QUEUE
  class MessageQueue {
    const storage: array<Msg>
    var put: nat
    var get: nat

    ghost predicate Valid()
      reads this, storage
    {
      put < storage.Length && get < storage.Length
    }

    ghost function Contents(): seq<Msg>
      requires Valid()
      reads this, storage
    {
      Items(storage[..], get, put)
    }

    // Items the queue can hold: one slot stays free.
    function Capacity(): int {
      storage.Length - 1
    }

    lemma Bounded()
      requires Valid()
      ensures |Contents()| <= Capacity()
    {
      LevelIsCount(storage[..], get, put);
    }

    // WLS_MsgDefineQueue
    constructor (size: nat)
      requires size > 0
      ensures Valid() && Contents() == [] && storage.Length == size && fresh(storage)
    {
      storage := new Msg[size](_ => Msg(0, 0, 0, 0));
      put := 0;
      get := 0;
    }

    // WLS_MsgEnqueue
    method Enqueue(m: Msg) returns (rc: bool)
      requires Valid()
      modifies this`put, storage
      ensures Valid()
      ensures rc <==> |old(Contents())| < Capacity()
      ensures Contents() == if rc then old(Contents()) + [m] else old(Contents())
    {
      LevelIsCount(storage[..], get, put);
      var put_new := put + 1;
      if put_new >= storage.Length {
        put_new := 0;
      }
      rc := false;
      if put_new != get {
        PushItems(storage[..], get, put, m);
        storage[put] := m;
        assert storage[..] == old(storage[..])[put := m];
        put := put_new;
        rc := true;
      }
    }

    // WLS_MsgDequeue.  A read index that lies outside the ring is noticed and left alone.
    method Dequeue() returns (ok: bool, item: Msg)
      modifies this`get
      ensures ok <==> old(get) < storage.Length && put != old(get)
      ensures get == if ok then Next(old(get), storage.Length) else old(get)
      ensures ok ==> item == storage[old(get)]
      ensures old(Valid()) ==>
        && Valid()
        && (ok <==> old(Contents()) != [])
        && (if ok then old(Contents()) == [item] + Contents() else Contents() == old(Contents()))
    {
      ok, item := false, Msg(0, 0, 0, 0);
      if get >= storage.Length {
        return;
      }
      if put < storage.Length {
        LevelIsCount(storage[..], get, put);
      }
      if put != get {
        if put < storage.Length {
          PopItems(storage[..], get, put);
        }
        item := storage[get];
        var next := get + 1;
        if next == storage.Length {
          next := 0;
        }
        get := next;
        ok := true;
      }
    }

    // WLS_GetNumItemsInTheQueue
    method NumItems() returns (n: nat)
      requires Valid()
      ensures n == |Contents()|
    {
      LevelIsCount(storage[..], get, put);
      n := Level(put, get, storage.Length);
    }
  }

  // FASTQUEUE of block addresses; address 0 stands for "no block".
  class BlockQueue {
    const storage: array<nat>
    var put: nat
    var get: nat

    ghost predicate Valid()
      reads this, storage
    {
      put < storage.Length && get < storage.Length
    }

    ghost function Contents(): seq<nat>
      requires Valid()
      reads this, storage
    {
      Items(storage[..], get, put)
    }

    function Capacity(): int {
      storage.Length - 1
    }

    lemma Bounded()
      requires Valid()
      ensures |Contents()| <= Capacity()
    {
      LevelIsCount(storage[..], get, put);
    }

    // SFL_DefQueue: the size is counted in 8-byte words.
    constructor (storageSize: nat)
      requires storageSize >= 8
      ensures Valid() && Contents() == [] && storage.Length == storageSize / 8 && fresh(storage)
    {
      storage := new nat[storageSize / 8](_ => 0);
      put := 0;
      get := 0;
    }

    // SFL_WlsEnqueue
    method Enqueue(pData: nat) returns (ok: bool)
      requires Valid()
      modifies this`put, storage
      ensures Valid()
      ensures ok <==> |old(Contents())| < Capacity()
      ensures Contents() == if ok then old(Contents()) + [pData] else old(Contents())
    {
      LevelIsCount(storage[..], get, put);
      var new_put := put + 1;
      if new_put >= storage.Length {
        new_put := 0;
      }
      ok := false;
      if new_put != get {
        PushItems(storage[..], get, put, pData);
        storage[put] := pData;
        assert storage[..] == old(storage[..])[put := pData];
        put := new_put;
        ok := true;
      }
    }

    // SFL_WlsDequeue
    method Dequeue() returns (p: nat)
      requires Valid()
      modifies this`get
      ensures Valid()
      ensures old(Contents()) == [] ==> p == 0 && Contents() == []
      ensures old(Contents()) != [] ==> old(Contents()) == [p] + Contents()
    {
      p := 0;
      LevelIsCount(storage[..], get, put);
      if put - get != 0 {
        PopItems(storage[..], get, put);
        p := storage[get];
        var next := get + 1;
        if next >= storage.Length {
          next := 0;
        }
        get := next;
      }
    }
  }
}
