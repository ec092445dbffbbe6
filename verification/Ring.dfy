// Index arithmetic of the rings: `get` is the oldest slot, `put` the next free one, and one slot
// always stays unused so that equal indices mean empty.
module Ring {

  function Next(i: nat, size: nat): nat {
    if i + 1 >= size then 0 else i + 1
  }

  // The items of a ring, oldest first.
  function Items<T>(slots: seq<T>, get: nat, put: nat): seq<T>
    requires get < |slots| && put < |slots|
  {
    if get <= put then slots[get..put] else slots[get..] + slots[..put]
  }

  // sfl_SafeQueueLevel
  function Level(put: nat, get: nat, size: nat): int {
    if put >= get then put - get else size + put - get
  }

  lemma LevelIsCount<T>(slots: seq<T>, get: nat, put: nat)
    requires get < |slots| && put < |slots|
    ensures Level(put, get, |slots|) == |Items(slots, get, put)| < |slots|
    ensures Next(put, |slots|) == get <==> |Items(slots, get, put)| == |slots| - 1
    ensures put == get <==> Items(slots, get, put) == []
  {
  }

  lemma PushItems<T>(slots: seq<T>, get: nat, put: nat, x: T)
    requires get < |slots| && put < |slots| && Next(put, |slots|) != get
    ensures Items(slots[put := x], get, Next(put, |slots|)) == Items(slots, get, put) + [x]
  {
    var after := slots[put := x];
    if get <= put {
      assert after[get..put] == slots[get..put];
      if put + 1 < |slots| {
        assert after[get..put + 1] == after[get..put] + [x];
      } else {
        assert after[get..] == after[get..put] + [x];
      }
    } else {
      assert after[get..] == slots[get..];
      assert after[..put + 1] == slots[..put] + [x];
    }
  }

  lemma PopItems<T>(slots: seq<T>, get: nat, put: nat)
    requires get < |slots| && put < |slots| && put != get
    ensures Items(slots, get, put) == [slots[get]] + Items(slots, Next(get, |slots|), put)
  {
  }

  // The slot an item lives in.
  function SlotOf(get: nat, k: nat, size: nat): nat
    requires get < size && k < size
  {
    if get + k < size then get + k else get + k - size
  }

  lemma ItemAt<T>(slots: seq<T>, get: nat, put: nat, k: nat)
    requires get < |slots| && put < |slots| && k < |Items(slots, get, put)|
    ensures Items(slots, get, put)[k] == slots[SlotOf(get, k, |slots|)]
  {
  }
}
