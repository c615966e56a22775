// The handle table: a vector of slots whose free slots form a list inside the vector.

// The table as a map, with the free slots in the order in which they will be used again.
module HandleTableSpec {
  import opened Bytes

  // Indexes are the offsets of the slots plus one.
  type Index = i: nat | i > 0 witness 1

  datatype Table<+T> = Table(values: map<Index, T>, chain: seq<Index>, size: nat)

  // The index that the next value gets: the slot that was freed last, or a new one.
  function Fresh<T>(t: Table<T>): Index {
    if t.chain != [] then t.chain[0] else t.size + 1
  }

  function Insert<T>(t: Table<T>, value: T): Table<T> {
    if t.chain != [] then Table(t.values[t.chain[0] := value], t.chain[1..], t.size)
    else Table(t.values[t.size + 1 := value], [], t.size + 1)
  }

  function Remove<T>(t: Table<T>, i: Index): Table<T> {
    if i in t.values then Table(t.values - {i}, [i] + t.chain, t.size) else t
  }

  // Every slot is in use or free, and free slots are listed once.
  ghost predicate Sound<T>(t: Table<T>) {
    && (forall i :: i in t.values ==> i <= t.size)
    && (forall i :: i in t.chain ==> i <= t.size && i !in t.values)
    && NoDup(t.chain)
    && |t.values| + |t.chain| == t.size
  }

  // A new index collides with nothing, and the table grows only when all its slots are in use.
  lemma InsertIsSound<T>(t: Table<T>, value: T)
    requires Sound(t)
    ensures Sound(Insert(t, value)) && Fresh(t) !in t.values
    ensures Insert(t, value).values == t.values[Fresh(t) := value]
    ensures Insert(t, value).size == if t.size > |t.values| then t.size else |t.values| + 1
  {
    if t.chain != [] {
      var rest := t.chain[1..];
      assert t.chain[0] in t.chain;
      assert forall k :: 0 <= k < |rest| ==> rest[k] == t.chain[k + 1];
      forall i | i in rest
        ensures i in t.chain && i != t.chain[0]
      {
        var k :| 0 <= k < |rest| && rest[k] == i;
        assert t.chain[k + 1] == i;
      }
    }
  }

  lemma RemoveIsSound<T>(t: Table<T>, i: Index)
    requires Sound(t)
    ensures Sound(Remove(t, i)) && Remove(t, i).values == t.values - {i} && Remove(t, i).size == t.size
  {
    if i in t.values {
      var longer := [i] + t.chain;
      assert (t.values - {i}).Keys == t.values.Keys - {i};
      assert |t.values.Keys| == |t.values| && |(t.values - {i}).Keys| == |t.values - {i}|;
      forall j, k | 0 <= j < k < |longer|
        ensures longer[j] != longer[k]
      {
        assert longer[k] == t.chain[k - 1];
      }
    } else {
      assert t.values == t.values - {i};
    }
  }

  // The slot that was freed last is used first.
  lemma LastFreedIsFirst<T>(t: Table<T>, i: Index, value: T)
    requires i in t.values
    ensures Fresh(Remove(t, i)) == i && Insert(Remove(t, i), value) == t.(values := t.values[i := value])
  {
    assert t.values - {i} + map[i := value] == t.values[i := value];
    assert (t.values - {i})[i := value] == t.values[i := value];
    assert ([i] + t.chain)[1..] == t.chain;
  }
}

module HandleTables {
  import opened Bytes
  import opened HandleTableSpec

  datatype Slot<T> = Used(value: T) | Free(next: Option<Index>)

  function First(chain: seq<Index>): Option<Index> {
    if chain == [] then None else Some(chain[0])
  }

  predicate IsFree<T>(data: seq<Slot<T>>, i: Index) {
    i <= |data| && data[i - 1].Free?
  }

  predicate IsUsed<T>(data: seq<Slot<T>>, i: Index) {
    i <= |data| && data[i - 1].Used?
  }

  // Following the slots from the head of `chain` visits `chain`, and ends.
  ghost predicate Linked<T>(data: seq<Slot<T>>, chain: seq<Index>) {
    chain == [] || (chain[0] <= |data| && data[chain[0] - 1] == Free(First(chain[1..])) && Linked(data, chain[1..]))
  }

  // `chain` is the free list of the slots: it visits every free slot, once.
  ghost predicate FreeList<T>(data: seq<Slot<T>>, chain: seq<Index>) {
    Linked(data, chain) && NoDup(chain) && forall i: Index :: IsFree(data, i) ==> i in chain
  }

  // The values, by index.
  ghost function Content<T>(data: seq<Slot<T>>): map<Index, T> {
    map i: Index | i <= |data| && IsUsed(data, i) :: data[i - 1].value
  }

  lemma {:induction false} ChainIsFree<T>(data: seq<Slot<T>>, chain: seq<Index>, i: Index)
    requires Linked(data, chain) && i in chain
    ensures IsFree(data, i)
  {
    if i != chain[0] {
      ChainIsFree(data, chain[1..], i);
    }
  }

  // Changes outside the chain do not touch it.
  lemma {:induction false} LinkedElsewhere<T>(data: seq<Slot<T>>, chain: seq<Index>, i: Index, slot: Slot<T>)
    requires Linked(data, chain) && i <= |data| && i !in chain
    ensures Linked(data[i - 1 := slot], chain)
  {
    if chain != [] {
      LinkedElsewhere(data, chain[1..], i, slot);
    }
  }

  lemma UpdateContent<T>(data: seq<Slot<T>>, i: Index, slot: Slot<T>)
    requires i <= |data|
    ensures Content(data[i - 1 := slot]) == if slot.Used? then Content(data)[i := slot.value] else Content(data) - {i}
  {
    var after := data[i - 1 := slot];
    assert forall j: Index :: j != i ==> IsUsed(after, j) == IsUsed(data, j);
  }

  lemma PopChain<T>(data: seq<Slot<T>>, chain: seq<Index>, value: T)
    requires FreeList(data, chain) && chain != []
    ensures chain[0] <= |data| && chain[0] !in Content(data)
    ensures FreeList(data[chain[0] - 1 := Used(value)], chain[1..])
    ensures Content(data[chain[0] - 1 := Used(value)]) == Content(data)[chain[0] := value]
  {
    var i := chain[0];
    var after := data[i - 1 := Used(value)];
    LinkedElsewhere(data, chain[1..], i, Used(value));
    UpdateContent(data, i, Used(value));
    forall j: Index | IsFree(after, j)
      ensures j in chain[1..]
    {
      assert IsFree(data, j);
    }
  }

  lemma Grow<T>(data: seq<Slot<T>>, value: T)
    requires FreeList(data, [])
    ensures FreeList(data + [Used(value)], []) && |data| + 1 !in Content(data)
    ensures Content(data + [Used(value)]) == Content(data)[|data| + 1 := value]
  {
    var after := data + [Used(value)];
    assert forall j: Index :: j <= |data| ==> IsUsed(after, j) == IsUsed(data, j);
    assert forall j: Index :: j <= |data| ==> IsFree(after, j) == IsFree(data, j);
    assert IsUsed(after, |data| + 1);
  }

  lemma PushChain<T>(data: seq<Slot<T>>, chain: seq<Index>, i: Index)
    requires FreeList(data, chain) && i <= |data| && data[i - 1].Used?
    ensures FreeList(data[i - 1 := Free(First(chain))], [i] + chain)
    ensures i in Content(data)
    ensures Content(data[i - 1 := Free(First(chain))]) == Content(data) - {i}
  {
    var after := data[i - 1 := Free(First(chain))];
    if i in chain {
      ChainIsFree(data, chain, i);
    }
    assert i !in chain;
    LinkedElsewhere(data, chain, i, Free(First(chain)));
    assert ([i] + chain)[1..] == chain;
    UpdateContent(data, i, Free(First(chain)));
    forall j: Index | IsFree(after, j)
      ensures j in [i] + chain
    {
      assert j != i ==> IsFree(data, j);
    }
  }

  class HandleTable<T> {
    var data: seq<Slot<T>>
    var freeList: Option<Index>
    var requests: nat
    // The free list, and the largest number of values that the table has held at once.
    ghost var chain: seq<Index>
    ghost var peak: nat

    ghost predicate Valid()
      reads this
    {
      && FreeList(data, chain) && freeList == First(chain)
      && requests == |Content(data)| && |data| == requests + |chain| && |data| <= peak
    }

    ghost function Map(): map<Index, T>
      reads this
    {
      Content(data)
    }

    ghost function Value(): Table<T>
      reads this
    {
      Table(Map(), chain, |data|)
    }

    // The slots and their free list give a sound table.
    lemma ValidIsSound()
      requires Valid()
      ensures Sound(Value())
    {
      forall i | i in chain
        ensures i <= |data| && i !in Map()
      {
        ChainIsFree(data, chain, i);
      }
    }

    constructor ()
      ensures Valid() && Value() == Table(map[], [], 0) && peak == 0
    {
      data, freeList, requests := [], None, 0;
      chain, peak := [], 0;
    }

    method Clear()
      modifies this
      ensures Valid() && Map() == map[] && chain == [] && peak == old(peak)
    {
      data, freeList, requests := [], None, 0;
      chain := [];
    }

    method Len() returns (n: nat)
      requires Valid()
      ensures n == |Map()|
    {
      n := requests;
    }

    method IsEmpty() returns (empty: bool)
      requires Valid()
      ensures empty <==> Map() == map[]
    {
      empty := requests == 0;
      if empty {
        assert Map().Keys == {};
      }
    }

    // Inserts the value that `make` builds for the new index. The slot that was freed last is
    // used first; a new slot is made only when the table is full, so that an index never
    // exceeds the largest number of values held at once.
    method InsertFn(make: Index -> T) returns (index: Index)
      requires Valid()
      modifies this
      ensures Valid()
      ensures index !in old(Map()) && Map() == old(Map())[index := make(index)]
      ensures index == Fresh(old(Value())) && Value() == HandleTableSpec.Insert(old(Value()), make(index))
      ensures peak == (if old(peak) > |Map()| then old(peak) else |Map()|) && index <= peak
    {
      hide FreeList, Content;
      requests := requests + 1;
      if freeList.Some? {
        index := freeList.value;
        var offset := index - 1;
        SlotIsFree(data, chain);
        PopChain(data, chain, make(index));
        var free := data[offset];
        data := data[offset := Used(make(index))];
        match free {
          case Free(next) => freeList := next;
          case Used(_) => assert false;
        }
        chain := chain[1..];
      } else {
        Grow(data, make(|data| + 1));
        index := |data| + 1;
        data := data + [Used(make(index))];
      }
      peak := if peak > requests then peak else requests;
    }

    method Insert(value: T) returns (index: Index)
      requires Valid()
      modifies this
      ensures Valid()
      ensures index !in old(Map()) && Map() == old(Map())[index := value]
      ensures index == Fresh(old(Value())) && Value() == HandleTableSpec.Insert(old(Value()), value)
    {
      index := InsertFn(_ => value);
    }

    method Get(index: Index) returns (r: Option<T>)
      ensures r == if index in Map() then Some(Map()[index]) else None
    {
      var offset := index - 1;
      if offset < |data| && data[offset].Used? {
        return Some(data[offset].value);
      }
      return None;
    }

    // Removes a value; its slot becomes the first of the free list.
    method Remove(index: Index) returns (r: Option<T>)
      requires Valid()
      modifies this
      ensures Valid() && peak == old(peak)
      ensures r == if index in old(Map()) then Some(old(Map())[index]) else None
      ensures Map() == old(Map()) - {index}
      ensures Value() == HandleTableSpec.Remove(old(Value()), index)
    {
      hide FreeList, Linked;
      var offset := index - 1;
      if offset >= |data| {
        assert Map() == Map() - {index};
        return None;
      }
      if data[offset].Free? {
        assert Map() == Map() - {index};
        return None;
      }
      PushChain(data, chain, index);
      RemoveCount(Map(), index);
      requests := requests - 1;
      var next := freeList;
      freeList := Some(index);
      var value := data[offset];
      data := data[offset := Free(next)];
      chain := [index] + chain;
      match value {
        case Used(v) => return Some(v);
        case Free(_) => assert false;
      }
    }

    // Takes every value out of the table, in the order of the indexes.
    method Drain() returns (pairs: seq<(Index, T)>)
      requires Valid()
      modifies this
      ensures Valid() && Map() == map[] && chain == [] && peak == old(peak)
      ensures Listed(pairs, old(Map()))
    {
      var slots := data;
      data, freeList, requests := [], None, 0;
      chain := [];
      pairs := ListSlots(slots);
    }

    method Iter() returns (pairs: seq<(Index, T)>)
      ensures Listed(pairs, Map())
    {
      pairs := ListSlots(data);
    }
  }

  lemma SlotIsFree<T>(data: seq<Slot<T>>, chain: seq<Index>)
    requires FreeList(data, chain) && chain != []
    ensures chain[0] <= |data| && data[chain[0] - 1] == Free(First(chain[1..]))
  {
    assert Linked(data, chain);
  }

  lemma RemoveCount<T>(m: map<Index, T>, index: Index)
    requires index in m
    ensures |m - {index}| == |m| - 1
  {
    assert (m - {index}).Keys == m.Keys - {index};
    assert |m.Keys| == |m| && |(m - {index}).Keys| == |m - {index}|;
  }

  // `pairs` lists a map in the order of its keys.
  ghost predicate Listed<T>(pairs: seq<(Index, T)>, m: map<Index, T>) {
    && (forall j, k :: 0 <= j < k < |pairs| ==> pairs[j].0 < pairs[k].0)
    && (forall k :: 0 <= k < |pairs| ==> pairs[k].0 in m && m[pairs[k].0] == pairs[k].1)
    && (forall i :: i in m ==> exists k :: 0 <= k < |pairs| && pairs[k].0 == i)
  }

  method ListSlots<T>(slots: seq<Slot<T>>) returns (pairs: seq<(Index, T)>)
    ensures Listed(pairs, Content(slots))
  {
    pairs := [];
    for offset := 0 to |slots|
      invariant Listed(pairs, Content(slots[..offset]))
    {
      ghost var before := Content(slots[..offset]);
      NextSlot(slots, offset);
      if slots[offset].Used? {
        ListNext(pairs, before, offset + 1, slots[offset].value);
        pairs := pairs + [(offset + 1, slots[offset].value)];
      }
    }
    assert slots[..|slots|] == slots;
  }

  lemma NextSlot<T>(slots: seq<Slot<T>>, offset: nat)
    requires offset < |slots|
    ensures forall i :: i in Content(slots[..offset]) ==> i <= offset
    ensures Content(slots[..offset + 1])
      == if slots[offset].Used? then Content(slots[..offset])[offset + 1 := slots[offset].value]
          else Content(slots[..offset])
  {
    var a, b := slots[..offset], slots[..offset + 1];
    assert forall i: Index :: i <= offset ==> IsUsed(a, i) == IsUsed(b, i);
    assert IsUsed(b, offset + 1) == slots[offset].Used?;
  }

  lemma ListNext<T>(pairs: seq<(Index, T)>, m: map<Index, T>, index: Index, value: T)
    requires Listed(pairs, m) && forall i :: i in m ==> i < index
    ensures Listed(pairs + [(index, value)], m[index := value])
  {
    var more := pairs + [(index, value)];
    var longer := m[index := value];
    forall i | i in longer
      ensures exists k :: 0 <= k < |more| && more[k].0 == i
    {
      if i == index {
        assert more[|pairs|].0 == i;
      } else {
        var k :| 0 <= k < |pairs| && pairs[k].0 == i;
        assert more[k].0 == i;
      }
    }
  }
}
