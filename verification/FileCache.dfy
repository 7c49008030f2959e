/**
  What both response caches are meant to be: a FIFO map of bounded size. Replacing the value of a
  key that is present leaves the key's age alone; a new key pushes out the oldest one when full.
 */
module FifoMap {

  datatype Option<+T> = None | Some(value: T)

  type Bytes = seq<bv8>

  const PATH_MAX := 4096

  /** A resolved path: it fits a PATH_MAX buffer together with its terminator. */
  type Path = p: string | |p| < PATH_MAX

  datatype Entry<+V> = Entry(key: Path, resp: V)

  predicate Fifo<V>(cap: nat, list: seq<Entry<V>>) {
    && |list| <= cap
    && forall i, j | 0 <= i < j < |list| :: list[i].key != list[j].key
  }

  predicate Has<V>(list: seq<Entry<V>>, key: Path) {
    exists i :: 0 <= i < |list| && list[i].key == key
  }

  /** Position of the key, or the length of the list. */
  function IndexOf<V>(list: seq<Entry<V>>, key: Path): (i: nat)
    ensures i <= |list|
    ensures i < |list| ==> list[i].key == key
    ensures forall k | 0 <= k < i :: list[k].key != key
  {
    if list == [] || list[0].key == key then 0 else 1 + IndexOf(list[1..], key)
  }

  function Get<V>(list: seq<Entry<V>>, key: Path): Option<V> {
    var i := IndexOf(list, key);
    if i < |list| then Some(list[i].resp) else None
  }

  function Put<V>(cap: nat, list: seq<Entry<V>>, key: Path, resp: V): seq<Entry<V>> {
    var i := IndexOf(list, key);
    if i < |list| then list[i := Entry(key, resp)]
    else if |list| >= cap && list != [] then list[1..] + [Entry(key, resp)]
    else list + [Entry(key, resp)]
  }

  /** What an insertion of `key` pushes out, if anything. */
  function Displaced<V>(cap: nat, list: seq<Entry<V>>, key: Path): Option<V> {
    if Get(list, key).Some? then Get(list, key)
    else if |list| >= cap && list != [] then Some(list[0].resp)
    else None
  }

  lemma GetAt<V>(list: seq<Entry<V>>, cap: nat, i: nat)
    requires Fifo(cap, list) && i < |list|
    ensures Get(list, list[i].key) == Some(list[i].resp)
  {
    var k := IndexOf(list, list[i].key);
    assert k <= i;
  }

  lemma PutFifo<V>(cap: nat, list: seq<Entry<V>>, key: Path, resp: V)
    requires Fifo(cap, list) && cap > 0
    ensures Fifo(cap, Put(cap, list, key, resp))
  {
  }

  /** Reading back after an insertion: the new value, and everything else except what was evicted. */
  lemma GetAfterPut<V>(cap: nat, list: seq<Entry<V>>, key: Path, resp: V, other: Path)
    requires Fifo(cap, list) && cap > 0
    ensures Get(Put(cap, list, key, resp), key) == Some(resp)
    ensures other != key ==>
              Get(Put(cap, list, key, resp), other) ==
                if !Has(list, key) && |list| == cap && list[0].key == other then None else Get(list, other)
  {
    var r := Put(cap, list, key, resp);
    PutFifo(cap, list, key, resp);
    var i := IndexOf(r, key);
    var at := if IndexOf(list, key) < |list| then IndexOf(list, key) else |r| - 1;
    assert r[at].key == key;
    GetAt(r, cap, at);
    if IndexOf(list, key) < |list| {
      assert Has(list, key);
    }
    if other != key {
      var k := IndexOf(list, other);
      var k' := IndexOf(r, other);
      if k < |list| {
        if IndexOf(list, key) == |list| && |list| == cap {
          if k > 0 {
            assert r[k - 1] == list[k];
            GetAt(r, cap, k - 1);
          }
        } else {
          assert r[k] == list[k];
          GetAt(r, cap, k);
        }
      }
    }
  }

  /** Nothing but the inserted value is new. */
  lemma PutAddsNothingElse<V>(cap: nat, list: seq<Entry<V>>, key: Path, resp: V, q: Path)
    requires Fifo(cap, list) && cap > 0
    ensures Get(Put(cap, list, key, resp), q).Some? ==>
              Get(Put(cap, list, key, resp), q) == if q == key then Some(resp) else Get(list, q)
  {
    GetAfterPut(cap, list, key, resp, q);
  }

  // ----- operations and their answers

  datatype Op<V> = Lookup(key: Path) | Insert(key: Path, resp: V) | Clear

  function Apply<V>(cap: nat, list: seq<Entry<V>>, op: Op<V>): seq<Entry<V>> {
    match op
    case Lookup(_) => list
    case Insert(key, resp) => Put(cap, list, key, resp)
    case Clear => []
  }

  function AnswerTo<V>(list: seq<Entry<V>>, op: Op<V>): Option<V> {
    if op.Lookup? then Get(list, op.key) else None
  }

  /** The cache after `ops`, from the empty cache. */
  function CacheAfter<V>(cap: nat, ops: seq<Op<V>>): seq<Entry<V>>
    decreases |ops|
  {
    if ops == [] then []
    else Apply(cap, CacheAfter(cap, ops[..|ops| - 1]), ops[|ops| - 1])
  }

  /** The answers given along the way, from the empty cache. */
  function Answers<V>(cap: nat, ops: seq<Op<V>>): seq<Option<V>>
    decreases |ops|
  {
    if ops == [] then []
    else
      var before := ops[..|ops| - 1];
      Answers(cap, before) + [AnswerTo(CacheAfter(cap, before), ops[|ops| - 1])]
  }

  // ----- an independent account: admissions and latest values

  /** Keys in the order in which they were admitted since the last clear. */
  function Admitted<V>(cap: nat, ops: seq<Op<V>>): seq<Path>
    decreases |ops|
  {
    if ops == [] then []
    else
      var before := Admitted(cap, ops[..|ops| - 1]);
      var op := ops[|ops| - 1];
      match op
      case Lookup(_) => before
      case Clear => []
      case Insert(key, _) =>
        // present means: among the last `cap` admissions
        if key in LastOf(before, cap) then before else before + [key]
  }

  function LastOf<T>(xs: seq<T>, n: nat): seq<T> {
    if |xs| <= n then xs else xs[|xs| - n..]
  }

  /** The value most recently inserted for a key since the last clear. */
  function Latest<V>(ops: seq<Op<V>>, key: Path): Option<V>
    decreases |ops|
  {
    if ops == [] then None
    else
      var op := ops[|ops| - 1];
      match op
      case Lookup(_) => Latest(ops[..|ops| - 1], key)
      case Clear => None
      case Insert(k, resp) => if k == key then Some(resp) else Latest(ops[..|ops| - 1], key)
  }

  function Keys<V>(list: seq<Entry<V>>): seq<Path> {
    seq(|list|, i requires 0 <= i < |list| => list[i].key)
  }

  lemma KeyPresent<V>(list: seq<Entry<V>>, key: Path)
    ensures key in Keys(list) <==> IndexOf(list, key) < |list|
  {
    var i := IndexOf(list, key);
    if i < |list| {
      assert Keys(list)[i] == key;
    } else {
      assert forall k | 0 <= k < |list| :: Keys(list)[k] == list[k].key != key;
    }
  }

  lemma KeysOfPut<V>(cap: nat, list: seq<Entry<V>>, key: Path, resp: V)
    requires Fifo(cap, list) && cap > 0
    ensures key in Keys(list) <==> IndexOf(list, key) < |list|
    ensures Keys(Put(cap, list, key, resp)) ==
              if key in Keys(list) then Keys(list)
              else if |list| == cap then Keys(list)[1..] + [key] else Keys(list) + [key]
  {
    KeyPresent(list, key);
    if key !in Keys(list) {
      KeysAppend(if |list| == cap then list[1..] else list, Entry(key, resp));
      assert |list| == cap ==> Keys(list[1..]) == Keys(list)[1..];
    }
  }

  lemma KeysAppend<V>(list: seq<Entry<V>>, e: Entry<V>)
    ensures Keys(list + [e]) == Keys(list) + [e.key]
  {
  }

  /** After an insertion every entry is the new one or one that was there. */
  lemma PutLatest<V>(cap: nat, list: seq<Entry<V>>, key: Path, resp: V)
    requires Fifo(cap, list) && cap > 0
    ensures forall e | e in Put(cap, list, key, resp) :: e == Entry(key, resp) || (e in list && e.key != key)
  {
    var i := IndexOf(list, key);
    var r := Put(cap, list, key, resp);
    forall e | e in r
      ensures e == Entry(key, resp) || (e in list && e.key != key)
    {
      var k :| 0 <= k < |r| && r[k] == e;
      if i < |list| && k != i {
        assert r[k] == list[k];
      }
    }
  }

  lemma LastOfAppend<T>(xs: seq<T>, n: nat, x: T)
    requires n > 0
    ensures LastOf(xs + [x], n) == (if |LastOf(xs, n)| == n then LastOf(xs, n)[1..] else LastOf(xs, n)) + [x]
  {
  }

  ghost predicate Current<V>(list: seq<Entry<V>>, ops: seq<Op<V>>) {
    forall e | e in list :: Latest(ops, e.key) == Some(e.resp)
  }

  lemma InsertCurrent<V>(cap: nat, list: seq<Entry<V>>, ops: seq<Op<V>>, op: Op<V>)
    requires Fifo(cap, list) && cap > 0 && Current(list, ops) && op.Insert?
    ensures Current(Put(cap, list, op.key, op.resp), ops + [op])
  {
    PutLatest(cap, list, op.key, op.resp);
    assert (ops + [op])[..|ops|] == ops;
  }

  /** The cache holds exactly the last `cap` admitted keys, oldest first, each with its latest value. */
  lemma {:induction false} HoldsLastAdmitted<V>(cap: nat, ops: seq<Op<V>>)
    requires cap > 0
    ensures Fifo(cap, CacheAfter(cap, ops))
    ensures Keys(CacheAfter(cap, ops)) == LastOf(Admitted(cap, ops), cap)
    ensures Current(CacheAfter(cap, ops), ops)
    decreases |ops|
  {
    if ops != [] {
      var before := ops[..|ops| - 1];
      var op := ops[|ops| - 1];
      HoldsLastAdmitted(cap, before);
      assert ops == before + [op];
      var list := CacheAfter(cap, before);
      if op.Insert? {
        PutFifo(cap, list, op.key, op.resp);
        KeysOfPut(cap, list, op.key, op.resp);
        LastOfAppend(Admitted(cap, before), cap, op.key);
        InsertCurrent(cap, list, before, op);
      }
    }
  }
}

/** The cache of the C servers: an array whose first `size` slots are in use, oldest first. */
module ArrayCache {
  import opened FifoMap

  /** `V` is the response itself, or what identifies the buffer that holds it. */
  class Cache<V> {
    const entries: array<Entry<V>>
    var size: nat

    ghost predicate Valid()
      reads this, entries
    {
      && entries.Length > 0
      && size <= entries.Length
      && Fifo(entries.Length, entries[..size])
    }

    ghost function Contents(): (list: seq<Entry<V>>)
      reads this, entries
      requires Valid()
      ensures Fifo(entries.Length, list)
    {
      entries[..size]
    }

    constructor (maxEntries: nat, unused: V)
      requires maxEntries > 0
      ensures Valid() && fresh(entries) && entries.Length == maxEntries && Contents() == []
    {
      entries := new Entry<V>[maxEntries](_ => Entry("", unused));
      size := 0;
    }

    /** cache_lookup */
    method Lookup(key: Path) returns (r: Option<V>)
      requires Valid()
      ensures r == Get(Contents(), key)
    {
      var i := 0;
      while i < size
        invariant i <= size
        invariant forall k | 0 <= k < i :: entries[k].key != key
      {
        if entries[i].key == key {
          assert Contents()[i].key == key;
          GetAt(Contents(), entries.Length, i);
          return Some(entries[i].resp);
        }
        i := i + 1;
      }
      return None;
    }

    /** The memmove that drops entry 0. */
    method ShiftDown()
      requires Valid() && size == entries.Length
      modifies this`size, entries
      ensures Valid() && size == old(size) - 1
      ensures Contents() == old(Contents())[1..]
    {
      for i := 0 to entries.Length - 1
        invariant size == old(size)
        invariant forall k | 0 <= k < i :: entries[k] == old(entries[k + 1])
        invariant forall k | i <= k < entries.Length :: entries[k] == old(entries[k])
      {
        entries[i] := entries[i + 1];
      }
      size := size - 1;
      assert entries[..size] == old(entries[..size])[1..];
    }

    /** cache_insert; the response pushed out is handed back to be freed. */
    method Insert(key: Path, resp: V) returns (dropped: Option<V>)
      requires Valid()
      modifies this`size, entries
      ensures Valid()
      ensures Contents() == Put(entries.Length, old(Contents()), key, resp)
      ensures dropped == Displaced(entries.Length, old(Contents()), key)
    {
      ghost var before := Contents();
      PutFifo(entries.Length, before, key, resp);
      var i := 0;
      while i < size
        invariant i <= size
        invariant forall k | 0 <= k < i :: entries[k].key != key
      {
        if entries[i].key == key {
          assert IndexOf(before, key) == i by {
            assert before[i].key == key;
          }
          dropped := Some(entries[i].resp);
          entries[i] := Entry(key, resp);
          assert entries[..size] == before[i := Entry(key, resp)];
          return;
        }
        i := i + 1;
      }
      assert IndexOf(before, key) == |before|;
      dropped := None;
      if size == entries.Length {
        dropped := Some(entries[0].resp);
        ShiftDown();
      }
      ghost var kept := Contents();
      entries[size] := Entry(key, resp);
      size := size + 1;
      assert entries[..size] == kept + [Entry(key, resp)];
    }

    /** cache_clear */
    method Clear()
      requires Valid()
      modifies this`size
      ensures Valid() && Contents() == []
    {
      size := 0;
    }
  }
}

/** The cache of the Rust server: a hash map and the keys in insertion order. */
module MapCache {
  import opened FifoMap

  predicate NoDuplicates(order: seq<Path>) {
    forall i, j | 0 <= i < j < |order| :: order[i] != order[j]
  }

  ghost function KeySet(order: seq<Path>): set<Path> {
    set k | k in order
  }

  lemma {:induction false} KeySetSize(order: seq<Path>)
    requires NoDuplicates(order)
    ensures |KeySet(order)| == |order|
  {
    if order != [] {
      KeySetSize(order[1..]);
      assert KeySet(order) == {order[0]} + KeySet(order[1..]);
    }
  }

  /** The entries in insertion order. */
  ghost function Listing(order: seq<Path>, entries: map<Path, Bytes>): (list: seq<Entry<Bytes>>)
    requires KeySet(order) == entries.Keys
    ensures |list| == |order|
    ensures forall i | 0 <= i < |list| :: order[i] in entries && list[i] == Entry(order[i], entries[order[i]])
  {
    assert forall k | k in order :: k in KeySet(order);
    seq(|order|, i requires 0 <= i < |order| => Entry(order[i], entries[order[i]]))
  }

  lemma ListingReplace(order: seq<Path>, entries: map<Path, Bytes>, i: nat, resp: Bytes)
    requires NoDuplicates(order) && KeySet(order) == entries.Keys && i < |order|
    ensures KeySet(order) == entries[order[i] := resp].Keys
    ensures Listing(order, entries[order[i] := resp]) == Listing(order, entries)[i := Entry(order[i], resp)]
  {
    assert order[i] in KeySet(order);
    assert entries[order[i] := resp].Keys == entries.Keys;
  }

  lemma ListingDropFirst(order: seq<Path>, entries: map<Path, Bytes>)
    requires NoDuplicates(order) && KeySet(order) == entries.Keys && order != []
    ensures NoDuplicates(order[1..]) && KeySet(order[1..]) == (entries - {order[0]}).Keys
    ensures Listing(order[1..], entries - {order[0]}) == Listing(order, entries)[1..]
  {
    var rest := order[1..];
    assert forall k | 0 <= k < |rest| :: rest[k] == order[k + 1];
    assert KeySet(rest) == KeySet(order) - {order[0]};
  }

  lemma ListingAppend(order: seq<Path>, entries: map<Path, Bytes>, key: Path, resp: Bytes)
    requires NoDuplicates(order) && KeySet(order) == entries.Keys && key !in entries
    ensures NoDuplicates(order + [key]) && KeySet(order + [key]) == entries[key := resp].Keys
    ensures Listing(order + [key], entries[key := resp]) == Listing(order, entries) + [Entry(key, resp)]
  {
    assert forall k | k in order :: k in KeySet(order);
    assert KeySet(order + [key]) == KeySet(order) + {key};
  }

  class Cache {
    const maxEntries: nat
    var entries: map<Path, Bytes>
    var order: seq<Path>

    /** `order` has no duplicates and lists exactly the keys of the map. */
    ghost predicate Valid()
      reads this
    {
      && maxEntries > 0
      && NoDuplicates(order)
      && KeySet(order) == entries.Keys
      && |order| <= maxEntries
    }

    ghost function Contents(): (list: seq<Entry<Bytes>>)
      reads this
      requires Valid()
      ensures Fifo(maxEntries, list) && |list| == |order|
    {
      Listing(order, entries)
    }

    constructor (maxEntries: nat)
      requires maxEntries > 0
      ensures Valid() && this.maxEntries == maxEntries && Contents() == []
    {
      this.maxEntries := maxEntries;
      entries := map[];
      order := [];
    }

    method Lookup(key: Path) returns (r: Option<Bytes>)
      requires Valid()
      ensures r == Get(Contents(), key)
    {
      if key in entries {
        assert key in KeySet(order);
        ghost var i :| 0 <= i < |order| && order[i] == key;
        GetAt(Contents(), maxEntries, i);
        r := Some(entries[key]);
      } else {
        assert key !in KeySet(order);
        r := None;
      }
    }

    method Insert(key: Path, resp: Bytes)
      requires Valid()
      modifies this
      ensures Valid()
      ensures Contents() == Put(maxEntries, old(Contents()), key, resp)
    {
      ghost var before := Contents();
      KeySetSize(order);
      if key in entries {
        assert key in KeySet(order);
        ghost var i :| 0 <= i < |order| && order[i] == key;
        assert before[i].key == key;
        assert IndexOf(before, key) == i;
        ListingReplace(order, entries, i, resp);
        entries := entries[key := resp];
        return;
      }
      assert forall k | k in order :: k in KeySet(order);
      assert IndexOf(before, key) == |before|;
      if |entries| >= maxEntries {
        if order != [] {
          var oldest := order[0];
          ListingDropFirst(order, entries);
          order := order[1..];
          entries := entries - {oldest};
        }
      }
      ListingAppend(order, entries, key, resp);
      order := order + [key];
      entries := entries[key := resp];
    }

    method Clear()
      requires Valid()
      modifies this
      ensures Valid() && Contents() == []
    {
      entries := map[];
      order := [];
    }
  }
}

/** Both caches, driven by the same operations, cannot be told apart. */
module CacheEquivalence {
  import opened FifoMap
  import ArrayCache
  import MapCache

  /** One operation on both caches. */
  method Both(op: Op<Bytes>, a: ArrayCache.Cache<Bytes>, m: MapCache.Cache)
    returns (x: Option<Bytes>, y: Option<Bytes>)
    requires a.Valid() && m.Valid() && a.entries.Length == m.maxEntries && a.Contents() == m.Contents()
    modifies a, a.entries, m
    ensures a.Valid() && m.Valid() && a.entries.Length == m.maxEntries
    ensures a.Contents() == m.Contents() == Apply(m.maxEntries, old(a.Contents()), op)
    ensures x == y == AnswerTo(old(a.Contents()), op)
  {
    x, y := None, None;
    match op {
      case Lookup(key) =>
        x := a.Lookup(key);
        y := m.Lookup(key);
      case Insert(key, resp) =>
        var _ := a.Insert(key, resp);
        m.Insert(key, resp);
      case Clear =>
        a.Clear();
        m.Clear();
    }
  }

  /**
    For every capacity and every sequence of lookups, insertions and clears, the array cache and the
    map cache give the same answers, those of the bounded FIFO map.
   */
  method SameAnswers(cap: nat, ops: seq<Op<Bytes>>) returns (c: seq<Option<Bytes>>, rust: seq<Option<Bytes>>)
    requires cap > 0
    ensures c == rust
    ensures c == Answers(cap, ops)
  {
    var a := new ArrayCache.Cache<Bytes>(cap, []);
    var m := new MapCache.Cache(cap);
    c, rust := [], [];
    for n := 0 to |ops|
      invariant fresh(a) && fresh(a.entries) && fresh(m) && a.Valid() && m.Valid()
      invariant a.entries.Length == cap && m.maxEntries == cap
      invariant a.Contents() == CacheAfter(cap, ops[..n])
      invariant m.Contents() == a.Contents()
      invariant c == Answers(cap, ops[..n]) && rust == c
    {
      assert ops[..n + 1][..n] == ops[..n];
      var x, y := Both(ops[n], a, m);
      c, rust := c + [x], rust + [y];
    }
    assert ops[..|ops|] == ops;
  }
}
