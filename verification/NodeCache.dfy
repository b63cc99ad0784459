/** The node cache: a bounded map that makes room by dropping the entry written
    longest ago. It behaves as a list of entries in the order of their last put. */
module NodeCache {
  import opened Options

  datatype NodeKey = NodeKey(ns: bv32, id: string)

  type Payload = nat

  type Time = int

  datatype CachedValue = CachedValue(payload: Payload, version: nat, updateTime: Time)

  datatype Entry = Entry(key: NodeKey, value: CachedValue)

  // ---- The recency list ----

  function KeysOf(l: seq<Entry>): set<NodeKey> { set e | e in l :: e.key }

  function Without(l: seq<Entry>, key: NodeKey): seq<Entry> {
    if l == [] then []
    else (if l[0].key == key then [] else [l[0]]) + Without(l[1..], key)
  }

  /** A put moves its key to the end. A new key drops one entry, the one at the
      front, when the bound is reached. */
  function PutList(l: seq<Entry>, e: Entry, maxSize: nat): seq<Entry> {
    if e.key in KeysOf(l) then Without(l, e.key) + [e]
    else if |l| >= maxSize && l != [] then l[1..] + [e]
    else l + [e]
  }

  /** As PutList, but what is dropped is the entry of `victim`. */
  function PutDropping(l: seq<Entry>, e: Entry, maxSize: nat, victim: NodeKey): seq<Entry> {
    if e.key in KeysOf(l) then Without(l, e.key) + [e]
    else if |l| >= maxSize && l != [] then Without(l, victim) + [e]
    else l + [e]
  }

  /** Written in the order of the list, each key once. Two entries can be written
      within one tick of the clock. */
  predicate Ordered(l: seq<Entry>) {
    forall i, j | 0 <= i < j < |l| :: l[i].key != l[j].key && l[i].value.updateTime <= l[j].value.updateTime
  }

  /** No entry was written before that of this key. */
  predicate IsOldest(l: seq<Entry>, key: NodeKey) {
    exists i :: 0 <= i < |l| && l[i].key == key
                && forall j | 0 <= j < |l| :: l[i].value.updateTime <= l[j].value.updateTime
  }

  /** Only the front entry was written at its time. */
  predicate OneOldest(l: seq<Entry>) {
    |l| <= 1 || l[0].value.updateTime < l[1].value.updateTime
  }

  /** The clock has moved on between any two writes. */
  predicate StrictTimes(l: seq<Entry>) {
    forall i, j | 0 <= i < j < |l| :: l[i].value.updateTime < l[j].value.updateTime
  }

  predicate NoLaterThan(l: seq<Entry>, now: Time) {
    forall i | 0 <= i < |l| :: l[i].value.updateTime <= now
  }

  predicate Represents(l: seq<Entry>, data: map<NodeKey, CachedValue>) {
    && data.Keys == KeysOf(l)
    && forall i | 0 <= i < |l| :: l[i].key in data && data[l[i].key] == l[i].value
  }

  predicate Versioned(l: seq<Entry>, sequence: nat) {
    forall i | 0 <= i < |l| :: 0 < l[i].value.version <= sequence
  }

  /** The map, the clock and the counter are those of the list. */
  predicate Consistent(l: seq<Entry>, data: map<NodeKey, CachedValue>, clock: Time, sequence: nat) {
    Ordered(l) && NoLaterThan(l, clock) && Represents(l, data) && Versioned(l, sequence)
  }

  lemma WithoutHead(l: seq<Entry>, key: NodeKey)
    requires l != []
    ensures forall e :: e in l <==> e == l[0] || e in l[1..]
  {
    assert l == [l[0]] + l[1..];
  }

  ghost predicate AllPairs(l: seq<Entry>, r: (Entry, Entry) -> bool) {
    forall i, j | 0 <= i < j < |l| :: r(l[i], l[j])
  }

  /** Taking a key out keeps the rest, in the same order. */
  lemma {:induction false} WithoutKeepsPairs(l: seq<Entry>, key: NodeKey, r: (Entry, Entry) -> bool)
    requires AllPairs(l, r)
    ensures AllPairs(Without(l, key), r)
    ensures forall e :: e in Without(l, key) <==> e in l && e.key != key
  {
    if l != [] {
      assert AllPairs(l[1..], r);
      WithoutKeepsPairs(l[1..], key, r);
      WithoutHead(l, key);
      var rest := Without(l[1..], key);
      forall i | 0 <= i < |rest|
        ensures r(l[0], rest[i])
      {
        assert rest[i] in l[1..];
        var j :| 0 <= j < |l[1..]| && l[1..][j] == rest[i];
        assert l[j + 1] == rest[i];
      }
    }
  }

  lemma WithoutKeeps(l: seq<Entry>, key: NodeKey, now: Time)
    requires Ordered(l) && NoLaterThan(l, now)
    ensures Ordered(Without(l, key)) && NoLaterThan(Without(l, key), now)
    ensures forall e :: e in Without(l, key) <==> e in l && e.key != key
  {
    var r := (a: Entry, b: Entry) => a.key != b.key && a.value.updateTime <= b.value.updateTime;
    WithoutKeepsPairs(l, key, r);
    assert AllPairs(Without(l, key), r);
    forall i | 0 <= i < |Without(l, key)|
      ensures Without(l, key)[i].value.updateTime <= now
    {
      assert Without(l, key)[i] in l;
    }
  }

  lemma WithoutRepresents(l: seq<Entry>, data: map<NodeKey, CachedValue>, key: NodeKey, now: Time)
    requires Ordered(l) && NoLaterThan(l, now) && Represents(l, data)
    ensures Represents(Without(l, key), data - {key})
  {
    hide Ordered, NoLaterThan, Without;
    WithoutKeeps(l, key, now);
    var rest := Without(l, key);
    forall k
      ensures k in KeysOf(rest) <==> k in KeysOf(l) && k != key
    {
      if k in KeysOf(l) && k != key {
        var e :| e in l && e.key == k;
        assert e in rest;
      }
    }
    assert (data - {key}).Keys == KeysOf(rest);
    assert forall i | 0 <= i < |rest| :: rest[i] in l;
  }

  /** With distinct keys, taking out the first key leaves the rest. */
  lemma WithoutFirst(l: seq<Entry>)
    requires l != [] && Ordered(l)
    ensures Without(l, l[0].key) == l[1..]
  {
    forall e | e in l[1..]
      ensures e.key != l[0].key
    {
      var j :| 0 <= j < |l[1..]| && l[1..][j] == e;
      assert l[j + 1] == e;
    }
    WithoutAbsent(l[1..], l[0].key);
  }

  lemma {:induction false} WithoutAbsent(l: seq<Entry>, key: NodeKey)
    requires forall e | e in l :: e.key != key
    ensures Without(l, key) == l
  {
    if l != [] {
      WithoutHead(l, key);
      WithoutAbsent(l[1..], key);
    }
  }

  /** Dropping an oldest entry is dropping the front, whichever the scan finds, if
      and only if nothing need be dropped or the front was written alone at its
      time. */
  lemma DropsFrontIff(l: seq<Entry>, e: Entry, maxSize: nat)
    requires Ordered(l)
    ensures (forall victim | IsOldest(l, victim) :: PutDropping(l, e, maxSize, victim) == PutList(l, e, maxSize))
      <==> e.key in KeysOf(l) || |l| < maxSize || OneOldest(l)
  {
    if e.key !in KeysOf(l) && |l| >= maxSize && l != [] {
      if OneOldest(l) {
        forall victim | IsOldest(l, victim)
          ensures PutDropping(l, e, maxSize, victim) == PutList(l, e, maxSize)
        {
          OneOldestIsFront(l, victim);
          WithoutFirst(l);
        }
      } else {
        DropsSecond(l, e, maxSize);
      }
    }
  }

  lemma OneOldestIsFront(l: seq<Entry>, key: NodeKey)
    requires Ordered(l) && OneOldest(l) && IsOldest(l, key)
    ensures key == l[0].key
  {
    var i :| 0 <= i < |l| && l[i].key == key && forall j | 0 <= j < |l| :: l[i].value.updateTime <= l[j].value.updateTime;
    assert l[i].value.updateTime <= l[0].value.updateTime;
  }

  lemma DropsSecond(l: seq<Entry>, e: Entry, maxSize: nat)
    requires Ordered(l) && !OneOldest(l) && e.key !in KeysOf(l) && |l| >= maxSize
    ensures IsOldest(l, l[1].key) && PutDropping(l, e, maxSize, l[1].key) != PutList(l, e, maxSize)
  {
    var victim := l[1].key;
    forall j | 0 <= j < |l|
      ensures l[1].value.updateTime <= l[j].value.updateTime
    {
    }
    assert l[0].key != victim;
    assert Without(l, victim)[0] == l[0];
    assert PutDropping(l, e, maxSize, victim)[0] == l[0];
    assert PutList(l, e, maxSize)[0] == l[1];
  }

  lemma AppendRepresents(l: seq<Entry>, data: map<NodeKey, CachedValue>, e: Entry, before: Time)
    requires Ordered(l) && NoLaterThan(l, before) && Represents(l, data)
    requires e.key !in data && before <= e.value.updateTime
    ensures Ordered(l + [e]) && NoLaterThan(l + [e], e.value.updateTime) && Represents(l + [e], data[e.key := e.value])
  {
    forall i | 0 <= i < |l|
      ensures l[i].key != e.key
    {
      assert l[i] in l;
    }
    assert KeysOf(l + [e]) == KeysOf(l) + {e.key};
  }

  lemma AppendConsistent(l: seq<Entry>, data: map<NodeKey, CachedValue>, e: Entry, clock: Time, sequence: nat)
    requires Consistent(l, data, clock, sequence)
    requires e.key !in data && clock <= e.value.updateTime && e.value.version == sequence + 1
    ensures Consistent(l + [e], data[e.key := e.value], e.value.updateTime, sequence + 1)
  {
    hide Ordered, Represents;
    AppendRepresents(l, data, e, clock);
  }

  lemma WithoutConsistent(l: seq<Entry>, data: map<NodeKey, CachedValue>, key: NodeKey, clock: Time, sequence: nat)
    requires Consistent(l, data, clock, sequence)
    ensures Consistent(Without(l, key), data - {key}, clock, sequence)
  {
    hide Ordered, Represents;
    WithoutKeeps(l, key, clock);
    WithoutRepresents(l, data, key, clock);
    forall i | 0 <= i < |Without(l, key)|
      ensures 0 < Without(l, key)[i].value.version <= sequence
    {
      assert Without(l, key)[i] in l;
    }
  }

  lemma PutConsistent(l: seq<Entry>, data: map<NodeKey, CachedValue>, e: Entry, clock: Time, sequence: nat,
                      maxSize: nat, victim: NodeKey)
    requires Consistent(l, data, clock, sequence) && (maxSize > 0 || l != [])
    requires clock <= e.value.updateTime && e.value.version == sequence + 1
    ensures |data| >= maxSize ==> l != []
    ensures
      var kept := if e.key !in data && |data| >= maxSize then data - {victim} else data;
      Consistent(PutDropping(l, e, maxSize, victim), kept[e.key := e.value], e.value.updateTime, sequence + 1)
  {
    hide Ordered, Without, KeysOf;
    SameSize(l, data);
    if e.key in data {
      WithoutConsistent(l, data, e.key, clock, sequence);
      AppendConsistent(Without(l, e.key), data - {e.key}, e, clock, sequence);
      assert data[e.key := e.value] == (data - {e.key})[e.key := e.value];
    } else if |data| >= maxSize {
      WithoutConsistent(l, data, victim, clock, sequence);
      AppendConsistent(Without(l, victim), data - {victim}, e, clock, sequence);
    } else {
      AppendConsistent(l, data, e, clock, sequence);
    }
  }

  lemma WithoutStrict(l: seq<Entry>, key: NodeKey)
    requires StrictTimes(l)
    ensures StrictTimes(Without(l, key))
  {
    var r := (a: Entry, b: Entry) => a.value.updateTime < b.value.updateTime;
    assert AllPairs(l, r);
    WithoutKeepsPairs(l, key, r);
    assert AllPairs(Without(l, key), r);
    assert forall i, j | 0 <= i < j < |Without(l, key)| :: r(Without(l, key)[i], Without(l, key)[j]);
  }

  lemma PutStrict(l: seq<Entry>, e: Entry, maxSize: nat, victim: NodeKey, clock: Time)
    requires StrictTimes(l) && Ordered(l) && NoLaterThan(l, clock) && clock < e.value.updateTime
    ensures StrictTimes(PutDropping(l, e, maxSize, victim))
  {
    WithoutStrict(l, e.key);
    WithoutStrict(l, victim);
    WithoutKeeps(l, e.key, clock);
    WithoutKeeps(l, victim, clock);
    hide Without;
  }

  // ---- The cache ----

  class NodeCache {
    var data: map<NodeKey, CachedValue>
    var maxSize: nat
    var sequence: nat
    ghost var clock: Time
    ghost var entries: seq<Entry>

    ghost predicate Valid()
      reads this
    {
      Consistent(entries, data, clock, sequence)
    }

    constructor (maxSize: nat, now: Time)
      ensures Valid() && entries == [] && this.maxSize == maxSize && sequence == 0 && clock == now
    {
      data, this.maxSize, sequence := map[], maxSize, 0;
      clock, entries := now, [];
    }

    /** The scan that looks for the oldest entry, in whatever order the hash map
        lists them. */
    method Oldest() returns (key: NodeKey)
      requires Valid() && data != map[]
      ensures IsOldest(entries, key)
    {
      assert data.Keys != {} by {
        assert exists k :: k in data;
      }
      var rest := data.Keys;
      key :| key in rest;
      while rest != {}
        invariant key in data && rest <= data.Keys
        invariant forall k | k in data.Keys - rest :: data[key].updateTime <= data[k].updateTime
        decreases |rest|
      {
        var k :| k in rest;
        if data[k].updateTime < data[key].updateTime {
          key := k;
        }
        rest := rest - {k};
      }
      OldestInList(entries, data, key);
    }

    /** The clock is steady: it never goes back. An empty cache of size 0 would have
        nothing to drop. What is dropped is an oldest entry; it is the front of the
        list when that was written alone at its time, as it always is when the clock
        moves on between puts. */
    method Put(key: NodeKey, payload: Payload, now: Time)
      requires Valid() && clock <= now && (maxSize > 0 || data != map[])
      modifies this
      ensures Valid() && maxSize == old(maxSize) && sequence == old(sequence) + 1 && clock == now
      ensures exists victim ::
        && (old(entries) != [] ==> IsOldest(old(entries), victim))
        && entries == PutDropping(old(entries), Entry(key, CachedValue(payload, sequence, now)), maxSize, victim)
      ensures OneOldest(old(entries)) ==>
        entries == PutList(old(entries), Entry(key, CachedValue(payload, sequence, now)), maxSize)
      ensures StrictTimes(old(entries)) && old(clock) < now ==> StrictTimes(entries)
    {
      hide Consistent, PutDropping, PutList, IsOldest, OneOldest, StrictTimes;
      var val := CachedValue(payload, sequence + 1, now);
      ghost var e := Entry(key, val);
      ghost var victim := FindOldest(entries, key, data, clock, sequence);
      if key !in data && |data| >= maxSize {
        var oldest := Oldest();
        victim := oldest;
        PutConsistent(entries, data, e, clock, sequence, maxSize, victim);
        data := data - {oldest};
      } else {
        PutConsistent(entries, data, e, clock, sequence, maxSize, victim);
      }
      PutEffect(entries, old(data), e, clock, sequence, maxSize, victim);
      data := data[key := val];
      sequence := sequence + 1;
      entries := PutDropping(entries, e, maxSize, victim);
      clock := now;
    }

    method Get(key: NodeKey) returns (found: Option<CachedValue>)
      requires Valid()
      ensures found.None? <==> key !in KeysOf(entries)
      ensures found.Some? ==> Entry(key, found.value) in entries
    {
      if key !in data {
        return None;
      }
      assert key in KeysOf(entries);
      return Some(data[key]);
    }

    method Has(key: NodeKey) returns (r: bool)
      requires Valid()
      ensures r <==> exists e :: e in entries && e.key == key
    {
      r := key in data;
      assert data.Keys == KeysOf(entries);
    }

    method Remove(key: NodeKey)
      requires Valid()
      modifies this
      ensures Valid() && maxSize == old(maxSize) && sequence == old(sequence) && clock == old(clock)
      ensures entries == Without(old(entries), key)
      ensures StrictTimes(old(entries)) ==> StrictTimes(entries)
    {
      hide Consistent, StrictTimes;
      if StrictTimes(entries) {
        WithoutStrict(entries, key);
      }
      WithoutConsistent(entries, data, key, clock, sequence);
      data := data - {key};
      entries := Without(entries, key);
    }

    method Clear()
      requires Valid()
      modifies this
      ensures Valid() && maxSize == old(maxSize) && sequence == old(sequence) && clock == old(clock)
      ensures entries == []
    {
      data := map[];
      entries := [];
    }

    /** All keys, each once, in whatever order the hash map lists them. */
    method Keys() returns (keys: seq<NodeKey>)
      requires Valid()
      ensures (set k | k in keys) == KeysOf(entries) && |keys| == |entries|
    {
      keys := [];
      var rest := data.Keys;
      while rest != {}
        invariant rest <= data.Keys
        invariant forall k :: k in keys <==> k in data && k !in rest
        invariant |keys| + |rest| == |data.Keys|
        decreases |rest|
      {
        var k :| k in rest;
        keys := keys + [k];
        rest := rest - {k};
      }
      SameSize(entries, data);
    }

    method Size() returns (n: nat)
      requires Valid()
      ensures n == |entries|
    {
      SameSize(entries, data);
      return |data|;
    }

    /** Making the bound smaller drops nothing. */
    method SetMaxSize(size: nat)
      requires Valid()
      modifies this
      ensures Valid() && maxSize == size && sequence == old(sequence) && clock == old(clock) && entries == old(entries)
    {
      maxSize := size;
    }

    /** 0 stands for a key that is not held; a held one never has version 0. */
    method GetVersion(key: NodeKey) returns (version: nat)
      requires Valid()
      ensures version == 0 <==> key !in KeysOf(entries)
      ensures forall e | e in entries && e.key == key :: version == e.value.version
    {
      if key in data {
        ghost var e :| e in entries && e.key == key;
        version := data[key].version;
      } else {
        version := 0;
      }
    }
  }

  lemma OldestInList(l: seq<Entry>, data: map<NodeKey, CachedValue>, key: NodeKey)
    requires Represents(l, data) && key in data
    requires forall k | k in data :: data[key].updateTime <= data[k].updateTime
    ensures IsOldest(l, key)
  {
    assert key in KeysOf(l);
    var i :| 0 <= i < |l| && l[i].key == key;
    forall j | 0 <= j < |l|
      ensures l[i].value.updateTime <= l[j].value.updateTime
    {
      assert l[j].key in data;
    }
  }

  lemma FindOldest(l: seq<Entry>, otherwise: NodeKey, data: map<NodeKey, CachedValue>, clock: Time, sequence: nat)
      returns (key: NodeKey)
    requires Consistent(l, data, clock, sequence)
    ensures l != [] ==> IsOldest(l, key)
    ensures l == [] <==> data == map[]
  {
    Emptiness(l, data);
    key := if l == [] then otherwise else l[0].key;
  }

  /** What is dropped is the front if that is the only oldest entry, and the clock
      keeps it so. */
  lemma PutEffect(l: seq<Entry>, data: map<NodeKey, CachedValue>, e: Entry, clock: Time, sequence: nat,
                  maxSize: nat, victim: NodeKey)
    requires Consistent(l, data, clock, sequence) && (l != [] ==> IsOldest(l, victim))
    ensures OneOldest(l) ==> PutDropping(l, e, maxSize, victim) == PutList(l, e, maxSize)
    ensures StrictTimes(l) && clock < e.value.updateTime ==> StrictTimes(PutDropping(l, e, maxSize, victim))
  {
    hide Ordered, NoLaterThan, Represents, Versioned, PutDropping, PutList, IsOldest, OneOldest, StrictTimes;
    if OneOldest(l) {
      DropsFront(l, e, maxSize, victim);
    }
    if StrictTimes(l) && clock < e.value.updateTime {
      PutStrict(l, e, maxSize, victim, clock);
    }
  }

  lemma DropsFront(l: seq<Entry>, e: Entry, maxSize: nat, victim: NodeKey)
    requires Ordered(l) && (l != [] ==> IsOldest(l, victim)) && OneOldest(l)
    ensures PutDropping(l, e, maxSize, victim) == PutList(l, e, maxSize)
  {
    hide IsOldest, OneOldest, PutDropping, PutList;
    DropsFrontIff(l, e, maxSize);
    if l == [] {
      NothingToDrop(l, e, maxSize, victim);
    }
  }

  lemma NothingToDrop(l: seq<Entry>, e: Entry, maxSize: nat, victim: NodeKey)
    requires l == []
    ensures PutDropping(l, e, maxSize, victim) == PutList(l, e, maxSize)
  {
  }

  lemma {:induction false} KeysAreDistinct(l: seq<Entry>)
    requires forall i, j | 0 <= i < j < |l| :: l[i].key != l[j].key
    ensures |KeysOf(l)| == |l|
  {
    if l != [] {
      KeysAreDistinct(l[1..]);
      assert l == [l[0]] + l[1..];
      assert KeysOf(l) == {l[0].key} + KeysOf(l[1..]);
      assert l[0].key !in KeysOf(l[1..]);
    }
  }

  lemma Emptiness(l: seq<Entry>, data: map<NodeKey, CachedValue>)
    requires Represents(l, data)
    ensures l == [] <==> data == map[]
  {
    if l == [] {
      assert data.Keys == {};
    } else {
      assert l[0].key in data;
    }
  }

  lemma SameSize(l: seq<Entry>, data: map<NodeKey, CachedValue>)
    requires Ordered(l) && Represents(l, data)
    ensures |data| == |l| && |data.Keys| == |l|
  {
    KeysAreDistinct(l);
    assert |data| == |data.Keys|;
  }
}
