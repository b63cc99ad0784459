/** The recency list after a whole run of operations: NodeCacheContents says when
    this is what the cache holds. */
module NodeCacheRuns {
  import opened Options
  import opened NodeCache

  // ---- Runs of puts ----

  datatype PutCall = PutCall(key: NodeKey, payload: Payload, now: Time)

  /** The i-th put as an entry: versions count the puts. */
  function EntryOf(puts: seq<PutCall>, i: nat): Entry
    requires i < |puts|
  {
    Entry(puts[i].key, CachedValue(puts[i].payload, i + 1, puts[i].now))
  }

  function RunPuts(puts: seq<PutCall>, maxSize: nat): seq<Entry>
    decreases |puts|
  {
    if puts == [] then []
    else PutList(RunPuts(puts[..|puts| - 1], maxSize), EntryOf(puts, |puts| - 1), maxSize)
  }

  /** The distinct keys put from the i-th put on. */
  function KeysFrom(puts: seq<PutCall>, i: nat): set<NodeKey> {
    set j | i <= j < |puts| :: puts[j].key
  }

  predicate IsLatest(puts: seq<PutCall>, i: nat) {
    i < |puts| && forall j | i < j < |puts| :: puts[j].key != puts[i].key
  }

  function NewerKeys(l: seq<Entry>, version: nat): set<NodeKey> {
    set e | e in l && e.value.version > version :: e.key
  }

  predicate Sorted(l: seq<Entry>) {
    forall i, j | 0 <= i < j < |l| :: l[i].key != l[j].key && l[i].value.version < l[j].value.version
  }

  /** A held entry is the latest put of its key, and the keys put since are those
      held with a higher version. */
  predicate HeldOk(l: seq<Entry>, puts: seq<PutCall>, e: Entry) {
    && 0 < e.value.version <= |puts|
    && e == EntryOf(puts, e.value.version - 1)
    && IsLatest(puts, e.value.version - 1)
    && KeysFrom(puts, e.value.version) == NewerKeys(l, e.value.version)
  }

  ghost predicate Exact(l: seq<Entry>, puts: seq<PutCall>, maxSize: nat) {
    && Sorted(l) && |l| <= maxSize
    && (forall e | e in l :: HeldOk(l, puts, e))
    && (forall i: nat | IsLatest(puts, i) && puts[i].key !in KeysOf(l) :: |KeysFrom(puts, i + 1)| >= maxSize)
  }

  lemma KeysFromAppend(puts: seq<PutCall>, p: PutCall, i: nat)
    requires i <= |puts|
    ensures KeysFrom(puts + [p], i) == KeysFrom(puts, i) + {p.key}
  {
    var all := puts + [p];
    assert all[|puts|] == p;
    forall k
      ensures k in KeysFrom(all, i) <==> k in KeysFrom(puts, i) || k == p.key
    {
      if k in KeysFrom(puts, i) {
        var j :| i <= j < |puts| && puts[j].key == k;
        assert all[j].key == k;
      }
    }
  }

  lemma LatestAppend(puts: seq<PutCall>, p: PutCall, i: nat)
    requires i <= |puts|
    ensures IsLatest(puts + [p], i) <==> i == |puts| || (IsLatest(puts, i) && puts[i].key != p.key)
  {
    var all := puts + [p];
    assert all[|puts|] == p;
    assert forall j | 0 <= j < |puts| :: all[j] == puts[j];
  }

  lemma MemberKeys(l: seq<Entry>, e: Entry)
    requires e in l
    ensures e.key in KeysOf(l)
  {
  }

  lemma KeyMember(l: seq<Entry>, key: NodeKey) returns (e: Entry)
    requires key in KeysOf(l)
    ensures e in l && e.key == key
  {
    e :| e in l && e.key == key;
  }

  /** What a put leaves in the list before it appends. */
  function Kept(l: seq<Entry>, key: NodeKey, maxSize: nat): seq<Entry> {
    if key in KeysOf(l) then Without(l, key)
    else if |l| >= maxSize && l != [] then l[1..]
    else l
  }

  predicate Drops(l: seq<Entry>, key: NodeKey, maxSize: nat) {
    key !in KeysOf(l) && |l| >= maxSize && l != []
  }

  lemma SortedHead(l: seq<Entry>, e: Entry)
    requires Sorted(l) && l != [] && e in l
    ensures e == l[0] || (e.value.version > l[0].value.version && e in l[1..])
    ensures l[0] !in l[1..]
  {
    WithoutHead(l, e.key);
    forall j | 0 <= j < |l[1..]|
      ensures l[1..][j] != l[0]
    {
      assert l[1..][j] == l[j + 1];
    }
    if e in l[1..] {
      var j :| 0 <= j < |l[1..]| && l[1..][j] == e;
      assert l[j + 1] == e;
    }
  }

  lemma SortedKeys(l: seq<Entry>, a: Entry, b: Entry)
    requires Sorted(l) && a in l && b in l && a.key == b.key
    ensures a == b
  {
    var i :| 0 <= i < |l| && l[i] == a;
    var j :| 0 <= j < |l| && l[j] == b;
  }

  lemma KeptIs(l: seq<Entry>, key: NodeKey, maxSize: nat)
    requires Sorted(l)
    ensures Sorted(Kept(l, key, maxSize))
    ensures forall e :: e in Kept(l, key, maxSize) <==>
      e in l && e.key != key && !(Drops(l, key, maxSize) && e == l[0])
  {
    var r := (a: Entry, b: Entry) => a.key != b.key && a.value.version < b.value.version;
    if key in KeysOf(l) {
      assert AllPairs(l, r);
      WithoutKeepsPairs(l, key, r);
      var kept := Without(l, key);
      assert forall i, j | 0 <= i < j < |kept| :: r(kept[i], kept[j]);
    } else {
      forall e | e in l
        ensures e.key != key
        ensures e == l[0] || e in l[1..]
      {
        MemberKeys(l, e);
        SortedHead(l, e);
      }
      if l != [] {
        SortedHead(l, l[0]);
      }
    }
  }

  lemma KeptSize(l: seq<Entry>, key: NodeKey, maxSize: nat)
    requires Sorted(l) && |l| <= maxSize && maxSize > 0
    ensures |Kept(l, key, maxSize)| < maxSize
  {
    if key in KeysOf(l) {
      KeptIs(l, key, maxSize);
      var kept := Without(l, key);
      KeysAreDistinct(l);
      KeysAreDistinct(kept);
      assert KeysOf(kept) <= KeysOf(l) - {key};
      Subset(KeysOf(kept), KeysOf(l) - {key});
    }
  }

  lemma {:induction false} Subset<T>(a: set<T>, b: set<T>)
    requires a <= b
    ensures |a| <= |b|
    decreases a
  {
    if a != {} {
      var x :| x in a;
      Subset(a - {x}, b - {x});
    }
  }

  lemma NewerAppend(l: seq<Entry>, l': seq<Entry>, e: Entry, version: nat)
    requires forall x :: x in l' <==> x in l || x == e
    ensures NewerKeys(l', version) == NewerKeys(l, version) + if e.value.version > version then {e.key} else {}
  {
  }

  lemma NewerKept(l: seq<Entry>, key: NodeKey, maxSize: nat, version: nat)
    requires Sorted(l) && exists e :: e in Kept(l, key, maxSize) && e.value.version == version
    ensures NewerKeys(Kept(l, key, maxSize), version) + {key} == NewerKeys(l, version) + {key}
  {
    KeptIs(l, key, maxSize);
    var kept := Kept(l, key, maxSize);
    var held :| held in kept && held.value.version == version;
    forall k | k in NewerKeys(l, version) && k != key
      ensures k in NewerKeys(kept, version)
    {
      var e :| e in l && e.value.version > version && e.key == k;
      if Drops(l, key, maxSize) && e == l[0] {
        SortedHead(l, held);
      }
    }
  }

  /** What is kept stays exact when the new put is appended. */
  lemma KeptStaysHeld(l: seq<Entry>, puts: seq<PutCall>, p: PutCall, maxSize: nat, e: Entry)
    requires Exact(l, puts, maxSize) && e in Kept(l, p.key, maxSize)
    ensures HeldOk(PutList(l, EntryOf(puts + [p], |puts|), maxSize), puts + [p], e)
  {
    hide KeysFrom, NewerKeys, IsLatest, Without, Sorted;
    var all := puts + [p];
    var latest := EntryOf(all, |puts|);
    var kept, l' := Kept(l, p.key, maxSize), PutList(l, EntryOf(all, |puts|), maxSize);
    var v := e.value.version;
    KeptIs(l, p.key, maxSize);
    assert HeldOk(l, puts, e);
    assert l' == kept + [latest];
    NewerAppend(kept, l', latest, v);
    NewerKept(l, p.key, maxSize, v);
    KeysFromAppend(puts, p, v);
    LatestAppend(puts, p, v - 1);
  }

  lemma NewHeld(l: seq<Entry>, puts: seq<PutCall>, p: PutCall, maxSize: nat)
    requires Exact(l, puts, maxSize)
    ensures var latest := EntryOf(puts + [p], |puts|);
      HeldOk(PutList(l, latest, maxSize), puts + [p], latest)
  {
    var all := puts + [p];
    var latest := EntryOf(all, |puts|);
    var kept := Kept(l, p.key, maxSize);
    KeptIs(l, p.key, maxSize);
    assert PutList(l, latest, maxSize) == kept + [latest];
    NewerAppend(kept, kept + [latest], latest, |puts| + 1);
    forall e | e in kept
      ensures e.value.version <= |puts|
    {
      assert HeldOk(l, puts, e);
    }
    LatestAppend(puts, p, |puts|);
  }

  /** What is held before a put and not after it was dropped by it. */
  lemma OnlyDropped(l: seq<Entry>, e: Entry, maxSize: nat, key: NodeKey)
    requires Sorted(l) && key in KeysOf(l) && key !in KeysOf(PutList(l, e, maxSize))
    ensures Drops(l, e.key, maxSize) && key == l[0].key && key != e.key
  {
    var kept := Kept(l, e.key, maxSize);
    KeptIs(l, e.key, maxSize);
    assert PutList(l, e, maxSize) == kept + [e];
    MemberKeys(kept + [e], e);
    var x := KeyMember(l, key);
    if x in kept {
      MemberKeys(kept + [e], x);
    }
  }

  /** A key that is not held has had at least maxSize distinct keys put after it. */
  lemma DroppedLongAgo(l: seq<Entry>, puts: seq<PutCall>, p: PutCall, maxSize: nat, i: nat)
    requires Exact(l, puts, maxSize) && maxSize > 0
    requires IsLatest(puts + [p], i) && (puts + [p])[i].key !in KeysOf(PutList(l, EntryOf(puts + [p], |puts|), maxSize))
    ensures |KeysFrom(puts + [p], i + 1)| >= maxSize
  {
    hide KeysFrom, HeldOk, PutList, KeysOf, Sorted, Drops, Without;
    var all := puts + [p];
    var latest := EntryOf(all, |puts|);
    LatestAppend(puts, p, i);
    PutIsHeld(l, latest, maxSize);
    assert i < |puts|;
    KeysFromAppend(puts, p, i + 1);
    if puts[i].key in KeysOf(l) {
      OnlyDropped(l, latest, maxSize, puts[i].key);
      EvictedCount(l, puts, p, maxSize, i);
    } else {
      Subset(KeysFrom(puts, i + 1), KeysFrom(all, i + 1));
    }
  }

  lemma PutIsHeld(l: seq<Entry>, e: Entry, maxSize: nat)
    ensures e.key in KeysOf(PutList(l, e, maxSize))
  {
    MemberKeys(PutList(l, e, maxSize), e);
  }

  lemma EvictedCount(l: seq<Entry>, puts: seq<PutCall>, p: PutCall, maxSize: nat, i: nat)
    requires Exact(l, puts, maxSize) && Drops(l, p.key, maxSize)
    requires IsLatest(puts, i) && puts[i].key == l[0].key && puts[i].key != p.key
    ensures |KeysFrom(puts + [p], i + 1)| >= maxSize
  {
    var v := l[0].value.version;
    assert l[0] in l && HeldOk(l, puts, l[0]);
    assert i == v - 1;
    KeysFromAppend(puts, p, v);
    KeysAreDistinct(l);
    forall k | k in KeysOf(l) - {l[0].key}
      ensures k in NewerKeys(l, v)
    {
      var e := KeyMember(l, k);
      SortedHead(l, e);
    }
    assert (KeysOf(l) - {l[0].key}) + {p.key} <= KeysFrom(puts + [p], i + 1);
    Subset((KeysOf(l) - {l[0].key}) + {p.key}, KeysFrom(puts + [p], i + 1));
  }

  lemma AppendSorted(l: seq<Entry>, e: Entry)
    requires Sorted(l)
    requires forall x | x in l :: x.key != e.key && x.value.version < e.value.version
    ensures Sorted(l + [e])
  {
    assert forall i | 0 <= i < |l| :: l[i] in l;
  }

  lemma PutKeepsSorted(l: seq<Entry>, puts: seq<PutCall>, p: PutCall, maxSize: nat)
    requires Exact(l, puts, maxSize) && maxSize > 0
    ensures var l' := PutList(l, EntryOf(puts + [p], |puts|), maxSize);
      Sorted(l') && |l'| <= maxSize
  {
    var latest := EntryOf(puts + [p], |puts|);
    var kept := Kept(l, p.key, maxSize);
    KeptIs(l, p.key, maxSize);
    KeptSize(l, p.key, maxSize);
    forall e | e in kept
      ensures e.key != p.key && e.value.version < latest.value.version
    {
      assert HeldOk(l, puts, e);
    }
    AppendSorted(kept, latest);
  }

  lemma PutKeepsExact(l: seq<Entry>, puts: seq<PutCall>, p: PutCall, maxSize: nat)
    requires Exact(l, puts, maxSize) && maxSize > 0
    ensures Exact(PutList(l, EntryOf(puts + [p], |puts|), maxSize), puts + [p], maxSize)
  {
    var all := puts + [p];
    var latest := EntryOf(all, |puts|);
    var l' := PutList(l, latest, maxSize);
    PutKeepsSorted(l, puts, p, maxSize);
    forall e | e in l'
      ensures HeldOk(l', all, e)
    {
      if e in Kept(l, p.key, maxSize) {
        KeptStaysHeld(l, puts, p, maxSize, e);
      } else {
        NewHeld(l, puts, p, maxSize);
      }
    }
    hide HeldOk, KeysFrom, PutList, EntryOf, Sorted, Kept, KeysOf;
    forall i: nat | IsLatest(all, i) && all[i].key !in KeysOf(l')
      ensures |KeysFrom(all, i + 1)| >= maxSize
    {
      DroppedLongAgo(l, puts, p, maxSize, i);
    }
  }

  lemma {:induction false} RunIsExact(puts: seq<PutCall>, maxSize: nat)
    requires maxSize > 0
    ensures Exact(RunPuts(puts, maxSize), puts, maxSize)
    decreases |puts|
  {
    if puts == [] {
      assert forall i: nat :: !IsLatest(puts, i);
    } else {
      var front, last := puts[..|puts| - 1], puts[|puts| - 1];
      assert puts == front + [last];
      RunIsExact(front, maxSize);
      PutKeepsExact(RunPuts(front, maxSize), front, last, maxSize);
      hide Exact;
    }
  }

  /** After any number of puts into a list of size at least 1: the latest put of a
      key is held, with its own value and with its index as version, exactly when
      fewer than maxSize distinct keys were put after it; nothing else is held. */
  lemma ListHoldsMostRecentKeys(puts: seq<PutCall>, maxSize: nat)
    requires maxSize > 0
    ensures var l := RunPuts(puts, maxSize);
      && |l| <= maxSize
      && (forall i: nat | IsLatest(puts, i) ::
            (puts[i].key in KeysOf(l) <==> |KeysFrom(puts, i + 1)| < maxSize)
            && (puts[i].key in KeysOf(l) ==> EntryOf(puts, i) in l))
      && (forall e | e in l :: e.value.version > 0 && IsLatest(puts, e.value.version - 1)
                               && e == EntryOf(puts, e.value.version - 1))
  {
    var l := RunPuts(puts, maxSize);
    RunIsExact(puts, maxSize);
    forall e | e in l
      ensures HeldOk(l, puts, e)
    {
    }
    forall i: nat | IsLatest(puts, i)
      ensures puts[i].key in KeysOf(l) <==> |KeysFrom(puts, i + 1)| < maxSize
      ensures puts[i].key in KeysOf(l) ==> EntryOf(puts, i) in l
    {
      if puts[i].key in KeysOf(l) {
        var e := KeyMember(l, puts[i].key);
        assert HeldOk(l, puts, e) && e.value.version - 1 == i;
        NewerIsFewer(l, e, maxSize);
      }
    }
  }

  lemma NewerIsFewer(l: seq<Entry>, e: Entry, maxSize: nat)
    requires Sorted(l) && e in l && |l| <= maxSize
    ensures |NewerKeys(l, e.value.version)| < maxSize
  {
    KeysAreDistinct(l);
    MemberKeys(l, e);
    forall k | k in NewerKeys(l, e.value.version)
      ensures k in KeysOf(l) - {e.key}
    {
      var x :| x in l && x.value.version > e.value.version && x.key == k;
      if x.key == e.key {
        SortedKeys(l, x, e);
      }
    }
    Subset(NewerKeys(l, e.value.version), KeysOf(l) - {e.key});
  }

  // ---- Runs of any operations ----

  datatype Op = Put(p: PutCall) | Remove(key: NodeKey) | Clear

  function PutCount(ops: seq<Op>): nat
    decreases |ops|
  {
    if ops == [] then 0
    else PutCount(ops[..|ops| - 1]) + if ops[|ops| - 1].Put? then 1 else 0
  }

  function RunOps(ops: seq<Op>, maxSize: nat): seq<Entry>
    decreases |ops|
  {
    if ops == [] then []
    else
      var l := RunOps(ops[..|ops| - 1], maxSize);
      match ops[|ops| - 1]
      case Put(p) => PutList(l, Entry(p.key, CachedValue(p.payload, PutCount(ops), p.now)), maxSize)
      case Remove(key) => Without(l, key)
      case Clear => []
  }

  predicate Touches(op: Op, key: NodeKey) {
    match op
    case Put(p) => p.key == key
    case Remove(k) => k == key
    case Clear => true
  }

  /** The entry of the put at position i, which nothing has touched since. */
  predicate Untouched(ops: seq<Op>, e: Entry, i: nat) {
    && i < |ops| && ops[i].Put?
    && e == Entry(ops[i].p.key, CachedValue(ops[i].p.payload, PutCount(ops[..i + 1]), ops[i].p.now))
    && forall j | i < j < |ops| :: !Touches(ops[j], e.key)
  }

  lemma UntouchedAppend(ops: seq<Op>, op: Op, e: Entry, i: nat)
    requires Untouched(ops, e, i) && !Touches(op, e.key)
    ensures Untouched(ops + [op], e, i)
  {
    assert (ops + [op])[..i + 1] == ops[..i + 1];
  }

  lemma LastPutUntouched(ops: seq<Op>)
    requires ops != [] && ops[|ops| - 1].Put?
    ensures var p := ops[|ops| - 1].p;
      Untouched(ops, Entry(p.key, CachedValue(p.payload, PutCount(ops), p.now)), |ops| - 1)
  {
    assert ops[..|ops|] == ops;
  }

  /** After any run of puts, removals and clears, the bound holds, each key is held
      once, and what is held for a key is its latest put, not removed since. */
  lemma {:induction false} ListHoldsLatest(ops: seq<Op>, maxSize: nat)
    requires maxSize > 0
    ensures var l := RunOps(ops, maxSize);
      && |l| <= maxSize
      && Sorted(l)
      && (forall e | e in l :: e.value.version <= PutCount(ops) && exists i: nat :: Untouched(ops, e, i))
    decreases |ops|
  {
    if ops != [] {
      var front, op := ops[..|ops| - 1], ops[|ops| - 1];
      var before, l := RunOps(front, maxSize), RunOps(ops, maxSize);
      ListHoldsLatest(front, maxSize);
      assert ops == front + [op];
      RunStep(before, op, PutCount(ops), maxSize);
      forall e | e in l
        ensures e.value.version <= PutCount(ops) && exists i: nat :: Untouched(ops, e, i)
      {
        if e in before && !Touches(op, e.key) {
          var i: nat :| Untouched(front, e, i);
          UntouchedAppend(front, op, e, i);
        } else {
          LastPutUntouched(ops);
        }
      }
    }
  }

  lemma RunStep(l: seq<Entry>, op: Op, version: nat, maxSize: nat)
    requires Sorted(l) && |l| <= maxSize && maxSize > 0
    requires op.Put? ==> forall e | e in l :: e.value.version < version
    ensures var l' := match op
      case Put(p) => PutList(l, Entry(p.key, CachedValue(p.payload, version, p.now)), maxSize)
      case Remove(key) => Without(l, key)
      case Clear => [];
      && Sorted(l') && |l'| <= maxSize
      && forall e | e in l' ::
           (e in l && !Touches(op, e.key))
           || (op.Put? && e == Entry(op.p.key, CachedValue(op.p.payload, version, op.p.now)))
  {
    match op
    case Clear =>
    case Put(p) =>
      hide Without, Sorted;
      KeptIs(l, p.key, maxSize);
      KeptSize(l, p.key, maxSize);
      AppendSorted(Kept(l, p.key, maxSize), Entry(p.key, CachedValue(p.payload, version, p.now)));
    case Remove(key) =>
      WithoutIs(l, key);
  }

  lemma WithoutIs(l: seq<Entry>, key: NodeKey)
    requires Sorted(l)
    ensures Sorted(Without(l, key)) && |Without(l, key)| <= |l|
    ensures forall e :: e in Without(l, key) <==> e in l && e.key != key
  {
    var r := (a: Entry, b: Entry) => a.key != b.key && a.value.version < b.value.version;
    assert AllPairs(l, r);
    WithoutKeepsPairs(l, key, r);
    var kept := Without(l, key);
    assert forall i, j | 0 <= i < j < |kept| :: r(kept[i], kept[j]);
    KeysAreDistinct(l);
    KeysAreDistinct(kept);
    Subset(KeysOf(kept), KeysOf(l));
  }
}
