/** Exactly which puts the recency list still holds after removals and clears. */
module NodeCacheHistory {
  import opened Options
  import opened NodeCache
  import opened NodeCacheRuns

  /** The put at position i, with its version: how many puts there were by then. */
  function EntryAt(ops: seq<Op>, i: nat): Entry
    requires i < |ops| && ops[i].Put?
  {
    Entry(ops[i].p.key, CachedValue(ops[i].p.payload, PutCount(ops[..i + 1]), ops[i].p.now))
  }

  /** A put whose key no later operation touches. */
  predicate Stands(ops: seq<Op>, i: nat) {
    i < |ops| && ops[i].Put? && forall j | i < j < |ops| :: !Touches(ops[j], ops[i].p.key)
  }

  /** The keys of the standing puts after position i. */
  function StandingAfter(ops: seq<Op>, i: nat): set<NodeKey> {
    set j: nat | i < j < |ops| && Stands(ops, j) :: ops[j].p.key
  }

  /** Since the put at position i there have never been as many standing newer keys
      as the cache has room for. */
  predicate AlwaysRoom(ops: seq<Op>, i: nat, maxSize: nat) {
    forall n: nat | i < n <= |ops| :: |StandingAfter(ops[..n], i)| < maxSize
  }

  // ---- One more operation ----

  lemma StandsAppend(ops: seq<Op>, op: Op, i: nat)
    requires i <= |ops|
    ensures Stands(ops + [op], i) <==>
      if i == |ops| then op.Put? else Stands(ops, i) && !Touches(op, ops[i].p.key)
  {
    var all := ops + [op];
    assert all[|ops|] == op;
    assert forall j | 0 <= j < |ops| :: all[j] == ops[j];
  }

  lemma EntryAppend(ops: seq<Op>, op: Op, i: nat)
    requires i < |ops| && ops[i].Put?
    ensures EntryAt(ops + [op], i) == EntryAt(ops, i)
  {
    assert (ops + [op])[..i + 1] == ops[..i + 1];
  }

  lemma StandingAppend(ops: seq<Op>, op: Op, i: nat)
    requires i < |ops|
    ensures StandingAfter(ops + [op], i) ==
      match op
      case Put(p) => StandingAfter(ops, i) + {p.key}
      case Remove(key) => StandingAfter(ops, i) - {key}
      case Clear => {}
  {
    hide Stands;
    var all := ops + [op];
    assert all[|ops|] == op;
    assert forall j | 0 <= j < |ops| :: all[j] == ops[j];
    StandsAppend(ops, op, |ops|);
    forall k
      ensures k in StandingAfter(all, i) <==>
        (op.Put? && k == op.p.key) || (k in StandingAfter(ops, i) && !Touches(op, k))
    {
      StandingKey(ops, op, i, k);
    }
  }

  lemma StandingKey(ops: seq<Op>, op: Op, i: nat, k: NodeKey)
    requires i < |ops|
    ensures k in StandingAfter(ops + [op], i) <==>
      (op.Put? && k == op.p.key) || (k in StandingAfter(ops, i) && !Touches(op, k))
  {
    var all := ops + [op];
    assert all[|ops|] == op;
    StandsAppend(ops, op, |ops|);
    if k in StandingAfter(all, i) {
      var j: nat :| i < j < |all| && Stands(all, j) && all[j].p.key == k;
      StandsAppend(ops, op, j);
    }
    if k in StandingAfter(ops, i) && !Touches(op, k) {
      var j: nat :| i < j < |ops| && Stands(ops, j) && ops[j].p.key == k;
      StandsAppend(ops, op, j);
      assert all[j] == ops[j];
    }
  }

  lemma RoomAppend(ops: seq<Op>, op: Op, i: nat, maxSize: nat)
    requires i < |ops|
    ensures AlwaysRoom(ops + [op], i, maxSize) <==>
      AlwaysRoom(ops, i, maxSize) && |StandingAfter(ops + [op], i)| < maxSize
  {
    hide StandingAfter;
    var all := ops + [op];
    assert forall n: nat | n <= |ops| :: all[..n] == ops[..n];
    assert all[..|all|] == all;
  }

  lemma RoomAtFirst(ops: seq<Op>, p: PutCall, maxSize: nat)
    requires maxSize > 0
    ensures AlwaysRoom(ops + [Put(p)], |ops|, maxSize) && StandingAfter(ops + [Put(p)], |ops|) == {}
  {
    var all := ops + [Put(p)];
    assert all[..|all|] == all;
  }

  // ---- The invariant ----

  /** A standing put is held exactly when there was always room, and then the newer
      keys held are the standing newer keys. */
  ghost predicate Held(l: seq<Entry>, ops: seq<Op>, maxSize: nat, i: nat)
    requires Stands(ops, i)
  {
    && (EntryAt(ops, i) in l <==> AlwaysRoom(ops, i, maxSize))
    && (EntryAt(ops, i) in l ==> NewerKeys(l, EntryAt(ops, i).value.version) == StandingAfter(ops, i))
  }

  ghost predicate ExactlyHeld(l: seq<Entry>, ops: seq<Op>, maxSize: nat) {
    && (forall i: nat | Stands(ops, i) :: Held(l, ops, maxSize, i))
    && (forall e | e in l :: exists i: nat :: Stands(ops, i) && e == EntryAt(ops, i))
  }

  /** What one operation does to the list; the version is that of a put. */
  function OpList(l: seq<Entry>, op: Op, version: nat, maxSize: nat): seq<Entry> {
    match op
    case Put(p) => PutList(l, Entry(p.key, CachedValue(p.payload, version, p.now)), maxSize)
    case Remove(key) => Without(l, key)
    case Clear => []
  }

  lemma NewerSize(l: seq<Entry>, e: Entry, maxSize: nat)
    requires Sorted(l) && |l| <= maxSize && e in l
    ensures |NewerKeys(l, e.value.version)| < maxSize
  {
    NewerIsFewer(l, e, maxSize);
  }

  /** A put keeps an older entry unless it drops it, and then everything else that
      was held is newer. */
  lemma PutAndOlder(l: seq<Entry>, latest: Entry, maxSize: nat, e: Entry)
    requires Sorted(l) && |l| <= maxSize && maxSize > 0 && e in l && e.key != latest.key
    requires forall x | x in l :: x.value.version < latest.value.version
    ensures var l' := PutList(l, latest, maxSize);
      if e in l' then NewerKeys(l', e.value.version) == NewerKeys(l, e.value.version) + {latest.key}
      else |NewerKeys(l, e.value.version) + {latest.key}| >= maxSize
  {
    var kept := Kept(l, latest.key, maxSize);
    var l' := PutList(l, latest, maxSize);
    KeptIs(l, latest.key, maxSize);
    assert l' == kept + [latest];
    if e in kept {
      NewerAppend(kept, l', latest, e.value.version);
      NewerKept(l, latest.key, maxSize, e.value.version);
    } else {
      assert e == l[0] && e != latest;
      OthersAreNewer(l, latest.key);
    }
  }

  lemma OthersAreNewer(l: seq<Entry>, key: NodeKey)
    requires Sorted(l) && l != [] && key !in KeysOf(l)
    ensures |NewerKeys(l, l[0].value.version) + {key}| >= |l|
  {
    KeysAreDistinct(l);
    MemberKeys(l, l[0]);
    forall k | k in KeysOf(l) - {l[0].key}
      ensures k in NewerKeys(l, l[0].value.version)
    {
      var e := KeyMember(l, k);
      SortedHead(l, e);
    }
    Subset((KeysOf(l) - {l[0].key}) + {key}, NewerKeys(l, l[0].value.version) + {key});
  }

  lemma RemoveAndOlder(l: seq<Entry>, key: NodeKey, e: Entry)
    requires Sorted(l) && e in l && e.key != key
    ensures e in Without(l, key)
    ensures NewerKeys(Without(l, key), e.value.version) == NewerKeys(l, e.value.version) - {key}
  {
    WithoutIs(l, key);
    hide Without;
  }

  /** The keys of a put that stood before and still stands. */
  lemma StillHeld(l: seq<Entry>, ops: seq<Op>, op: Op, maxSize: nat, i: nat)
    requires Sorted(l) && |l| <= maxSize && maxSize > 0
    requires forall x | x in l :: x.value.version <= PutCount(ops)
    requires i < |ops| && Stands(ops, i) && Held(l, ops, maxSize, i) && Stands(ops + [op], i)
    ensures Held(OpList(l, op, PutCount(ops + [op]), maxSize), ops + [op], maxSize, i)
  {
    hide AlwaysRoom, StandingAfter, Without, PutList, NewerKeys, EntryAt;
    var all, e := ops + [op], EntryAt(ops, i);
    var l' := OpList(l, op, PutCount(all), maxSize);
    EntryKey(ops, i);
    EntryAppend(ops, op, i);
    StandsAppend(ops, op, i);
    RoomAppend(ops, op, i, maxSize);
    StandingAppend(ops, op, i);
    CountAppend(ops, op);
    if e in l {
      match op
      case Put(p) =>
        var latest := Entry(p.key, CachedValue(p.payload, PutCount(all), p.now));
        PutAndOlder(l, latest, maxSize, e);
        if e in l' {
          OpSorted(l, op, PutCount(all), maxSize);
          NewerSize(l', e, maxSize);
        }
      case Remove(key) =>
        RemoveAndOlder(l, key, e);
        OpSorted(l, op, PutCount(all), maxSize);
        NewerSize(l', e, maxSize);
      case Clear =>
    } else {
      NotBack(l, op, PutCount(all), maxSize, e);
    }
  }

  lemma EntryKey(ops: seq<Op>, i: nat)
    requires i < |ops| && ops[i].Put?
    ensures EntryAt(ops, i).key == ops[i].p.key
  {
  }

  lemma CountAppend(ops: seq<Op>, op: Op)
    ensures PutCount(ops + [op]) == PutCount(ops) + if op.Put? then 1 else 0
  {
    assert (ops + [op])[..|ops|] == ops;
  }

  lemma OpSorted(l: seq<Entry>, op: Op, version: nat, maxSize: nat)
    requires Sorted(l) && |l| <= maxSize && maxSize > 0
    requires op.Put? ==> forall e | e in l :: e.value.version < version
    ensures Sorted(OpList(l, op, version, maxSize)) && |OpList(l, op, version, maxSize)| <= maxSize
  {
    RunStep(l, op, version, maxSize);
  }

  /** What was dropped does not come back. */
  lemma NotBack(l: seq<Entry>, op: Op, version: nat, maxSize: nat, e: Entry)
    requires Sorted(l) && |l| <= maxSize && maxSize > 0 && e !in l && !Touches(op, e.key)
    requires op.Put? ==> forall x | x in l :: x.value.version < version
    ensures e !in OpList(l, op, version, maxSize)
  {
    RunStep(l, op, version, maxSize);
  }

  lemma NewlyHeld(l: seq<Entry>, ops: seq<Op>, p: PutCall, maxSize: nat)
    requires Sorted(l) && |l| <= maxSize && maxSize > 0
    requires forall x | x in l :: x.value.version <= PutCount(ops)
    ensures Stands(ops + [Put(p)], |ops|)
    ensures Held(OpList(l, Put(p), PutCount(ops + [Put(p)]), maxSize), ops + [Put(p)], maxSize, |ops|)
  {
    hide AlwaysRoom, StandingAfter;
    var all := ops + [Put(p)];
    var latest := EntryAt(all, |ops|);
    assert all[..|ops| + 1] == all;
    CountAppend(ops, Put(p));
    RoomAtFirst(ops, p, maxSize);
    var kept := Kept(l, p.key, maxSize);
    KeptIs(l, p.key, maxSize);
    assert PutList(l, latest, maxSize) == kept + [latest];
    NewerAppend(kept, kept + [latest], latest, latest.value.version);
  }

  lemma StepExact(l: seq<Entry>, ops: seq<Op>, op: Op, maxSize: nat)
    requires Sorted(l) && |l| <= maxSize && maxSize > 0 && ExactlyHeld(l, ops, maxSize)
    requires forall x | x in l :: x.value.version <= PutCount(ops)
    ensures ExactlyHeld(OpList(l, op, PutCount(ops + [op]), maxSize), ops + [op], maxSize)
  {
    hide Held, OpList, EntryAt, Touches, Sorted;
    var all := ops + [op];
    var l' := OpList(l, op, PutCount(all), maxSize);
    forall i: nat | Stands(all, i)
      ensures Held(l', all, maxSize, i)
    {
      if i < |ops| {
        StandsAppend(ops, op, i);
        StillHeld(l, ops, op, maxSize, i);
      } else {
        StandsAppend(ops, op, i);
        NewlyHeld(l, ops, op.p, maxSize);
      }
    }
    forall e | e in l'
      ensures exists i: nat :: Stands(all, i) && e == EntryAt(all, i)
    {
      FromStanding(l, ops, op, maxSize, e);
    }
  }

  lemma FromStanding(l: seq<Entry>, ops: seq<Op>, op: Op, maxSize: nat, e: Entry)
    requires Sorted(l) && |l| <= maxSize && maxSize > 0 && ExactlyHeld(l, ops, maxSize)
    requires forall x | x in l :: x.value.version <= PutCount(ops)
    requires e in OpList(l, op, PutCount(ops + [op]), maxSize)
    ensures exists i: nat :: Stands(ops + [op], i) && e == EntryAt(ops + [op], i)
  {
    hide Held, Sorted, Without, PutList;
    CountAppend(ops, op);
    RunStep(l, op, PutCount(ops + [op]), maxSize);
    if e in l && !Touches(op, e.key) {
      var i: nat :| Stands(ops, i) && e == EntryAt(ops, i);
      EntryKey(ops, i);
      StandsAppend(ops, op, i);
      EntryAppend(ops, op, i);
    } else {
      StandsAppend(ops, op, |ops|);
      assert (ops + [op])[..|ops| + 1] == ops + [op];
    }
  }

  lemma {:induction false} RunExactlyHeld(ops: seq<Op>, maxSize: nat)
    requires maxSize > 0
    ensures ExactlyHeld(RunOps(ops, maxSize), ops, maxSize)
    decreases |ops|
  {
    hide ExactlyHeld, Sorted, Without, PutList, PutCount, Untouched;
    if ops == [] {
      NothingHeld(maxSize);
    } else {
      var front, op := ops[..|ops| - 1], ops[|ops| - 1];
      RunExactlyHeld(front, maxSize);
      ListHoldsLatest(front, maxSize);
      StepExact(RunOps(front, maxSize), front, op, maxSize);
      assert ops == front + [op];
    }
  }

  lemma NothingHeld(maxSize: nat)
    ensures ExactlyHeld([], [], maxSize)
  {
  }

  /** After any run of puts, removals and clears, a put is held, with its own value
      and version, if and only if nothing has touched its key since and at no moment
      since have there been as many standing newer keys as the cache has room for.
      Nothing else is held. */
  lemma ListHoldsStandingPutsIff(ops: seq<Op>, maxSize: nat)
    requires maxSize > 0
    ensures var l := RunOps(ops, maxSize);
      && |l| <= maxSize
      && (forall i: nat | i < |ops| && ops[i].Put? ::
            EntryAt(ops, i) in l <==> Stands(ops, i) && AlwaysRoom(ops, i, maxSize))
      && (forall e | e in l :: exists i: nat :: Stands(ops, i) && e == EntryAt(ops, i))
  {
    hide AlwaysRoom, StandingAfter, RunOps, Sorted;
    var l := RunOps(ops, maxSize);
    RunExactlyHeld(ops, maxSize);
    ListHoldsLatest(ops, maxSize);
    forall i: nat | i < |ops| && ops[i].Put?
      ensures EntryAt(ops, i) in l <==> Stands(ops, i) && AlwaysRoom(ops, i, maxSize)
    {
      if EntryAt(ops, i) in l {
        var j: nat :| Stands(ops, j) && EntryAt(ops, i) == EntryAt(ops, j);
        SameVersion(ops, i, j);
      }
      assert Stands(ops, i) ==> Held(l, ops, maxSize, i);
    }
  }

  /** Puts at different positions have different versions. */
  lemma SameVersion(ops: seq<Op>, i: nat, j: nat)
    requires i < |ops| && j < |ops| && ops[i].Put? && ops[j].Put?
    requires PutCount(ops[..i + 1]) == PutCount(ops[..j + 1])
    ensures i == j
  {
    if i < j {
      CountGrows(ops, i + 1, j);
      CountStep(ops, j);
    } else if j < i {
      CountGrows(ops, j + 1, i);
      CountStep(ops, i);
    }
  }

  lemma CountStep(ops: seq<Op>, i: nat)
    requires i < |ops|
    ensures PutCount(ops[..i + 1]) == PutCount(ops[..i]) + if ops[i].Put? then 1 else 0
  {
    assert ops[..i + 1][..i] == ops[..i];
  }

  lemma {:induction false} CountGrows(ops: seq<Op>, i: nat, j: nat)
    requires i <= j <= |ops|
    ensures PutCount(ops[..i]) <= PutCount(ops[..j])
    decreases j
  {
    if i < j {
      CountGrows(ops, i, j - 1);
      CountStep(ops, j - 1);
    }
  }
}
