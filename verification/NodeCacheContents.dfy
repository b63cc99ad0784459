/** What the node cache itself can hold after a run of operations: the hash map may
    list its entries in any order, so each put that needs room may drop any of the
    entries written first. */
module NodeCacheContents {
  import opened Options
  import opened NodeCache
  import opened NodeCacheRuns
  import opened NodeCacheHistory

  /** An entry written no later than any other, when there is one. */
  predicate Droppable(l: seq<Entry>, victim: NodeKey) { l != [] ==> IsOldest(l, victim) }

  /** What one operation can make of the list of entries. */
  ghost predicate CanBecome(l: seq<Entry>, op: Op, version: nat, maxSize: nat, l': seq<Entry>) {
    match op
    case Put(p) =>
      exists victim ::
        Droppable(l, victim)
        && l' == PutDropping(l, Entry(p.key, CachedValue(p.payload, version, p.now)), maxSize, victim)
    case Remove(key) => l' == Without(l, key)
    case Clear => l' == []
  }

  /** A new cache of that size can hold l after these operations. */
  ghost predicate CanHold(ops: seq<Op>, maxSize: nat, l: seq<Entry>)
    decreases |ops|
  {
    if ops == [] then l == []
    else exists before ::
      CanHold(ops[..|ops| - 1], maxSize, before) && LastMakes(ops, maxSize, before, l)
  }

  ghost predicate LastMakes(ops: seq<Op>, maxSize: nat, before: seq<Entry>, l: seq<Entry>)
    requires ops != []
  {
    CanBecome(before, ops[|ops| - 1], PutCount(ops), maxSize, l)
  }

  /** The clock does not go back between puts. */
  predicate Steady(ops: seq<Op>) {
    forall i, j | 0 <= i < j < |ops| && ops[i].Put? && ops[j].Put? :: ops[i].p.now <= ops[j].p.now
  }

  /** The clock moves on between puts. */
  predicate Ticking(ops: seq<Op>) {
    forall i, j | 0 <= i < j < |ops| && ops[i].Put? && ops[j].Put? :: ops[i].p.now < ops[j].p.now
  }

  // ---- The class does what these say ----

  /** One operation on a cache. */
  method Perform(cache: NodeCache, op: Op)
    requires cache.Valid() && cache.maxSize > 0
    requires op.Put? ==> cache.clock <= op.p.now
    modifies cache
    ensures cache.Valid() && cache.maxSize == old(cache.maxSize)
    ensures cache.sequence == old(cache.sequence) + (if op.Put? then 1 else 0)
    ensures cache.clock == if op.Put? then op.p.now else old(cache.clock)
    ensures CanBecome(old(cache.entries), op, cache.sequence, cache.maxSize, cache.entries)
  {
    match op
    case Put(p) => cache.Put(p.key, p.payload, p.now);
    case Remove(key) => cache.Remove(key);
    case Clear => cache.Clear();
  }

  /** Any run of operations on a new cache. */
  method PerformAll(ops: seq<Op>, maxSize: nat, now: Time) returns (cache: NodeCache)
    requires maxSize > 0 && Steady(ops) && forall i | 0 <= i < |ops| && ops[i].Put? :: now <= ops[i].p.now
    ensures fresh(cache) && cache.Valid() && CanHold(ops, maxSize, cache.entries)
  {
    hide CanHold, CanBecome, PutCount;
    cache := new NodeCache(maxSize, now);
    NothingHeldYet(maxSize);
    var i := 0;
    while i < |ops|
      invariant 0 <= i <= |ops| && fresh(cache) && cache.Valid() && cache.maxSize == maxSize
      invariant cache.sequence == PutCount(ops[..i]) && CanHold(ops[..i], maxSize, cache.entries)
      invariant forall j | i <= j < |ops| && ops[j].Put? :: cache.clock <= ops[j].p.now
    {
      ghost var before := cache.entries;
      Perform(cache, ops[i]);
      assert ops[..i + 1] == ops[..i] + [ops[i]];
      CountAppend(ops[..i], ops[i]);
      assert CanBecome(before, ops[i], cache.sequence, maxSize, cache.entries);
      CanHoldAppend(ops[..i], ops[i], maxSize, before, cache.entries);
      i := i + 1;
    }
    assert ops[..i] == ops;
  }

  lemma CanHoldAppend(ops: seq<Op>, op: Op, maxSize: nat, before: seq<Entry>, l: seq<Entry>)
    requires CanHold(ops, maxSize, before) && CanBecome(before, op, PutCount(ops + [op]), maxSize, l)
    ensures CanHold(ops + [op], maxSize, l)
  {
    assert (ops + [op])[..|ops|] == ops;
    assert LastMakes(ops + [op], maxSize, before, l);
  }

  // ---- Whatever the clock does ----

  lemma WithoutIsSmaller(l: seq<Entry>, key: NodeKey)
    requires Sorted(l) && key in KeysOf(l)
    ensures |Without(l, key)| < |l|
  {
    WithoutIs(l, key);
    KeysAreDistinct(l);
    KeysAreDistinct(Without(l, key));
    Subset(KeysOf(Without(l, key)), KeysOf(l) - {key});
  }

  lemma DroppingIs(l: seq<Entry>, e: Entry, maxSize: nat, victim: NodeKey)
    requires Sorted(l) && |l| <= maxSize && maxSize > 0 && (l != [] ==> IsOldest(l, victim))
    requires forall x | x in l :: x.value.version < e.value.version
    ensures var l' := PutDropping(l, e, maxSize, victim);
      && Sorted(l') && |l'| <= maxSize
      && forall x | x in l' :: x == e || (x in l && x.key != e.key)
  {
    hide Without, Sorted, IsOldest;
    if e.key in KeysOf(l) {
      WithoutIs(l, e.key);
      WithoutIsSmaller(l, e.key);
      AppendSorted(Without(l, e.key), e);
    } else {
      forall x | x in l
        ensures x.key != e.key
      {
        MemberKeys(l, x);
      }
      if |l| >= maxSize && l != [] {
        OldestKey(l, victim);
        WithoutIs(l, victim);
        WithoutIsSmaller(l, victim);
        AppendSorted(Without(l, victim), e);
      } else {
        AppendSorted(l, e);
      }
    }
  }

  lemma OldestKey(l: seq<Entry>, key: NodeKey)
    requires IsOldest(l, key)
    ensures key in KeysOf(l)
  {
    var i :| 0 <= i < |l| && l[i].key == key;
    MemberKeys(l, l[i]);
  }

  lemma BecomesLatest(l: seq<Entry>, op: Op, version: nat, maxSize: nat, l': seq<Entry>)
    requires Sorted(l) && |l| <= maxSize && maxSize > 0 && CanBecome(l, op, version, maxSize, l')
    requires op.Put? ==> forall e | e in l :: e.value.version < version
    ensures Sorted(l') && |l'| <= maxSize
    ensures forall e | e in l' ::
      (e in l && !Touches(op, e.key))
      || (op.Put? && e == Entry(op.p.key, CachedValue(op.p.payload, version, op.p.now)))
  {
    hide PutDropping, Without, IsOldest, Sorted;
    match op
    case Put(p) =>
      var e := Entry(p.key, CachedValue(p.payload, version, p.now));
      var victim :| Droppable(l, victim) && l' == PutDropping(l, e, maxSize, victim);
      DroppingIs(l, e, maxSize, victim);
    case Remove(key) => WithoutIs(l, key);
    case Clear => NothingSorted(maxSize);
  }

  lemma NothingSorted(maxSize: nat)
    ensures Sorted([])
  {
  }

  /** After any run, whatever the clock does and whichever entries are dropped: the
      bound holds, and what is held for a key is its latest put, not removed since. */
  lemma {:induction false} HeldIsLatest(ops: seq<Op>, maxSize: nat, l: seq<Entry>)
    requires maxSize > 0 && CanHold(ops, maxSize, l)
    ensures |l| <= maxSize && Sorted(l)
    ensures forall e | e in l :: e.value.version <= PutCount(ops) && exists i: nat :: Untouched(ops, e, i)
    decreases |ops|
  {
    hide CanBecome, Sorted, Untouched;
    if ops == [] {
      NothingSorted(maxSize);
    } else {
      var front, op := ops[..|ops| - 1], ops[|ops| - 1];
      var before :| CanHold(front, maxSize, before) && LastMakes(ops, maxSize, before, l);
      HeldIsLatest(front, maxSize, before);
      assert ops == front + [op];
      BecomesLatest(before, op, PutCount(ops), maxSize, l);
      forall e | e in l
        ensures e.value.version <= PutCount(ops) && exists i: nat :: Untouched(ops, e, i)
      {
        if e in before && !Touches(op, e.key) {
          var i: nat :| Untouched(front, e, i);
          UntouchedAppend(front, op, e, i);
        } else {
          LastPutUntouched(ops);
        }
      }
    }
  }

  // ---- What the clock does ----

  lemma {:induction false} EarlierPut(ops: seq<Op>, a: Entry, b: Entry, i: nat, j: nat)
    requires Untouched(ops, a, i) && Untouched(ops, b, j) && a.value.version < b.value.version
    ensures i < j && a.value.updateTime == ops[i].p.now && b.value.updateTime == ops[j].p.now
  {
    if j <= i {
      CountGrows(ops, j + 1, i + 1);
    }
  }

  /** Times are in the order of the list. */
  lemma TimesInOrder(ops: seq<Op>, maxSize: nat, l: seq<Entry>)
    requires maxSize > 0 && CanHold(ops, maxSize, l)
    ensures Steady(ops) ==> Ordered(l)
    ensures Ticking(ops) ==> StrictTimes(l)
  {
    hide CanHold, Untouched;
    HeldIsLatest(ops, maxSize, l);
    forall i, j | 0 <= i < j < |l|
      ensures l[i].key != l[j].key
      ensures Steady(ops) ==> l[i].value.updateTime <= l[j].value.updateTime
      ensures Ticking(ops) ==> l[i].value.updateTime < l[j].value.updateTime
    {
      assert l[i] in l && l[j] in l;
      var m: nat :| Untouched(ops, l[i], m);
      var n: nat :| Untouched(ops, l[j], n);
      EarlierPut(ops, l[i], l[j], m, n);
      UntouchedIsPut(ops, l[i], m);
      UntouchedIsPut(ops, l[j], n);
    }
  }

  lemma UntouchedIsPut(ops: seq<Op>, e: Entry, i: nat)
    requires Untouched(ops, e, i)
    ensures i < |ops| && ops[i].Put?
  {
  }

  // ---- When the cache is the recency list ----

  /** A put that needs no room, or finds one entry alone at the oldest time. */
  predicate DropsAlone(l: seq<Entry>, op: Op, maxSize: nat) {
    op.Put? ==> op.p.key in KeysOf(l) || |l| < maxSize || OneOldest(l)
  }

  ghost predicate AlwaysAlone(ops: seq<Op>, maxSize: nat) {
    forall n: nat | n < |ops| :: DropsAlone(RunOps(ops[..n], maxSize), ops[n], maxSize)
  }

  lemma RunLast(ops: seq<Op>, maxSize: nat)
    requires ops != []
    ensures RunOps(ops, maxSize) == OpList(RunOps(ops[..|ops| - 1], maxSize), ops[|ops| - 1], PutCount(ops), maxSize)
  {
  }

  lemma StepIsList(l: seq<Entry>, op: Op, version: nat, maxSize: nat, l': seq<Entry>)
    requires Ordered(l) && DropsAlone(l, op, maxSize) && CanBecome(l, op, version, maxSize, l')
    ensures l' == OpList(l, op, version, maxSize)
  {
    hide PutDropping, PutList, IsOldest, Ordered, OneOldest, Without;
    if op.Put? {
      var e := Entry(op.p.key, CachedValue(op.p.payload, version, op.p.now));
      var victim :| Droppable(l, victim) && l' == PutDropping(l, e, maxSize, victim);
      DropsFrontIff(l, e, maxSize);
      if l == [] {
        NothingToDrop(l, e, maxSize, victim);
      }
    }
  }

  lemma PrefixSteady(ops: seq<Op>, n: nat, maxSize: nat)
    requires n <= |ops|
    ensures Steady(ops) ==> Steady(ops[..n])
    ensures Ticking(ops) ==> Ticking(ops[..n])
    ensures AlwaysAlone(ops, maxSize) ==> AlwaysAlone(ops[..n], maxSize)
  {
    hide DropsAlone, RunOps;
    forall m: nat | m < n
      ensures ops[..n][..m] == ops[..m] && ops[..n][m] == ops[m]
    {
    }
  }

  lemma {:induction false} OnlyTheList(ops: seq<Op>, maxSize: nat, l: seq<Entry>)
    requires maxSize > 0 && Steady(ops) && AlwaysAlone(ops, maxSize) && CanHold(ops, maxSize, l)
    ensures l == RunOps(ops, maxSize)
    decreases |ops|
  {
    hide CanBecome, DropsAlone, Steady, RunOps, Ordered, OpList;
    if ops == [] {
      RunNothing(maxSize);
    } else {
      var n := |ops| - 1;
      var before :| CanHold(ops[..n], maxSize, before) && LastMakes(ops, maxSize, before, l);
      PrefixSteady(ops, n, maxSize);
      OnlyTheList(ops[..n], maxSize, before);
      TimesInOrder(ops[..n], maxSize, before);
      RunLast(ops, maxSize);
      StepIsList(before, ops[n], PutCount(ops), maxSize, l);
    }
  }

  lemma RunNothing(maxSize: nat)
    ensures RunOps([], maxSize) == []
  {
  }

  lemma ListIsPossible(l: seq<Entry>, op: Op, version: nat, maxSize: nat)
    requires Ordered(l)
    ensures CanBecome(l, op, version, maxSize, OpList(l, op, version, maxSize))
  {
    hide CanBecome, Without, Ordered, PutDropping, PutList, IsOldest;
    match op
    case Put(p) =>
      var e := Entry(p.key, CachedValue(p.payload, version, p.now));
      if l != [] {
        FrontIsOldest(l);
        DropsFrontIs(l, e, maxSize);
        VictimMakes(l, p, version, maxSize, l[0].key);
      } else {
        NothingToDrop(l, e, maxSize, p.key);
        VictimMakes(l, p, version, maxSize, p.key);
      }
    case _ => SameMakes(l, op, version, maxSize);
  }

  lemma VictimMakes(l: seq<Entry>, p: PutCall, version: nat, maxSize: nat, victim: NodeKey)
    requires l != [] ==> IsOldest(l, victim)
    ensures CanBecome(l, Put(p), version, maxSize,
              PutDropping(l, Entry(p.key, CachedValue(p.payload, version, p.now)), maxSize, victim))
  {
    hide IsOldest, PutDropping;
    assert Droppable(l, victim);
  }

  lemma SameMakes(l: seq<Entry>, op: Op, version: nat, maxSize: nat)
    ensures !op.Put? ==> CanBecome(l, op, version, maxSize, OpList(l, op, version, maxSize))
  {
  }

  lemma DropsFrontIs(l: seq<Entry>, e: Entry, maxSize: nat)
    requires Ordered(l) && l != []
    ensures PutDropping(l, e, maxSize, l[0].key) == PutList(l, e, maxSize)
  {
    WithoutFirst(l);
    hide Without, Ordered;
  }

  lemma FrontIsOldest(l: seq<Entry>)
    requires Ordered(l) && l != []
    ensures IsOldest(l, l[0].key)
  {
    assert forall j | 0 <= j < |l| :: l[0].value.updateTime <= l[j].value.updateTime;
  }

  /** The recency list is always among what the cache can hold. */
  lemma {:induction false} ListCanBeHeld(ops: seq<Op>, maxSize: nat)
    requires maxSize > 0 && Steady(ops)
    ensures CanHold(ops, maxSize, RunOps(ops, maxSize))
    decreases |ops|
  {
    hide CanBecome, Steady, RunOps, Ordered, OpList;
    if ops == [] {
      RunNothing(maxSize);
    } else {
      var n := |ops| - 1;
      PrefixSteady(ops, n, maxSize);
      ListCanBeHeld(ops[..n], maxSize);
      TimesInOrder(ops[..n], maxSize, RunOps(ops[..n], maxSize));
      RunLast(ops, maxSize);
      ListIsPossible(RunOps(ops[..n], maxSize), ops[n], PutCount(ops), maxSize);
      assert LastMakes(ops, maxSize, RunOps(ops[..n], maxSize), RunOps(ops, maxSize));
    }
  }

  /** Another entry than the front can be dropped. */
  lemma TieDropsAnother(l: seq<Entry>, op: Op, version: nat, maxSize: nat) returns (l': seq<Entry>)
    requires Ordered(l) && maxSize > 0 && !DropsAlone(l, op, maxSize)
    ensures CanBecome(l, op, version, maxSize, l') && l' != OpList(l, op, version, maxSize)
  {
    hide PutDropping, PutList, Ordered, Without, IsOldest;
    var e := Entry(op.p.key, CachedValue(op.p.payload, version, op.p.now));
    DropsSecond(l, e, maxSize);
    assert Droppable(l, l[1].key);
    l' := PutDropping(l, e, maxSize, l[1].key);
  }

  /** With a clock that never goes back, the cache is the recency list throughout a
      run, in whatever order the hash map lists its entries, if and only if every put
      that needs room finds one entry alone at the oldest time. */
  lemma RecencyIff(ops: seq<Op>, maxSize: nat)
    requires maxSize > 0 && Steady(ops)
    ensures (forall n: nat, l | n <= |ops| && CanHold(ops[..n], maxSize, l) :: l == RunOps(ops[..n], maxSize))
      <==> AlwaysAlone(ops, maxSize)
  {
    hide CanHold, DropsAlone, Steady, RunOps, Ordered, OpList, CanBecome;
    if AlwaysAlone(ops, maxSize) {
      forall n: nat, l | n <= |ops| && CanHold(ops[..n], maxSize, l)
        ensures l == RunOps(ops[..n], maxSize)
      {
        PrefixSteady(ops, n, maxSize);
        OnlyTheList(ops[..n], maxSize, l);
      }
    } else {
      var n: nat :| n < |ops| && !DropsAlone(RunOps(ops[..n], maxSize), ops[n], maxSize);
      var l := TieDiverges(ops, n, maxSize);
    }
  }

  lemma TieDiverges(ops: seq<Op>, n: nat, maxSize: nat) returns (l: seq<Entry>)
    requires maxSize > 0 && Steady(ops) && n < |ops|
    requires !DropsAlone(RunOps(ops[..n], maxSize), ops[n], maxSize)
    ensures CanHold(ops[..n + 1], maxSize, l) && l != RunOps(ops[..n + 1], maxSize)
  {
    hide CanBecome, DropsAlone, Steady, RunOps, Ordered, OpList;
    var front, upTo, before := ops[..n], ops[..n + 1], RunOps(ops[..n], maxSize);
    assert upTo == front + [ops[n]] && upTo[..n] == front;
    PrefixSteady(ops, n, maxSize);
    ListCanBeHeld(front, maxSize);
    TimesInOrder(front, maxSize, before);
    RunLast(upTo, maxSize);
    l := TieDropsAnother(before, ops[n], PutCount(upTo), maxSize);
    CanHoldAppend(front, ops[n], maxSize, before, l);
  }

  /** In particular when the clock moves on between puts. */
  lemma TickingIsAlone(ops: seq<Op>, maxSize: nat)
    requires maxSize > 0 && Ticking(ops)
    ensures Steady(ops) && AlwaysAlone(ops, maxSize)
  {
    hide CanHold, RunOps;
    forall n: nat | n < |ops|
      ensures DropsAlone(RunOps(ops[..n], maxSize), ops[n], maxSize)
    {
      PrefixSteady(ops, n, maxSize);
      ListCanBeHeld(ops[..n], maxSize);
      TimesInOrder(ops[..n], maxSize, RunOps(ops[..n], maxSize));
    }
  }

  /** Three puts at one time into a cache of size 2: what is held can be the first
      and the third, so the least recently put key stays and a newer one is lost. */
  lemma TieDropsNewer()
    ensures var a, b, c := NodeKey(0, "a"), NodeKey(0, "b"), NodeKey(0, "c");
      var ops := [Put(PutCall(a, 1, 0)), Put(PutCall(b, 2, 0)), Put(PutCall(c, 3, 0))];
      && Steady(ops) && CanHold(ops, 2, [EntryAt(ops, 0), EntryAt(ops, 2)])
      && EntryAt(ops, 0).key == a && EntryAt(ops, 2).key == c
  {
    var a, b, c := NodeKey(0, "a"), NodeKey(0, "b"), NodeKey(0, "c");
    var ops := [Put(PutCall(a, 1, 0)), Put(PutCall(b, 2, 0)), Put(PutCall(c, 3, 0))];
    assert "a"[0] != "b"[0] && "a"[0] != "c"[0] && "b"[0] != "c"[0];
    ThreeAtOnce(ops, a, b, c);
  }

  lemma ThreeAtOnce(ops: seq<Op>, a: NodeKey, b: NodeKey, c: NodeKey)
    requires a != b && a != c && b != c
    requires ops == [Put(PutCall(a, 1, 0)), Put(PutCall(b, 2, 0)), Put(PutCall(c, 3, 0))]
    ensures CanHold(ops, 2, [EntryAt(ops, 0), EntryAt(ops, 2)])
  {
    hide CanHold, CanBecome, PutCount, Without, IsOldest;
    var ea, eb, ec := EntryAt(ops, 0), EntryAt(ops, 1), EntryAt(ops, 2);
    assert ops[..1] == [] + [ops[0]] && ops[..2] == ops[..1] + [ops[1]] && ops[..3] == ops[..2] + [ops[2]] == ops;
    NothingHeldYet(2);
    assert PutDropping([], ea, 2, a) == [ea];
    VictimMakes([], ops[0].p, PutCount(ops[..1]), 2, a);
    CanHoldAppend([], ops[0], 2, [], [ea]);
    OnlyOldest(ea);
    assert PutDropping([ea], eb, 2, a) == [ea, eb] by {
      assert KeysOf([ea]) == {a};
    }
    VictimMakes([ea], ops[1].p, PutCount(ops[..2]), 2, a);
    CanHoldAppend(ops[..1], ops[1], 2, [ea], [ea, eb]);
    BothOldest(ea, eb);
    assert PutDropping([ea, eb], ec, 2, b) == [ea, ec] by {
      assert KeysOf([ea, eb]) == {a, b};
    }
    VictimMakes([ea, eb], ops[2].p, PutCount(ops[..3]), 2, b);
    CanHoldAppend(ops[..2], ops[2], 2, [ea, eb], [ea, ec]);
  }

  lemma NothingHeldYet(maxSize: nat)
    ensures CanHold([], maxSize, []) && PutCount([]) == 0
  {
  }

  lemma OnlyOldest(e: Entry)
    ensures IsOldest([e], e.key)
  {
    assert [e][0] == e;
  }

  lemma BothOldest(a: Entry, b: Entry)
    requires a.value.updateTime == b.value.updateTime && a.key != b.key
    ensures IsOldest([a, b], b.key) && Without([a, b], b.key) == [a]
  {
    var l := [a, b];
    assert l[1].key == b.key && forall j | 0 <= j < 2 :: l[1].value.updateTime <= l[j].value.updateTime;
    assert l[1..] == [b] && [b][1..] == [];
    assert Without([b], b.key) == [];
  }

  // ---- What the cache holds ----

  function PutsOnly(puts: seq<PutCall>): seq<Op> { seq(|puts|, i requires 0 <= i < |puts| => Put(puts[i])) }

  lemma {:induction false} PutsOnlyRun(puts: seq<PutCall>, maxSize: nat)
    ensures RunOps(PutsOnly(puts), maxSize) == RunPuts(puts, maxSize)
    ensures PutCount(PutsOnly(puts)) == |puts|
    decreases |puts|
  {
    if puts != [] {
      var n := |puts| - 1;
      assert PutsOnly(puts)[..n] == PutsOnly(puts[..n]);
      PutsOnlyRun(puts[..n], maxSize);
    }
  }

  /** After any puts into a new cache, on a clock that moves on: the latest put of a
      key is held, with its own value and with its index as version, exactly when
      fewer than maxSize distinct keys were put after it; nothing else is held. The
      weaker condition of RecencyIff will do. */
  lemma HoldsMostRecentKeys(puts: seq<PutCall>, maxSize: nat, l: seq<Entry>)
    requires maxSize > 0 && CanHold(PutsOnly(puts), maxSize, l)
    requires Ticking(PutsOnly(puts)) || (Steady(PutsOnly(puts)) && AlwaysAlone(PutsOnly(puts), maxSize))
    ensures |l| <= maxSize
    ensures forall i: nat | IsLatest(puts, i) ::
      (puts[i].key in KeysOf(l) <==> |KeysFrom(puts, i + 1)| < maxSize)
      && (puts[i].key in KeysOf(l) ==> EntryOf(puts, i) in l)
    ensures forall e | e in l :: e.value.version > 0 && IsLatest(puts, e.value.version - 1)
                                 && e == EntryOf(puts, e.value.version - 1)
  {
    hide CanHold, Ticking, Steady, AlwaysAlone, RunPuts, RunOps;
    if Ticking(PutsOnly(puts)) {
      TickingIsAlone(PutsOnly(puts), maxSize);
    }
    OnlyTheList(PutsOnly(puts), maxSize, l);
    PutsOnlyRun(puts, maxSize);
    ListHoldsMostRecentKeys(puts, maxSize);
  }

  /** After any puts, removals and clears of a new cache, on a clock that moves on:
      a put is held, with its own value and version, if and only if nothing has
      touched its key since and at no moment since have there been as many standing
      newer keys as the cache has room for. Nothing else is held. */
  lemma HoldsStandingPutsIff(ops: seq<Op>, maxSize: nat, l: seq<Entry>)
    requires maxSize > 0 && CanHold(ops, maxSize, l)
    requires Ticking(ops) || (Steady(ops) && AlwaysAlone(ops, maxSize))
    ensures |l| <= maxSize
    ensures forall i: nat | i < |ops| && ops[i].Put? ::
      EntryAt(ops, i) in l <==> Stands(ops, i) && AlwaysRoom(ops, i, maxSize)
    ensures forall e | e in l :: exists i: nat :: Stands(ops, i) && e == EntryAt(ops, i)
  {
    hide CanHold, Ticking, Steady, AlwaysAlone, RunOps, AlwaysRoom;
    if Ticking(ops) {
      TickingIsAlone(ops, maxSize);
    }
    OnlyTheList(ops, maxSize, l);
    ListHoldsStandingPutsIff(ops, maxSize);
  }
}
