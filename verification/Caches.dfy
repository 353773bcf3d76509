/** The two cache backends: a bounded dictionary that evicts its oldest tenth when full, and one file
    per key.  Times are integers; an item with no lifetime, or -1, never expires. */
module Caches {
  import opened Prelude
  import opened StableSort

  datatype Item = Item(key: string, value: int, ttl: Option<int>, created: int)

  function Born(i: Item): int { i.created }

  predicate Expired(i: Item, now: int) {
    i.ttl != None && i.ttl != Some(-1) && i.created + i.ttl.value < now
  }

  // ---------- the insertion-ordered dictionary ----------

  ghost predicate UniqueItems(s: seq<Item>) {
    forall i, j :: 0 <= i < j < |s| ==> s[i].key != s[j].key
  }

  function Position(s: seq<Item>, k: string): (i: nat)
    ensures i <= |s| && (i < |s| ==> s[i].key == k) && forall j :: 0 <= j < i ==> s[j].key != k
  {
    if s == [] || s[0].key == k then 0
    else
      var i := Position(s[1..], k);
      assert forall j :: 1 <= j <= i ==> s[j] == s[1..][j - 1];
      i + 1
  }

  /** Assignment keeps the position of a key that is present. */
  function Store(s: seq<Item>, x: Item): seq<Item> {
    var i := Position(s, x.key);
    if i < |s| then s[i := x] else s + [x]
  }

  function Drop(s: seq<Item>, k: string): seq<Item> {
    var i := Position(s, k);
    if i < |s| then s[..i] + s[i + 1..] else s
  }

  function DropAll(s: seq<Item>, victims: seq<Item>): seq<Item> {
    if victims == [] then s else Drop(DropAll(s, victims[..|victims| - 1]), victims[|victims| - 1].key)
  }

  function Take(s: seq<Item>, n: nat): seq<Item> {
    if n <= |s| then s[..n] else s
  }

  /** The oldest n, ties in dictionary order. */
  function Victims(s: seq<Item>, n: nat): seq<Item> {
    Take(SortBy(s, Born), n)
  }

  function Evict(s: seq<Item>, n: nat): seq<Item> {
    DropAll(s, Victims(s, n))
  }

  function InsertItem(s: seq<Item>, x: Item, max: nat): seq<Item> {
    var t := Store(s, x);
    if |t| >= max then Evict(t, max / 10) else t
  }

  // ---------- facts about the dictionary ----------

  lemma StoreProps(s: seq<Item>, x: Item)
    requires UniqueItems(s)
    ensures UniqueItems(Store(s, x))
    ensures |Store(s, x)| == if Position(s, x.key) < |s| then |s| else |s| + 1
    ensures forall y :: y in Store(s, x) <==> y == x || (y in s && y.key != x.key)
    ensures forall j :: 0 <= j < |s| && s[j].key != x.key ==> Store(s, x)[j] == s[j]
  {
    var i := Position(s, x.key);
    var t := Store(s, x);
    if i < |s| {
      assert t[i] == x;
      assert forall j :: 0 <= j < |s| && j != i ==> t[j] == s[j] && s[j].key != x.key;
      forall y ensures y in t <==> y == x || (y in s && y.key != x.key) {
        if y in s && y.key != x.key { var j :| 0 <= j < |s| && s[j] == y; assert t[j] == y; }
      }
    }
  }

  /** Deleting shifts the later entries down by one. */
  lemma CutAt(s: seq<Item>, i: nat)
    requires i < |s|
    ensures var t := s[..i] + s[i + 1..];
      |t| == |s| - 1 && forall j :: 0 <= j < |t| ==> t[j] == s[if j < i then j else j + 1]
  {
  }

  lemma DropShape(s: seq<Item>, k: string)
    ensures var i := Position(s, k); var t := Drop(s, k);
      && (i == |s| ==> t == s)
      && (i < |s| ==> |t| == |s| - 1 && forall j :: 0 <= j < |t| ==> t[j] == s[if j < i then j else j + 1])
  {
    var i := Position(s, k);
    if i < |s| { CutAt(s, i); }
  }

  lemma DropUnique(s: seq<Item>, k: string)
    requires UniqueItems(s)
    ensures UniqueItems(Drop(s, k))
  {
    var i, t := Position(s, k), Drop(s, k);
    DropShape(s, k);
    if i < |s| {
      forall a, b | 0 <= a < b < |t| ensures t[a].key != t[b].key {
        assert t[a] == s[if a < i then a else a + 1] && t[b] == s[if b < i then b else b + 1];
      }
    }
  }

  lemma DropKeeps(s: seq<Item>, k: string, j: nat)
    requires j < |s| && s[j].key != k
    ensures s[j] in Drop(s, k)
  {
    var i, t := Position(s, k), Drop(s, k);
    DropShape(s, k);
    if i < |s| { assert t[if j < i then j else j - 1] == s[j]; }
  }

  lemma DropDrops(s: seq<Item>, k: string, j: nat)
    requires UniqueItems(s) && j < |Drop(s, k)|
    ensures Drop(s, k)[j] in s && Drop(s, k)[j].key != k
  {
    DropShape(s, k);
  }

  lemma DropProps(s: seq<Item>, k: string)
    requires UniqueItems(s)
    ensures UniqueItems(Drop(s, k))
    ensures forall y :: y in Drop(s, k) <==> y in s && y.key != k
    ensures |Drop(s, k)| == if Position(s, k) < |s| then |s| - 1 else |s|
  {
    DropShape(s, k);
    DropUnique(s, k);
    forall y ensures y in Drop(s, k) <==> y in s && y.key != k {
      if y in s && y.key != k {
        var j :| 0 <= j < |s| && s[j] == y;
        DropKeeps(s, k, j);
      }
      if y in Drop(s, k) {
        var j :| 0 <= j < |Drop(s, k)| && Drop(s, k)[j] == y;
        DropDrops(s, k, j);
      }
    }
  }

  lemma {:induction false} DropAllProps(s: seq<Item>, victims: seq<Item>)
    requires UniqueItems(s) && NoDup(victims) && forall v :: v in victims ==> v in s
    ensures UniqueItems(DropAll(s, victims))
    ensures |DropAll(s, victims)| == |s| - |victims|
    ensures forall y :: y in DropAll(s, victims) <==> y in s && y !in victims
  {
    if victims != [] {
      var n := |victims| - 1;
      var v := victims[n];
      assert victims == victims[..n] + [v];
      assert forall w :: w in victims[..n] ==> w in victims;
      DropAllProps(s, victims[..n]);
      var t := DropAll(s, victims[..n]);
      DropProps(t, v.key);
      assert v !in victims[..n];
      assert v in s && v in t;
      assert Position(t, v.key) < |t|;
      SameKeySame(s, v);
    }
  }

  lemma SameKeySame(s: seq<Item>, v: Item)
    requires UniqueItems(s) && v in s
    ensures forall y :: y in s && y.key == v.key ==> y == v
  {
  }

  lemma NoDupFromUnique(s: seq<Item>, t: seq<Item>)
    requires UniqueItems(s) && multiset(t) == multiset(s)
    ensures NoDup(t)
  {
    forall i, j | 0 <= i < j < |t| ensures t[i] != t[j] {
      if t[i] == t[j] {
        var x := t[i];
        assert t == t[..j] + ([t[j]] + t[j + 1..]);
        assert multiset(t) == multiset(t[..j]) + multiset([t[j]]) + multiset(t[j + 1..]);
        assert t[..j][i] == x;
        assert x in multiset(t[..j]);
        assert multiset(t)[x] >= 2;
        CountUnique(s, x);
      }
    }
  }

  lemma {:induction false} CountUnique(s: seq<Item>, x: Item)
    requires UniqueItems(s)
    ensures multiset(s)[x] <= 1
  {
    if s != [] {
      CountUnique(s[1..], x);
      assert s == [s[0]] + s[1..];
      if s[0] == x { assert x !in s[1..]; }
    }
  }

  lemma VictimsMembers(s: seq<Item>, n: nat)
    requires UniqueItems(s) && n <= |s|
    ensures |Victims(s, n)| == n && NoDup(Victims(s, n)) && forall v :: v in Victims(s, n) ==> v in s
  {
    SortByProps(s, Born);
    NoDupFromUnique(s, SortBy(s, Born));
  }

  lemma OldestGo(s: seq<Item>, n: nat, gone: Item, kept: Item)
    requires n <= |s| && gone in Victims(s, n) && kept in s && kept !in Victims(s, n)
    ensures gone.created <= kept.created
  {
    var sorted := SortBy(s, Born);
    SortByProps(s, Born);
    var i :| 0 <= i < n && Victims(s, n)[i] == gone;
    assert sorted == sorted[..n] + sorted[n..];
    assert kept in sorted[n..];
    var j :| 0 <= j < |sorted| - n && sorted[n..][j] == kept;
    assert Born(sorted[i]) <= Born(sorted[n + j]);
  }

  /** An eviction removes exactly n items, and none of them is newer than any that stays. */
  lemma EvictProps(s: seq<Item>, n: nat)
    requires UniqueItems(s) && n <= |s|
    ensures UniqueItems(Evict(s, n)) && |Evict(s, n)| == |s| - n
    ensures forall y :: y in Evict(s, n) <==> y in s && y !in Victims(s, n)
    ensures forall gone, kept :: gone in s && gone !in Evict(s, n) && kept in Evict(s, n) ==> gone.created <= kept.created
  {
    VictimsMembers(s, n);
    DropAllProps(s, Victims(s, n));
    forall gone, kept | gone in s && gone !in Evict(s, n) && kept in Evict(s, n) ensures gone.created <= kept.created {
      OldestGo(s, n, gone, kept);
    }
  }

  /** The last of the newest items comes last in the sorted order, ties included. */
  lemma {:induction false} LastStaysLast(s: seq<Item>, x: Item)
    requires forall y :: y in s ==> y.created <= x.created
    ensures SortBy(s + [x], Born) == SortBy(s, Born) + [x]
  {
    if s == [] {
      assert [] + [x] == [x] && [x][1..] == [];
    } else {
      assert (s + [x])[1..] == s[1..] + [x];
      LastStaysLast(s[1..], x);
      InsertBeforeLast(s[0], SortBy(s[1..], Born), x);
    }
  }

  lemma {:induction false} InsertBeforeLast(y: Item, s: seq<Item>, x: Item)
    requires y.created <= x.created
    ensures Insert(y, s + [x], Born) == Insert(y, s, Born) + [x]
  {
    if s == [] {
      assert [] + [x] == [x];
      assert [y] + [x] == [y] + [] + [x];
    } else if Born(y) <= Born(s[0]) {
      assert (s + [x])[0] == s[0];
      assert [y] + (s + [x]) == [y] + s + [x];
    } else {
      assert (s + [x])[0] == s[0] && (s + [x])[1..] == s[1..] + [x];
      InsertBeforeLast(y, s[1..], x);
    }
  }

  lemma NewestSurvives(s: seq<Item>, x: Item, n: nat)
    requires UniqueItems(s + [x]) && n <= |s| && forall y :: y in s ==> y.created <= x.created
    ensures x !in Victims(s + [x], n)
  {
    LastStaysLast(s, x);
    SortByProps(s, Born);
    assert Victims(s + [x], n) == SortBy(s, Born)[..n];
    assert forall i :: 0 <= i < |s| ==> (s + [x])[i] == s[i] && s[i].key != (s + [x])[|s|].key;
    assert x !in s;
    assert forall v :: v in SortBy(s, Born)[..n] ==> v in SortBy(s, Born);
  }

  /** After an insert the dictionary is below its bound; what it drops is exactly a tenth of the bound
      and not newer than what it keeps; and the new item survives if it is not older than the rest. */
  lemma InsertItemProps(s: seq<Item>, x: Item, max: nat)
    requires UniqueItems(s) && |s| < max && max >= 10
    ensures var t := InsertItem(s, x, max);
      && UniqueItems(t) && |t| < max
      && (|Store(s, x)| < max ==> t == Store(s, x))
      && (|Store(s, x)| >= max ==> |t| == |Store(s, x)| - max / 10)
      && (forall y :: y in t ==> y == x || (y in s && y.key != x.key))
      && (forall gone, kept :: gone in Store(s, x) && gone !in t && kept in t ==> gone.created <= kept.created)
      && ((forall y :: y in s ==> y.created <= x.created) ==> x in t)
  {
    var st := Store(s, x);
    StoreProps(s, x);
    if |st| >= max {
      var n := max / 10;
      EvictProps(st, n);
      assert st == s + [x] && x in st;
      if forall y :: y in s ==> y.created <= x.created { NewestSurvives(s, x, n); }
    }
  }

  // ---------- the backends ----------

  class InMemoryCache {
    var items: seq<Item>
    const maxItems: nat

    ghost predicate Valid()
      reads this
    {
      UniqueItems(items) && |items| < maxItems && maxItems >= 10
    }

    constructor ()
      ensures Valid() && items == [] && maxItems == 100
    {
      items := [];
      maxItems := 100;
    }

    method Delete(k: string)
      modifies this
      ensures items == Drop(old(items), k)
    {
      var i := Position(items, k);
      if i < |items| { items := items[..i] + items[i + 1..]; }
    }

    method EvictOldest(n: nat)
      requires UniqueItems(items) && n <= |items|
      modifies this
      ensures items == Evict(old(items), n)
    {
      var sorted := SortBy(items, Born);
      SortByProps(items, Born);
      for j := 0 to n
        invariant items == DropAll(old(items), sorted[..j])
      {
        assert sorted[..j + 1][..j] == sorted[..j];
        Delete(sorted[j].key);
      }
    }

    method Insert(x: Item)
      requires Valid()
      modifies this
      ensures Valid() && items == InsertItem(old(items), x, maxItems)
    {
      InsertItemProps(items, x, maxItems);
      StoreProps(items, x);
      items := Store(items, x);
      if |items| >= maxItems { EvictOldest(maxItems / 10); }
    }

    method GetItem(k: string, now: int) returns (r: Option<Item>)
      requires Valid()
      modifies this
      ensures Valid()
      ensures var i := Position(old(items), k);
        && r == (if i < |old(items)| && !Expired(old(items)[i], now) then Some(old(items)[i]) else None)
        && items == (if i < |old(items)| && Expired(old(items)[i], now) then Drop(old(items), k) else old(items))
    {
      var i := Position(items, k);
      if i == |items| { return None; }
      DropProps(items, k);
      if Expired(items[i], now) {
        items := items[..i] + items[i + 1..];
        return None;
      }
      r := Some(items[i]);
    }
  }

  class FileSystemCache {
    var files: map<string, Item>

    constructor ()
      ensures files == map[]
    {
      files := map[];
    }

    method Insert(x: Item)
      modifies this
      ensures files == old(files)[x.key := x]
    {
      files := files[x.key := x];
    }

    method Delete(k: string)
      modifies this
      ensures files == old(files) - {k}
    {
      if k in files { files := files - {k}; }
    }

    method GetItem(k: string, now: int) returns (r: Option<Item>)
      modifies this
      ensures r == if k in old(files) && !Expired(old(files)[k], now) then Some(old(files)[k]) else None
      ensures files == if k in old(files) && Expired(old(files)[k], now) then old(files) - {k} else old(files)
    {
      if k !in files { return None; }
      if Expired(files[k], now) {
        files := files - {k};
        return None;
      }
      r := Some(files[k]);
    }
  }

  // ---------- timed runs ----------

  datatype Op =
    | Put(item: Item)                   // at time item.created
    | Get(k: string, at: int)
    | Del(k: string, at: int)

  function TimeOf(op: Op): int {
    match op case Put(x) => x.created case Get(_, at) => at case Del(_, at) => at
  }

  ghost predicate Timed(ops: seq<Op>) {
    forall i, j :: 0 <= i < j < |ops| ==> TimeOf(ops[i]) <= TimeOf(ops[j])
  }

  function MemStep(s: seq<Item>, op: Op, max: nat): seq<Item> {
    match op
    case Put(x) => InsertItem(s, x, max)
    case Get(k, at) => var i := Position(s, k); if i < |s| && Expired(s[i], at) then Drop(s, k) else s
    case Del(k, _) => Drop(s, k)
  }

  function MemAnswer(s: seq<Item>, k: string, now: int): Option<int> {
    var i := Position(s, k);
    if i < |s| && !Expired(s[i], now) then Some(s[i].value) else None
  }

  function MemRun(ops: seq<Op>, max: nat): seq<Item> {
    if ops == [] then [] else MemStep(MemRun(ops[..|ops| - 1], max), ops[|ops| - 1], max)
  }

  function FileStep(m: map<string, Item>, op: Op): map<string, Item> {
    match op
    case Put(x) => m[x.key := x]
    case Get(k, at) => if k in m && Expired(m[k], at) then m - {k} else m
    case Del(k, _) => m - {k}
  }

  function FileAnswer(m: map<string, Item>, k: string, now: int): Option<int> {
    if k in m && !Expired(m[k], now) then Some(m[k].value) else None
  }

  function FileRun(ops: seq<Op>): map<string, Item> {
    if ops == [] then map[] else FileStep(FileRun(ops[..|ops| - 1]), ops[|ops| - 1])
  }

  /** The last insert of the key that no delete followed. */
  function Latest(ops: seq<Op>, k: string): Option<Item> {
    if ops == [] then None
    else
      var op := ops[|ops| - 1];
      if op.Put? && op.item.key == k then Some(op.item)
      else if op.Del? && op.k == k then None
      else Latest(ops[..|ops| - 1], k)
  }

  /** The reference answer: the latest undeleted insert, unless it has expired. */
  function Answer(ops: seq<Op>, k: string, now: int): Option<int> {
    match Latest(ops, k)
    case Some(x) => if Expired(x, now) then None else Some(x.value)
    case None => None
  }

  /** A key missing from the files has nothing unexpired to offer, now or later. */
  lemma {:induction false} FileHolds(ops: seq<Op>, k: string, now: int)
    requires Timed(ops) && forall i :: 0 <= i < |ops| ==> TimeOf(ops[i]) <= now
    ensures k in FileRun(ops) ==> Latest(ops, k) == Some(FileRun(ops)[k])
    ensures k !in FileRun(ops) && Latest(ops, k).Some? ==> Expired(Latest(ops, k).value, now)
  {
    if ops != [] {
      FileHolds(ops[..|ops| - 1], k, TimeOf(ops[|ops| - 1]));
    }
  }

  /** The file cache answers every get with the latest unexpired undeleted insert. */
  lemma {:induction false} FileAnswers(ops: seq<Op>, k: string, now: int)
    requires Timed(ops) && forall i :: 0 <= i < |ops| ==> TimeOf(ops[i]) <= now
    ensures FileAnswer(FileRun(ops), k, now) == Answer(ops, k, now)
  {
    FileHolds(ops, k, now);
  }

  /** A value is served up to and including its last moment: `ttl` after the put, or forever if it has no
      lifetime or -1.  So both backends answer a get that follows a put. */
  predicate Lives(x: Item, now: int) {
    match x.ttl case None => true case Some(t) => t == -1 || now <= x.created + t
  }

  lemma FilePutThenGet(ops: seq<Op>, x: Item, now: int)
    ensures FileAnswer(FileRun(ops + [Put(x)]), x.key, now) == if Lives(x, now) then Some(x.value) else None
  {
    assert (ops + [Put(x)])[..|ops|] == ops;
  }

  lemma MemPutThenGet(ops: seq<Op>, max: nat, x: Item, now: int)
    requires max >= 10 && Timed(ops + [Put(x)])
    ensures MemAnswer(MemRun(ops + [Put(x)], max), x.key, now) == if Lives(x, now) then Some(x.value) else None
  {
    var all := ops + [Put(x)];
    assert all[..|ops|] == ops;
    var s := MemRun(ops, max);
    MemHolds(ops, max);
    MemHolds(all, max);
    StoredByThen(ops, max, x);
    InsertItemProps(s, x, max);
    var t := MemRun(all, max);
    assert t[Position(t, x.key)].key == x.key;
    SameKeySame(t, x);
  }

  /** Nothing in the dictionary is newer than the put that comes next. */
  lemma StoredByThen(ops: seq<Op>, max: nat, x: Item)
    requires max >= 10 && Timed(ops + [Put(x)])
    ensures forall y :: y in MemRun(ops, max) ==> y.created <= x.created
  {
    MemHolds(ops, max);
    forall y | y in MemRun(ops, max) ensures y.created <= x.created {
      var i := LatestPut(ops, y.key);
      assert (ops + [Put(x)])[i] == ops[i] && (ops + [Put(x)])[|ops|] == Put(x);
    }
  }

  lemma {:induction false} LatestPut(ops: seq<Op>, k: string) returns (i: nat)
    requires Latest(ops, k).Some?
    ensures i < |ops| && ops[i] == Put(Latest(ops, k).value)
  {
    var n := |ops| - 1;
    if ops[n].Put? && ops[n].item.key == k { i := n; } else { i := LatestPut(ops[..n], k); }
  }

  // ---------- the bounded cache against the reference ----------

  lemma MemStepProps(s: seq<Item>, op: Op, max: nat)
    requires UniqueItems(s) && |s| < max && max >= 10
    ensures UniqueItems(MemStep(s, op, max)) && |MemStep(s, op, max)| < max
    ensures forall y :: y in MemStep(s, op, max) ==> y in s || (op.Put? && y == op.item)
    ensures forall y :: y in MemStep(s, op, max) && op.Put? && y.key == op.item.key ==> y == op.item
    ensures forall y :: y in MemStep(s, op, max) && op.Del? ==> y.key != op.k
  {
    match op
    case Put(x) => InsertItemProps(s, x, max);
    case Get(k, at) => DropProps(s, k);
    case Del(k, _) => DropProps(s, k);
  }

  lemma {:induction false} MemHolds(ops: seq<Op>, max: nat)
    requires max >= 10
    ensures UniqueItems(MemRun(ops, max)) && |MemRun(ops, max)| < max
    ensures forall y :: y in MemRun(ops, max) ==> Latest(ops, y.key) == Some(y)
  {
    if ops != [] {
      var n := |ops| - 1;
      MemHolds(ops[..n], max);
      MemStepProps(MemRun(ops[..n], max), ops[n], max);
    }
  }

  /** However many keys there are, and whatever was evicted, a hit is the latest value. */
  lemma MemHitIsLatest(ops: seq<Op>, max: nat, k: string, now: int)
    requires max >= 10 && MemAnswer(MemRun(ops, max), k, now).Some?
    ensures MemAnswer(MemRun(ops, max), k, now) == Answer(ops, k, now)
  {
    MemHolds(ops, max);
    var s := MemRun(ops, max);
    assert s[Position(s, k)] in s;
  }

  function KeysOf(ops: seq<Op>): set<string> {
    set i | 0 <= i < |ops| && ops[i].Put? :: ops[i].item.key
  }

  /** Both backends hold the same items. */
  ghost predicate Agree(s: seq<Item>, m: map<string, Item>) {
    && (forall y :: y in s ==> y.key in m && m[y.key] == y)
    && (forall k :: k in m ==> m[k] in s && m[k].key == k)
  }

  lemma AgreePosition(s: seq<Item>, m: map<string, Item>, k: string)
    requires Agree(s, m)
    ensures Position(s, k) < |s| <==> k in m
    ensures k in m ==> s[Position(s, k)] == m[k]
  {
  }

  /** A dictionary whose keys all come from a small set is small. */
  lemma {:induction false} SmallByKeys(s: seq<Item>, keys: set<string>)
    requires UniqueItems(s) && forall y :: y in s ==> y.key in keys
    ensures |s| <= |keys|
  {
    if s != [] {
      var n := |s| - 1;
      assert s[n] in s;
      assert forall y :: y in s[..n] ==> y in s && y.key != s[n].key;
      SmallByKeys(s[..n], keys - {s[n].key});
    }
  }

  lemma AgreeDrop(s: seq<Item>, m: map<string, Item>, k: string)
    requires UniqueItems(s) && Agree(s, m)
    ensures Agree(Drop(s, k), m - {k})
  {
  }

  lemma AgreeStore(s: seq<Item>, m: map<string, Item>, x: Item)
    requires UniqueItems(s) && Agree(s, m)
    ensures Agree(Store(s, x), m[x.key := x])
  {
    StoreProps(s, x);
  }

  lemma AgreeStep(s: seq<Item>, m: map<string, Item>, op: Op, max: nat)
    requires UniqueItems(s) && Agree(s, m)
    requires op.Put? ==> |Store(s, op.item)| < max
    ensures Agree(MemStep(s, op, max), FileStep(m, op))
  {
    match op
    case Put(x) => AgreeStore(s, m, x);
    case Get(k, at) =>
      AgreePosition(s, m, k);
      AgreeDrop(s, m, k);
    case Del(k, _) => AgreeDrop(s, m, k);
  }

  /** Over fewer keys than the bound nothing is evicted, so the two backends never differ. */
  lemma {:induction false} BackendsAgree(ops: seq<Op>, max: nat)
    requires max >= 10 && |KeysOf(ops)| < max
    ensures UniqueItems(MemRun(ops, max)) && |MemRun(ops, max)| < max
    ensures forall y :: y in MemRun(ops, max) ==> y.key in KeysOf(ops)
    ensures Agree(MemRun(ops, max), FileRun(ops))
  {
    if ops != [] {
      var n := |ops| - 1;
      var op := ops[n];
      assert KeysOf(ops[..n]) <= KeysOf(ops) by {
        forall k | k in KeysOf(ops[..n]) ensures k in KeysOf(ops) {
          var i :| 0 <= i < n && ops[..n][i].Put? && ops[..n][i].item.key == k;
          assert ops[i].Put? && ops[i].item.key == k;
        }
      }
      SubsetSize(KeysOf(ops[..n]), KeysOf(ops));
      BackendsAgree(ops[..n], max);
      var s := MemRun(ops[..n], max);
      if op.Put? {
        assert op.item.key in KeysOf(ops);
        StoreProps(s, op.item);
        SmallByKeys(Store(s, op.item), KeysOf(ops));
      }
      AgreeStep(s, FileRun(ops[..n]), op, max);
      MemStepProps(s, op, max);
    }
  }

  lemma SubsetSize(a: set<string>, b: set<string>)
    requires a <= b
    ensures |a| <= |b|
  {
    assert b == a + (b - a);
  }

  /** For every timed run over fewer keys than the bound, both backends answer every get alike: the
      latest unexpired undeleted insert. */
  lemma BackendsAnswerAlike(ops: seq<Op>, max: nat, k: string, now: int)
    requires max >= 10 && |KeysOf(ops)| < max
    requires Timed(ops) && forall i :: 0 <= i < |ops| ==> TimeOf(ops[i]) <= now
    ensures MemAnswer(MemRun(ops, max), k, now) == FileAnswer(FileRun(ops), k, now) == Answer(ops, k, now)
  {
    BackendsAgree(ops, max);
    AgreePosition(MemRun(ops, max), FileRun(ops), k);
    FileAnswers(ops, k, now);
  }
}
