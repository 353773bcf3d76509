/** The metadata filter compiler: nested metadata is flattened into a conjunction of conditions on
    dotted paths.  The meaning of a path is given by parsing the key back, so that the theorems are
    about the strings the compiler emits. */
module MetadataFilter {
  import opened Prelude
  import opened Json

  /** A point satisfies it when some value at `key` equals `value`, or is a list that holds it. */
  datatype Condition = Condition(key: string, value: Value)

  // ---------- the compiler ----------

  function BuildCondition(key: string, v: Value): seq<Condition>
    decreases v, 1
  {
    match v
    case Obj(fields) => BuildFields(key, fields)
    case List(items) => BuildItems(key, items)
    case _ => [Condition("metadata." + key, v)]
  }

  function BuildFields(key: string, fs: Fields): seq<Condition>
    decreases fs, 0
  {
    if fs == [] then []
    else BuildCondition(key + "." + fs[0].key, fs[0].val) + BuildFields(key, fs[1..])
  }

  function BuildItems(key: string, items: seq<Value>): seq<Condition>
    decreases items, 0
  {
    if items == [] then []
    else (if items[0].Obj? then BuildCondition(key + "[]", items[0]) else BuildCondition(key, items[0]))
         + BuildItems(key, items[1..])
  }

  /** The empty dictionary gives no filter at all, which lets every point through like no condition. */
  function Conditions(filter: Fields): seq<Condition> {
    if filter == [] then [] else BuildCondition(filter[0].key, filter[0].val) + Conditions(filter[1..])
  }

  // ---------- what a key addresses ----------

  datatype Segment = Field(name: string) | Each

  function LastDot(s: string): (i: int)
    ensures -1 <= i < |s|
  {
    if s == [] then -1 else if s[|s| - 1] == '.' then |s| - 1 else LastDot(s[..|s| - 1])
  }

  function Parse(s: string): seq<Segment>
    decreases |s|
  {
    if |s| >= 2 && s[|s| - 2] == '[' && s[|s| - 1] == ']' then Parse(s[..|s| - 2]) + [Each]
    else
      var i := LastDot(s);
      if i < 0 then [Field(s)] else Parse(s[..i]) + [Field(s[i + 1..])]
  }

  predicate Clean(k: string) {
    '.' !in k && '[' !in k && ']' !in k
  }

  lemma {:induction false} LastDotAfter(p: string, k: string)
    requires '.' !in k
    ensures LastDot(p + "." + k) == |p|
  {
    var s := p + "." + k;
    if k == [] {
      assert s[|s| - 1] == '.';
    } else {
      assert s[..|s| - 1] == p + "." + k[..|k| - 1];
      assert s[|s| - 1] == k[|k| - 1];
      LastDotAfter(p, k[..|k| - 1]);
    }
  }

  lemma {:induction false} LastDotNone(k: string)
    requires '.' !in k
    ensures LastDot(k) == -1
  {
    if k != [] { LastDotNone(k[..|k| - 1]); }
  }

  lemma ParseField(p: string, k: string)
    requires Clean(k)
    ensures Parse(p + "." + k) == Parse(p) + [Field(k)]
  {
    var s := p + "." + k;
    LastDotAfter(p, k);
    assert s[|s| - 1] == if k == [] then '.' else k[|k| - 1];
    assert s[..|p|] == p && s[|p| + 1..] == k;
  }

  lemma ParseEach(p: string)
    ensures Parse(p + "[]") == Parse(p) + [Each]
  {
  }

  /** The key of a condition on metadata key `k`. */
  lemma ParseTop(k: string)
    requires Clean(k)
    ensures Parse("metadata." + k) == [Field("metadata"), Field(k)]
  {
    assert "metadata." + k == "metadata" + "." + k;
    ParseField("metadata", k);
    LastDotNone("metadata");
  }

  // ---------- when a point satisfies a condition ----------

  ghost predicate Hit(v: Value, path: seq<Segment>, leaf: Value)
    decreases |path|
  {
    if path == [] then v == leaf || (v.List? && leaf in v.items)
    else match path[0]
      case Field(k) => v.Obj? && Lookup(v.fields, k).Some? && Hit(Lookup(v.fields, k).value, path[1..], leaf)
      case Each => v.List? && exists i :: 0 <= i < |v.items| && Hit(v.items[i], path[1..], leaf)
  }

  ghost predicate Satisfies(metadata: Value, c: Condition) {
    Hit(Obj([Entry("metadata", metadata)]), Parse(c.key), c.value)
  }

  ghost predicate Matches(metadata: Value, cs: seq<Condition>) {
    forall i :: 0 <= i < |cs| ==> Satisfies(metadata, cs[i])
  }

  /** `x` is one of the values `path` leads to from `v`. */
  ghost predicate At(v: Value, path: seq<Segment>, x: Value)
    decreases |path|
  {
    if path == [] then v == x
    else match path[0]
      case Field(k) => v.Obj? && Lookup(v.fields, k).Some? && At(Lookup(v.fields, k).value, path[1..], x)
      case Each => v.List? && exists i :: 0 <= i < |v.items| && At(v.items[i], path[1..], x)
  }

  lemma {:induction false} AtHit(v: Value, path: seq<Segment>, x: Value, leaf: Value)
    requires At(v, path, x) && (x == leaf || (x.List? && leaf in x.items))
    ensures Hit(v, path, leaf)
    decreases |path|
  {
    if path != [] {
      match path[0]
      case Field(k) => AtHit(Lookup(v.fields, k).value, path[1..], x, leaf);
      case Each =>
        var i :| 0 <= i < |v.items| && At(v.items[i], path[1..], x);
        AtHit(v.items[i], path[1..], x, leaf);
    }
  }

  lemma {:induction false} HitAt(v: Value, path: seq<Segment>, leaf: Value) returns (x: Value)
    requires Hit(v, path, leaf)
    ensures At(v, path, x) && (x == leaf || (x.List? && leaf in x.items))
    decreases |path|
  {
    if path == [] {
      x := v;
    } else {
      match path[0]
      case Field(k) => x := HitAt(Lookup(v.fields, k).value, path[1..], leaf);
      case Each =>
        var i :| 0 <= i < |v.items| && Hit(v.items[i], path[1..], leaf);
        x := HitAt(v.items[i], path[1..], leaf);
    }
  }

  lemma {:induction false} AtExtend(v: Value, path: seq<Segment>, x: Value, seg: Segment, y: Value)
    requires At(v, path, x) && At(x, [seg], y)
    ensures At(v, path + [seg], y)
    decreases |path|
  {
    var p := path + [seg];
    if path == [] {
      assert p == [seg];
    } else {
      assert p[1..] == path[1..] + [seg] && p[0] == path[0];
      match path[0]
      case Field(k) => AtExtend(Lookup(v.fields, k).value, path[1..], x, seg, y);
      case Each =>
        var i :| 0 <= i < |v.items| && At(v.items[i], path[1..], x);
        AtExtend(v.items[i], path[1..], x, seg, y);
    }
  }

  lemma AtField(x: Value, k: string)
    requires x.Obj? && Lookup(x.fields, k).Some?
    ensures At(x, [Field(k)], Lookup(x.fields, k).value)
  {
  }

  lemma AtItem(x: Value, i: nat)
    requires x.List? && i < |x.items|
    ensures At(x, [Each], x.items[i])
  {
  }

  // ---------- deep containment ----------

  /** `f` is part of `x`: equal scalars, every key of a dictionary, every element of a list in some
      element. */
  ghost predicate Contains(x: Value, f: Value)
    decreases f, 1
  {
    match f
    case Obj(fs) => x.Obj? && ContainsFields(x.fields, fs)
    case List(items) => x.List? && ContainsItems(x.items, items)
    case _ => x == f
  }

  ghost predicate ContainsFields(x: Fields, fs: Fields)
    decreases fs, 0
  {
    fs == [] ||
    (Lookup(x, fs[0].key).Some? && Contains(Lookup(x, fs[0].key).value, fs[0].val) && ContainsFields(x, fs[1..]))
  }

  ghost predicate ContainsItems(x: seq<Value>, items: seq<Value>)
    decreases items, 0
  {
    items == [] || ((exists i :: 0 <= i < |x| && Contains(x[i], items[0])) && ContainsItems(x, items[1..]))
  }

  /** Keys without path characters, and no list directly inside a list. */
  ghost predicate Plain(f: Value)
    decreases f, 1
  {
    match f
    case Obj(fs) => PlainFields(fs)
    case List(items) => PlainItems(items)
    case _ => true
  }

  ghost predicate PlainFields(fs: Fields)
    decreases fs, 0
  {
    fs == [] || (Clean(fs[0].key) && Plain(fs[0].val) && PlainFields(fs[1..]))
  }

  ghost predicate PlainItems(items: seq<Value>)
    decreases items, 0
  {
    items == [] || (!items[0].List? && Plain(items[0]) && PlainItems(items[1..]))
  }

  // ---------- containment implies the conditions ----------

  ghost predicate AllHit(root: Value, cs: seq<Condition>) {
    forall i :: 0 <= i < |cs| ==> Hit(root, Parse(cs[i].key), cs[i].value)
  }

  lemma AllHitConcat(root: Value, a: seq<Condition>, b: seq<Condition>)
    ensures AllHit(root, a + b) <==> AllHit(root, a) && AllHit(root, b)
  {
    assert forall i :: 0 <= i < |a| ==> (a + b)[i] == a[i];
    assert forall i :: 0 <= i < |b| ==> (a + b)[|a| + i] == b[i];
  }

  /** The path a key under construction stands for. */
  function PathOf(key: string): seq<Segment> {
    Parse("metadata." + key)
  }

  lemma PrefixField(prefix: string, key: string, k: string)
    requires Clean(k)
    ensures Parse(prefix + (key + "." + k)) == Parse(prefix + key) + [Field(k)]
  {
    var whole := prefix + key;
    assert prefix + (key + "." + k) == whole + "." + k;
    ParseField(whole, k);
  }

  lemma PrefixEach(prefix: string, key: string)
    ensures Parse(prefix + (key + "[]")) == Parse(prefix + key) + [Each]
  {
    var whole := prefix + key;
    assert prefix + (key + "[]") == whole + "[]";
    ParseEach(whole);
  }

  lemma PathField(key: string, k: string)
    requires Clean(k)
    ensures PathOf(key + "." + k) == PathOf(key) + [Field(k)]
  {
    PrefixField("metadata.", key, k);
  }

  lemma PathEach(key: string)
    ensures PathOf(key + "[]") == PathOf(key) + [Each]
  {
    PrefixEach("metadata.", key);
  }

  lemma {:induction false} ContainedHit(root: Value, key: string, x: Value, f: Value)
    requires At(root, PathOf(key), x) && Contains(x, f) && Plain(f)
    ensures AllHit(root, BuildCondition(key, f))
    decreases f, 1
  {
    match f
    case Obj(fs) => ContainedFieldsHit(root, key, x, fs);
    case List(items) => ContainedItemsHit(root, key, x, items);
    case _ => AtHit(root, PathOf(key), x, f);
  }

  lemma {:induction false} ContainedFieldsHit(root: Value, key: string, x: Value, fs: Fields)
    requires At(root, PathOf(key), x) && x.Obj? && ContainsFields(x.fields, fs) && PlainFields(fs)
    ensures AllHit(root, BuildFields(key, fs))
    decreases fs, 0
  {
    if fs != [] {
      var k := fs[0].key;
      var y := Lookup(x.fields, k).value;
      AtField(x, k);
      AtExtend(root, PathOf(key), x, Field(k), y);
      PathField(key, k);
      ContainedHit(root, key + "." + k, y, fs[0].val);
      ContainedFieldsHit(root, key, x, fs[1..]);
      AllHitConcat(root, BuildCondition(key + "." + k, fs[0].val), BuildFields(key, fs[1..]));
    }
  }

  lemma {:induction false} ContainedItemsHit(root: Value, key: string, x: Value, items: seq<Value>)
    requires At(root, PathOf(key), x) && x.List? && ContainsItems(x.items, items) && PlainItems(items)
    ensures AllHit(root, BuildItems(key, items))
    decreases items, 0
  {
    if items != [] {
      var g := items[0];
      var i :| 0 <= i < |x.items| && Contains(x.items[i], g);
      if g.Obj? {
        AtItem(x, i);
        AtExtend(root, PathOf(key), x, Each, x.items[i]);
        PathEach(key);
        ContainedHit(root, key + "[]", x.items[i], g);
        AllHitConcat(root, BuildCondition(key + "[]", g), BuildItems(key, items[1..]));
      } else {
        AtHit(root, PathOf(key), x, g);
        AllHitConcat(root, BuildCondition(key, g), BuildItems(key, items[1..]));
      }
      ContainedItemsHit(root, key, x, items[1..]);
    }
  }

  lemma RootAt(meta: Value, k: string)
    requires meta.Obj? && Clean(k) && Lookup(meta.fields, k).Some?
    ensures At(Obj([Entry("metadata", meta)]), PathOf(k), Lookup(meta.fields, k).value)
  {
    var root := Obj([Entry("metadata", meta)]);
    ParseTop(k);
    AtField(root, "metadata");
    AtField(meta, k);
    AtExtend(root, [Field("metadata")], meta, Field(k), Lookup(meta.fields, k).value);
    assert [Field("metadata")] + [Field(k)] == [Field("metadata"), Field(k)];
  }

  /** Any point whose metadata deeply contains the filter satisfies every condition. */
  lemma {:induction false} ContainmentMatches(meta: Fields, filter: Fields)
    requires ContainsFields(meta, filter) && PlainFields(filter)
    ensures Matches(Obj(meta), Conditions(filter))
  {
    if filter != [] {
      var root := Obj([Entry("metadata", Obj(meta))]);
      RootAt(Obj(meta), filter[0].key);
      ContainedHit(root, filter[0].key, Lookup(meta, filter[0].key).value, filter[0].val);
      ContainmentMatches(meta, filter[1..]);
      AllHitConcat(root, BuildCondition(filter[0].key, filter[0].val), Conditions(filter[1..]));
    }
  }

  // ---------- the converse, without lists ----------

  ghost predicate ListFree(v: Value)
    decreases v, 1
  {
    match v
    case Obj(fs) => ListFreeFields(fs)
    case List(_) => false
    case _ => true
  }

  ghost predicate ListFreeFields(fs: Fields)
    decreases fs, 0
  {
    fs == [] || (ListFree(fs[0].val) && ListFreeFields(fs[1..]))
  }

  /** No nested dictionary is empty. */
  ghost predicate Inhabited(f: Value)
    decreases f, 1
  {
    match f
    case Obj(fs) => fs != [] && InhabitedFields(fs)
    case _ => true
  }

  ghost predicate InhabitedFields(fs: Fields)
    decreases fs, 0
  {
    fs == [] || (Inhabited(fs[0].val) && InhabitedFields(fs[1..]))
  }

  lemma {:induction false} LookupListFree(fs: Fields, k: string)
    requires ListFreeFields(fs) && Lookup(fs, k).Some?
    ensures ListFree(Lookup(fs, k).value)
  {
    if fs[0].key != k { LookupListFree(fs[1..], k); }
  }

  lemma {:induction false} AtListFree(v: Value, path: seq<Segment>, x: Value)
    requires ListFree(v) && At(v, path, x)
    ensures ListFree(x)
    decreases |path|
  {
    if path != [] {
      var k := path[0].name;
      LookupListFree(v.fields, k);
      AtListFree(Lookup(v.fields, k).value, path[1..], x);
    }
  }

  /** Without lists a path leads to at most one value, and its last step can be undone. */
  lemma {:induction false} AtUnique(v: Value, path: seq<Segment>, x: Value, y: Value)
    requires ListFree(v) && At(v, path, x) && At(v, path, y)
    ensures x == y
    decreases |path|
  {
    if path != [] {
      var k := path[0].name;
      LookupListFree(v.fields, k);
      AtUnique(Lookup(v.fields, k).value, path[1..], x, y);
    }
  }

  lemma {:induction false} AtShrink(v: Value, path: seq<Segment>, k: string, y: Value) returns (x: Value)
    requires At(v, path + [Field(k)], y)
    ensures At(v, path, x) && x.Obj? && Lookup(x.fields, k) == Some(y)
    decreases |path|
  {
    var p := path + [Field(k)];
    if path == [] {
      x := v;
      assert p[1..] == [];
    } else {
      assert p[1..] == path[1..] + [Field(k)] && p[0] == path[0];
      match path[0]
      case Field(j) => x := AtShrink(Lookup(v.fields, j).value, path[1..], k, y);
      case Each =>
        var i :| 0 <= i < |v.items| && At(v.items[i], p[1..], y);
        x := AtShrink(v.items[i], path[1..], k, y);
    }
  }

  lemma {:induction false} HitContained(root: Value, key: string, f: Value) returns (x: Value)
    requires ListFree(root) && ListFree(f) && Inhabited(f) && Plain(f)
    requires AllHit(root, BuildCondition(key, f))
    ensures At(root, PathOf(key), x) && Contains(x, f)
    decreases f, 1
  {
    if f.Obj? {
      x := HitFieldsContained(root, key, f.fields);
    } else {
      assert Hit(root, Parse(BuildCondition(key, f)[0].key), f);
      x := HitAt(root, PathOf(key), f);
      AtListFree(root, PathOf(key), x);
    }
  }

  lemma {:induction false} HitFieldsContained(root: Value, key: string, fs: Fields) returns (x: Value)
    requires fs != [] && ListFree(root) && ListFreeFields(fs) && InhabitedFields(fs) && PlainFields(fs)
    requires AllHit(root, BuildFields(key, fs))
    ensures At(root, PathOf(key), x) && x.Obj? && ContainsFields(x.fields, fs)
    decreases fs, 0
  {
    var k := fs[0].key;
    AllHitConcat(root, BuildCondition(key + "." + k, fs[0].val), BuildFields(key, fs[1..]));
    var y := HitContained(root, key + "." + k, fs[0].val);
    PathField(key, k);
    x := AtShrink(root, PathOf(key), k, y);
    if fs[1..] != [] {
      var x' := HitFieldsContained(root, key, fs[1..]);
      AtUnique(root, PathOf(key), x, x');
    }
  }

  lemma {:induction false} MatchesContained(meta: Fields, filter: Fields)
    requires ListFreeFields(meta) && ListFreeFields(filter) && InhabitedFields(filter) && PlainFields(filter)
    requires Matches(Obj(meta), Conditions(filter))
    ensures ContainsFields(meta, filter)
  {
    if filter != [] {
      var k := filter[0].key;
      var root := Obj([Entry("metadata", Obj(meta))]);
      assert ListFree(root) by { assert root.fields[1..] == []; }
      AllHitConcat(root, BuildCondition(k, filter[0].val), Conditions(filter[1..]));
      var y := HitContained(root, k, filter[0].val);
      ParseTop(k);
      assert [Field("metadata")] + [Field(k)] == PathOf(k);
      var x := AtShrink(root, [Field("metadata")], k, y);
      AtField(root, "metadata");
      AtUnique(root, [Field("metadata")], x, Obj(meta));
      MatchesContained(meta, filter[1..]);
    }
  }

  /** For list-free filters without empty nested dictionaries, and list-free metadata, matching is
      deep containment. */
  lemma MatchesIffContains(meta: Fields, filter: Fields)
    requires ListFreeFields(meta) && ListFreeFields(filter) && InhabitedFields(filter) && PlainFields(filter)
    ensures Matches(Obj(meta), Conditions(filter)) <==> ContainsFields(meta, filter)
  {
    if Matches(Obj(meta), Conditions(filter)) { MatchesContained(meta, filter); }
    if ContainsFields(meta, filter) { ContainmentMatches(meta, filter); }
  }

  // ---------- empty nested dictionaries ----------

  /** The filter without the nested dictionaries that hold no leaf. */
  function Prune(fs: Fields): Fields
    decreases fs, 0
  {
    if fs == [] then []
    else match PruneValue(fs[0].val)
      case Some(v) => [Entry(fs[0].key, v)] + Prune(fs[1..])
      case None => Prune(fs[1..])
  }

  function PruneValue(v: Value): Option<Value>
    decreases v, 1
  {
    match v
    case Obj(fs) => var p := Prune(fs); if p == [] then None else Some(Obj(p))
    case _ => Some(v)
  }

  lemma {:induction false} PruneValueConditions(key: string, v: Value)
    ensures BuildCondition(key, v) == match PruneValue(v) case Some(w) => BuildCondition(key, w) case None => []
    decreases v, 1
  {
    if v.Obj? { PruneFieldsConditions(key, v.fields); }
  }

  lemma {:induction false} PruneFieldsConditions(key: string, fs: Fields)
    ensures BuildFields(key, Prune(fs)) == BuildFields(key, fs)
    decreases fs, 0
  {
    if fs != [] {
      PruneValueConditions(key + "." + fs[0].key, fs[0].val);
      PruneFieldsConditions(key, fs[1..]);
      var rest := Prune(fs[1..]);
      if PruneValue(fs[0].val).Some? {
        var e := Entry(fs[0].key, PruneValue(fs[0].val).value);
        assert ([e] + rest)[0] == e && ([e] + rest)[1..] == rest;
      }
    }
  }

  /** Pruning changes no condition. */
  lemma {:induction false} PruneConditions(fs: Fields)
    ensures Conditions(Prune(fs)) == Conditions(fs)
  {
    if fs != [] {
      PruneValueConditions(fs[0].key, fs[0].val);
      PruneConditions(fs[1..]);
      var rest := Prune(fs[1..]);
      if PruneValue(fs[0].val).Some? {
        var e := Entry(fs[0].key, PruneValue(fs[0].val).value);
        assert ([e] + rest)[0] == e && ([e] + rest)[1..] == rest;
      }
    }
  }

  lemma {:induction false} PruneValueShape(v: Value)
    requires ListFree(v) && Plain(v)
    ensures PruneValue(v).Some? ==>
      ListFree(PruneValue(v).value) && Plain(PruneValue(v).value) && Inhabited(PruneValue(v).value)
    ensures Inhabited(v) ==> PruneValue(v) == Some(v)
    decreases v, 1
  {
    if v.Obj? { PruneShape(v.fields); }
  }

  lemma {:induction false} PruneShape(fs: Fields)
    requires ListFreeFields(fs) && PlainFields(fs)
    ensures ListFreeFields(Prune(fs)) && PlainFields(Prune(fs)) && InhabitedFields(Prune(fs))
    ensures InhabitedFields(fs) ==> Prune(fs) == fs
    decreases fs, 0
  {
    if fs != [] {
      PruneValueShape(fs[0].val);
      PruneShape(fs[1..]);
      var rest := Prune(fs[1..]);
      if PruneValue(fs[0].val).Some? {
        var e := Entry(fs[0].key, PruneValue(fs[0].val).value);
        assert ([e] + rest)[0] == e && ([e] + rest)[1..] == rest;
      }
    }
  }

  /** What matching means for every list-free filter and point: deep containment of the filter without
      its empty nested dictionaries. */
  lemma MatchesIffContainsPruned(meta: Fields, filter: Fields)
    requires ListFreeFields(meta) && ListFreeFields(filter) && PlainFields(filter)
    ensures Matches(Obj(meta), Conditions(filter)) <==> ContainsFields(meta, Prune(filter))
  {
    PruneShape(filter);
    PruneConditions(filter);
    MatchesIffContains(meta, Prune(filter));
  }

  /** Dictionaries have distinct keys, at every depth. */
  ghost predicate Distinct(v: Value)
    decreases v, 1
  {
    v.Obj? ==> DistinctFields(v.fields)
  }

  ghost predicate DistinctFields(fs: Fields)
    decreases fs, 0
  {
    fs == [] || (Distinct(fs[0].val) && Lookup(fs[1..], fs[0].key).None? && DistinctFields(fs[1..]))
  }

  lemma {:induction false} LookupPrune(fs: Fields, k: string)
    requires DistinctFields(fs)
    ensures Lookup(Prune(fs), k) == match Lookup(fs, k) case Some(v) => PruneValue(v) case None => None
  {
    if fs != [] {
      LookupPrune(fs[1..], k);
      var rest := Prune(fs[1..]);
      if PruneValue(fs[0].val).Some? {
        var e := Entry(fs[0].key, PruneValue(fs[0].val).value);
        assert ([e] + rest)[0] == e && ([e] + rest)[1..] == rest;
      }
    }
  }

  /** The pruned filter, read as metadata, contains itself. */
  lemma {:induction false} SelfContained(x: Fields, fs: Fields)
    requires ListFreeFields(fs) && DistinctFields(fs)
    requires forall k :: Lookup(fs, k).Some? ==> Lookup(x, k) == Lookup(fs, k)
    ensures ContainsFields(x, fs)
    decreases fs
  {
    if fs != [] {
      assert Lookup(fs, fs[0].key) == Some(fs[0].val);
      if fs[0].val.Obj? { SelfContained(fs[0].val.fields, fs[0].val.fields); }
      forall k | Lookup(fs[1..], k).Some?
        ensures Lookup(x, k) == Lookup(fs[1..], k)
      {
        assert k != fs[0].key && Lookup(fs, k) == Lookup(fs[1..], k);
      }
      SelfContained(x, fs[1..]);
    }
  }

  lemma {:induction false} PruneDistinct(fs: Fields)
    requires DistinctFields(fs)
    ensures DistinctFields(Prune(fs))
    decreases fs
  {
    if fs != [] {
      if fs[0].val.Obj? { PruneDistinct(fs[0].val.fields); }
      PruneDistinct(fs[1..]);
      LookupPrune(fs[1..], fs[0].key);
      var rest := Prune(fs[1..]);
      if PruneValue(fs[0].val).Some? {
        var e := Entry(fs[0].key, PruneValue(fs[0].val).value);
        assert ([e] + rest)[0] == e && ([e] + rest)[1..] == rest;
      }
    }
  }

  /** Metadata that has only the pruned values lacks some empty dictionary of the filter. */
  lemma {:induction false} PrunedLacks(x: Fields, fs: Fields)
    requires DistinctFields(fs) && !InhabitedFields(fs)
    requires forall k :: Lookup(fs, k).Some? ==> Lookup(x, k) == PruneValue(Lookup(fs, k).value)
    ensures !ContainsFields(x, fs)
    decreases fs
  {
    var v := fs[0].val;
    assert Lookup(fs, fs[0].key) == Some(v);
    if Inhabited(v) {
      forall k | Lookup(fs[1..], k).Some?
        ensures Lookup(x, k) == PruneValue(Lookup(fs[1..], k).value)
      {
        assert k != fs[0].key && Lookup(fs, k) == Lookup(fs[1..], k);
      }
      PrunedLacks(x, fs[1..]);
    } else if PruneValue(v).Some? {
      var gs := v.fields;
      forall k | Lookup(gs, k).Some? ensures Lookup(Prune(gs), k) == PruneValue(Lookup(gs, k).value) {
        LookupPrune(gs, k);
      }
      PrunedLacks(Prune(gs), gs);
    }
  }

  /** Matching is deep containment for all list-free metadata exactly when the filter has no empty
      nested dictionary: such a dictionary emits no condition. */
  lemma ConverseIffInhabited(filter: Fields)
    requires ListFreeFields(filter) && PlainFields(filter) && DistinctFields(filter)
    ensures InhabitedFields(filter) <==>
      forall meta: Fields :: ListFreeFields(meta) && Matches(Obj(meta), Conditions(filter)) ==> ContainsFields(meta, filter)
  {
    if InhabitedFields(filter) {
      forall meta: Fields | ListFreeFields(meta) && Matches(Obj(meta), Conditions(filter))
        ensures ContainsFields(meta, filter)
      {
        MatchesIffContains(meta, filter);
      }
    } else {
      var meta := Prune(filter);
      PruneShape(filter);
      PruneDistinct(filter);
      SelfContained(meta, meta);
      MatchesIffContainsPruned(meta, filter);
      forall k | Lookup(filter, k).Some? ensures Lookup(meta, k) == PruneValue(Lookup(filter, k).value) {
        LookupPrune(filter, k);
      }
      PrunedLacks(meta, filter);
    }
  }

  /** The smallest such filter matches every point without the key. */
  lemma EmptyDictMatchesAnything(meta: Fields, k: string)
    requires Lookup(meta, k).None?
    ensures Matches(Obj(meta), Conditions([Entry(k, Obj([]))])) && !ContainsFields(meta, [Entry(k, Obj([]))])
  {
  }

  lemma PairConditions(key: string, a: Value, b: Value)
    requires !a.Obj? && !a.List? && !b.Obj? && !b.List?
    ensures BuildItems(key, [Obj([Entry("x", a), Entry("y", b)])]) ==
            [Condition("metadata." + (key + "[]" + "." + "x"), a), Condition("metadata." + (key + "[]" + "." + "y"), b)]
  {
    var fs := [Entry("x", a), Entry("y", b)];
    var k := key + "[]";
    assert fs[1..] == [Entry("y", b)] && [Entry("y", b)][1..] == [] && [Obj(fs)][1..] == [];
    assert BuildFields(k, [Entry("y", b)]) == BuildCondition(k + "." + "y", b) + [];
    assert BuildFields(k, fs) == BuildCondition(k + "." + "x", a) + BuildCondition(k + "." + "y", b);
    assert BuildItems(key, [Obj(fs)]) == BuildFields(k, fs) + [];
  }

  /** An element of a list that has key `k` satisfies the condition on `key[].k`. */
  lemma ItemFieldHit(root: Value, key: string, l: Value, i: nat, k: string)
    requires At(root, PathOf(key), l) && l.List? && i < |l.items| && Clean(k)
    requires l.items[i].Obj? && Lookup(l.items[i].fields, k).Some?
    ensures Hit(root, PathOf(key + "[]" + "." + k), Lookup(l.items[i].fields, k).value)
  {
    var e := l.items[i];
    var v := Lookup(e.fields, k).value;
    AtItem(l, i);
    AtExtend(root, PathOf(key), l, Each, e);
    PathEach(key);
    AtField(e, k);
    AtExtend(root, PathOf(key + "[]"), e, Field(k), v);
    PathField(key + "[]", k);
    AtHit(root, PathOf(key + "[]" + "." + k), v, v);
  }

  lemma SingleLacks(k: string, v: Value, j: string)
    requires j != k
    ensures Lookup([Entry(k, v)], j).None?
  {
  }

  lemma LacksOne(fs: Fields, a: Value, b: Value)
    requires Lookup(fs, "x").None? || Lookup(fs, "y").None?
    ensures !Contains(Obj(fs), Obj([Entry("x", a), Entry("y", b)]))
  {
    var g := [Entry("x", a), Entry("y", b)];
    var t := g[1..];
    assert t[0].key == "y" && g[0].key == "x";
    assert ContainsFields(fs, t) ==> Lookup(fs, "y").Some?;
    assert ContainsFields(fs, g) ==> Lookup(fs, "x").Some? && ContainsFields(fs, t);
  }

  lemma PiecewiseMatches(a: Value, b: Value, meta: Fields, both: Value)
    requires !a.Obj? && !a.List? && !b.Obj? && !b.List?
    requires both == Obj([Entry("x", a), Entry("y", b)])
    requires meta == [Entry("l", List([Obj([Entry("x", a)]), Obj([Entry("y", b)])]))]
    ensures Matches(Obj(meta), Conditions([Entry("l", List([both]))]))
  {
    var l := List([Obj([Entry("x", a)]), Obj([Entry("y", b)])]);
    var filter := [Entry("l", List([both]))];
    var root := Obj([Entry("metadata", Obj(meta))]);
    PairConditions("l", a, b);
    assert filter[1..] == [];
    assert Conditions(filter) == BuildItems("l", [both]) + [];
    RootAt(Obj(meta), "l");
    ItemFieldHit(root, "l", l, 0, "x");
    ItemFieldHit(root, "l", l, 1, "y");
  }

  lemma PiecewiseLacks(a: Value, b: Value, meta: Fields, both: Value)
    requires both == Obj([Entry("x", a), Entry("y", b)])
    requires meta == [Entry("l", List([Obj([Entry("x", a)]), Obj([Entry("y", b)])]))]
    ensures !ContainsFields(meta, [Entry("l", List([both]))])
  {
    var ex, ey := Obj([Entry("x", a)]), Obj([Entry("y", b)]);
    var l := List([ex, ey]);
    assert "x"[0] != "y"[0];
    SingleLacks("x", a, "y");
    SingleLacks("y", b, "x");
    LacksOne(ex.fields, a, b);
    LacksOne(ey.fields, a, b);
    assert forall i :: 0 <= i < |l.items| ==> !Contains(l.items[i], both);
    assert !ContainsItems(l.items, [both]);
    assert !Contains(l, List([both]));
    assert Lookup(meta, "l") == Some(l);
  }

  /** The elements of a filter's list of dictionaries may be matched piecewise by different elements. */
  lemma ListOfDictsMatchesPiecewise(a: Value, b: Value)
    requires !a.Obj? && !a.List? && !b.Obj? && !b.List?
    ensures var meta := [Entry("l", List([Obj([Entry("x", a)]), Obj([Entry("y", b)])]))];
            var filter := [Entry("l", List([Obj([Entry("x", a), Entry("y", b)])]))];
            Matches(Obj(meta), Conditions(filter)) && !ContainsFields(meta, filter)
  {
    var meta := [Entry("l", List([Obj([Entry("x", a)]), Obj([Entry("y", b)])]))];
    var both := Obj([Entry("x", a), Entry("y", b)]);
    PiecewiseMatches(a, b, meta, both);
    PiecewiseLacks(a, b, meta, both);
  }

  // ---------- size and merging ----------

  function Leaves(f: Value): nat
    decreases f, 1
  {
    match f
    case Obj(fs) => LeavesFields(fs)
    case List(items) => LeavesItems(items)
    case _ => 1
  }

  function LeavesFields(fs: Fields): nat
    decreases fs, 0
  {
    if fs == [] then 0 else Leaves(fs[0].val) + LeavesFields(fs[1..])
  }

  function LeavesItems(items: seq<Value>): nat
    decreases items, 0
  {
    if items == [] then 0 else Leaves(items[0]) + LeavesItems(items[1..])
  }

  lemma {:induction false} ConditionPerLeaf(key: string, f: Value)
    ensures |BuildCondition(key, f)| == Leaves(f)
    decreases f, 1
  {
    match f
    case Obj(fs) => FieldsPerLeaf(key, fs);
    case List(items) => ItemsPerLeaf(key, items);
    case _ =>
  }

  lemma {:induction false} FieldsPerLeaf(key: string, fs: Fields)
    ensures |BuildFields(key, fs)| == LeavesFields(fs)
    decreases fs, 0
  {
    if fs != [] {
      ConditionPerLeaf(key + "." + fs[0].key, fs[0].val);
      FieldsPerLeaf(key, fs[1..]);
    }
  }

  lemma {:induction false} ItemsPerLeaf(key: string, items: seq<Value>)
    ensures |BuildItems(key, items)| == LeavesItems(items)
    decreases items, 0
  {
    if items != [] {
      ConditionPerLeaf(if items[0].Obj? then key + "[]" else key, items[0]);
      ItemsPerLeaf(key, items[1..]);
    }
  }

  /** The compiler emits exactly one condition per leaf of the filter. */
  lemma {:induction false} OneConditionPerLeaf(filter: Fields)
    ensures |Conditions(filter)| == LeavesFields(filter)
  {
    if filter != [] {
      ConditionPerLeaf(filter[0].key, filter[0].val);
      OneConditionPerLeaf(filter[1..]);
    }
  }

  lemma {:induction false} ConditionsConcat(f: Fields, g: Fields)
    ensures Conditions(f + g) == Conditions(f) + Conditions(g)
  {
    if f == [] {
      assert f + g == g;
    } else {
      assert (f + g)[1..] == f[1..] + g;
      ConditionsConcat(f[1..], g);
    }
  }

  /** Merging key-disjoint filters is conjunction. */
  lemma MergeIsConjunction(meta: Value, f: Fields, g: Fields)
    requires UniqueKeys(g) && forall i :: 0 <= i < |g| ==> !HasKey(f, g[i].key)
    ensures Matches(meta, Conditions(Update(f, g))) <==> Matches(meta, Conditions(f)) && Matches(meta, Conditions(g))
  {
    UpdateDisjoint(f, g);
    ConditionsConcat(f, g);
    AllHitConcat(Obj([Entry("metadata", meta)]), Conditions(f), Conditions(g));
  }
}
