/** JSON values as Python holds them: dictionaries keep insertion order, and assigning to a key
    that is already present keeps its position. */
module Json {
  import opened Prelude

  datatype Value =
    | Null
    | Bool(b: bool)
    | Num(n: int)
    | Str(s: string)
    | List(items: seq<Value>)
    | Obj(fields: seq<Entry>)

  datatype Entry = Entry(key: string, val: Value)

  type Fields = seq<Entry>

  function Lookup(f: Fields, k: string): Option<Value> {
    if f == [] then None
    else if f[0].key == k then Some(f[0].val)
    else Lookup(f[1..], k)
  }

  function Put(f: Fields, k: string, v: Value): Fields {
    if f == [] then [Entry(k, v)]
    else if f[0].key == k then [Entry(k, v)] + f[1..]
    else [f[0]] + Put(f[1..], k, v)
  }

  /** Assignment changes one key and no other. */
  lemma {:induction false} LookupPut(f: Fields, k: string, v: Value, j: string)
    ensures Lookup(Put(f, k, v), j) == if j == k then Some(v) else Lookup(f, j)
  {
    if f != [] && f[0].key != k {
      LookupPut(f[1..], k, v, j);
      assert Put(f, k, v)[1..] == Put(f[1..], k, v);
    } else if f != [] {
      assert Put(f, k, v)[1..] == f[1..];
    }
  }

  ghost predicate UniqueKeys(f: Fields) {
    forall i, j :: 0 <= i < j < |f| ==> f[i].key != f[j].key
  }

  /** In a dictionary without repeated keys, lookup returns exactly the stored entries. */
  lemma {:induction false} LookupIndex(f: Fields, k: string)
    ensures Lookup(f, k).Some? ==> exists i :: 0 <= i < |f| && f[i] == Entry(k, Lookup(f, k).value)
    ensures Lookup(f, k).None? ==> forall i :: 0 <= i < |f| ==> f[i].key != k
    ensures UniqueKeys(f) ==> forall i :: 0 <= i < |f| && f[i].key == k ==> Lookup(f, k) == Some(f[i].val)
  {
    if f != [] {
      LookupIndex(f[1..], k);
      if f[0].key == k {
        assert f[0] == Entry(k, f[0].val);
      } else if Lookup(f, k).Some? {
        var i :| 0 <= i < |f[1..]| && f[1..][i] == Entry(k, Lookup(f, k).value);
        assert f[i + 1] == Entry(k, Lookup(f, k).value);
      }
      if UniqueKeys(f) {
        forall i | 0 <= i < |f| && f[i].key == k
          ensures Lookup(f, k) == Some(f[i].val)
        {
          if i > 0 { assert f[1..][i - 1] == f[i]; }
        }
      }
    }
  }

  /** Assignment keeps keys unique, and adds at most the assigned key. */
  lemma {:induction false} PutKeys(f: Fields, k: string, v: Value)
    ensures UniqueKeys(f) ==> UniqueKeys(Put(f, k, v))
    ensures forall i :: 0 <= i < |Put(f, k, v)| ==>
              Put(f, k, v)[i].key == k || exists j :: 0 <= j < |f| && f[j] == Put(f, k, v)[i]
  {
    if f != [] && f[0].key != k {
      PutKeys(f[1..], k, v);
      var p := Put(f[1..], k, v);
      assert Put(f, k, v) == [f[0]] + p;
      forall i | 0 <= i < |Put(f, k, v)|
        ensures Put(f, k, v)[i].key == k || exists j :: 0 <= j < |f| && f[j] == Put(f, k, v)[i]
      {
        if i == 0 {
          assert f[0] == Put(f, k, v)[0];
        } else if p[i - 1].key != k {
          var j :| 0 <= j < |f[1..]| && f[1..][j] == p[i - 1];
          assert f[j + 1] == Put(f, k, v)[i];
        }
      }
      if UniqueKeys(f) {
        forall i, j | 0 <= i < j < |Put(f, k, v)|
          ensures Put(f, k, v)[i].key != Put(f, k, v)[j].key
        {
          if i == 0 && p[j - 1].key != k {
            var l :| 0 <= l < |f[1..]| && f[1..][l] == p[j - 1];
            assert f[l + 1].key != f[0].key;
          }
        }
      }
    } else if f != [] {
      forall i | 0 <= i < |Put(f, k, v)| && i > 0
        ensures exists j :: 0 <= j < |f| && f[j] == Put(f, k, v)[i]
      {
        assert f[i] == Put(f, k, v)[i];
      }
    }
  }

  /** `f.update(g)`. */
  function Update(f: Fields, g: Fields): Fields
    decreases |g|
  {
    if g == [] then f else Update(Put(f, g[0].key, g[0].val), g[1..])
  }

  ghost predicate HasKey(g: Fields, k: string) {
    exists i :: 0 <= i < |g| && g[i].key == k
  }

  lemma {:induction false} UpdateOther(f: Fields, g: Fields, k: string)
    requires !HasKey(g, k)
    ensures Lookup(Update(f, g), k) == Lookup(f, k)
    decreases |g|
  {
    if g != [] {
      assert forall i :: 0 <= i < |g[1..]| ==> g[1..][i] == g[i + 1];
      LookupPut(f, g[0].key, g[0].val, k);
      UpdateOther(Put(f, g[0].key, g[0].val), g[1..], k);
    }
  }

  lemma {:induction false} UpdateSame(f: Fields, g: Fields, k: string, v: Value)
    requires HasKey(g, k) && forall i :: 0 <= i < |g| && g[i].key == k ==> g[i].val == v
    ensures Lookup(Update(f, g), k) == Some(v)
    decreases |g|
  {
    var f' := Put(f, g[0].key, g[0].val);
    assert forall i :: 0 <= i < |g[1..]| ==> g[1..][i] == g[i + 1];
    if HasKey(g[1..], k) {
      UpdateSame(f', g[1..], k, v);
    } else {
      assert forall j :: 1 <= j < |g| ==> g[j] == g[1..][j - 1];
      assert g[0].key == k;
      LookupPut(f, g[0].key, g[0].val, k);
      UpdateOther(f', g[1..], k);
    }
  }

  lemma {:induction false} PutNew(f: Fields, k: string, v: Value)
    requires !HasKey(f, k)
    ensures Put(f, k, v) == f + [Entry(k, v)]
  {
    if f != [] {
      assert f[0].key != k;
      assert forall i :: 0 <= i < |f[1..]| ==> f[1..][i] == f[i + 1];
      PutNew(f[1..], k, v);
      assert f == [f[0]] + f[1..];
    }
  }

  /** Updating with new, distinct keys appends them. */
  lemma {:induction false} UpdateDisjoint(f: Fields, g: Fields)
    requires UniqueKeys(g) && forall i :: 0 <= i < |g| ==> !HasKey(f, g[i].key)
    ensures Update(f, g) == f + g
    decreases |g|
  {
    if g != [] {
      PutNew(f, g[0].key, g[0].val);
      var f' := f + [g[0]];
      forall i | 0 <= i < |g[1..]| ensures !HasKey(f', g[1..][i].key) {
        assert g[1..][i] == g[i + 1];
        assert forall j :: 0 <= j < |f| ==> f'[j] == f[j];
      }
      UpdateDisjoint(f', g[1..]);
      assert f' + g[1..] == f + g;
    }
  }
}
