/** The content of user_status.json and the two mutators that write it: the source merge and the
    user/tag synchronisation.  A mutator that raises is `None`. */
module StatusDocument {
  import opened Prelude
  import opened Json

  const DefaultTag: Value := Obj([
    Entry("status", Bool(false)), Entry("documents", List([])), Entry("prompt_list", List([])),
    Entry("selected_prompt", Str("")), Entry("prompt", Str(""))
  ])

  // ---------- merging source names into the active tags ----------

  function AddSources(docs: seq<Value>, sources: seq<string>): seq<Value>
    decreases |sources|
  {
    if sources == [] then docs
    else
      var docs' := if Str(sources[0]) in docs then docs else docs + [Str(sources[0])];
      AddSources(docs', sources[1..])
  }

  function DocumentsOf(tagObj: Fields): seq<Value> {
    match Lookup(tagObj, "documents")
    case Some(List(items)) => items
    case _ => []
  }

  function MergeTag(tagObj: Value, sources: seq<string>): Option<Value> {
    if !tagObj.Obj? then None
    else Some(Obj(Put(tagObj.fields, "documents", List(AddSources(DocumentsOf(tagObj.fields), sources)))))
  }

  function GetOr(f: Fields, k: string, default: Value): Value {
    match Lookup(f, k) case Some(v) => v case None => default
  }

  function MergeTags(userMap: Value, tags: seq<string>, sources: seq<string>): Option<Value>
    decreases |tags|
  {
    if tags == [] then Some(userMap)
    else if !userMap.Obj? then None
    else match MergeTag(GetOr(userMap.fields, tags[0], DefaultTag), sources)
      case None => None
      case Some(t) => MergeTags(Obj(Put(userMap.fields, tags[0], t)), tags[1..], sources)
  }

  function Merge(user: string, tags: seq<string>, sources: seq<string>, doc: Value): Option<Value> {
    if !doc.Obj? then None
    else match MergeTags(GetOr(doc.fields, user, Obj([])), tags, sources)
      case None => None
      case Some(m) => Some(Obj(Put(doc.fields, user, m)))
  }

  // ---------- synchronising users and tags ----------

  function FillField(t: Fields, k: string, v: Value): Fields {
    if Lookup(t, k).Some? then t else Put(t, k, v)
  }

  function FillTag(t: Fields): Fields {
    FillField(FillField(FillField(FillField(FillField(t,
      "status", Bool(false)), "documents", List([])), "prompt_list", List([])),
      "selected_prompt", Str("")), "prompt", Str(""))
  }

  function CompleteTag(prior: Option<Value>): Value {
    match prior case Some(Obj(t)) => Obj(FillTag(t)) case _ => DefaultTag
  }

  function SyncTags(userMap: Fields, tags: seq<string>): Fields
    decreases |tags|
  {
    if tags == [] then userMap
    else SyncTags(Put(userMap, tags[0], CompleteTag(Lookup(userMap, tags[0]))), tags[1..])
  }

  function UserMap(doc: Fields, user: string): Fields {
    match Lookup(doc, user) case Some(Obj(m)) => m case _ => []
  }

  function SyncUsers(users: seq<string>, tags: seq<string>, doc: Value): Option<Value>
    decreases |users|
  {
    if users == [] then Some(doc)
    else if !doc.Obj? then None
    else SyncUsers(users[1..], tags,
                   Obj(Put(doc.fields, users[0], Obj(SyncTags(UserMap(doc.fields, users[0]), tags)))))
  }

  // ---------- what a source name recorded in the document means ----------

  predicate TagHas(t: Option<Value>, source: string) {
    match t
    case Some(Obj(f)) => Str(source) in DocumentsOf(f)
    case _ => false
  }

  predicate MapHas(m: Option<Value>, tag: string, source: string) {
    match m
    case Some(Obj(f)) => TagHas(Lookup(f, tag), source)
    case _ => false
  }

  /** `source` is listed under `tag` of `user`. */
  predicate Has(doc: Value, user: string, tag: string, source: string) {
    doc.Obj? && MapHas(Lookup(doc.fields, user), tag, source)
  }

  lemma {:induction false} AddSourcesKeeps(docs: seq<Value>, sources: seq<string>)
    ensures forall v :: v in docs ==> v in AddSources(docs, sources)
    ensures forall s :: s in sources ==> Str(s) in AddSources(docs, sources)
    ensures forall v :: v in AddSources(docs, sources) ==> v in docs || (v.Str? && v.s in sources)
    ensures NoDup(docs) ==> NoDup(AddSources(docs, sources))
    decreases |sources|
  {
    if sources != [] {
      var docs' := if Str(sources[0]) in docs then docs else docs + [Str(sources[0])];
      AddSourcesKeeps(docs', sources[1..]);
      assert Str(sources[0]) in docs';
    }
  }

  lemma DefaultHasNothing(s: string)
    ensures !TagHas(Some(DefaultTag), s)
  {
    var f := DefaultTag.fields;
    assert f[1..][0] == Entry("documents", List([])) && "status"[0] != "documents"[0];
    assert Lookup(f, "documents") == Lookup(f[1..], "documents") == Some(List([]));
  }

  lemma MergeTagHas(t: Value, sources: seq<string>, s: string)
    requires MergeTag(t, sources).Some?
    ensures TagHas(MergeTag(t, sources), s) <==> TagHas(Some(t), s) || s in sources
  {
    var docs := DocumentsOf(t.fields);
    AddSourcesKeeps(docs, sources);
    LookupPut(t.fields, "documents", List(AddSources(docs, sources)), "documents");
  }

  lemma {:induction false} MergeTagsHas(m: Value, tags: seq<string>, sources: seq<string>, tag: string, s: string)
    requires MergeTags(m, tags, sources).Some?
    ensures MapHas(MergeTags(m, tags, sources), tag, s) <==> MapHas(Some(m), tag, s) || (tag in tags && s in sources)
    decreases |tags|
  {
    if tags != [] {
      var prior := GetOr(m.fields, tags[0], DefaultTag);
      var t := MergeTag(prior, sources).value;
      var m' := Obj(Put(m.fields, tags[0], t));
      DefaultHasNothing(s);
      MergeTagHas(prior, sources, s);
      LookupPut(m.fields, tags[0], t, tag);
      MergeTagsHas(m', tags[1..], sources, tag, s);
      assert tag in tags <==> tag == tags[0] || tag in tags[1..];
    }
  }

  /** After a merge the document lists what it listed before and every source under every active tag,
      and nothing else. */
  lemma MergeHas(user: string, tags: seq<string>, sources: seq<string>, doc: Value,
                 u: string, t: string, s: string)
    requires Merge(user, tags, sources, doc).Some?
    ensures Has(Merge(user, tags, sources, doc).value, u, t, s) <==>
      Has(doc, u, t, s) || (u == user && t in tags && s in sources)
  {
    var prior := GetOr(doc.fields, user, Obj([]));
    MergeTagsHas(prior, tags, sources, t, s);
    LookupPut(doc.fields, user, MergeTags(prior, tags, sources).value, u);
  }

  lemma CompleteTagHas(prior: Option<Value>, s: string)
    ensures TagHas(Some(CompleteTag(prior)), s) <==> TagHas(prior, s)
  {
    DefaultHasNothing(s);
    if prior.Some? && prior.value.Obj? { FillTagIs(prior.value.fields, "documents"); }
  }

  lemma {:induction false} SyncTagsHas(m: Fields, tags: seq<string>, tag: string, s: string)
    ensures TagHas(Lookup(SyncTags(m, tags), tag), s) <==> TagHas(Lookup(m, tag), s)
    decreases |tags|
  {
    if tags != [] {
      var t := CompleteTag(Lookup(m, tags[0]));
      CompleteTagHas(Lookup(m, tags[0]), s);
      LookupPut(m, tags[0], t, tag);
      SyncTagsHas(Put(m, tags[0], t), tags[1..], tag, s);
    }
  }

  /** The synchronisation of users and tags changes no recorded source. */
  lemma {:induction false} SyncHas(users: seq<string>, tags: seq<string>, doc: Value, u: string, t: string, s: string)
    requires SyncUsers(users, tags, doc).Some?
    ensures Has(SyncUsers(users, tags, doc).value, u, t, s) <==> Has(doc, u, t, s)
    decreases |users|
  {
    if users != [] {
      var m := Obj(SyncTags(UserMap(doc.fields, users[0]), tags));
      LookupPut(doc.fields, users[0], m, u);
      SyncTagsHas(UserMap(doc.fields, users[0]), tags, t, s);
      SyncHas(users[1..], tags, Obj(Put(doc.fields, users[0], m)), u, t, s);
    }
  }

  // ---------- what a mutator leaves alone ----------

  function TagOf(doc: Value, user: string, tag: string): Option<Value> {
    if !doc.Obj? then None
    else match Lookup(doc.fields, user) case Some(Obj(m)) => Lookup(m, tag) case _ => None
  }

  function FieldIn(t: Option<Value>, k: string): Option<Value> {
    match t case Some(Obj(f)) => Lookup(f, k) case _ => None
  }

  /** The field `k` of the object of `tag` of `user`. */
  function FieldOf(doc: Value, user: string, tag: string, k: string): Option<Value> {
    FieldIn(TagOf(doc, user, tag), k)
  }

  /** The fields of a new tag object. */
  function DefaultField(k: string): Option<Value> {
    if k == "status" then Some(Bool(false))
    else if k == "documents" || k == "prompt_list" then Some(List([]))
    else if k == "selected_prompt" || k == "prompt" then Some(Str(""))
    else None
  }

  lemma DefaultFields(k: string)
    ensures Lookup(DefaultTag.fields, k) == DefaultField(k)
  {
    var f := DefaultTag.fields;
    assert f[0].key == "status" && f[1].key == "documents" && f[2].key == "prompt_list"
      && f[3].key == "selected_prompt" && f[4].key == "prompt";
    LookupTail(f, 0, k);
    LookupTail(f, 1, k);
    LookupTail(f, 2, k);
    LookupTail(f, 3, k);
    LookupTail(f, 4, k);
  }

  lemma LookupTail(f: Fields, n: nat, k: string)
    requires n < |f|
    ensures Lookup(f[n..], k) == if f[n].key == k then Some(f[n].val) else Lookup(f[n + 1..], k)
  {
    assert f[n..][1..] == f[n + 1..];
  }

  lemma MergeTagFields(t: Value, sources: seq<string>, k: string)
    requires MergeTag(t, sources).Some?
    ensures FieldIn(MergeTag(t, sources), k) ==
      if k == "documents" then Some(List(AddSources(DocumentsOf(t.fields), sources))) else FieldIn(Some(t), k)
  {
    LookupPut(t.fields, "documents", List(AddSources(DocumentsOf(t.fields), sources)), k);
  }

  lemma {:induction false} MergeTagsFields(m: Value, tags: seq<string>, sources: seq<string>, tag: string, k: string)
    requires m.Obj? && MergeTags(m, tags, sources).Some? && k != "documents"
    ensures var r := MergeTags(m, tags, sources).value;
      && r.Obj?
      && (tag !in tags ==> Lookup(r.fields, tag) == Lookup(m.fields, tag))
      && (tag in tags && Lookup(m.fields, tag).Some? ==> FieldIn(Lookup(r.fields, tag), k) == FieldIn(Lookup(m.fields, tag), k))
      && (tag in tags && Lookup(m.fields, tag).None? ==> FieldIn(Lookup(r.fields, tag), k) == DefaultField(k))
    decreases |tags|
  {
    if tags != [] {
      var prior := GetOr(m.fields, tags[0], DefaultTag);
      var t := MergeTag(prior, sources).value;
      DefaultFields(k);
      MergeTagFields(prior, sources, k);
      LookupPut(m.fields, tags[0], t, tag);
      MergeTagsFields(Obj(Put(m.fields, tags[0], t)), tags[1..], sources, tag, k);
      assert tag in tags <==> tag == tags[0] || tag in tags[1..];
    }
  }

  /** A merge changes nothing but documents lists: other users' maps and other tags' objects are equal, every
      other field of a merged tag is unchanged, and a tag that was new has the default fields. */
  lemma MergeKeeps(user: string, tags: seq<string>, sources: seq<string>, doc: Value, u: string, t: string, k: string)
    requires Merge(user, tags, sources, doc).Some?
    ensures var r := Merge(user, tags, sources, doc).value;
      && r.Obj?
      && (u != user ==> Lookup(r.fields, u) == Lookup(doc.fields, u))
      && (t !in tags ==> TagOf(r, u, t) == TagOf(doc, u, t))
      && (k != "documents" && u == user && t in tags && TagOf(doc, u, t).None? ==> FieldOf(r, u, t, k) == DefaultField(k))
      && (k != "documents" && TagOf(doc, u, t).Some? ==> FieldOf(r, u, t, k) == FieldOf(doc, u, t, k))
  {
    var prior := GetOr(doc.fields, user, Obj([]));
    var m := MergeTags(prior, tags, sources).value;
    LookupPut(doc.fields, user, m, u);
    if prior.Obj? {
      MergeTagsFields(prior, tags, sources, t, if k == "documents" then "status" else k);
    }
  }

  /** Sources are appended: what was listed stays in front, in order. */
  lemma {:induction false} AddSourcesAppends(docs: seq<Value>, sources: seq<string>)
    ensures docs <= AddSources(docs, sources)
    decreases |sources|
  {
    if sources != [] {
      AddSourcesAppends(if Str(sources[0]) in docs then docs else docs + [Str(sources[0])], sources[1..]);
    }
  }

  // ---------- what the synchronisation fills in ----------

  lemma FillFieldIs(t: Fields, k: string, v: Value, j: string)
    ensures Lookup(FillField(t, k, v), j) == if Lookup(t, j).None? && j == k then Some(v) else Lookup(t, j)
  {
    LookupPut(t, k, v, j);
  }

  /** Completing a tag object changes no field it has, and adds the others with their defaults. */
  lemma FillTagIs(t: Fields, k: string)
    ensures Lookup(FillTag(t), k) == if Lookup(t, k).Some? then Lookup(t, k) else DefaultField(k)
  {
    var t1 := FillField(t, "status", Bool(false));
    var t2 := FillField(t1, "documents", List([]));
    var t3 := FillField(t2, "prompt_list", List([]));
    var t4 := FillField(t3, "selected_prompt", Str(""));
    FillFieldIs(t, "status", Bool(false), k);
    FillFieldIs(t1, "documents", List([]), k);
    FillFieldIs(t2, "prompt_list", List([]), k);
    FillFieldIs(t3, "selected_prompt", Str(""), k);
    FillFieldIs(t4, "prompt", Str(""), k);
  }

  /** A field of a tag object that is there, or the default. */
  function Completed(t: Option<Value>, k: string): Option<Value> {
    if FieldIn(t, k).Some? then FieldIn(t, k) else DefaultField(k)
  }

  lemma CompleteTagIs(prior: Option<Value>, k: string)
    ensures CompleteTag(prior).Obj? && FieldIn(Some(CompleteTag(prior)), k) == Completed(prior, k)
  {
    DefaultFields(k);
    if prior.Some? && prior.value.Obj? { FillTagIs(prior.value.fields, k); }
  }

  lemma {:induction false} SyncTagsFields(m: Fields, tags: seq<string>, tag: string, k: string)
    ensures tag !in tags ==> Lookup(SyncTags(m, tags), tag) == Lookup(m, tag)
    ensures tag in tags ==> FieldIn(Lookup(SyncTags(m, tags), tag), k) == Completed(Lookup(m, tag), k)
    decreases |tags|
  {
    if tags != [] {
      var t := CompleteTag(Lookup(m, tags[0]));
      CompleteTagIs(Lookup(m, tags[0]), k);
      LookupPut(m, tags[0], t, tag);
      SyncTagsFields(Put(m, tags[0], t), tags[1..], tag, k);
      assert tag in tags <==> tag == tags[0] || tag in tags[1..];
    }
  }

  /** After a synchronisation every listed tag of every listed user has all its fields, the old value
      where there was one and the default where there was none; users and tags that are not listed stay. */
  lemma {:induction false} SyncFills(users: seq<string>, tags: seq<string>, doc: Value, u: string, t: string, k: string)
    requires doc.Obj?
    ensures var r := SyncUsers(users, tags, doc);
      && r.Some? && r.value.Obj?
      && (u in users ==> Lookup(r.value.fields, u).Some? && Lookup(r.value.fields, u).value.Obj?)
      && (u !in users ==> Lookup(r.value.fields, u) == Lookup(doc.fields, u))
      && (t !in tags ==> TagOf(r.value, u, t) == TagOf(doc, u, t))
      && (u in users && t in tags ==> FieldOf(r.value, u, t, k) == Completed(TagOf(doc, u, t), k))
    decreases |users|
  {
    if users != [] {
      var m := SyncTags(UserMap(doc.fields, users[0]), tags);
      var d := Obj(Put(doc.fields, users[0], Obj(m)));
      LookupPut(doc.fields, users[0], Obj(m), u);
      SyncTagsFields(UserMap(doc.fields, users[0]), tags, t, k);
      SyncFills(users[1..], tags, d, u, t, k);
      assert u in users <==> u == users[0] || u in users[1..];
    }
  }

  // ---------- active tags ----------

  predicate Truthy(v: Value) {
    match v
    case Null => false
    case Bool(b) => b
    case Num(n) => n != 0
    case Str(s) => s != ""
    case List(items) => items != []
    case Obj(fs) => fs != []
  }

  predicate TagActive(v: Value) {
    v.Obj? && Truthy(GetOr(v.fields, "status", Bool(false)))
  }

  /** The tags of a user whose status is on, in dictionary order. */
  function ActiveTags(userMap: Fields): seq<string> {
    if userMap == [] then []
    else (if TagActive(userMap[0].val) then [userMap[0].key] else []) + ActiveTags(userMap[1..])
  }

  lemma {:induction false} PutKeepsActive(m: Fields, t: string, c: Value)
    requires TagActive(c) <==> Lookup(m, t).Some? && TagActive(Lookup(m, t).value)
    ensures ActiveTags(Put(m, t, c)) == ActiveTags(m)
  {
    if m == [] {
      assert Put(m, t, c)[1..] == [];
    } else if m[0].key == t {
      assert Put(m, t, c)[1..] == m[1..];
    } else {
      PutKeepsActive(m[1..], t, c);
      assert Put(m, t, c)[1..] == Put(m[1..], t, c);
    }
  }

  /** Completing the schema on every read neither activates nor deactivates a tag, nor reorders the
      active ones. */
  lemma {:induction false} SchemaKeepsActiveTags(m: Fields, tags: seq<string>)
    ensures ActiveTags(SyncTags(m, tags)) == ActiveTags(m)
    decreases |tags|
  {
    if tags != [] {
      var c := CompleteTag(Lookup(m, tags[0]));
      CompleteTagIs(Lookup(m, tags[0]), "status");
      PutKeepsActive(m, tags[0], c);
      SchemaKeepsActiveTags(Put(m, tags[0], c), tags[1..]);
    }
  }

  /** The active tags of a user in a document. */
  function ActiveOf(doc: Value, user: string): seq<string> {
    if doc.Obj? then ActiveTags(UserMap(doc.fields, user)) else []
  }

  lemma MergedActive(prior: Option<Value>, sources: seq<string>)
    ensures var t := MergeTag(match prior case Some(v) => v case None => DefaultTag, sources);
      t.Some? ==> (TagActive(t.value) <==> prior.Some? && TagActive(prior.value))
  {
    var v := match prior case Some(v) => v case None => DefaultTag;
    DefaultFields("status");
    if MergeTag(v, sources).Some? { MergeTagFields(v, sources, "status"); }
  }

  lemma {:induction false} MergeTagsKeepsActive(m: Fields, tags: seq<string>, sources: seq<string>)
    requires MergeTags(Obj(m), tags, sources).Some?
    ensures var r := MergeTags(Obj(m), tags, sources).value; r.Obj? && ActiveTags(r.fields) == ActiveTags(m)
    decreases |tags|
  {
    if tags != [] {
      var t := MergeTag(GetOr(m, tags[0], DefaultTag), sources).value;
      MergedActive(Lookup(m, tags[0]), sources);
      PutKeepsActive(m, tags[0], t);
      MergeTagsKeepsActive(Put(m, tags[0], t), tags[1..], sources);
    }
  }

  /** A merge activates and deactivates no tag of anybody. */
  lemma MergeKeepsActive(user: string, tags: seq<string>, sources: seq<string>, doc: Value, u: string)
    requires Merge(user, tags, sources, doc).Some?
    ensures ActiveOf(Merge(user, tags, sources, doc).value, u) == ActiveOf(doc, u)
  {
    var prior := GetOr(doc.fields, user, Obj([]));
    LookupPut(doc.fields, user, MergeTags(prior, tags, sources).value, u);
    if prior.Obj? { MergeTagsKeepsActive(prior.fields, tags, sources); }
  }

  /** Nor does a synchronisation. */
  lemma {:induction false} SyncKeepsActive(users: seq<string>, tags: seq<string>, doc: Value, u: string)
    requires SyncUsers(users, tags, doc).Some?
    ensures ActiveOf(SyncUsers(users, tags, doc).value, u) == ActiveOf(doc, u)
    decreases |users|
  {
    if users != [] {
      var m := SyncTags(UserMap(doc.fields, users[0]), tags);
      SchemaKeepsActiveTags(UserMap(doc.fields, users[0]), tags);
      LookupPut(doc.fields, users[0], Obj(m), u);
      SyncKeepsActive(users[1..], tags, Obj(Put(doc.fields, users[0], Obj(m))), u);
    }
  }

  /** In a dictionary, a tag is active exactly if its object has a status that is set. */
  lemma {:induction false} ActiveIff(m: Fields, t: string)
    requires UniqueKeys(m)
    ensures t in ActiveTags(m) <==> Lookup(m, t).Some? && TagActive(Lookup(m, t).value)
  {
    if m != [] {
      assert UniqueKeys(m[1..]) by { assert forall i :: 0 <= i < |m[1..]| ==> m[1..][i] == m[i + 1]; }
      ActiveIff(m[1..], t);
      LookupIndex(m[1..], t);
      assert forall i :: 1 <= i < |m| ==> m[i] == m[1..][i - 1];
    }
  }

  /** Set means true, a number that is not zero, or a text, list or dictionary that is not empty; a tag
      without a status is off. */
  lemma StatusMeans(f: Fields)
    ensures TagActive(Obj(f)) <==>
      && Lookup(f, "status").Some?
      && Lookup(f, "status").value !in {Null, Bool(false), Num(0), Str(""), List([]), Obj([])}
  {
  }

  /** Active tags are listed in the order of the dictionary, none twice. */
  lemma {:induction false} ActiveInOrder(m: Fields, a: nat, b: nat) returns (i: nat, j: nat)
    requires a < b < |ActiveTags(m)|
    ensures i < j < |m| && m[i].key == ActiveTags(m)[a] && m[j].key == ActiveTags(m)[b]
    ensures TagActive(m[i].val) && TagActive(m[j].val)
  {
    var n := if TagActive(m[0].val) then 1 else 0;
    if a < n {
      i := 0;
      var t := ActiveTags(m)[b];
      assert t == ActiveTags(m[1..])[b - n];
      j := ActiveAt(m[1..], b - n);
      j := j + 1;
    } else {
      i, j := ActiveInOrder(m[1..], a - n, b - n);
      i, j := i + 1, j + 1;
    }
  }

  lemma {:induction false} ActiveAt(m: Fields, a: nat) returns (i: nat)
    requires a < |ActiveTags(m)|
    ensures i < |m| && m[i].key == ActiveTags(m)[a] && TagActive(m[i].val)
  {
    if TagActive(m[0].val) && a == 0 {
      i := 0;
    } else {
      i := ActiveAt(m[1..], if TagActive(m[0].val) then a - 1 else a);
      i := i + 1;
    }
  }
}
