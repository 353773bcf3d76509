/** Uploading and recalling documents by tag: the upload hook flags a document with the uploader and
    the uploader's active tags, storing layers further metadata on top, and the recall hook filters by
    the reader and the reader's active tags. */
module TagRecall {
  import opened Prelude
  import opened Json
  import opened StatusDocument
  import opened MetadataFilter

  datatype Document = Document(content: string, metadata: Fields)

  // ---------- what a read shows ----------

  /** What a read of the status document shows of a user: the schema is completed for the users it has. */
  function Shown(status: Fields, user: string, known: seq<string>): Fields {
    if Lookup(status, user).None? then [] else SyncTags(UserMap(status, user), known)
  }

  /** The user's active tags, as every hook reads them. */
  function UserTags(status: Fields, user: string, known: seq<string>): seq<string> {
    ActiveTags(Shown(status, user, known))
  }

  lemma UserTagsAre(status: Fields, user: string, known: seq<string>)
    ensures UserTags(status, user, known) == ActiveTags(UserMap(status, user))
  {
    SchemaKeepsActiveTags(UserMap(status, user), known);
  }

  lemma {:induction false} ActiveIndex(m: Fields, t: string) returns (i: nat)
    requires t in ActiveTags(m)
    ensures i < |m| && m[i].key == t && TagActive(m[i].val)
  {
    if TagActive(m[0].val) && m[0].key == t {
      i := 0;
    } else {
      i := ActiveIndex(m[1..], t);
      i := i + 1;
    }
  }

  // ---------- recording sources ----------

  /** Merging cannot raise: the tags are dictionaries of the user. */
  ghost predicate Ready(status: Value, user: string, tags: seq<string>) {
    && status.Obj?
    && (tags != [] ==> Lookup(status.fields, user).Some? && Lookup(status.fields, user).value.Obj?)
    && (forall t :: t in tags ==> IsObj(Lookup(Lookup(status.fields, user).value.fields, t)))
  }

  predicate IsObj(v: Option<Value>) { v.Some? && v.value.Obj? }

  lemma {:induction false} MergeTagsReturns(m: Fields, tags: seq<string>, sources: seq<string>)
    requires forall t :: t in tags ==> IsObj(Lookup(m, t))
    ensures var r := MergeTags(Obj(m), tags, sources);
      r.Some? && r.value.Obj? && forall t :: IsObj(Lookup(m, t)) ==> IsObj(Lookup(r.value.fields, t))
    decreases |tags|
  {
    if tags != [] {
      var prior := GetOr(m, tags[0], DefaultTag);
      assert tags[0] in tags && IsObj(Lookup(m, tags[0]));
      var t := MergeTag(prior, sources).value;
      var m' := Put(m, tags[0], t);
      forall j | IsObj(Lookup(m, j)) ensures IsObj(Lookup(m', j)) { LookupPut(m, tags[0], t, j); }
      forall j | j in tags[1..] ensures IsObj(Lookup(m', j)) { assert j in tags; }
      MergeTagsReturns(m', tags[1..], sources);
    }
  }

  lemma MergeReady(status: Value, user: string, tags: seq<string>, sources: seq<string>)
    requires Ready(status, user, tags)
    ensures var r := Merge(user, tags, sources, status); r.Some? && Ready(r.value, user, tags)
  {
    if tags != [] {
      var m := Lookup(status.fields, user).value;
      MergeTagsReturns(m.fields, tags, sources);
      LookupPut(status.fields, user, MergeTags(m, tags, sources).value, user);
    }
  }

  lemma ActiveReady(status: Fields, user: string, known: seq<string>)
    requires UniqueKeys(UserMap(status, user))
    ensures Ready(Obj(status), user, UserTags(status, user, known))
  {
    var m := UserMap(status, user);
    UserTagsAre(status, user, known);
    forall t | t in ActiveTags(m) ensures IsObj(Lookup(m, t)) {
      var i := ActiveIndex(m, t);
      LookupIndex(m, t);
    }
  }

  /** The file name under which a document is recorded; `base` is none for blank text. */
  function SourceOf(d: Document, base: string -> Option<string>): Option<string> {
    match Lookup(d.metadata, "source") case Some(Str(s)) => base(s) case _ => None
  }

  /** The metadata name a source text, and `source` is its base name. */
  predicate Names(d: Document, base: string -> Option<string>, source: string) {
    var s := Lookup(d.metadata, "source");
    s.Some? && s.value.Str? && base(s.value.s) == Some(source)
  }

  ghost predicate Sourced(docs: seq<Document>, base: string -> Option<string>, source: string) {
    exists i :: 0 <= i < |docs| && Names(docs[i], base, source)
  }

  lemma SourcedSnoc(docs: seq<Document>, d: Document, base: string -> Option<string>, source: string)
    ensures Sourced(docs + [d], base, source) <==> Sourced(docs, base, source) || SourceOf(d, base) == Some(source)
  {
    var all := docs + [d];
    assert all[|docs|] == d && forall i :: 0 <= i < |docs| ==> all[i] == docs[i];
    if i :| 0 <= i < |docs| && Names(docs[i], base, source) { assert Names(all[i], base, source); }
    if SourceOf(d, base) == Some(source) { assert Names(all[|docs|], base, source); }
  }

  /** Every user's active tags are the same, in order, and so is every field of a tag object other than
      the documents. */
  ghost predicate Keeps(before: Value, after: Value) {
    && (forall u :: ActiveOf(after, u) == ActiveOf(before, u))
    && (forall u, t, k :: k != "documents" && FieldOf(before, u, t, k).Some? ==>
          FieldOf(after, u, t, k) == FieldOf(before, u, t, k))
  }

  // ---------- the flags of a user ----------

  function TagEntries(tags: seq<string>): Fields {
    seq(|tags|, i requires 0 <= i < |tags| => Entry(tags[i], Bool(true)))
  }

  /** `{tag: True for tag in tags}`, then the user's own flag. */
  function Flags(tags: seq<string>, user: string): Fields {
    Put(Update([], TagEntries(tags)), user, Bool(true))
  }

  lemma {:induction false} UpdateTrue(f: Fields, g: Fields)
    requires forall i :: 0 <= i < |f| ==> f[i].val == Bool(true)
    requires forall i :: 0 <= i < |g| ==> g[i].val == Bool(true)
    ensures forall i :: 0 <= i < |Update(f, g)| ==> Update(f, g)[i].val == Bool(true)
    decreases |g|
  {
    if g != [] {
      PutTrue(f, g[0].key);
      UpdateTrue(Put(f, g[0].key, g[0].val), g[1..]);
    }
  }

  lemma {:induction false} PutTrue(f: Fields, k: string)
    requires forall i :: 0 <= i < |f| ==> f[i].val == Bool(true)
    ensures forall i :: 0 <= i < |Put(f, k, Bool(true))| ==> Put(f, k, Bool(true))[i].val == Bool(true)
  {
    if f != [] { PutTrue(f[1..], k); }
  }

  /** The flags are exactly the tags and the user, all set. */
  lemma FlagsAre(tags: seq<string>, user: string)
    ensures forall k :: Lookup(Flags(tags, user), k) == if k == user || k in tags then Some(Bool(true)) else None
    ensures forall i :: 0 <= i < |Flags(tags, user)| ==> Flags(tags, user)[i].val == Bool(true)
  {
    var es := TagEntries(tags);
    var f := Update([], es);
    forall k ensures Lookup(Flags(tags, user), k) == if k == user || k in tags then Some(Bool(true)) else None {
      LookupPut(f, user, Bool(true), k);
      if k in tags {
        var i :| 0 <= i < |tags| && tags[i] == k;
        assert es[i].key == k;
        UpdateSame([], es, k, Bool(true));
      } else {
        UpdateOther([], es, k);
      }
    }
    UpdateTrue([], es);
    PutTrue(f, user);
  }

  lemma FlagKeys(tags: seq<string>, user: string, k: string)
    ensures HasKey(Flags(tags, user), k) <==> k == user || k in tags
  {
    FlagsAre(tags, user);
    LookupIndex(Flags(tags, user), k);
  }

  // ---------- upload, store, recall ----------

  function Flagged(d: Document, flags: Fields): Document {
    d.(metadata := Update(d.metadata, flags))
  }

  /** One document: its metadata gets the flags, and its source is recorded under every active tag. */
  method UploadOne(d: Document, flags: Fields, user: string, active: seq<string>, status: Value,
                   base: string -> Option<string>) returns (out: Document, status': Value)
    requires Ready(status, user, active)
    ensures out == Flagged(d, flags) && Ready(status', user, active)
    ensures forall u, t, s :: Has(status', u, t, s) <==>
              Has(status, u, t, s) || (u == user && t in active && SourceOf(out, base) == Some(s))
    ensures Keeps(status, status')
  {
    out := Flagged(d, flags);
    var source := SourceOf(out, base);
    status' := status;
    if source.Some? {
      MergeReady(status, user, active, [source.value]);
      status' := Merge(user, active, [source.value], status).value;
      forall u, t, s
        ensures Has(status', u, t, s) <==> Has(status, u, t, s) || (u == user && t in active && s == source.value)
      {
        MergeHas(user, active, [source.value], status, u, t, s);
      }
      forall u ensures ActiveOf(status', u) == ActiveOf(status, u) {
        MergeKeepsActive(user, active, [source.value], status, u);
      }
      forall u, t, k | k != "documents" && FieldOf(status, u, t, k).Some?
        ensures FieldOf(status', u, t, k) == FieldOf(status, u, t, k)
      {
        MergeKeeps(user, active, [source.value], status, u, t, k);
      }
    }
  }

  /** Every document gets the uploader's flags, and the status document lists exactly what it listed
      before and every document's source under every active tag; it switches no tag on or off and changes
      no other field, and recording never raises. */
  method UploadHook(docs: seq<Document>, user: string, known: seq<string>, status: Fields,
                    base: string -> Option<string>) returns (out: seq<Document>, status': Value)
    requires UniqueKeys(UserMap(status, user))
    ensures |out| == |docs|
    ensures forall i :: 0 <= i < |docs| ==> out[i] == Flagged(docs[i], Flags(UserTags(status, user, known), user))
    ensures forall u, t, s :: Has(status', u, t, s) <==>
              Has(Obj(status), u, t, s) || (u == user && t in UserTags(status, user, known) && Sourced(out, base, s))
    ensures Keeps(Obj(status), status')
  {
    var active := UserTags(status, user, known);
    var flags := Flags(active, user);
    ActiveReady(status, user, known);
    out, status' := [], Obj(status);
    for i := 0 to |docs|
      invariant |out| == i && Ready(status', user, active) && Keeps(Obj(status), status')
      invariant forall j :: 0 <= j < i ==> out[j] == Flagged(docs[j], flags)
      invariant forall u, t, s :: Has(status', u, t, s) <==>
                  Has(Obj(status), u, t, s) || (u == user && t in active && Sourced(out, base, s))
    {
      var d;
      d, status' := UploadOne(docs[i], flags, user, active, status', base);
      forall s ensures Sourced(out + [d], base, s) <==> Sourced(out, base, s) || SourceOf(d, base) == Some(s) {
        SourcedSnoc(out, d, base, s);
      }
      out := out + [d];
    }
  }

  /** What storing adds to the metadata of a document. */
  function Layered(m: Fields, source: string, now: int, custom: Fields): Fields {
    Update(Put(Put(m, "source", Str(source)), "when", Num(now)), custom)
  }

  /** The stored points: the documents with content, layered, in order. */
  function Stored(docs: seq<Document>, source: string, clock: nat -> int, custom: Fields): seq<Document> {
    if docs == [] then []
    else
      var n := |docs| - 1;
      Stored(docs[..n], source, clock, custom)
      + if docs[n].content == "" then [] else [docs[n].(metadata := Layered(docs[n].metadata, source, clock(n), custom))]
  }

  method StoreDocuments(docs: seq<Document>, source: string, clock: nat -> int, custom: Fields)
    returns (stored: seq<Document>)
    ensures stored == Stored(docs, source, clock, custom)
  {
    stored := [];
    for d := 0 to |docs|
      invariant stored == Stored(docs[..d], source, clock, custom)
    {
      assert docs[..d + 1][..d] == docs[..d];
      var m := Put(docs[d].metadata, "source", Str(source));
      m := Put(m, "when", Num(clock(d)));
      m := Update(m, custom);
      if docs[d].content != "" {
        stored := stored + [docs[d].(metadata := m)];
      }
    }
    assert docs[..|docs|] == docs;
  }

  /** Every stored point is a document with content, layered; and every such document is stored. */
  lemma {:induction false} StoredFrom(docs: seq<Document>, source: string, clock: nat -> int, custom: Fields, p: Document)
    returns (i: nat)
    requires p in Stored(docs, source, clock, custom)
    ensures i < |docs| && docs[i].content != ""
    ensures p == docs[i].(metadata := Layered(docs[i].metadata, source, clock(i), custom))
  {
    var n := |docs| - 1;
    if p in Stored(docs[..n], source, clock, custom) {
      i := StoredFrom(docs[..n], source, clock, custom, p);
    } else {
      i := n;
    }
  }

  lemma {:induction false} StoredHas(docs: seq<Document>, source: string, clock: nat -> int, custom: Fields, i: nat)
    requires i < |docs| && docs[i].content != ""
    ensures docs[i].(metadata := Layered(docs[i].metadata, source, clock(i), custom)) in Stored(docs, source, clock, custom)
  {
    var n := |docs| - 1;
    if i < n {
      assert docs[..n][i] == docs[i];
      StoredHas(docs[..n], source, clock, custom, i);
    }
  }

  /** The custom metadata win over the source and the time, and these over what the document had. */
  lemma LayeredIs(m: Fields, source: string, now: int, custom: Fields, k: string)
    ensures var meta := Layered(m, source, now, custom);
      && (UniqueKeys(custom) && HasKey(custom, k) ==> Lookup(meta, k) == Lookup(custom, k) && Lookup(custom, k).Some?)
      && (!HasKey(custom, k) && k == "source" ==> Lookup(meta, k) == Some(Str(source)))
      && (!HasKey(custom, k) && k == "when" ==> Lookup(meta, k) == Some(Num(now)))
      && (!HasKey(custom, k) && k != "source" && k != "when" ==> Lookup(meta, k) == Lookup(m, k))
  {
    var m1 := Put(m, "source", Str(source));
    LookupPut(m, "source", Str(source), k);
    LookupPut(m1, "when", Num(now), k);
    if !HasKey(custom, k) {
      UpdateOther(Put(m1, "when", Num(now)), custom, k);
    } else if UniqueKeys(custom) {
      LookupIndex(custom, k);
      UpdateSame(Put(m1, "when", Num(now)), custom, k, Lookup(custom, k).value);
    }
  }

  // ---------- a filter of flags ----------

  lemma FlagCondition(meta: Fields, k: string)
    requires Clean(k)
    ensures Satisfies(Obj(meta), Condition("metadata." + k, Bool(true))) <==>
            Lookup(meta, k).Some? &&
            (Lookup(meta, k).value == Bool(true) ||
             (Lookup(meta, k).value.List? && Bool(true) in Lookup(meta, k).value.items))
  {
    var root := Obj([Entry("metadata", Obj(meta))]);
    var path := [Field("metadata"), Field(k)];
    ParseTop(k);
    assert path[1..] == [Field(k)] && [Field(k)][1..] == [];
    assert Hit(root, path, Bool(true)) <==> Hit(Obj(meta), [Field(k)], Bool(true));
  }

  ghost predicate FlagSet(meta: Fields, k: string) {
    Satisfies(Obj(meta), Condition("metadata." + k, Bool(true)))
  }

  ghost predicate AllSet(meta: Fields, fs: Fields) {
    fs == [] || (FlagSet(meta, fs[0].key) && AllSet(meta, fs[1..]))
  }

  lemma {:induction false} FlagFilter(meta: Fields, fs: Fields)
    requires forall i :: 0 <= i < |fs| ==> fs[i].val == Bool(true)
    ensures Matches(Obj(meta), Conditions(fs)) <==> AllSet(meta, fs)
  {
    if fs != [] {
      var root := Obj([Entry("metadata", Obj(meta))]);
      var c := Condition("metadata." + fs[0].key, Bool(true));
      assert fs[0].val == Bool(true);
      assert BuildCondition(fs[0].key, fs[0].val) == [c];
      AllHitConcat(root, [c], Conditions(fs[1..]));
      FlagFilter(meta, fs[1..]);
      assert AllHit(root, [c]) <==> FlagSet(meta, fs[0].key) by { assert [c][0] == c; }
    }
  }

  lemma {:induction false} AllSetIs(meta: Fields, fs: Fields)
    ensures AllSet(meta, fs) <==> forall i :: 0 <= i < |fs| ==> FlagSet(meta, fs[i].key)
  {
    if fs != [] {
      AllSetIs(meta, fs[1..]);
      assert forall i :: 0 <= i < |fs[1..]| ==> fs[1..][i] == fs[i + 1];
      assert forall i :: 1 <= i < |fs| ==> fs[i] == fs[1..][i - 1];
    }
  }

  /** User names, tags and the other metadata keys do not overlap, and the keys that end up in the
      filter contain no path characters. */
  ghost predicate Separate(u: string, tagsA: seq<string>, v: string, tagsB: seq<string>, other: Fields, custom: Fields) {
    && u !in tagsB && v !in tagsA
    && Clean(v) && (forall t :: t in tagsB ==> Clean(t))
    && (forall k :: k == u || k == v || k in tagsA || k in tagsB ==>
          !HasKey(other, k) && !HasKey(custom, k) && k != "source" && k != "when")
  }

  lemma UploadedLookup(u: string, tagsA: seq<string>, v: string, tagsB: seq<string>, other: Fields, source: string,
                       now: int, custom: Fields, k: string)
    requires Separate(u, tagsA, v, tagsB, other, custom) && (k == v || k in tagsB)
    ensures Lookup(Layered(Update(other, Flags(tagsA, u)), source, now, custom), k) ==
            if k == u || k in tagsA then Some(Bool(true)) else None
  {
    var fs := Flags(tagsA, u);
    LayeredIs(Update(other, fs), source, now, custom, k);
    FlagKeys(tagsA, u, k);
    FlagsAre(tagsA, u);
    if HasKey(fs, k) {
      UpdateSame(other, fs, k, Bool(true));
    } else {
      UpdateOther(other, fs, k);
      LookupIndex(other, k);
    }
  }

  lemma RecalledFlag(u: string, tagsA: seq<string>, v: string, tagsB: seq<string>, other: Fields, source: string,
                     now: int, custom: Fields, k: string)
    requires Separate(u, tagsA, v, tagsB, other, custom) && (k == v || k in tagsB)
    ensures FlagSet(Layered(Update(other, Flags(tagsA, u)), source, now, custom), k) <==> k == u || k in tagsA
  {
    FlagCondition(Layered(Update(other, Flags(tagsA, u)), source, now, custom), k);
    UploadedLookup(u, tagsA, v, tagsB, other, source, now, custom, k);
  }

  lemma FlagsCover(meta: Fields, tags: seq<string>, user: string)
    ensures AllSet(meta, Flags(tags, user)) <==>
            FlagSet(meta, user) && forall t :: t in tags ==> FlagSet(meta, t)
  {
    var fs := Flags(tags, user);
    AllSetIs(meta, fs);
    forall i | 0 <= i < |fs| ensures fs[i].key == user || fs[i].key in tags { FlagKeys(tags, user, fs[i].key); }
    if AllSet(meta, fs) {
      forall k | k == user || k in tags ensures FlagSet(meta, k) {
        FlagKeys(tags, user, k);
        var i :| 0 <= i < |fs| && fs[i].key == k;
      }
    }
  }

  /** A stored document of user `u`, uploaded with active tags A, passes the recall filter of user `v`
      with active tags B exactly when u is v and every tag of B is in A. */
  lemma UploadRecall(u: string, tagsA: seq<string>, v: string, tagsB: seq<string>, other: Fields, source: string,
                     now: int, custom: Fields)
    requires Separate(u, tagsA, v, tagsB, other, custom)
    ensures Matches(Obj(Layered(Update(other, Flags(tagsA, u)), source, now, custom)), Conditions(Flags(tagsB, v))) <==>
            u == v && forall t :: t in tagsB ==> t in tagsA
  {
    var meta := Layered(Update(other, Flags(tagsA, u)), source, now, custom);
    FlagsAre(tagsB, v);
    FlagFilter(meta, Flags(tagsB, v));
    FlagsCover(meta, tagsB, v);
    RecalledFlag(u, tagsA, v, tagsB, other, source, now, custom, v);
    forall t | t in tagsB ensures FlagSet(meta, t) <==> t in tagsA {
      RecalledFlag(u, tagsA, v, tagsB, other, source, now, custom, t);
    }
  }

  /** End to end, from the status documents read at upload and at recall, through the upload hook, storing,
      the recall hook and the filter compiler. */
  method UploadThenRecall(docs: seq<Document>, u: string, statusA: Fields, knownA: seq<string>,
                          base: string -> Option<string>, source: string, clock: nat -> int, custom: Fields,
                          ghost v: string, ghost statusB: Fields, ghost knownB: seq<string>)
    returns (stored: seq<Document>, statusA': Value)
    requires UniqueKeys(UserMap(statusA, u))
    requires forall d :: d in docs ==>
               Separate(u, UserTags(statusA, u, knownA), v, UserTags(statusB, v, knownB), d.metadata, custom)
    ensures forall p :: p in stored ==>
              (Matches(Obj(p.metadata), Conditions(Flags(UserTags(statusB, v, knownB), v))) <==>
               u == v && forall t :: t in UserTags(statusB, v, knownB) ==> t in UserTags(statusA, u, knownA))
    ensures Texts(stored) == Texts(docs) && forall p :: p in stored ==> p.content != ""
  {
    ghost var tagsA, tagsB := UserTags(statusA, u, knownA), UserTags(statusB, v, knownB);
    var flagged;
    flagged, statusA' := UploadHook(docs, u, knownA, statusA, base);
    stored := StoreDocuments(flagged, source, clock, custom);
    forall p | p in stored
      ensures p.content != ""
      ensures Matches(Obj(p.metadata), Conditions(Flags(tagsB, v))) <==>
              u == v && forall t :: t in tagsB ==> t in tagsA
    {
      var i := StoredFrom(flagged, source, clock, custom, p);
      assert docs[i] in docs;
      UploadRecall(u, tagsA, v, tagsB, docs[i].metadata, source, clock(i), custom);
    }
    StoredTexts(flagged, source, clock, custom);
    SameTexts(flagged, docs);
  }

  /** The contents of the documents that have any, in order. */
  function Texts(docs: seq<Document>): seq<string> {
    if docs == [] then []
    else
      var d := docs[|docs| - 1];
      Texts(docs[..|docs| - 1]) + if d.content == "" then [] else [d.content]
  }

  /** Storing loses and reorders no content. */
  lemma {:induction false} StoredTexts(docs: seq<Document>, source: string, clock: nat -> int, custom: Fields)
    ensures Texts(Stored(docs, source, clock, custom)) == Texts(docs)
  {
    if docs != [] {
      var n := |docs| - 1;
      StoredTexts(docs[..n], source, clock, custom);
      var before := Stored(docs[..n], source, clock, custom);
      if docs[n].content != "" {
        var p := docs[n].(metadata := Layered(docs[n].metadata, source, clock(n), custom));
        assert (before + [p])[..|before|] == before;
      } else {
        assert before + [] == before && Texts(docs[..n]) + [] == Texts(docs[..n]);
      }
    }
  }

  lemma {:induction false} SameTexts(a: seq<Document>, b: seq<Document>)
    requires |a| == |b| && forall i :: 0 <= i < |a| ==> a[i].content == b[i].content
    ensures Texts(a) == Texts(b)
  {
    if a != [] { SameTexts(a[..|a| - 1], b[..|b| - 1]); }
  }
}
