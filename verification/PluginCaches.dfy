/** What the caches hold, stated on the plugin folders alone: which items, stamped with whom, in which
    order.  `PluginWorld` says that the caches are derived from the plugins; this is what that means. */
module PluginCaches {
  import opened StableSort
  import opened PluginWorld

  /** The k-th item in the folder of the i-th plugin. */
  datatype Place = Place(i: nat, k: nat)

  predicate Earlier(a: Place, b: Place) {
    a.i < b.i || (a.i == b.i && a.k < b.k)
  }

  ghost predicate Ascending(at: seq<Place>) {
    forall a, b :: 0 <= a < b < |at| ==> Earlier(at[a], at[b])
  }

  // ---------- the contributed items, place by place ----------

  function HooksOf(p: PluginV): seq<Hook> { p.items.hooks }

  function ToolsOf(p: PluginV): seq<Procedure> { p.items.tools }

  function FormsOf(p: PluginV): seq<Procedure> { p.items.forms }

  function EndpointsOf(p: PluginV): seq<Endpoint> { p.items.endpoints }

  function Concat<T>(ps: seq<PluginV>, act: set<string>, of: PluginV -> seq<T>): seq<T> {
    if ps == [] then []
    else Concat(ps[..|ps| - 1], act, of) + if ps[|ps| - 1].id in act then of(ps[|ps| - 1]) else []
  }

  lemma {:induction false} ContributedIs(ps: seq<PluginV>, act: set<string>)
    ensures Contributed(ps, act) ==
      Items(Concat(ps, act, HooksOf), Concat(ps, act, ToolsOf), Concat(ps, act, FormsOf), Concat(ps, act, EndpointsOf))
  {
    if ps != [] { ContributedIs(ps[..|ps| - 1], act); }
  }

  function Row(i: nat, size: nat): seq<Place> {
    seq(size, k requires 0 <= k < size => Place(i, k))
  }

  function Places<T>(ps: seq<PluginV>, act: set<string>, of: PluginV -> seq<T>): seq<Place> {
    if ps == [] then []
    else
      var n := |ps| - 1;
      Places(ps[..n], act, of) + if ps[n].id in act then Row(n, |of(ps[n])|) else []
  }

  ghost predicate Within<T>(p: Place, ps: seq<PluginV>, act: set<string>, of: PluginV -> seq<T>) {
    p.i < |ps| && ps[p.i].id in act && p.k < |of(ps[p.i])|
  }

  lemma RowMember(p: Place, i: nat, size: nat)
    ensures p in Row(i, size) <==> p.i == i && p.k < size
  {
    if p.i == i && p.k < size { assert Row(i, size)[p.k] == p; }
  }

  lemma {:induction false} PlacesMember<T>(ps: seq<PluginV>, act: set<string>, of: PluginV -> seq<T>, p: Place)
    ensures p in Places(ps, act, of) <==> Within(p, ps, act, of)
  {
    if ps != [] {
      var n := |ps| - 1;
      PlacesMember(ps[..n], act, of, p);
      RowMember(p, n, |of(ps[n])|);
    }
  }

  lemma {:induction false} PlacesAscending<T>(ps: seq<PluginV>, act: set<string>, of: PluginV -> seq<T>)
    ensures Ascending(Places(ps, act, of))
  {
    if ps != [] {
      var n := |ps| - 1;
      var front := Places(ps[..n], act, of);
      PlacesAscending(ps[..n], act, of);
      forall a | 0 <= a < |front| ensures front[a].i < n {
        PlacesMember(ps[..n], act, of, front[a]);
      }
    }
  }

  lemma {:induction false} ConcatAt<T>(ps: seq<PluginV>, act: set<string>, of: PluginV -> seq<T>)
    ensures var at := Places(ps, act, of);
      && |at| == |Concat(ps, act, of)|
      && forall a :: 0 <= a < |at| ==> Within(at[a], ps, act, of) && Concat(ps, act, of)[a] == of(ps[at[a].i])[at[a].k]
  {
    if ps != [] {
      var n := |ps| - 1;
      var front, at := Places(ps[..n], act, of), Places(ps, act, of);
      ConcatAt(ps[..n], act, of);
      forall a | 0 <= a < |at|
        ensures Within(at[a], ps, act, of) && Concat(ps, act, of)[a] == of(ps[at[a].i])[at[a].k]
      {
        if a < |front| { assert at[a] == front[a] && ps[..n][at[a].i] == ps[at[a].i]; }
      }
    }
  }

  // ---------- tools, forms and endpoints ----------

  /** The cached tools are exactly the tools in the folders of the active plugins, each stamped with its
      plugin, in plugin order and within a plugin in folder order; none is lost and none doubled. */
  ghost predicate AreTools(w: World, at: seq<Place>) {
    && |at| == |w.index.tools| && Ascending(at)
    && (forall p :: p in at <==> p.i < |w.ps| && w.ps[p.i].id in w.active && p.k < |w.ps[p.i].disk.tools|)
    && (forall a :: 0 <= a < |at| ==>
          at[a] in at && w.index.tools[a] == w.ps[at[a].i].disk.tools[at[a].k].(owner := w.ps[at[a].i].id))
  }

  lemma ToolsFollowFolders(w: World) returns (at: seq<Place>)
    requires Inv(w)
    ensures AreTools(w, at)
  {
    at := Places(w.ps, w.active, ToolsOf);
    ContributedIs(w.ps, w.active);
    PlacesAscending(w.ps, w.active, ToolsOf);
    ConcatAt(w.ps, w.active, ToolsOf);
    forall p ensures p in at <==> p.i < |w.ps| && w.ps[p.i].id in w.active && p.k < |w.ps[p.i].disk.tools| {
      PlacesMember(w.ps, w.active, ToolsOf, p);
    }
  }

  /** The same for the forms. */
  ghost predicate AreForms(w: World, at: seq<Place>) {
    && |at| == |w.index.forms| && Ascending(at)
    && (forall p :: p in at <==> p.i < |w.ps| && w.ps[p.i].id in w.active && p.k < |w.ps[p.i].disk.forms|)
    && (forall a :: 0 <= a < |at| ==>
          at[a] in at && w.index.forms[a] == w.ps[at[a].i].disk.forms[at[a].k].(owner := w.ps[at[a].i].id))
  }

  lemma FormsFollowFolders(w: World) returns (at: seq<Place>)
    requires Inv(w)
    ensures AreForms(w, at)
  {
    at := Places(w.ps, w.active, FormsOf);
    ContributedIs(w.ps, w.active);
    PlacesAscending(w.ps, w.active, FormsOf);
    ConcatAt(w.ps, w.active, FormsOf);
    forall p ensures p in at <==> p.i < |w.ps| && w.ps[p.i].id in w.active && p.k < |w.ps[p.i].disk.forms| {
      PlacesMember(w.ps, w.active, FormsOf, p);
    }
  }

  /** The same for the endpoints. */
  ghost predicate AreEndpoints(w: World, at: seq<Place>) {
    && |at| == |w.index.endpoints| && Ascending(at)
    && (forall p :: p in at <==> p.i < |w.ps| && w.ps[p.i].id in w.active && p.k < |w.ps[p.i].disk.endpoints|)
    && (forall a :: 0 <= a < |at| ==>
          at[a] in at && w.index.endpoints[a] == w.ps[at[a].i].disk.endpoints[at[a].k].(owner := w.ps[at[a].i].id))
  }

  lemma EndpointsFollowFolders(w: World) returns (at: seq<Place>)
    requires Inv(w)
    ensures AreEndpoints(w, at)
  {
    at := Places(w.ps, w.active, EndpointsOf);
    ContributedIs(w.ps, w.active);
    PlacesAscending(w.ps, w.active, EndpointsOf);
    ConcatAt(w.ps, w.active, EndpointsOf);
    forall p ensures p in at <==> p.i < |w.ps| && w.ps[p.i].id in w.active && p.k < |w.ps[p.i].disk.endpoints| {
      PlacesMember(w.ps, w.active, EndpointsOf, p);
    }
  }

  // ---------- hooks ----------

  datatype Tagged = Tagged(at: Place, hook: Hook)

  function TagKey(t: Tagged): int { Descending(t.hook) }

  function Bare(ts: seq<Tagged>): seq<Hook> {
    seq(|ts|, a requires 0 <= a < |ts| => ts[a].hook)
  }

  function TagsNamed(ts: seq<Tagged>, n: string): seq<Tagged> {
    if ts == [] then []
    else TagsNamed(ts[..|ts| - 1], n) + if ts[|ts| - 1].hook.name == n then [ts[|ts| - 1]] else []
  }

  lemma {:induction false} BareNamed(ts: seq<Tagged>, n: string)
    ensures Bare(TagsNamed(ts, n)) == Named(Bare(ts), n)
  {
    if ts != [] {
      assert Bare(ts)[..|ts| - 1] == Bare(ts[..|ts| - 1]);
      BareNamed(ts[..|ts| - 1], n);
    }
  }

  lemma {:induction false} TagsNamedProps(ts: seq<Tagged>, n: string)
    ensures forall t :: t in TagsNamed(ts, n) <==> t in ts && t.hook.name == n
    ensures InOrder(ts) ==> InOrder(TagsNamed(ts, n))
  {
    if ts != [] {
      var k := |ts| - 1;
      TagsNamedProps(ts[..k], n);
      assert ts == ts[..k] + [ts[k]];
      var front := TagsNamed(ts[..k], n);
      if InOrder(ts) {
        forall a | 0 <= a < |front| ensures Earlier(front[a].at, ts[k].at) { assert front[a] in ts[..k]; }
      }
    }
  }

  ghost predicate InOrder(ts: seq<Tagged>) {
    forall a, b :: 0 <= a < b < |ts| ==> Earlier(ts[a].at, ts[b].at)
  }

  /** Equal priorities in order of their places. */
  ghost predicate TiesInOrder(ts: seq<Tagged>) {
    forall a, b :: 0 <= a < b < |ts| && TagKey(ts[a]) == TagKey(ts[b]) ==> Earlier(ts[a].at, ts[b].at)
  }

  lemma {:induction false} BareInsert(x: Tagged, ts: seq<Tagged>)
    ensures Bare(Insert(x, ts, TagKey)) == Insert(x.hook, Bare(ts), Descending)
  {
    if ts != [] && TagKey(x) > TagKey(ts[0]) {
      assert Bare(ts)[1..] == Bare(ts[1..]);
      BareInsert(x, ts[1..]);
    }
  }

  lemma {:induction false} BareSort(ts: seq<Tagged>)
    ensures Bare(SortBy(ts, TagKey)) == SortBy(Bare(ts), Descending)
  {
    if ts != [] {
      assert Bare(ts)[1..] == Bare(ts[1..]);
      BareSort(ts[1..]);
      BareInsert(ts[0], SortBy(ts[1..], TagKey));
    }
  }

  lemma {:induction false} InsertTies(x: Tagged, ts: seq<Tagged>)
    requires TiesInOrder(ts) && forall t :: t in ts ==> Earlier(x.at, t.at)
    ensures TiesInOrder(Insert(x, ts, TagKey))
  {
    if ts != [] && TagKey(x) > TagKey(ts[0]) {
      var rest := Insert(x, ts[1..], TagKey);
      InsertTies(x, ts[1..]);
      InsertMembers(x, ts[1..], TagKey);
      MembersOf(rest, ts[1..], x);
      forall b | 0 <= b < |rest| && TagKey(ts[0]) == TagKey(rest[b]) ensures Earlier(ts[0].at, rest[b].at) {
        assert rest[b] in ts[1..];
        var c :| 0 <= c < |ts[1..]| && ts[1..][c] == rest[b];
        assert ts[c + 1] == rest[b];
      }
    }
  }

  lemma {:induction false} SortTies(ts: seq<Tagged>)
    requires InOrder(ts)
    ensures TiesInOrder(SortBy(ts, TagKey))
  {
    if ts != [] {
      SortTies(ts[1..]);
      SortByProps(ts[1..], TagKey);
      InsertTies(ts[0], SortBy(ts[1..], TagKey));
    }
  }

  /** The hooks of the active plugins with their places. */
  function Tags(w: World): seq<Tagged>
    requires |Places(w.ps, w.active, HooksOf)| == |Concat(w.ps, w.active, HooksOf)|
  {
    var at, hs := Places(w.ps, w.active, HooksOf), Concat(w.ps, w.active, HooksOf);
    seq(|at|, a requires 0 <= a < |at| => Tagged(at[a], hs[a]))
  }

  lemma TagsAre(w: World)
    requires Inv(w)
    ensures |Places(w.ps, w.active, HooksOf)| == |Concat(w.ps, w.active, HooksOf)|
    ensures Bare(Tags(w)) == Contributed(w.ps, w.active).hooks && InOrder(Tags(w))
    ensures forall t :: t in Tags(w) <==> FolderTag(w, t)
  {
    var at, hs := Places(w.ps, w.active, HooksOf), Concat(w.ps, w.active, HooksOf);
    ContributedIs(w.ps, w.active);
    PlacesAscending(w.ps, w.active, HooksOf);
    ConcatAt(w.ps, w.active, HooksOf);
    forall t ensures t in Tags(w) <==> FolderTag(w, t) {
      PlacesMember(w.ps, w.active, HooksOf, t.at);
      if t.at in at { var a :| 0 <= a < |at| && at[a] == t.at; assert Tags(w)[a].at == t.at; }
    }
  }

  /** The folder of an active plugin defines this hook. */
  ghost predicate FolderHook(w: World, h: Hook) {
    exists i, t :: 0 <= i < |w.ps| && w.ps[i].id in w.active && t in w.ps[i].disk.hooks && h == t.(owner := w.ps[i].id)
  }

  ghost predicate FolderTag(w: World, t: Tagged) {
    && t.at.i < |w.ps| && w.ps[t.at.i].id in w.active && t.at.k < |w.ps[t.at.i].disk.hooks|
    && t.hook == w.ps[t.at.i].disk.hooks[t.at.k].(owner := w.ps[t.at.i].id)
  }

  lemma BareFolderHook(w: World, ts: seq<Tagged>, h: Hook)
    requires forall t :: t in ts <==> FolderTag(w, t)
    ensures h in Bare(ts) <==> FolderHook(w, h)
  {
    if h in Bare(ts) {
      var a :| 0 <= a < |ts| && ts[a].hook == h;
      var p := ts[a].at;
      assert ts[a] in ts;
      assert w.ps[p.i].disk.hooks[p.k] in w.ps[p.i].disk.hooks;
    }
    if i, t :| 0 <= i < |w.ps| && w.ps[i].id in w.active && t in w.ps[i].disk.hooks && h == t.(owner := w.ps[i].id) {
      var k :| 0 <= k < |w.ps[i].disk.hooks| && w.ps[i].disk.hooks[k] == t;
      assert FolderTag(w, Tagged(Place(i, k), h));
      var a :| 0 <= a < |ts| && ts[a] == Tagged(Place(i, k), h);
      assert Bare(ts)[a] == h;
    }
  }

  /** Under a name the cache holds exactly the hooks of that name in the folders of the active plugins,
      each stamped with its plugin: higher priority first, equal priorities in plugin order, and within a
      plugin in folder order. */
  ghost predicate AreHooks(w: World, n: string, hs: seq<Hook>, at: seq<Place>) {
    && |at| == |hs|
    && (forall p :: p in at <==>
          && p.i < |w.ps| && w.ps[p.i].id in w.active
          && p.k < |w.ps[p.i].disk.hooks| && w.ps[p.i].disk.hooks[p.k].name == n)
    && (forall a :: 0 <= a < |at| ==>
          at[a] in at && hs[a] == w.ps[at[a].i].disk.hooks[at[a].k].(owner := w.ps[at[a].i].id))
    && (forall a, b :: 0 <= a < b < |at| ==>
          hs[a].priority > hs[b].priority || (hs[a].priority == hs[b].priority && Earlier(at[a], at[b])))
  }

  function TagPlaces(ts: seq<Tagged>): seq<Place> {
    seq(|ts|, a requires 0 <= a < |ts| => ts[a].at)
  }

  lemma TagPlaceIff(w: World, n: string, ts: seq<Tagged>, p: Place)
    requires forall t :: t in ts <==> FolderTag(w, t) && t.hook.name == n
    ensures p in TagPlaces(ts) <==>
            && p.i < |w.ps| && w.ps[p.i].id in w.active
            && p.k < |w.ps[p.i].disk.hooks| && w.ps[p.i].disk.hooks[p.k].name == n
  {
    if p in TagPlaces(ts) { var a :| 0 <= a < |ts| && ts[a].at == p; assert ts[a] in ts; }
    if p.i < |w.ps| && w.ps[p.i].id in w.active && p.k < |w.ps[p.i].disk.hooks| && w.ps[p.i].disk.hooks[p.k].name == n {
      var t := Tagged(p, w.ps[p.i].disk.hooks[p.k].(owner := w.ps[p.i].id));
      assert FolderTag(w, t);
      var a :| 0 <= a < |ts| && ts[a] == t;
      assert TagPlaces(ts)[a] == p;
    }
  }

  lemma TagAt(w: World, ts: seq<Tagged>, a: nat)
    requires a < |ts| && forall t :: t in ts ==> FolderTag(w, t)
    ensures var at := TagPlaces(ts);
      at[a] in at && FolderTag(w, ts[a]) && Bare(ts)[a] == w.ps[at[a].i].disk.hooks[at[a].k].(owner := w.ps[at[a].i].id)
  {
    assert ts[a] in ts && TagPlaces(ts)[a] in TagPlaces(ts);
  }

  lemma PlacesOfTags(w: World, n: string, ts: seq<Tagged>)
    requires Ordered(ts, TagKey) && TiesInOrder(ts)
    requires forall t :: t in ts <==> FolderTag(w, t) && t.hook.name == n
    ensures AreHooks(w, n, Bare(ts), TagPlaces(ts))
  {
    var at, hs := TagPlaces(ts), Bare(ts);
    forall p
      ensures p in at <==>
              && p.i < |w.ps| && w.ps[p.i].id in w.active
              && p.k < |w.ps[p.i].disk.hooks| && w.ps[p.i].disk.hooks[p.k].name == n
    {
      TagPlaceIff(w, n, ts, p);
    }
    forall a | 0 <= a < |ts|
      ensures at[a] in at && hs[a] == w.ps[at[a].i].disk.hooks[at[a].k].(owner := w.ps[at[a].i].id)
    {
      TagAt(w, ts, a);
    }
    forall a, b | 0 <= a < b < |at|
      ensures hs[a].priority > hs[b].priority || (hs[a].priority == hs[b].priority && Earlier(at[a], at[b]))
    {
      assert TagKey(ts[a]) <= TagKey(ts[b]);
    }
  }

  lemma SortedTags(ts: seq<Tagged>, n: string) returns (sorted: seq<Tagged>)
    requires InOrder(ts)
    ensures Bare(sorted) == SortBy(Named(Bare(ts), n), Descending)
    ensures Ordered(sorted, TagKey) && TiesInOrder(sorted)
    ensures forall t :: t in sorted <==> t in ts && t.hook.name == n
  {
    var named := TagsNamed(ts, n);
    sorted := SortBy(named, TagKey);
    TagsNamedProps(ts, n);
    BareNamed(ts, n);
    BareSort(named);
    SortTies(named);
    SortByProps(named, TagKey);
  }

  lemma HooksFollowFolders(w: World, n: string) returns (at: seq<Place>)
    requires Inv(w) && n in w.index.hooks
    ensures AreHooks(w, n, w.index.hooks[n], at)
  {
    TagsAre(w);
    var ts := SortedTags(Tags(w), n);
    PlacesOfTags(w, n, ts);
    at := TagPlaces(ts);
  }

  // ---------- which items are cached ----------

  ghost predicate FolderTool(w: World, x: Procedure) {
    exists i, t :: 0 <= i < |w.ps| && w.ps[i].id in w.active && t in w.ps[i].disk.tools && x == t.(owner := w.ps[i].id)
  }

  lemma ToolAtPlace(w: World, at: seq<Place>, x: Procedure)
    requires AreTools(w, at)
    ensures x in w.index.tools <==> FolderTool(w, x)
  {
    if x in w.index.tools {
      var a :| 0 <= a < |at| && w.index.tools[a] == x;
      assert w.ps[at[a].i].disk.tools[at[a].k] in w.ps[at[a].i].disk.tools;
    }
    if i, t :| 0 <= i < |w.ps| && w.ps[i].id in w.active && t in w.ps[i].disk.tools && x == t.(owner := w.ps[i].id) {
      var k :| 0 <= k < |w.ps[i].disk.tools| && w.ps[i].disk.tools[k] == t;
      assert Place(i, k) in at;
      var a :| 0 <= a < |at| && at[a] == Place(i, k);
      assert w.index.tools[a] == x;
    }
  }

  /** A tool is cached if and only if the folder of an active plugin defines it, stamped with that plugin. */
  lemma ToolCachedIff(w: World, x: Procedure)
    requires Inv(w)
    ensures x in w.index.tools <==> FolderTool(w, x)
  {
    var at := ToolsFollowFolders(w);
    ToolAtPlace(w, at, x);
  }

  ghost predicate FolderForm(w: World, x: Procedure) {
    exists i, t :: 0 <= i < |w.ps| && w.ps[i].id in w.active && t in w.ps[i].disk.forms && x == t.(owner := w.ps[i].id)
  }

  lemma FormAtPlace(w: World, at: seq<Place>, x: Procedure)
    requires AreForms(w, at)
    ensures x in w.index.forms <==> FolderForm(w, x)
  {
    if x in w.index.forms {
      var a :| 0 <= a < |at| && w.index.forms[a] == x;
      assert w.ps[at[a].i].disk.forms[at[a].k] in w.ps[at[a].i].disk.forms;
    }
    if i, t :| 0 <= i < |w.ps| && w.ps[i].id in w.active && t in w.ps[i].disk.forms && x == t.(owner := w.ps[i].id) {
      var k :| 0 <= k < |w.ps[i].disk.forms| && w.ps[i].disk.forms[k] == t;
      assert Place(i, k) in at;
      var a :| 0 <= a < |at| && at[a] == Place(i, k);
      assert w.index.forms[a] == x;
    }
  }

  /** A form likewise. */
  lemma FormCachedIff(w: World, x: Procedure)
    requires Inv(w)
    ensures x in w.index.forms <==> FolderForm(w, x)
  {
    var at := FormsFollowFolders(w);
    FormAtPlace(w, at, x);
  }

  ghost predicate FolderEndpoint(w: World, x: Endpoint) {
    exists i, t :: 0 <= i < |w.ps| && w.ps[i].id in w.active && t in w.ps[i].disk.endpoints && x == t.(owner := w.ps[i].id)
  }

  lemma EndpointAtPlace(w: World, at: seq<Place>, x: Endpoint)
    requires AreEndpoints(w, at)
    ensures x in w.index.endpoints <==> FolderEndpoint(w, x)
  {
    if x in w.index.endpoints {
      var a :| 0 <= a < |at| && w.index.endpoints[a] == x;
      assert w.ps[at[a].i].disk.endpoints[at[a].k] in w.ps[at[a].i].disk.endpoints;
    }
    if i, t :| 0 <= i < |w.ps| && w.ps[i].id in w.active && t in w.ps[i].disk.endpoints && x == t.(owner := w.ps[i].id) {
      var k :| 0 <= k < |w.ps[i].disk.endpoints| && w.ps[i].disk.endpoints[k] == t;
      assert Place(i, k) in at;
      var a :| 0 <= a < |at| && at[a] == Place(i, k);
      assert w.index.endpoints[a] == x;
    }
  }

  /** An endpoint likewise. */
  lemma EndpointCachedIff(w: World, x: Endpoint)
    requires Inv(w)
    ensures x in w.index.endpoints <==> FolderEndpoint(w, x)
  {
    var at := EndpointsFollowFolders(w);
    EndpointAtPlace(w, at, x);
  }

  /** A hook likewise, under its own name. */
  lemma HookCachedIff(w: World, n: string, h: Hook)
    requires Inv(w)
    ensures n in w.index.hooks && h in w.index.hooks[n] <==> n == h.name && FolderHook(w, h)
  {
    var all := Contributed(w.ps, w.active).hooks;
    HooksAreStableSort(w, n);
    NamedMember(all, n);
    TagsAre(w);
    BareFolderHook(w, Tags(w), h);
    assert w.index.hooks == Grouped(all);
    if n in w.index.hooks { SortByProps(Named(all, n), Descending); }
  }
}
