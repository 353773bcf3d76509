/** The plugin manager as values: the loaded plugins, the active ids, the caches derived from them
    and the live routes, with one specification function per operation.  The classes in `PluginManager`
    are proved to compute these functions; everything promised about runs is proved here. */
module PluginWorld {
  import opened Prelude
  import opened Json
  import opened StableSort

  /** How a hook answers: nothing, the object it was given, another object, or an exception. */
  datatype Reply = Nothing | Given | Other(v: Value) | Raises

  /** `scribble` is what the hook does to the copy it receives, `reply` what it returns. */
  datatype Hook = Hook(name: string, priority: int, owner: string,
                       scribble: Value -> Value, reply: Value -> Reply)

  /** Tools and forms. */
  datatype Procedure = Procedure(name: string, kind: string, triggers: seq<(string, seq<string>)>, owner: string)

  datatype Route = Route(path: string, methods: set<string>)
  datatype Endpoint = Endpoint(route: Route, owner: string)

  datatype Items = Items(hooks: seq<Hook>, tools: seq<Procedure>, forms: seq<Procedure>, endpoints: seq<Endpoint>)

  const NoItems := Items([], [], [], [])

  function Plus(a: Items, b: Items): Items {
    Items(a.hooks + b.hooks, a.tools + b.tools, a.forms + b.forms, a.endpoints + b.endpoints)
  }

  /** Loading stamps every item with the id of its plugin. */
  function Stamp(d: Items, id: string): Items {
    Items(seq(|d.hooks|, i requires 0 <= i < |d.hooks| => d.hooks[i].(owner := id)),
          seq(|d.tools|, i requires 0 <= i < |d.tools| => d.tools[i].(owner := id)),
          seq(|d.forms|, i requires 0 <= i < |d.forms| => d.forms[i].(owner := id)),
          seq(|d.endpoints|, i requires 0 <= i < |d.endpoints| => d.endpoints[i].(owner := id)))
  }

  /** `disk` is what the plugin's folder defines, `items` what is loaded; `on` says that the plugin's own
      callbacks are loaded too, so that its deactivation can raise. */
  datatype PluginV = PluginV(id: string, disk: Items, items: Items, on: bool)

  datatype Index = Index(hooks: map<string, seq<Hook>>, tools: seq<Procedure>, forms: seq<Procedure>,
                         endpoints: seq<Endpoint>)

  datatype World = World(ps: seq<PluginV>, active: set<string>, saved: Option<set<string>>,
                         index: Index, routes: seq<Route>)

  // ---------- the derived caches ----------

  function Share(p: PluginV, act: set<string>): Items {
    if p.id in act then p.items else NoItems
  }

  /** The items of the active plugins, in plugin order. */
  function Contributed(ps: seq<PluginV>, act: set<string>): Items {
    if ps == [] then NoItems
    else Plus(Contributed(ps[..|ps| - 1], act), Share(ps[|ps| - 1], act))
  }

  function Named(hs: seq<Hook>, n: string): seq<Hook> {
    if hs == [] then []
    else Named(hs[..|hs| - 1], n) + (if hs[|hs| - 1].name == n then [hs[|hs| - 1]] else [])
  }

  function Names(hs: seq<Hook>): set<string> {
    set i | 0 <= i < |hs| :: hs[i].name
  }

  function Descending(h: Hook): int { -h.priority }

  function Grouped(hs: seq<Hook>): map<string, seq<Hook>> {
    map n | n in Names(hs) :: SortBy(Named(hs, n), Descending)
  }

  function IndexOf(ps: seq<PluginV>, act: set<string>): Index {
    var c := Contributed(ps, act);
    Index(Grouped(c.hooks), c.tools, c.forms, c.endpoints)
  }

  // ---------- the plugin dictionary ----------

  predicate Exists(ps: seq<PluginV>, id: string) {
    exists i :: 0 <= i < |ps| && ps[i].id == id
  }

  function Find(ps: seq<PluginV>, id: string): (i: nat)
    requires Exists(ps, id)
    ensures i < |ps| && ps[i].id == id
  {
    if ps[0].id == id then 0
    else
      assert Exists(ps[1..], id) by {
        var i :| 0 <= i < |ps| && ps[i].id == id;
        assert ps[1..][i - 1].id == id;
      }
      1 + Find(ps[1..], id)
  }

  ghost predicate UniqueIds(ps: seq<PluginV>) {
    forall i, j :: 0 <= i < j < |ps| ==> ps[i].id != ps[j].id
  }

  function PutPlugin(ps: seq<PluginV>, p: PluginV): seq<PluginV> {
    if Exists(ps, p.id) then ps[Find(ps, p.id) := p] else ps + [p]
  }

  function RemovePlugin(ps: seq<PluginV>, id: string): seq<PluginV>
    requires Exists(ps, id)
  {
    ps[..Find(ps, id)] + ps[Find(ps, id) + 1..]
  }

  // ---------- routes ----------

  function Activated(routes: seq<Route>, es: seq<Endpoint>, act: set<string>): seq<Route> {
    if es == [] then routes
    else
      var rs := Activated(routes, es[..|es| - 1], act);
      var e := es[|es| - 1];
      if e.owner in act && e.route !in rs then rs + [e.route] else rs
  }

  function RemoveFirst(routes: seq<Route>, r: Route): seq<Route> {
    if routes == [] then []
    else if routes[0] == r then routes[1..]
    else [routes[0]] + RemoveFirst(routes[1..], r)
  }

  function Deactivated(routes: seq<Route>, es: seq<Endpoint>): seq<Route> {
    if es == [] then routes else RemoveFirst(Deactivated(routes, es[..|es| - 1]), es[|es| - 1].route)
  }

  // ---------- operations ----------

  function Sync(w: World): World {
    var index := IndexOf(w.ps, w.active);
    w.(index := index, routes := Activated(w.routes, index.endpoints, w.active))
  }

  /** Requirements may fail to install before anything is loaded; the plugin's own activation
      callback may raise after everything is; its deactivation callback may raise first thing.  When
      everything is done the callback of the final sync may raise, after it has activated the endpoints:
      the embedder or the vector store is down. */
  datatype Outcome = Fine | RaisesBefore | RaisesAfter | SyncRaises

  /** The plugin itself raises. */
  predicate Fails(o: Outcome) { o.RaisesBefore? || o.RaisesAfter? }

  function SetPlugin(ps: seq<PluginV>, i: nat, items: Items, on: bool): seq<PluginV>
    requires i < |ps|
  {
    ps[i := ps[i].(items := items, on := on)]
  }

  function ToggleOff(w: World, i: nat): World
    requires i < |w.ps|
  {
    var id := w.ps[i].id;
    Sync(w.(ps := SetPlugin(w.ps, i, NoItems, false),
            active := w.active - {id}, saved := Some(w.active - {id}),
            routes := Deactivated(w.routes, w.ps[i].items.endpoints)))
  }

  function ToggleOn(w: World, i: nat): World
    requires i < |w.ps|
  {
    var id := w.ps[i].id;
    Sync(w.(ps := SetPlugin(w.ps, i, Stamp(w.ps[i].disk, id), true),
            active := w.active + {id}, saved := Some(w.active + {id})))
  }

  /** The new world, and whether the call returned. */
  function Toggle(w: World, id: string, o: Outcome): (World, bool) {
    if !Exists(w.ps, id) then (w, false)
    else
      var i := Find(w.ps, id);
      if id in w.active then
        if w.ps[i].on && Fails(o) then (w, false) else (ToggleOff(w, i), !o.SyncRaises?)
      else match o
        case RaisesBefore => (w, false)
        case RaisesAfter => (w.(ps := SetPlugin(w.ps, i, Stamp(w.ps[i].disk, id), true)), false)
        case _ => (ToggleOn(w, i), o.Fine?)
  }

  /** `valid` says whether the extracted folder could be loaded as a plugin. */
  function Install(w: World, id: string, disk: Items, valid: bool, o: Outcome): (World, bool) {
    Toggle(if valid then w.(ps := PutPlugin(w.ps, PluginV(id, disk, NoItems, false))) else w, id, o)
  }

  function Uninstall(w: World, id: string, o: Outcome): (World, bool) {
    if !Exists(w.ps, id) || id == "core_plugin" then (w, true)
    else if id !in w.active then (w.(ps := RemovePlugin(w.ps, id)), true)
    else
      var (w', ok) := Toggle(w, id, o);
      if ok && Exists(w'.ps, id) then (w'.(ps := RemovePlugin(w'.ps, id)), true) else (w', false)
  }

  /** A folder met by discovery: `outcome` is how its activation goes, `off` how the deactivation goes by
      which a failed activation is undone. */
  datatype Folder = Folder(id: string, disk: Items, valid: bool, outcome: Outcome, off: Outcome)

  /** `synced` says whether the callback of the final sync returns. */
  function Discover(w: World, fs: seq<Folder>, synced: bool): (World, bool)
    decreases |fs|
  {
    if fs == [] then (Sync(w), synced)
    else
      var f := fs[0];
      var ps := if f.valid then PutPlugin(w.ps, PluginV(f.id, f.disk, NoItems, false)) else w.ps;
      var w1 := w.(ps := ps);
      if f.id !in w.active then Discover(w1, fs[1..], synced)
      else if !Exists(ps, f.id) then (w1, false)
      else
        var i := Find(ps, f.id);
        var loaded := w.(ps := SetPlugin(ps, i, Stamp(ps[i].disk, f.id), true));
        match f.outcome
        case RaisesBefore => (Toggle(w1, f.id, f.off).0, false)
        case RaisesAfter => (Toggle(loaded, f.id, f.off).0, false)
        case _ => Discover(loaded, fs[1..], synced)
  }

  /** Rediscovery forgets the plugin objects and reads the active ids back from the database; the
      core plugin is always active. */
  function FindPlugins(w: World, fs: seq<Folder>, synced: bool): (World, bool) {
    Discover(w.(ps := [], active := Persisted(w)), fs, synced)
  }

  // ---------- what every reachable world satisfies ----------

  ghost predicate Loaded(p: PluginV) {
    p.items == Stamp(p.disk, p.id)
  }

  ghost predicate Owned(p: PluginV) {
    && (forall i :: 0 <= i < |p.items.hooks| ==> p.items.hooks[i].owner == p.id)
    && (forall i :: 0 <= i < |p.items.endpoints| ==> p.items.endpoints[i].owner == p.id)
  }

  /** The caches are exactly the ones derived from the active plugins, and every active plugin has
      loaded what its folder defines. */
  ghost predicate Inv(w: World) {
    && UniqueIds(w.ps)
    && w.index == IndexOf(w.ps, w.active)
    && ActiveLoaded(w.ps, w.active)
  }

  /** Plugins that are not active do not influence the caches. */
  lemma {:induction false} ContributedFrame(ps: seq<PluginV>, qs: seq<PluginV>, act: set<string>, act': set<string>)
    requires |ps| == |qs|
    requires forall i :: 0 <= i < |ps| ==> Share(ps[i], act) == Share(qs[i], act')
    ensures Contributed(ps, act) == Contributed(qs, act')
  {
    if ps != [] {
      ContributedFrame(ps[..|ps| - 1], qs[..|qs| - 1], act, act');
    }
  }

  lemma {:induction false} ContributedAppend(ps: seq<PluginV>, qs: seq<PluginV>, act: set<string>)
    ensures Contributed(ps + qs, act) == Plus(Contributed(ps, act), Contributed(qs, act))
  {
    if qs == [] {
      assert ps + qs == ps;
    } else {
      assert (ps + qs)[..|ps + qs| - 1] == ps + qs[..|qs| - 1];
      ContributedAppend(ps, qs[..|qs| - 1], act);
    }
  }

  lemma ContributedOne(p: PluginV, act: set<string>)
    ensures Contributed([p], act) == Share(p, act)
  {
  }

  lemma PlusNothing(a: Items, b: Items)
    ensures Plus(a, Plus(NoItems, b)) == Plus(a, b)
  {
  }

  /** Removing a plugin that is not active leaves the caches alone. */
  lemma RemoveInactive(ps: seq<PluginV>, i: nat, act: set<string>)
    requires i < |ps| && ps[i].id !in act
    ensures Contributed(ps[..i] + ps[i + 1..], act) == Contributed(ps, act)
  {
    var rest := ps[i + 1..];
    assert ps == ps[..i] + ([ps[i]] + rest);
    ContributedAppend(ps[..i], rest, act);
    ContributedAppend(ps[..i], [ps[i]] + rest, act);
    ContributedAppend([ps[i]], rest, act);
    ContributedOne(ps[i], act);
    PlusNothing(Contributed(ps[..i], act), Contributed(rest, act));
  }

  /** An item is cached exactly when an active plugin has it. */
  lemma {:induction false} ContributedMember(ps: seq<PluginV>, act: set<string>)
    ensures forall h :: h in Contributed(ps, act).hooks <==>
              exists i :: 0 <= i < |ps| && ps[i].id in act && h in ps[i].items.hooks
    ensures forall e :: e in Contributed(ps, act).endpoints <==>
              exists i :: 0 <= i < |ps| && ps[i].id in act && e in ps[i].items.endpoints
  {
    if ps != [] {
      var n := |ps| - 1;
      ContributedMember(ps[..n], act);
      assert forall i :: 0 <= i < n ==> ps[..n][i] == ps[i];
      forall h
        ensures h in Contributed(ps, act).hooks <==>
                exists i :: 0 <= i < |ps| && ps[i].id in act && h in ps[i].items.hooks
      {
      }
      forall e
        ensures e in Contributed(ps, act).endpoints <==>
                exists i :: 0 <= i < |ps| && ps[i].id in act && e in ps[i].items.endpoints
      {
      }
    }
  }

  lemma {:induction false} NamedMember(hs: seq<Hook>, n: string)
    ensures forall h :: h in Named(hs, n) <==> h in hs && h.name == n
  {
    if hs != [] {
      NamedMember(hs[..|hs| - 1], n);
      assert hs == hs[..|hs| - 1] + [hs[|hs| - 1]];
    }
  }

  /** These are the items of `d`, kind by kind and in order, with `id` as their owner. */
  ghost predicate Stamped(items: Items, d: Items, id: string) {
    && |items.hooks| == |d.hooks| && (forall k :: 0 <= k < |d.hooks| ==> items.hooks[k] == d.hooks[k].(owner := id))
    && |items.tools| == |d.tools| && (forall k :: 0 <= k < |d.tools| ==> items.tools[k] == d.tools[k].(owner := id))
    && |items.forms| == |d.forms| && (forall k :: 0 <= k < |d.forms| ==> items.forms[k] == d.forms[k].(owner := id))
    && |items.endpoints| == |d.endpoints|
    && (forall k :: 0 <= k < |d.endpoints| ==> items.endpoints[k] == d.endpoints[k].(owner := id))
  }

  lemma StampOwned(p: PluginV)
    requires Loaded(p)
    ensures Owned(p)
  {
  }

  /** What the hook cache means, without mentioning how it is computed: under each name, ordered by
      descending priority, equal priorities in plugin order, and nothing else. */
  lemma HooksAreStableSort(w: World, n: string)
    requires Inv(w)
    ensures var all := Contributed(w.ps, w.active).hooks;
      && (n in w.index.hooks <==> exists h :: h in all && h.name == n)
      && (n in w.index.hooks ==>
            && (forall i, j :: 0 <= i < j < |w.index.hooks[n]| ==>
                  w.index.hooks[n][i].priority >= w.index.hooks[n][j].priority)
            && (forall k :: WithKey(w.index.hooks[n], Descending, k) == WithKey(Named(all, n), Descending, k)))
  {
    var all := Contributed(w.ps, w.active).hooks;
    assert w.index.hooks == Grouped(all);
    GroupedMeans(all, n);
  }

  lemma GroupedMeans(all: seq<Hook>, n: string)
    ensures var g: map<string, seq<Hook>> := Grouped(all);
      && (n in g <==> exists h :: h in all && h.name == n)
      && (n in g ==>
            && (forall i, j :: 0 <= i < j < |g[n]| ==> g[n][i].priority >= g[n][j].priority)
            && (forall k :: WithKey(g[n], Descending, k) == WithKey(Named(all, n), Descending, k)))
  {
    var g: map<string, seq<Hook>> := Grouped(all);
    if n in g {
      SortByProps(Named(all, n), Descending);
      var i :| 0 <= i < |all| && all[i].name == n;
      assert all[i] in all;
      forall i, j | 0 <= i < j < |g[n]| ensures g[n][i].priority >= g[n][j].priority {
        assert Descending(g[n][i]) <= Descending(g[n][j]);
      }
    }
  }

  /** Every cached hook belongs to a loaded, active plugin. */
  lemma HookOwnersLoaded(w: World, n: string, h: Hook)
    requires Inv(w) && n in w.index.hooks && h in w.index.hooks[n]
    ensures Exists(w.ps, h.owner) && h.owner in w.active && h.name == n
  {
    var all := Contributed(w.ps, w.active).hooks;
    SortByProps(Named(all, n), Descending);
    NamedMember(all, n);
    ContributedMember(w.ps, w.active);
    var i :| 0 <= i < |w.ps| && w.ps[i].id in w.active && h in w.ps[i].items.hooks;
    StampOwned(w.ps[i]);
  }

  // ---------- every operation keeps the invariant ----------

  lemma FindUnique(ps: seq<PluginV>, i: nat)
    requires UniqueIds(ps) && i < |ps|
    ensures Exists(ps, ps[i].id) && Find(ps, ps[i].id) == i
  {
  }

  lemma PutUnique(ps: seq<PluginV>, p: PluginV)
    requires UniqueIds(ps)
    ensures UniqueIds(PutPlugin(ps, p)) && Exists(PutPlugin(ps, p), p.id)
    ensures var qs := PutPlugin(ps, p); var i := Find(qs, p.id);
            qs[i] == p && forall j :: 0 <= j < |qs| && j != i ==> j < |ps| && qs[j] == ps[j] && qs[j].id != p.id
  {
    var qs := PutPlugin(ps, p);
    var k := if Exists(ps, p.id) then Find(ps, p.id) else |ps|;
    assert qs[k].id == p.id;
  }

  ghost predicate ActiveLoaded(ps: seq<PluginV>, act: set<string>) {
    forall i :: 0 <= i < |ps| && ps[i].id in act ==> Loaded(ps[i])
  }

  lemma ToggleOffInv(w: World, i: nat)
    requires UniqueIds(w.ps) && i < |w.ps|
    requires forall j :: 0 <= j < |w.ps| && w.ps[j].id in w.active && j != i ==> Loaded(w.ps[j])
    ensures Inv(ToggleOff(w, i))
  {
  }

  lemma ToggleOnInv(w: World, i: nat)
    requires UniqueIds(w.ps) && i < |w.ps| && ActiveLoaded(w.ps, w.active)
    ensures Inv(ToggleOn(w, i))
  {
  }

  /** A failed activation leaves its items loaded in a plugin that is not active. */
  lemma FailedOnInv(w: World, i: nat)
    requires Inv(w) && i < |w.ps| && w.ps[i].id !in w.active
    ensures Inv(w.(ps := SetPlugin(w.ps, i, Stamp(w.ps[i].disk, w.ps[i].id), true)))
  {
    ContributedFrame(w.ps, SetPlugin(w.ps, i, Stamp(w.ps[i].disk, w.ps[i].id), true), w.active, w.active);
  }

  /** Whether a toggle gets as far as changing the active ids. */
  predicate Flips(w: World, id: string, o: Outcome) {
    && Exists(w.ps, id)
    && (Fails(o) ==> id in w.active && !w.ps[Find(w.ps, id)].on)
  }

  /** A toggle keeps caches and plugins in agreement whether it returns or raises.  Unless the plugin is
      unknown or raises itself, it flips one id and leaves the persisted set equal to the active one, also
      when the callback of its sync raises; otherwise active set, persisted set, caches and routes stay. */
  lemma ToggleKeepsInv(w: World, id: string, o: Outcome)
    requires Inv(w)
    ensures Inv(Toggle(w, id, o).0)
    ensures Toggle(w, id, o).1 <==> Flips(w, id, o) && !o.SyncRaises?
    ensures var w' := Toggle(w, id, o).0;
      if Flips(w, id, o) then
        w'.saved == Some(w'.active) && w'.active == (if id in w.active then w.active - {id} else w.active + {id})
      else
        w'.index == w.index && w'.active == w.active && w'.saved == w.saved && w'.routes == w.routes
  {
    ToggleEffect(w, id, o);
    ToggleInv(w, id, o);
  }

  lemma ToggleEffect(w: World, id: string, o: Outcome)
    ensures Toggle(w, id, o).1 <==> Flips(w, id, o) && !o.SyncRaises?
    ensures var w' := Toggle(w, id, o).0;
      if Flips(w, id, o) then
        w'.saved == Some(w'.active) && w'.active == (if id in w.active then w.active - {id} else w.active + {id})
      else
        w'.index == w.index && w'.active == w.active && w'.saved == w.saved && w'.routes == w.routes
  {
  }

  /** What a toggle does to the plugins: the others stay as they are; switched off, the plugin has no items;
      switched on, it has those of its folder, also when its own callback or the sync then raises. */
  lemma TogglePlugins(w: World, id: string, o: Outcome)
    requires Exists(w.ps, id)
    ensures var i := Find(w.ps, id); var ps := Toggle(w, id, o).0.ps;
      && |ps| == |w.ps| && (forall j :: 0 <= j < |ps| && j != i ==> ps[j] == w.ps[j])
      && ps[i].id == id && ps[i].disk == w.ps[i].disk
      && (id in w.active && Flips(w, id, o) ==> ps[i].items == NoItems && !ps[i].on)
      && (id in w.active && !Flips(w, id, o) ==> ps[i] == w.ps[i])
      && (id !in w.active && o.RaisesBefore? ==> ps[i] == w.ps[i])
      && (id !in w.active && !o.RaisesBefore? ==> Stamped(ps[i].items, ps[i].disk, id) && ps[i].on)
  {
  }

  lemma ToggleInv(w: World, id: string, o: Outcome)
    requires Inv(w)
    ensures Inv(Toggle(w, id, o).0)
  {
    if Exists(w.ps, id) {
      var i := Find(w.ps, id);
      if id in w.active {
        ToggleOffInv(w, i);
      } else if o.RaisesAfter? {
        FailedOnInv(w, i);
      } else {
        ToggleOnInv(w, i);
      }
    }
  }

  lemma PutActiveLoaded(ps: seq<PluginV>, p: PluginV, act: set<string>)
    requires UniqueIds(ps) && ActiveLoaded(ps, act) && p.id !in act
    ensures UniqueIds(PutPlugin(ps, p)) && ActiveLoaded(PutPlugin(ps, p), act)
  {
    PutUnique(ps, p);
    var qs := PutPlugin(ps, p);
    forall j | 0 <= j < |qs| && qs[j].id in act ensures Loaded(qs[j]) {
      assert j != Find(qs, p.id) && qs[j] == ps[j];
    }
  }

  lemma PutInactive(ps: seq<PluginV>, p: PluginV, act: set<string>)
    requires UniqueIds(ps) && ActiveLoaded(ps, act) && p.id !in act
    ensures UniqueIds(PutPlugin(ps, p)) && ActiveLoaded(PutPlugin(ps, p), act)
    ensures Contributed(PutPlugin(ps, p), act) == Contributed(ps, act)
  {
    PutActiveLoaded(ps, p, act);
    if Exists(ps, p.id) {
      ContributedFrame(ps, ps[Find(ps, p.id) := p], act, act);
    } else {
      ContributedAppend(ps, [p], act);
      ContributedOne(p, act);
    }
  }

  /** Installing keeps the agreement, also over an id that is active: the new object is switched off
      and the id leaves the active set. */
  lemma InstallKeepsInv(w: World, id: string, disk: Items, valid: bool, o: Outcome)
    requires Inv(w)
    ensures Inv(Install(w, id, disk, valid, o).0)
    ensures valid && id in w.active ==>
              Install(w, id, disk, valid, o).1 == !o.SyncRaises? && id !in Install(w, id, disk, valid, o).0.active
  {
    var p := PluginV(id, disk, NoItems, false);
    var w1 := w.(ps := PutPlugin(w.ps, p));
    if !valid {
      ToggleKeepsInv(w, id, o);
    } else if id !in w.active {
      PutInactive(w.ps, p, w.active);
      ToggleKeepsInv(w1, id, o);
    } else {
      PutUnique(w.ps, p);
      ToggleOffInv(w1, Find(w1.ps, id));
    }
  }

  /** When an install returns, and what it makes active.  A folder that cannot be loaded still toggles the
      plugin that is there under its id. */
  lemma InstallEffect(w: World, id: string, disk: Items, valid: bool, o: Outcome)
    requires UniqueIds(w.ps)
    ensures var (w', ok) := Install(w, id, disk, valid, o); var flips := if valid then id in w.active || !Fails(o) else Flips(w, id, o);
      && (ok <==> flips && !o.SyncRaises?)
      && w'.active == (if !flips then w.active else if id in w.active then w.active - {id} else w.active + {id})
      && w'.saved == (if flips then Some(w'.active) else w.saved)
  {
    var p := PluginV(id, disk, NoItems, false);
    var v := if valid then w.(ps := PutPlugin(w.ps, p)) else w;
    if valid { PutUnique(w.ps, p); }
    ToggleEffect(v, id, o);
  }

  /** An uninstall returns unless the plugin is active and switching it off, or the sync after that, raises;
      it does nothing for the core plugin and for unknown ids. */
  lemma UninstallReturnsIff(w: World, id: string, o: Outcome)
    ensures Uninstall(w, id, o).1 <==>
      !Exists(w.ps, id) || id == "core_plugin" || id !in w.active || (Flips(w, id, o) && !o.SyncRaises?)
    ensures !Exists(w.ps, id) || id == "core_plugin" ==> Uninstall(w, id, o).0 == w
    ensures !Uninstall(w, id, o).1 ==> Exists(Uninstall(w, id, o).0.ps, id)
  {
    if Exists(w.ps, id) && id in w.active {
      ToggleEffect(w, id, o);
      TogglePlugins(w, id, o);
      assert Toggle(w, id, o).0.ps[Find(w.ps, id)].id == id;
    }
  }

  lemma RemoveShape(ps: seq<PluginV>, k: nat, act: set<string>)
    requires UniqueIds(ps) && ActiveLoaded(ps, act) && k < |ps|
    ensures var qs := ps[..k] + ps[k + 1..]; UniqueIds(qs) && ActiveLoaded(qs, act) && !Exists(qs, ps[k].id)
  {
  }

  lemma RemoveKeepsInv(w: World, id: string)
    requires Inv(w) && Exists(w.ps, id) && id !in w.active
    ensures Inv(w.(ps := RemovePlugin(w.ps, id)))
    ensures !Exists(RemovePlugin(w.ps, id), id)
  {
    RemoveInactive(w.ps, Find(w.ps, id), w.active);
    RemoveShape(w.ps, Find(w.ps, id), w.active);
  }

  lemma UninstallKeepsInv(w: World, id: string, o: Outcome)
    requires Inv(w)
    ensures Inv(Uninstall(w, id, o).0)
    ensures Uninstall(w, id, o).1 && id != "core_plugin" ==>
              !Exists(Uninstall(w, id, o).0.ps, id) && (Exists(w.ps, id) ==> id !in Uninstall(w, id, o).0.active)
  {
    if Exists(w.ps, id) && id != "core_plugin" {
      if id !in w.active {
        RemoveKeepsInv(w, id);
      } else {
        var (w', ok) := Toggle(w, id, o);
        ToggleKeepsInv(w, id, o);
        if ok {
          var i := Find(w.ps, id);
          assert w'.ps[i].id == id;
          RemoveKeepsInv(w', id);
        }
      }
    }
  }

  lemma SetMembers(ps: seq<PluginV>, i: nat, q: PluginV)
    requires UniqueIds(ps) && i < |ps| && q.id == ps[i].id
    ensures forall p: PluginV :: p.id != q.id ==> (p in ps[i := q] <==> p in ps)
  {
    var qs := ps[i := q];
    forall p: PluginV | p.id != q.id ensures p in qs <==> p in ps {
      if p in ps { var j :| 0 <= j < |ps| && ps[j] == p; assert qs[j] == p; }
    }
  }

  lemma InstallPuts(w: World, id: string, disk: Items)
    requires UniqueIds(w.ps) && id !in w.active
    ensures var (w', ok) := Install(w, id, disk, true, Fine);
      && ok && w'.active == w.active + {id} && Exists(w'.ps, id)
      && w'.ps[Find(w'.ps, id)] == PluginV(id, disk, Stamp(disk, id), true)
      && forall p: PluginV :: p.id != id ==> (p in w'.ps <==> p in w.ps)
  {
    var p := PluginV(id, disk, NoItems, false);
    var qs := PutPlugin(w.ps, p);
    PutUnique(w.ps, p);
    var i := Find(qs, id);
    var w' := Install(w, id, disk, true, Fine).0;
    var loaded := PluginV(id, disk, Stamp(disk, id), true);
    assert w'.ps == qs[i := loaded] && w'.ps[i].id == id;
    FindUnique(w'.ps, i);
    SetMembers(qs, i, loaded);
    if Exists(w.ps, id) { SetMembers(w.ps, Find(w.ps, id), p); }
  }

  lemma StampStamped(d: Items, id: string)
    ensures Stamped(Stamp(d, id), d, id)
  {
  }

  /** An install that returns for a new or inactive id loads exactly what the folder defines, activates
      the id and leaves every other plugin alone. */
  lemma InstallLoads(w: World, id: string, disk: Items)
    requires Inv(w) && id !in w.active
    ensures var (w', ok) := Install(w, id, disk, true, Fine);
      && ok && w'.active == w.active + {id} && Exists(w'.ps, id)
      && w'.ps[Find(w'.ps, id)].disk == disk && Stamped(w'.ps[Find(w'.ps, id)].items, disk, id)
      && forall p: PluginV :: p.id != id ==> (p in w'.ps <==> p in w.ps)
  {
    InstallPuts(w, id, disk);
    StampStamped(disk, id);
  }

  lemma RemovedMembers(ps: seq<PluginV>, i: nat)
    requires UniqueIds(ps) && i < |ps|
    ensures forall p :: p in ps[..i] + ps[i + 1..] <==> p in ps && p.id != ps[i].id
  {
    assert ps == ps[..i] + [ps[i]] + ps[i + 1..];
    var front, tail := ps[..i], ps[i + 1..];
    assert forall j :: 0 <= j < |front| ==> front[j].id != ps[i].id;
    assert forall j :: 0 <= j < |tail| ==> tail[j].id != ps[i].id;
  }

  lemma OffThenRemoved(ps: seq<PluginV>, i: nat)
    requires UniqueIds(ps) && i < |ps|
    ensures var off := SetPlugin(ps, i, NoItems, false);
      Exists(off, ps[i].id) && Find(off, ps[i].id) == i && RemovePlugin(off, ps[i].id) == ps[..i] + ps[i + 1..]
  {
    var off := SetPlugin(ps, i, NoItems, false);
    assert off[i].id == ps[i].id;
    FindUnique(off, i);
    assert off[..i] == ps[..i] && off[i + 1..] == ps[i + 1..];
  }

  lemma ToggleOffShape(w: World, i: nat)
    requires i < |w.ps|
    ensures ToggleOff(w, i).ps == SetPlugin(w.ps, i, NoItems, false) && ToggleOff(w, i).active == w.active - {w.ps[i].id}
  {
  }

  lemma UninstallShape(w: World, id: string, o: Outcome)
    requires UniqueIds(w.ps) && Exists(w.ps, id) && id != "core_plugin" && Uninstall(w, id, o).1
    ensures var i := Find(w.ps, id); var w' := Uninstall(w, id, o).0;
      w'.ps == w.ps[..i] + w.ps[i + 1..] && w'.active == w.active - {id}
  {
    var i := Find(w.ps, id);
    OffThenRemoved(w.ps, i);
    ToggleOffShape(w, i);
  }

  /** An uninstall that returns takes out exactly that plugin. */
  lemma UninstallForgets(w: World, id: string, o: Outcome)
    requires Inv(w) && Exists(w.ps, id) && id != "core_plugin" && Uninstall(w, id, o).1
    ensures var w' := Uninstall(w, id, o).0;
      w'.active == w.active - {id} && forall p :: p in w'.ps <==> p in w.ps && p.id != id
  {
    UninstallShape(w, id, o);
    RemovedMembers(w.ps, Find(w.ps, id));
  }

  function Ids(ps: seq<PluginV>): set<string> {
    set i | 0 <= i < |ps| :: ps[i].id
  }

  function SeenIds(known: set<string>, f: Folder): set<string> {
    if f.valid then known + {f.id} else known
  }

  /** Undoing the activation raises too: the deactivation callback is loaded, by this activation or by an
      earlier folder of the same id. */
  predicate RecoveryRaises(f: Folder) {
    Fails(f.off) && (f.outcome.RaisesAfter? || !f.valid)
  }

  /** Discovery comes to the folder of an active plugin that could not be loaded, or whose failed
      activation cannot be undone.  `known` are the ids loaded so far. */
  predicate Blocked(known: set<string>, act: set<string>, fs: seq<Folder>)
    decreases |fs|
  {
    fs != [] &&
    var k := SeenIds(known, fs[0]);
    if fs[0].id !in act then Blocked(k, act, fs[1..])
    else
      || fs[0].id !in k
      || (if Fails(fs[0].outcome) then RecoveryRaises(fs[0]) else Blocked(k, act, fs[1..]))
  }

  /** The ids loaded when discovery is blocked. */
  function KnownAtBlock(known: set<string>, act: set<string>, fs: seq<Folder>): set<string>
    decreases |fs|
  {
    if fs == [] then known
    else
      var k := SeenIds(known, fs[0]);
      if fs[0].id in act && (fs[0].id !in k || Fails(fs[0].outcome)) then k else KnownAtBlock(k, act, fs[1..])
  }

  /** No activation raises. */
  ghost predicate AllFine(act: set<string>, fs: seq<Folder>) {
    forall i :: 0 <= i < |fs| && fs[i].id in act ==> !Fails(fs[i].outcome)
  }

  lemma ExistsIds(ps: seq<PluginV>, id: string)
    ensures Exists(ps, id) <==> id in Ids(ps)
  {
  }

  lemma PutIds(ps: seq<PluginV>, f: Folder)
    ensures Ids(if f.valid then PutPlugin(ps, PluginV(f.id, f.disk, NoItems, false)) else ps) == SeenIds(Ids(ps), f)
  {
    if f.valid {
      var qs := PutPlugin(ps, PluginV(f.id, f.disk, NoItems, false));
      assert forall i :: 0 <= i < |ps| ==> qs[i].id == ps[i].id;
      if !Exists(ps, f.id) { assert qs[|ps|].id == f.id; }
      forall id ensures id in Ids(qs) <==> id in SeenIds(Ids(ps), f) {
        if id in Ids(ps) {
          var i :| 0 <= i < |ps| && ps[i].id == id;
          assert qs[i].id == id;
        }
      }
    }
  }

  lemma PutFolder(ps: seq<PluginV>, p: PluginV, act: set<string>)
    requires UniqueIds(ps) && ActiveLoaded(ps, act)
    ensures UniqueIds(PutPlugin(ps, p)) && Exists(PutPlugin(ps, p), p.id)
    ensures var qs := PutPlugin(ps, p);
            forall j :: 0 <= j < |qs| && j != Find(qs, p.id) && qs[j].id in act ==> Loaded(qs[j])
  {
    PutUnique(ps, p);
  }

  ghost predicate ActiveOn(ps: seq<PluginV>, act: set<string>) {
    forall i :: 0 <= i < |ps| && ps[i].id in act ==> ps[i].on
  }

  lemma LoadFolder(qs: seq<PluginV>, i: nat, act: set<string>)
    requires UniqueIds(qs) && i < |qs|
    requires forall j :: 0 <= j < |qs| && j != i && qs[j].id in act ==> Loaded(qs[j]) && qs[j].on
    ensures UniqueIds(SetPlugin(qs, i, Stamp(qs[i].disk, qs[i].id), true))
    ensures ActiveLoaded(SetPlugin(qs, i, Stamp(qs[i].disk, qs[i].id), true), act)
    ensures ActiveOn(SetPlugin(qs, i, Stamp(qs[i].disk, qs[i].id), true), act)
  {
  }

  /** The plugins after the folder's object was made, before its activation. */
  function Met(ps: seq<PluginV>, f: Folder): seq<PluginV> {
    if f.valid then PutPlugin(ps, PluginV(f.id, f.disk, NoItems, false)) else ps
  }

  lemma ReloadFolder(ps: seq<PluginV>, f: Folder, act: set<string>)
    requires UniqueIds(ps) && ActiveLoaded(ps, act) && ActiveOn(ps, act)
    ensures var qs := Met(ps, f);
      && UniqueIds(qs) && Ids(qs) == SeenIds(Ids(ps), f)
      && (f.id !in act ==> ActiveLoaded(qs, act) && ActiveOn(qs, act))
      && (Exists(qs, f.id) ==>
            var i := Find(qs, f.id);
            && (f.id in act ==> qs[i].on == !f.valid)
            && forall j :: 0 <= j < |qs| && j != i && qs[j].id in act ==> Loaded(qs[j]) && qs[j].on)
  {
    var p := PluginV(f.id, f.disk, NoItems, false);
    PutIds(ps, f);
    PutUnique(ps, p);
    if f.valid && f.id !in act { PutInactive(ps, p, act); }
  }

  lemma SetIds(ps: seq<PluginV>, i: nat, items: Items, on: bool)
    requires i < |ps|
    ensures Ids(SetPlugin(ps, i, items, on)) == Ids(ps)
  {
    var qs := SetPlugin(ps, i, items, on);
    forall id ensures id in Ids(qs) <==> id in Ids(ps) {
      if id in Ids(ps) {
        var j :| 0 <= j < |ps| && ps[j].id == id;
        assert qs[j].id == id;
      }
    }
  }

  /** A failed activation that can be undone. */
  lemma Recovered(w: World, f: Folder, i: nat)
    requires UniqueIds(w.ps) && i < |w.ps| && w.ps[i].id == f.id && f.id in w.active
    requires forall j :: 0 <= j < |w.ps| && w.ps[j].id in w.active && j != i ==> Loaded(w.ps[j])
    ensures w.ps[i].on && Fails(f.off) ==> Toggle(w, f.id, f.off).0 == w
    ensures !(w.ps[i].on && Fails(f.off)) ==> Inv(Toggle(w, f.id, f.off).0)
  {
    FindUnique(w.ps, i);
    ToggleOffInv(w, i);
  }

  lemma {:induction false} DiscoverKeepsInv(w: World, fs: seq<Folder>, synced: bool)
    requires UniqueIds(w.ps) && ActiveLoaded(w.ps, w.active) && ActiveOn(w.ps, w.active)
    requires !Blocked(Ids(w.ps), w.active, fs)
    ensures Inv(Discover(w, fs, synced).0)
    decreases |fs|
  {
    if fs != [] {
      var f := fs[0];
      var ps := Met(w.ps, f);
      ReloadFolder(w.ps, f, w.active);
      ExistsIds(ps, f.id);
      if f.id !in w.active {
        DiscoverKeepsInv(w.(ps := ps), fs[1..], synced);
      } else {
        var i := Find(ps, f.id);
        LoadFolder(ps, i, w.active);
        SetIds(ps, i, Stamp(ps[i].disk, f.id), true);
        var loaded := w.(ps := SetPlugin(ps, i, Stamp(ps[i].disk, f.id), true));
        match f.outcome
        case RaisesBefore => Recovered(w.(ps := ps), f, i);
        case RaisesAfter => Recovered(loaded, f, i);
        case _ => DiscoverKeepsInv(loaded, fs[1..], synced);
      }
    }
  }

  function SeenAll(known: set<string>, fs: seq<Folder>): set<string>
    decreases |fs|
  {
    if fs == [] then known else SeenAll(SeenIds(known, fs[0]), fs[1..])
  }

  lemma FineTail(act: set<string>, fs: seq<Folder>)
    requires fs != []
    ensures AllFine(act, fs) <==> (fs[0].id in act ==> !Fails(fs[0].outcome)) && AllFine(act, fs[1..])
  {
    assert forall i :: 0 < i < |fs| ==> fs[i] == fs[1..][i - 1];
  }

  /** A discovery that is not blocked and in which no activation raises gets to its final sync: it has
      loaded exactly the valid folders, and did not touch the routes before. */
  lemma {:induction false} DiscoveredAll(w: World, fs: seq<Folder>, synced: bool)
    requires !Blocked(Ids(w.ps), w.active, fs) && AllFine(w.active, fs)
    ensures var (w', ok) := Discover(w, fs, synced);
      && ok == synced
      && Ids(w'.ps) == SeenAll(Ids(w.ps), fs) && w'.saved == w.saved && w'.active == w.active
      && w'.routes == Activated(w.routes, w'.index.endpoints, w.active)
    decreases |fs|
  {
    if fs != [] {
      var f := fs[0];
      var ps := Met(w.ps, f);
      PutIds(w.ps, f);
      ExistsIds(ps, f.id);
      FineTail(w.active, fs);
      if f.id !in w.active {
        DiscoveredAll(w.(ps := ps), fs[1..], synced);
      } else {
        var i := Find(ps, f.id);
        SetIds(ps, i, Stamp(ps[i].disk, f.id), true);
        DiscoveredAll(w.(ps := SetPlugin(ps, i, Stamp(ps[i].disk, f.id), true)), fs[1..], synced);
      }
    }
  }

  /** A blocked discovery raises with the caches untouched and only some plugins loaded. */
  lemma {:induction false} BlockedDiscovery(w: World, fs: seq<Folder>, synced: bool)
    requires UniqueIds(w.ps) && ActiveLoaded(w.ps, w.active) && ActiveOn(w.ps, w.active)
    requires Blocked(Ids(w.ps), w.active, fs)
    ensures var (w', ok) := Discover(w, fs, synced);
      && !ok && w'.index == w.index && w'.active == w.active && w'.saved == w.saved && w'.routes == w.routes
      && Ids(w'.ps) == KnownAtBlock(Ids(w.ps), w.active, fs)
    decreases |fs|
  {
    var f := fs[0];
    var ps := Met(w.ps, f);
    ReloadFolder(w.ps, f, w.active);
    ExistsIds(ps, f.id);
    if f.id !in w.active {
      BlockedDiscovery(w.(ps := ps), fs[1..], synced);
    } else if Exists(ps, f.id) {
      var i := Find(ps, f.id);
      LoadFolder(ps, i, w.active);
      SetIds(ps, i, Stamp(ps[i].disk, f.id), true);
      var loaded := w.(ps := SetPlugin(ps, i, Stamp(ps[i].disk, f.id), true));
      match f.outcome
      case RaisesBefore => Recovered(w.(ps := ps), f, i);
      case RaisesAfter => Recovered(loaded, f, i);
      case _ => BlockedDiscovery(loaded, fs[1..], synced);
    }
  }

  /** The ids that a rediscovery reads back as active. */
  function Persisted(w: World): set<string> {
    (match w.saved case Some(a) => a case None => {}) + {"core_plugin"}
  }

  /** A rediscovery keeps caches and plugins in agreement, whether it returns or raises, unless it is
      blocked: by the folder of an active plugin that cannot be loaded, or by one whose failed activation
      cannot be undone. */
  lemma FindPluginsKeepsInv(w: World, fs: seq<Folder>, synced: bool)
    requires !Blocked({}, Persisted(w), fs)
    ensures Inv(FindPlugins(w, fs, synced).0)
    ensures AllFine(Persisted(w), fs) ==> FindPlugins(w, fs, synced).0.active == Persisted(w)
  {
    assert Ids([]) == {};
    var start := w.(ps := [], active := Persisted(w));
    DiscoverKeepsInv(start, fs, synced);
    if AllFine(Persisted(w), fs) { DiscoveredAll(start, fs, synced); }
  }

  /** Every cached hook's owner is loaded, so the handler of a raising hook can name it. */
  ghost predicate OwnersLoaded(w: World) {
    forall n, h :: n in w.index.hooks && h in w.index.hooks[n] ==> Exists(w.ps, h.owner)
  }

  /** After a rediscovery the owners of all cached hooks are loaded if and only if it was not blocked,
      or all cached hooks belong to the plugins loaded before the block. */
  lemma OwnersLoadedIff(w: World, fs: seq<Folder>, synced: bool)
    ensures OwnersLoaded(FindPlugins(w, fs, synced).0) <==>
      (Blocked({}, Persisted(w), fs) ==>
         forall n, h :: n in w.index.hooks && h in w.index.hooks[n] ==>
           h.owner in KnownAtBlock({}, Persisted(w), fs))
  {
    var w' := FindPlugins(w, fs, synced).0;
    if Blocked({}, Persisted(w), fs) {
      assert Ids([]) == {};
      BlockedDiscovery(w.(ps := [], active := Persisted(w)), fs, synced);
      forall id ensures Exists(w'.ps, id) <==> id in KnownAtBlock({}, Persisted(w), fs) {
        ExistsIds(w'.ps, id);
      }
    } else {
      FindPluginsKeepsInv(w, fs, synced);
      forall n, h | n in w'.index.hooks && h in w'.index.hooks[n] ensures Exists(w'.ps, h.owner) {
        HookOwnersLoaded(w', n, h);
      }
    }
  }

  /** A world whose one plugin has one hook; `b` is persisted as active as well. */
  function OneHook(h: Hook): World {
    var d := Items([h], [], [], []);
    var p := PluginV("a", d, Stamp(d, "a"), true);
    var act := {"a", "b", "core_plugin"};
    World([p], act, Some(act), IndexOf([p], act), [])
  }

  lemma OneHookCached(h: Hook)
    ensures var w := OneHook(h);
      Inv(w) && h.name in w.index.hooks && h.(owner := "a") in w.index.hooks[h.name]
  {
    var w := OneHook(h);
    ContributedOne(w.ps[0], w.active);
    var hs := Contributed(w.ps, w.active).hooks;
    assert hs == [h.(owner := "a")];
    assert hs[0].name == h.name;
    NamedMember(hs, h.name);
    SortByProps(Named(hs, h.name), Descending);
  }

  /** Blocked by a folder that cannot be read: the hook stays cached and its plugin is gone. */
  lemma UnloadableFolderLeavesStaleHooks(h: Hook, synced: bool)
    ensures var (w', ok) := FindPlugins(OneHook(h), [Folder("a", NoItems, false, Fine, Fine)], synced);
      && !ok && h.name in w'.index.hooks && h.(owner := "a") in w'.index.hooks[h.name] && w'.ps == []
  {
    OneHookCached(h);
  }

  lemma OnePlugin(p: PluginV)
    ensures Exists([p], p.id) && Find([p], p.id) == 0 && PutPlugin([], p) == [p]
  {
    assert [p][0].id == p.id;
  }

  /** Blocked by a folder whose activation raises after loading and whose deactivation raises as well:
      the same, with that plugin loaded. */
  lemma RaisingRecoveryLeavesStaleHooks(h: Hook, d: Items, synced: bool)
    ensures var (w', ok) := FindPlugins(OneHook(h), [Folder("b", d, true, RaisesAfter, RaisesBefore)], synced);
      && !ok && h.name in w'.index.hooks && h.(owner := "a") in w'.index.hooks[h.name]
      && w'.ps == [PluginV("b", d, Stamp(d, "b"), true)]
  {
    OneHookCached(h);
    var p := PluginV("b", d, NoItems, false);
    var q := PluginV("b", d, Stamp(d, "b"), true);
    OnePlugin(p);
    OnePlugin(q);
    var w := OneHook(h).(ps := []);
    assert Persisted(w) == w.active;
    assert SetPlugin([p], 0, Stamp(d, "b"), true) == [q];
    assert Toggle(w.(ps := [q]), "b", RaisesBefore) == (w.(ps := [q]), false);
  }

  // ---------- runs ----------

  datatype Op =
    | DoToggle(id: string, o: Outcome)
    | DoInstall(id: string, disk: Items, valid: bool, o: Outcome)
    | DoUninstall(id: string, o: Outcome)
    | DoRediscover(folders: seq<Folder>, synced: bool)

  function Apply(w: World, op: Op): (World, bool) {
    match op
    case DoToggle(id, o) => Toggle(w, id, o)
    case DoInstall(id, disk, valid, o) => Install(w, id, disk, valid, o)
    case DoUninstall(id, o) => Uninstall(w, id, o)
    case DoRediscover(folders, synced) => FindPlugins(w, folders, synced)
  }

  function RunOps(w: World, ops: seq<Op>): World {
    if ops == [] then w else Apply(RunOps(w, ops[..|ops| - 1]), ops[|ops| - 1]).0
  }

  ghost predicate NeverBlocked(w: World, ops: seq<Op>) {
    forall i :: 0 <= i < |ops| && ops[i].DoRediscover? ==>
      !Blocked({}, Persisted(RunOps(w, ops[..i])), ops[i].folders)
  }

  /** The caches agree with the active plugins in every world reachable by toggles, installs,
      uninstalls and rediscoveries, including those that raised, as long as no rediscovery is blocked. */
  lemma {:induction false} CachesAgreeInEveryRun(w: World, ops: seq<Op>)
    requires Inv(w) && NeverBlocked(w, ops)
    ensures Inv(RunOps(w, ops))
  {
    if ops != [] {
      var n := |ops| - 1;
      forall i | 0 <= i < n && ops[..n][i].DoRediscover?
        ensures !Blocked({}, Persisted(RunOps(w, ops[..n][..i])), ops[..n][i].folders)
      {
        assert ops[..n][..i] == ops[..i] && ops[..n][i] == ops[i];
      }
      CachesAgreeInEveryRun(w, ops[..n]);
      var v := RunOps(w, ops[..n]);
      match ops[n]
      case DoToggle(id, o) => ToggleKeepsInv(v, id, o);
      case DoInstall(id, disk, valid, o) => InstallKeepsInv(v, id, disk, valid, o);
      case DoUninstall(id, o) => UninstallKeepsInv(v, id, o);
      case DoRediscover(folders, synced) => FindPluginsKeepsInv(v, folders, synced);
    }
  }

  /** The manager's fields before its first discovery. */
  function Born(saved: Option<set<string>>, routes: seq<Route>): World {
    World([], {}, saved, Index(map[], [], [], []), routes)
  }

  /** They agree, so the runs above have a start. */
  lemma BornInv(saved: Option<set<string>>, routes: seq<Route>)
    ensures Inv(Born(saved, routes))
    ensures NoDup(routes) ==> RoutesAgree(routes, Born(saved, routes)) && DistinctRoutes(routes, Born(saved, routes).ps)
  {
    assert Names([]) == {};
    assert Grouped([]) == map[];
  }

  /** From the start of the program on. */
  lemma CachesAgreeFromTheStart(saved: Option<set<string>>, routes: seq<Route>, ops: seq<Op>)
    requires NeverBlocked(Born(saved, routes), ops)
    ensures Inv(RunOps(Born(saved, routes), ops))
  {
    BornInv(saved, routes);
    CachesAgreeInEveryRun(Born(saved, routes), ops);
  }

  lemma ToggleExisting(w: World, id: string)
    requires Inv(w) && Exists(w.ps, id)
    ensures Toggle(w, id, Fine).1
    ensures var w' := Toggle(w, id, Fine).0; var i := Find(w.ps, id);
            && Exists(w'.ps, id) && Find(w'.ps, id) == i
            && w'.ps == SetPlugin(w.ps, i, if id in w.active then NoItems else Stamp(w.ps[i].disk, id), id !in w.active)
            && w'.active == (if id in w.active then w.active - {id} else w.active + {id})
  {
    ToggleKeepsInv(w, id, Fine);
    var w' := Toggle(w, id, Fine).0;
    assert w'.ps[Find(w.ps, id)].id == id;
    FindUnique(w'.ps, Find(w.ps, id));
  }

  /** Toggling twice restores every cache, order included, and the set of active ids. */
  lemma ToggleTwiceRestores(w: World, id: string)
    requires Inv(w) && Exists(w.ps, id)
    ensures var w1 := Toggle(w, id, Fine).0; var w2 := Toggle(w1, id, Fine).0;
            w2.index == w.index && w2.active == w.active && Toggle(w1, id, Fine).1
  {
    var w1 := Toggle(w, id, Fine).0;
    ToggleKeepsInv(w, id, Fine);
    ToggleExisting(w, id);
    ToggleExisting(w1, id);
    ToggleKeepsInv(w1, id, Fine);
    var w2 := Toggle(w1, id, Fine).0;
    var i := Find(w.ps, id);
    assert w2.active == w.active;
    forall j | 0 <= j < |w.ps|
      ensures Share(w2.ps[j], w.active) == Share(w.ps[j], w.active)
    {
      if j == i && id in w.active { assert Loaded(w.ps[i]); }
    }
    ContributedFrame(w2.ps, w.ps, w.active, w.active);
  }

  // ---------- live routes ----------

  ghost predicate Serves(es: seq<Endpoint>, r: Route) {
    exists i :: 0 <= i < |es| && es[i].route == r
  }

  lemma {:induction false} RemoveFirstProps(rs: seq<Route>, r: Route)
    requires NoDup(rs)
    ensures NoDup(RemoveFirst(rs, r))
    ensures forall q :: q in RemoveFirst(rs, r) <==> q in rs && q != r
  {
    if rs != [] {
      assert rs == [rs[0]] + rs[1..];
      RemoveFirstProps(rs[1..], r);
      assert rs[0] !in rs[1..];
    }
  }

  lemma {:induction false} DeactivatedProps(rs: seq<Route>, es: seq<Endpoint>)
    requires NoDup(rs)
    ensures NoDup(Deactivated(rs, es))
    ensures forall q :: q in Deactivated(rs, es) <==> q in rs && !Serves(es, q)
  {
    if es != [] {
      var n := |es| - 1;
      DeactivatedProps(rs, es[..n]);
      RemoveFirstProps(Deactivated(rs, es[..n]), es[n].route);
      forall q
        ensures Serves(es, q) <==> Serves(es[..n], q) || es[n].route == q
      {
        ServesSnoc(es, q);
      }
    }
  }

  lemma ServesSnoc(es: seq<Endpoint>, q: Route)
    requires es != []
    ensures Serves(es, q) <==> Serves(es[..|es| - 1], q) || es[|es| - 1].route == q
  {
  }

  lemma {:induction false} ActivatedProps(rs: seq<Route>, es: seq<Endpoint>, act: set<string>)
    requires NoDup(rs) && forall i :: 0 <= i < |es| ==> es[i].owner in act
    ensures NoDup(Activated(rs, es, act))
    ensures forall q :: q in Activated(rs, es, act) <==> q in rs || Serves(es, q)
  {
    if es != [] {
      var n := |es| - 1;
      ActivatedProps(rs, es[..n], act);
      forall q
        ensures Serves(es, q) <==> Serves(es[..n], q) || es[n].route == q
      {
        ServesSnoc(es, q);
      }
    }
  }

  /** The (path, methods) pairs of different plugins and of the core differ. */
  ghost predicate DistinctRoutes(core: seq<Route>, ps: seq<PluginV>) {
    && (forall i, r :: 0 <= i < |ps| && Serves(ps[i].disk.endpoints, r) ==> r !in core)
    && (forall i, j, r :: 0 <= i < |ps| && 0 <= j < |ps| && i != j && Serves(ps[i].disk.endpoints, r) ==>
          !Serves(ps[j].disk.endpoints, r))
  }

  /** The live routes are the core routes and the active plugins' endpoints, without duplicates. */
  ghost predicate RoutesAgree(core: seq<Route>, w: World) {
    && NoDup(w.routes)
    && forall r :: r in w.routes <==> r in core || Serves(w.index.endpoints, r)
  }

  lemma StampServes(d: Items, id: string, r: Route)
    ensures Serves(Stamp(d, id).endpoints, r) <==> Serves(d.endpoints, r)
  {
    var es := Stamp(d, id).endpoints;
    if Serves(es, r) { var i :| 0 <= i < |es| && es[i].route == r; assert d.endpoints[i].route == r; }
    if Serves(d.endpoints, r) { var i :| 0 <= i < |d.endpoints| && d.endpoints[i].route == r; assert es[i].route == r; }
  }

  lemma ContributedOwners(ps: seq<PluginV>, act: set<string>)
    requires ActiveLoaded(ps, act)
    ensures forall k :: 0 <= k < |Contributed(ps, act).endpoints| ==> Contributed(ps, act).endpoints[k].owner in act
  {
  }

  lemma ServesMember(es: seq<Endpoint>, r: Route)
    ensures Serves(es, r) <==> exists e :: e in es && e.route == r
  {
  }

  /** In a world whose active plugins are loaded, a route is served exactly by their folders. */
  lemma ServedByActive(ps: seq<PluginV>, act: set<string>, r: Route)
    requires ActiveLoaded(ps, act)
    ensures Serves(Contributed(ps, act).endpoints, r) <==> ServedBy(ps, act, r)
  {
    ContributedMember(ps, act);
    var es := Contributed(ps, act).endpoints;
    ServesMember(es, r);
    if Serves(es, r) {
      var e :| e in es && e.route == r;
      var i :| 0 <= i < |ps| && ps[i].id in act && e in ps[i].items.endpoints;
      ServesMember(ps[i].items.endpoints, r);
      StampServes(ps[i].disk, ps[i].id, r);
    }
    if i :| 0 <= i < |ps| && ps[i].id in act && Serves(ps[i].disk.endpoints, r) {
      StampServes(ps[i].disk, ps[i].id, r);
      ServesMember(ps[i].items.endpoints, r);
      var e :| e in ps[i].items.endpoints && e.route == r;
      assert e in es;
    }
  }

  lemma ToggleOnRoutes(core: seq<Route>, w: World, i: nat)
    requires Inv(w) && RoutesAgree(core, w) && i < |w.ps| && w.ps[i].id !in w.active
    ensures RoutesAgree(core, ToggleOn(w, i))
  {
    var w' := ToggleOn(w, i);
    ToggleOnInv(w, i);
    forall r ensures Serves(w.index.endpoints, r) ==> Serves(w'.index.endpoints, r) {
      ServedByActive(w.ps, w.active, r);
      ServedByActive(w'.ps, w'.active, r);
      if j :| 0 <= j < |w.ps| && w.ps[j].id in w.active && Serves(w.ps[j].disk.endpoints, r) {
        assert w'.ps[j].id in w'.active && Serves(w'.ps[j].disk.endpoints, r);
      }
    }
    ContributedOwners(w'.ps, w'.active);
    ActivatedProps(w.routes, w'.index.endpoints, w'.active);
  }

  ghost predicate ServedBy(ps: seq<PluginV>, act: set<string>, r: Route) {
    exists i :: 0 <= i < |ps| && ps[i].id in act && Serves(ps[i].disk.endpoints, r)
  }

  lemma ServedWithout(ps: seq<PluginV>, act: set<string>, i: nat, items: Items, r: Route)
    requires UniqueIds(ps) && i < |ps| && ps[i].id in act
    ensures ServedBy(ps, act, r) <==>
            Serves(ps[i].disk.endpoints, r) || ServedBy(SetPlugin(ps, i, items, false), act - {ps[i].id}, r)
    ensures ServedBy(SetPlugin(ps, i, items, false), act - {ps[i].id}, r) ==>
            exists j :: 0 <= j < |ps| && j != i && Serves(ps[j].disk.endpoints, r)
  {
    var qs, act' := SetPlugin(ps, i, items, false), act - {ps[i].id};
    if ServedBy(qs, act', r) {
      var j :| 0 <= j < |qs| && qs[j].id in act' && Serves(qs[j].disk.endpoints, r);
      assert ps[j].id in act && Serves(ps[j].disk.endpoints, r);
    }
    if ServedBy(ps, act, r) && !Serves(ps[i].disk.endpoints, r) {
      var j :| 0 <= j < |ps| && ps[j].id in act && Serves(ps[j].disk.endpoints, r);
      assert qs[j].id in act' && Serves(qs[j].disk.endpoints, r);
    }
  }

  /** Switching a plugin off takes exactly its routes out of the served ones, and nobody else's. */
  lemma ToggleOffServed(core: seq<Route>, w: World, i: nat, r: Route)
    requires Inv(w) && DistinctRoutes(core, w.ps) && i < |w.ps| && w.ps[i].id in w.active
    ensures var mine := w.ps[i].items.endpoints; var w' := ToggleOff(w, i);
      && (Serves(mine, r) ==> r !in core && !Serves(w'.index.endpoints, r))
      && (Serves(w.index.endpoints, r) <==> Serves(mine, r) || Serves(w'.index.endpoints, r))
  {
    var w' := ToggleOff(w, i);
    ToggleOffInv(w, i);
    assert Loaded(w.ps[i]);
    StampServes(w.ps[i].disk, w.ps[i].id, r);
    ServedByActive(w.ps, w.active, r);
    ServedByActive(w'.ps, w'.active, r);
    ServedWithout(w.ps, w.active, i, NoItems, r);
  }

  lemma ToggleOffRoutes(core: seq<Route>, w: World, i: nat)
    requires Inv(w) && RoutesAgree(core, w) && DistinctRoutes(core, w.ps) && i < |w.ps| && w.ps[i].id in w.active
    ensures RoutesAgree(core, ToggleOff(w, i))
  {
    var w' := ToggleOff(w, i);
    var mine := w.ps[i].items.endpoints;
    DeactivatedProps(w.routes, mine);
    ToggleOffInv(w, i);
    ContributedOwners(w'.ps, w'.active);
    ActivatedProps(Deactivated(w.routes, mine), w'.index.endpoints, w'.active);
    forall r ensures r in w'.routes <==> r in core || Serves(w'.index.endpoints, r) {
      ToggleOffServed(core, w, i, r);
    }
  }

  lemma ToggleRoutes(core: seq<Route>, w: World, id: string, o: Outcome)
    requires Inv(w) && RoutesAgree(core, w) && DistinctRoutes(core, w.ps)
    ensures RoutesAgree(core, Toggle(w, id, o).0)
    ensures DistinctRoutes(core, Toggle(w, id, o).0.ps)
  {
    if Exists(w.ps, id) {
      var i := Find(w.ps, id);
      var w' := Toggle(w, id, o).0;
      assert forall j :: 0 <= j < |w.ps| ==> w'.ps[j].disk == w.ps[j].disk;
      if id in w.active { ToggleOffRoutes(core, w, i); } else { ToggleOnRoutes(core, w, i); }
    }
  }

  /** An operation the route guarantee covers: a toggle, an uninstall, or an install that is neither
      over an active id nor of a folder whose routes clash. */
  ghost predicate RouteSafe(core: seq<Route>, w: World, op: Op) {
    && !op.DoRediscover?
    && (op.DoInstall? && op.valid ==>
          op.id !in w.active && DistinctRoutes(core, PutPlugin(w.ps, PluginV(op.id, op.disk, NoItems, false))))
  }

  lemma RemoveDistinct(core: seq<Route>, ps: seq<PluginV>, id: string)
    requires Exists(ps, id) && DistinctRoutes(core, ps)
    ensures DistinctRoutes(core, RemovePlugin(ps, id))
  {
  }

  lemma InstallRoutes(core: seq<Route>, w: World, op: Op)
    requires Inv(w) && RoutesAgree(core, w) && DistinctRoutes(core, w.ps) && RouteSafe(core, w, op) && op.DoInstall?
    ensures RoutesAgree(core, Apply(w, op).0) && DistinctRoutes(core, Apply(w, op).0.ps)
  {
    if op.valid {
      var p := PluginV(op.id, op.disk, NoItems, false);
      PutInactive(w.ps, p, w.active);
      ToggleRoutes(core, w.(ps := PutPlugin(w.ps, p)), op.id, op.o);
    } else {
      ToggleRoutes(core, w, op.id, op.o);
    }
  }

  lemma UninstallRoutes(core: seq<Route>, w: World, id: string, o: Outcome)
    requires Inv(w) && RoutesAgree(core, w) && DistinctRoutes(core, w.ps)
    ensures RoutesAgree(core, Uninstall(w, id, o).0) && DistinctRoutes(core, Uninstall(w, id, o).0.ps)
  {
    if Exists(w.ps, id) && id != "core_plugin" {
      if id !in w.active {
        RemoveDistinct(core, w.ps, id);
      } else {
        ToggleRoutes(core, w, id, o);
        var w' := Toggle(w, id, o).0;
        if Exists(w'.ps, id) { RemoveDistinct(core, w'.ps, id); }
      }
    }
  }

  lemma ApplyRoutes(core: seq<Route>, w: World, op: Op)
    requires Inv(w) && RoutesAgree(core, w) && DistinctRoutes(core, w.ps) && RouteSafe(core, w, op)
    ensures RoutesAgree(core, Apply(w, op).0) && DistinctRoutes(core, Apply(w, op).0.ps)
  {
    match op
    case DoToggle(id, o) => ToggleRoutes(core, w, id, o);
    case DoInstall(id, disk, valid, o) => InstallRoutes(core, w, op);
    case DoUninstall(id, o) => UninstallRoutes(core, w, id, o);
  }

  ghost predicate RouteSafeRun(core: seq<Route>, w: World, ops: seq<Op>) {
    forall i :: 0 <= i < |ops| ==> RouteSafe(core, RunOps(w, ops[..i]), ops[i])
  }

  /** Every run of toggles, uninstalls and installs of plugins that are not active keeps the live
      routes equal to the core routes plus the active plugins' endpoints. */
  lemma {:induction false} RoutesAgreeInEveryRun(core: seq<Route>, w: World, ops: seq<Op>)
    requires Inv(w) && RoutesAgree(core, w) && DistinctRoutes(core, w.ps) && RouteSafeRun(core, w, ops)
    ensures RoutesAgree(core, RunOps(w, ops)) && DistinctRoutes(core, RunOps(w, ops).ps)
  {
    if ops != [] {
      var n := |ops| - 1;
      forall i | 0 <= i < n ensures RouteSafe(core, RunOps(w, ops[..n][..i]), ops[..n][i]) {
        assert ops[..n][..i] == ops[..i];
      }
      RoutesAgreeInEveryRun(core, w, ops[..n]);
      CachesAgreeInEveryRun(w, ops[..n]);
      ApplyRoutes(core, RunOps(w, ops[..n]), ops[n]);
    }
  }

  // ---------- which endpoints a rediscovery finds ----------

  /** The plugins' folders by id. */
  ghost predicate DisksAre(ps: seq<PluginV>, m: map<string, Items>) {
    && (forall i :: 0 <= i < |ps| ==> ps[i].id in m && m[ps[i].id] == ps[i].disk)
    && (forall id :: id in m ==> Exists(ps, id))
  }

  function Disks(m: map<string, Items>, fs: seq<Folder>): map<string, Items>
    decreases |fs|
  {
    if fs == [] then m else Disks(if fs[0].valid then m[fs[0].id := fs[0].disk] else m, fs[1..])
  }

  lemma MetDisks(ps: seq<PluginV>, f: Folder, m: map<string, Items>)
    requires UniqueIds(ps) && DisksAre(ps, m)
    ensures UniqueIds(Met(ps, f)) && DisksAre(Met(ps, f), if f.valid then m[f.id := f.disk] else m)
  {
    if f.valid {
      var p := PluginV(f.id, f.disk, NoItems, false);
      var qs, m' := PutPlugin(ps, p), m[f.id := f.disk];
      PutUnique(ps, p);
      forall j | 0 <= j < |qs| ensures qs[j].id in m' && m'[qs[j].id] == qs[j].disk {
        if j != Find(qs, p.id) { assert qs[j] == ps[j]; }
      }
      forall id | id in m' ensures Exists(qs, id) {
        if id != f.id {
          var i :| 0 <= i < |ps| && ps[i].id == id;
          assert qs[i].id == id;
        }
      }
    }
  }

  lemma LoadedDisks(ps: seq<PluginV>, i: nat, items: Items, m: map<string, Items>)
    requires UniqueIds(ps) && i < |ps| && DisksAre(ps, m)
    ensures UniqueIds(SetPlugin(ps, i, items, true)) && DisksAre(SetPlugin(ps, i, items, true), m)
  {
    var qs := SetPlugin(ps, i, items, true);
    forall id | id in m ensures Exists(qs, id) {
      var j :| 0 <= j < |ps| && ps[j].id == id;
      assert qs[j].id == id;
    }
  }

  lemma {:induction false} DiscoveredDisks(w: World, fs: seq<Folder>, synced: bool, m: map<string, Items>)
    requires UniqueIds(w.ps) && DisksAre(w.ps, m) && !Blocked(Ids(w.ps), w.active, fs) && AllFine(w.active, fs)
    ensures DisksAre(Discover(w, fs, synced).0.ps, Disks(m, fs))
    decreases |fs|
  {
    if fs != [] {
      var f := fs[0];
      var ps := Met(w.ps, f);
      var m' := if f.valid then m[f.id := f.disk] else m;
      MetDisks(w.ps, f, m);
      PutIds(w.ps, f);
      ExistsIds(ps, f.id);
      FineTail(w.active, fs);
      if f.id !in w.active {
        DiscoveredDisks(w.(ps := ps), fs[1..], synced, m');
      } else {
        var i := Find(ps, f.id);
        SetIds(ps, i, Stamp(ps[i].disk, f.id), true);
        LoadedDisks(ps, i, Stamp(ps[i].disk, f.id), m');
        DiscoveredDisks(w.(ps := SetPlugin(ps, i, Stamp(ps[i].disk, f.id), true)), fs[1..], synced, m');
      }
    }
  }

  /** The last valid folder of its id. */
  ghost predicate LastValid(fs: seq<Folder>, i: int) {
    && 0 <= i < |fs| && fs[i].valid
    && forall j :: i < j < |fs| && fs[j].valid ==> fs[j].id != fs[i].id
  }

  lemma LastValidTail(fs: seq<Folder>, i: nat)
    requires 0 < i < |fs|
    ensures LastValid(fs, i) <==> LastValid(fs[1..], i - 1)
  {
    assert forall j :: 0 < j < |fs| ==> fs[j] == fs[1..][j - 1];
    if LastValid(fs[1..], i - 1) {
      forall j | i < j < |fs| && fs[j].valid ensures fs[j].id != fs[i].id {
        assert fs[1..][j - 1].valid;
      }
    }
  }

  /** Every id comes from its last valid folder, or from before if it has none. */
  lemma {:induction false} DisksFrom(m: map<string, Items>, fs: seq<Folder>, id: string)
    ensures id in Disks(m, fs) ==>
      || (exists i :: LastValid(fs, i) && fs[i].id == id && fs[i].disk == Disks(m, fs)[id])
      || (id in m && Disks(m, fs)[id] == m[id] && forall i :: 0 <= i < |fs| && fs[i].valid ==> fs[i].id != id)
    decreases |fs|
  {
    if fs != [] && id in Disks(m, fs) {
      var m' := if fs[0].valid then m[fs[0].id := fs[0].disk] else m;
      DisksFrom(m', fs[1..], id);
      if i :| LastValid(fs[1..], i) && fs[1..][i].id == id && fs[1..][i].disk == Disks(m, fs)[id] {
        LastValidTail(fs, i + 1);
      } else {
        assert forall j :: 0 < j < |fs| ==> fs[j] == fs[1..][j - 1];
        if fs[0].valid && fs[0].id == id { assert LastValid(fs, 0); }
      }
    }
  }

  lemma {:induction false} DisksLast(m: map<string, Items>, fs: seq<Folder>, i: nat)
    requires LastValid(fs, i)
    ensures fs[i].id in Disks(m, fs) && Disks(m, fs)[fs[i].id] == fs[i].disk
    decreases |fs|
  {
    var m' := if fs[0].valid then m[fs[0].id := fs[0].disk] else m;
    if i > 0 {
      LastValidTail(fs, i);
      DisksLast(m', fs[1..], i - 1);
    } else {
      assert forall j :: 0 < j < |fs| ==> fs[j] == fs[1..][j - 1];
      DisksKept(m', fs[1..], fs[0].id);
    }
  }

  lemma {:induction false} DisksKept(m: map<string, Items>, fs: seq<Folder>, id: string)
    requires id in m && forall j :: 0 <= j < |fs| && fs[j].valid ==> fs[j].id != id
    ensures id in Disks(m, fs) && Disks(m, fs)[id] == m[id]
    decreases |fs|
  {
    if fs != [] {
      assert forall j :: 0 < j < |fs| ==> fs[j] == fs[1..][j - 1];
      DisksKept(if fs[0].valid then m[fs[0].id := fs[0].disk] else m, fs[1..], id);
    }
  }

  /** The last valid folder of an active id serves the route. */
  ghost predicate FolderServes(fs: seq<Folder>, act: set<string>, r: Route) {
    exists i :: LastValid(fs, i) && fs[i].id in act && Serves(fs[i].disk.endpoints, r)
  }

  lemma ServedByFolders(ps: seq<PluginV>, fs: seq<Folder>, act: set<string>, r: Route)
    requires DisksAre(ps, Disks(map[], fs))
    ensures ServedBy(ps, act, r) <==> FolderServes(fs, act, r)
  {
    if ServedBy(ps, act, r) {
      var k :| 0 <= k < |ps| && ps[k].id in act && Serves(ps[k].disk.endpoints, r);
      DisksFrom(map[], fs, ps[k].id);
    }
    if FolderServes(fs, act, r) {
      var i :| LastValid(fs, i) && fs[i].id in act && Serves(fs[i].disk.endpoints, r);
      DisksLast(map[], fs, i);
      var k :| 0 <= k < |ps| && ps[k].id == fs[i].id;
      assert ps[k].disk == fs[i].disk;
    }
  }

  /** A rediscovery that is not blocked and in which no activation raises keeps the routes right if and
      only if every endpoint that was cached is in the core or is still served by the last valid folder of
      an active id: it adds routes and never removes one. */
  lemma RediscoverRoutesIff(core: seq<Route>, w: World, fs: seq<Folder>, synced: bool)
    requires RoutesAgree(core, w) && !Blocked({}, Persisted(w), fs) && AllFine(Persisted(w), fs)
    ensures RoutesAgree(core, FindPlugins(w, fs, synced).0) <==>
      forall r :: Serves(w.index.endpoints, r) ==> r in core || FolderServes(fs, Persisted(w), r)
  {
    var start := w.(ps := [], active := Persisted(w));
    var w' := FindPlugins(w, fs, synced).0;
    assert Ids([]) == {};
    FindPluginsKeepsInv(w, fs, synced);
    DiscoveredAll(start, fs, synced);
    DiscoveredDisks(start, fs, synced, map[]);
    ContributedOwners(w'.ps, w'.active);
    ActivatedProps(w.routes, w'.index.endpoints, w'.active);
    forall r ensures Serves(w'.index.endpoints, r) <==> FolderServes(fs, Persisted(w), r) {
      ServedByActive(w'.ps, w'.active, r);
      ServedByFolders(w'.ps, fs, Persisted(w), r);
    }
  }

  /** Installing over an active plugin keeps the routes right exactly if the plugin had none: the new
      object is switched off without ever having loaded an endpoint, so the old ones stay live. */
  lemma ReinstallRoutesIff(core: seq<Route>, w: World, id: string, disk: Items, o: Outcome)
    requires Inv(w) && RoutesAgree(core, w) && DistinctRoutes(core, w.ps) && Exists(w.ps, id) && id in w.active
    ensures RoutesAgree(core, Install(w, id, disk, true, o).0) <==> w.ps[Find(w.ps, id)].disk.endpoints == []
  {
    var i := Find(w.ps, id);
    var p := PluginV(id, disk, NoItems, false);
    var v := w.(ps := PutPlugin(w.ps, p));
    PutFolder(w.ps, p, w.active);
    FindUnique(v.ps, i);
    ToggleOffInv(v, i);
    var w' := Install(w, id, disk, true, o).0;
    ContributedOwners(w'.ps, w'.active);
    ActivatedProps(w.routes, w'.index.endpoints, w'.active);
    forall r
      ensures Serves(w'.index.endpoints, r) ==> Serves(w.index.endpoints, r)
      ensures Serves(w.ps[i].disk.endpoints, r) ==> r in w.routes && r !in core && !Serves(w'.index.endpoints, r)
      ensures Serves(w.index.endpoints, r) ==> Serves(w.ps[i].disk.endpoints, r) || Serves(w'.index.endpoints, r)
    {
      ReinstallServed(core, w, i, p, r);
    }
    if w.ps[i].disk.endpoints != [] {
      var r := w.ps[i].disk.endpoints[0].route;
      assert Serves(w.ps[i].disk.endpoints, r);
    }
  }

  lemma ReinstallServed(core: seq<Route>, w: World, i: nat, p: PluginV, r: Route)
    requires Inv(w) && DistinctRoutes(core, w.ps) && i < |w.ps| && w.ps[i].id in w.active && p.id == w.ps[i].id
    ensures var ps := SetPlugin(w.ps[i := p], i, NoItems, false); var act := w.active - {p.id};
      var after := Contributed(ps, act).endpoints;
      && (Serves(w.ps[i].disk.endpoints, r) ==> Serves(w.index.endpoints, r) && r !in core && !Serves(after, r))
      && (Serves(w.index.endpoints, r) <==> Serves(w.ps[i].disk.endpoints, r) || Serves(after, r))
  {
    var act := w.active - {p.id};
    var qs := SetPlugin(w.ps[i := p], i, NoItems, false);
    var kept := SetPlugin(w.ps, i, NoItems, false);
    ServedByActive(w.ps, w.active, r);
    ServedWithout(w.ps, w.active, i, NoItems, r);
    ServedByActive(kept, act, r);
    ContributedFrame(kept, qs, act, act);
  }

  /** Installing over an active plugin switches it off and leaves its route live. */
  lemma ReinstallLeavesRoute(r: Route)
    ensures var d := Items([], [], [], [Endpoint(r, "")]);
            var p := PluginV("a", d, Stamp(d, "a"), true);
            var w := World([p], {"a"}, Some({"a"}), IndexOf([p], {"a"}), [r]);
            var w' := Install(w, "a", d, true, Fine).0;
            Inv(w) && RoutesAgree([], w) && w'.active == {} && w'.index.endpoints == [] && w'.routes == [r]
  {
    var d := Items([], [], [], [Endpoint(r, "")]);
    var p := PluginV("a", d, Stamp(d, "a"), true);
    var w := World([p], {"a"}, Some({"a"}), IndexOf([p], {"a"}), [r]);
    ContributedOne(p, {"a"});
    assert w.index.endpoints == [Endpoint(r, "a")];
    assert w.index.endpoints[0].route == r;
    var q := PluginV("a", d, NoItems, false);
    assert [p][0].id == "a" && Exists([p], "a") && Find([p], "a") == 0;
    assert [p][0 := q] == [q];
    assert [q][0].id == "a" && Exists([q], "a") && Find([q], "a") == 0;
    ContributedOne(q, {});
    assert {"a"} - {"a"} == {};
    assert SetPlugin([q], 0, NoItems, false) == [q];
  }
}
