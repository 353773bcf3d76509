/** The plugin manager with its objects: the application's route list, the plugins, and the manager
    that toggles them and rebuilds its caches.  Every method is proved to compute the corresponding
    function of `PluginWorld`. */
module PluginManager {
  import opened Prelude
  import opened Json
  import opened StableSort
  import opened PluginWorld

  // ---------- the route list ----------

  lemma {:induction false} RemoveFirstAt(rs: seq<Route>, r: Route, k: nat)
    requires k <= |rs| && r !in rs[..k] && (k < |rs| ==> rs[k] == r)
    ensures RemoveFirst(rs, r) == if k < |rs| then rs[..k] + rs[k + 1..] else rs
  {
    if k > 0 {
      assert rs[0] in rs[..k];
      assert rs[1..][..k - 1] == rs[..k][1..];
      RemoveFirstAt(rs[1..], r, k - 1);
      assert rs == [rs[0]] + rs[1..];
      if k < |rs| { assert rs[..k] + rs[k + 1..] == [rs[0]] + (rs[1..][..k - 1] + rs[1..][k..]); }
    }
  }

  class App {
    var routes: seq<Route>

    constructor (routes: seq<Route>)
      ensures this.routes == routes
    {
      this.routes := routes;
    }

    /** Adds the endpoint's route unless one with the same path and methods is live. */
    method Include(r: Route)
      modifies this
      ensures routes == if r in old(routes) then old(routes) else old(routes) + [r]
    {
      var i := 0;
      while i < |routes|
        invariant i <= |routes| && routes == old(routes) && r !in routes[..i]
      {
        if routes[i] == r { return; }
        i := i + 1;
      }
      assert routes[..i] == routes;
      routes := routes + [r];
    }

    /** Removes the first route with that path and methods. */
    method Exclude(r: Route)
      modifies this
      ensures routes == RemoveFirst(old(routes), r)
    {
      var i := 0;
      while i < |routes|
        invariant i <= |routes| && routes == old(routes) && r !in routes[..i]
      {
        if routes[i] == r {
          RemoveFirstAt(routes, r, i);
          routes := routes[..i] + routes[i + 1..];
          return;
        }
        i := i + 1;
      }
      RemoveFirstAt(routes, r, i);
    }
  }

  // ---------- a plugin ----------

  class Plugin {
    const id: string
    const disk: Items
    var hooks: seq<Hook>
    var tools: seq<Procedure>
    var forms: seq<Procedure>
    var endpoints: seq<Endpoint>
    var on: bool

    ghost function View(): PluginV
      reads this
    {
      PluginV(id, disk, Items(hooks, tools, forms, endpoints), on)
    }

    constructor (id: string, disk: Items)
      ensures View() == PluginV(id, disk, NoItems, false)
    {
      this.id := id;
      this.disk := disk;
      hooks, tools, forms, endpoints := [], [], [], [];
      on := false;
    }

    method Activate(o: Outcome) returns (ok: bool)
      modifies this
      ensures ok == !Fails(o)
      ensures View() == if o.RaisesBefore? then old(View()) else old(View()).(items := Stamp(disk, id), on := true)
      ensures !o.RaisesBefore? ==> Stamped(View().items, disk, id)
    {
      if o.RaisesBefore? { return false; }
      var loaded := Stamp(disk, id);
      hooks, tools, forms, endpoints := loaded.hooks, loaded.tools, loaded.forms, loaded.endpoints;
      on := true;
      ok := !o.RaisesAfter?;
    }

    method Deactivate(o: Outcome, app: App) returns (ok: bool)
      modifies this, app
      ensures ok == (!old(on) || !Fails(o))
      ensures !ok ==> View() == old(View()) && app.routes == old(app.routes)
      ensures ok ==>
                && View() == old(View()).(items := NoItems, on := false)
                && app.routes == Deactivated(old(app.routes), old(endpoints))
    {
      if on && Fails(o) { return false; }
      hooks, tools, forms := [], [], [];
      for i := 0 to |endpoints|
        invariant endpoints == old(endpoints) && hooks == [] && tools == [] && forms == []
        invariant app.routes == Deactivated(old(app.routes), endpoints[..i])
      {
        assert endpoints[..i + 1][..i] == endpoints[..i];
        app.Exclude(endpoints[i].route);
      }
      assert endpoints[..|endpoints|] == endpoints;
      endpoints := [];
      on := false;
      ok := true;
    }
  }

  // ---------- executing hooks ----------

  class Cup {
    var content: Value

    constructor (content: Value)
      ensures this.content == content
    {
      this.content := content;
    }
  }

  datatype HookResult = UnknownHook | MissingOwner | Returned(cup: Cup)

  /** What one hook makes of the piped value: answering nothing or raising leaves it as it was, also
      when the hook scribbled on the copy it was given. */
  function Pour(h: Hook, v: Value): Value {
    match h.reply(v)
    case Nothing => v
    case Raises => v
    case Given => h.scribble(v)
    case Other(x) => x
  }

  function Pipe(hs: seq<Hook>, v: Value): Value {
    if hs == [] then v else Pour(hs[|hs| - 1], Pipe(hs[..|hs| - 1], v))
  }

  /** Hooks compose in the order of the list. */
  lemma {:induction false} PipeAppend(a: seq<Hook>, b: seq<Hook>, v: Value)
    ensures Pipe(a + b, v) == Pipe(b, Pipe(a, v))
  {
    if b == [] {
      assert a + b == a;
    } else {
      var n := |b| - 1;
      assert (a + b)[..|a + b| - 1] == a + b[..n];
      PipeAppend(a, b[..n], v);
    }
  }

  /** A hook that answers nothing or raises might as well not be there. */
  lemma SkippedHookIsIdentity(hs: seq<Hook>, i: nat, v: Value)
    requires i < |hs|
    requires var reply := hs[i].reply(Pipe(hs[..i], v)); reply.Nothing? || reply.Raises?
    ensures Pipe(hs, v) == Pipe(hs[..i] + hs[i + 1..], v)
  {
    assert hs == hs[..i + 1] + hs[i + 1..] && hs[..i + 1][..i] == hs[..i];
    PipeAppend(hs[..i + 1], hs[i + 1..], v);
    PipeAppend(hs[..i], hs[i + 1..], v);
  }

  /** The hook has something to say: another object, or the copy it was given, scribbled on or not. */
  predicate Answers(h: Hook, v: Value, x: Value) {
    h.reply(v) == Other(x) || (h.reply(v) == Given && h.scribble(v) == x)
  }

  predicate Silent(h: Hook, v: Value) {
    h.reply(v) == Nothing || h.reply(v) == Raises
  }

  ghost predicate AllSilent(hs: seq<Hook>, v: Value) {
    forall j :: 0 <= j < |hs| ==> Silent(hs[j], v)
  }

  /** Hook i makes `x` of what reaches it, and nobody after it has anything to say to that. */
  ghost predicate LastAnswer(hs: seq<Hook>, v: Value, i: int, x: Value) {
    0 <= i < |hs| && Answers(hs[i], Pipe(hs[..i], v), x) && AllSilent(hs[i + 1..], x)
  }

  lemma {:induction false} NobodyAnswers(hs: seq<Hook>, v: Value)
    requires AllSilent(hs, v)
    ensures Pipe(hs, v) == v
  {
    if hs != [] { NobodyAnswers(hs[..|hs| - 1], v); }
  }

  lemma LastAnswerCounts(hs: seq<Hook>, i: nat, v: Value, x: Value)
    requires LastAnswer(hs, v, i, x)
    ensures Pipe(hs, v) == x
  {
    assert hs == hs[..i + 1] + hs[i + 1..] && hs[..i + 1][..i] == hs[..i];
    PipeAppend(hs[..i + 1], hs[i + 1..], v);
    NobodyAnswers(hs[i + 1..], x);
  }

  lemma LastAnswerSnoc(hs: seq<Hook>, h: Hook, v: Value, i: int, x: Value)
    requires LastAnswer(hs, v, i, x) && Silent(h, x)
    ensures LastAnswer(hs + [h], v, i, x)
  {
    assert (hs + [h])[..i] == hs[..i] && (hs + [h])[i + 1..] == hs[i + 1..] + [h];
  }

  lemma {:induction false} SomeAnswerIsLast(hs: seq<Hook>, v: Value)
    ensures AllSilent(hs, v) || exists i, x :: LastAnswer(hs, v, i, x)
  {
    if hs != [] {
      var n := |hs| - 1;
      var h, before := hs[n], Pipe(hs[..n], v);
      assert hs == hs[..n] + [h];
      SomeAnswerIsLast(hs[..n], v);
      if !Silent(h, before) {
        assert LastAnswer(hs, v, n, Pour(h, before));
      } else if AllSilent(hs[..n], v) {
        NobodyAnswers(hs[..n], v);
      } else {
        var i, x :| LastAnswer(hs[..n], v, i, x);
        LastAnswerCounts(hs[..n], i, v, x);
        LastAnswerSnoc(hs[..n], h, v, i, x);
      }
    }
  }

  /** What comes out is the last answer, or what went in if nobody answers. */
  lemma PipeIff(hs: seq<Hook>, v: Value, x: Value)
    ensures Pipe(hs, v) == x <==> (AllSilent(hs, v) && x == v) || exists i :: LastAnswer(hs, v, i, x)
  {
    if i :| LastAnswer(hs, v, i, x) { LastAnswerCounts(hs, i, v, x); }
    if AllSilent(hs, v) { NobodyAnswers(hs, v); }
    SomeAnswerIsLast(hs, v);
    if !AllSilent(hs, v) {
      var i, y :| LastAnswer(hs, v, i, y);
      LastAnswerCounts(hs, i, v, y);
    }
  }

  /** The i-th hook raises on what reaches it, and its plugin is not loaded. */
  ghost predicate OrphanAt(ps: seq<PluginV>, hs: seq<Hook>, i: nat, v: Value)
    requires i < |hs|
  {
    hs[i].reply(Pipe(hs[..i], v)).Raises? && !Exists(ps, hs[i].owner)
  }

  ghost predicate Orphaned(ps: seq<PluginV>, hs: seq<Hook>, v: Value) {
    exists i: nat :: i < |hs| && OrphanAt(ps, hs, i, v)
  }

  /** The hooks called, and whether the call returned. */
  datatype PlainResult = PlainUnknown | Called(ran: seq<Hook>, ok: bool)

  /** Called without an argument the hook raises, and its plugin is not loaded. */
  predicate OrphanCall(ps: seq<PluginV>, h: Hook) {
    h.reply(Null).Raises? && !Exists(ps, h.owner)
  }

  // ---------- the manager ----------

  method ListOfSet(s: set<string>) returns (r: seq<string>)
    ensures NoDup(r) && Elements(r) == s
  {
    r := [];
    var rest := s;
    while rest != {}
      invariant NoDup(r) && Elements(r) + rest == s && Elements(r) !! rest
      decreases rest
    {
      var x :| x in rest;
      assert x !in Elements(r);
      assert Elements(r + [x]) == Elements(r) + {x};
      r := r + [x];
      rest := rest - {x};
    }
  }

  lemma {:induction false} NamedSnoc(hs: seq<Hook>, h: Hook)
    ensures Names(hs + [h]) == Names(hs) + {h.name}
    ensures forall n :: Named(hs + [h], n) == Named(hs, n) + if h.name == n then [h] else []
  {
    var t := hs + [h];
    assert t[..|t| - 1] == hs;
    assert forall i :: 0 <= i < |hs| ==> t[i] == hs[i];
    assert t[|hs|].name == h.name;
    forall n ensures n in Names(t) <==> n in Names(hs) + {h.name} {
      if n in Names(hs) { var i :| 0 <= i < |hs| && hs[i].name == n; assert t[i].name == n; }
      if n in Names(t) { var i :| 0 <= i < |t| && t[i].name == n; }
    }
  }

  lemma {:induction false} NamedOutside(hs: seq<Hook>, n: string)
    requires n !in Names(hs)
    ensures Named(hs, n) == []
  {
    if hs != [] {
      var k := |hs| - 1;
      assert hs[k].name in Names(hs);
      assert forall i :: 0 <= i < k ==> hs[..k][i].name == hs[i].name;
      NamedOutside(hs[..k], n);
    }
  }

  lemma RemoveUnique(vs: seq<PluginV>, i: nat)
    requires UniqueIds(vs) && i < |vs|
    ensures UniqueIds(vs[..i] + vs[i + 1..])
  {
  }

  /** What activating a folder during discovery does, and whether discovery goes on. */
  function ActivatedFolder(w: World, f: Folder): (World, bool) {
    if !Exists(w.ps, f.id) then (w, false)
    else
      var i := Find(w.ps, f.id);
      var loaded := w.(ps := SetPlugin(w.ps, i, Stamp(w.ps[i].disk, f.id), true));
      match f.outcome
      case RaisesBefore => (PluginWorld.Toggle(w, f.id, f.off).0, false)
      case RaisesAfter => (PluginWorld.Toggle(loaded, f.id, f.off).0, false)
      case _ => (loaded, true)
  }

  lemma ActivatedCases(w: World, f: Folder, i: nat)
    requires Exists(w.ps, f.id) && i == Find(w.ps, f.id)
    ensures var loaded := w.(ps := SetPlugin(w.ps, i, Stamp(w.ps[i].disk, w.ps[i].id), true));
      ActivatedFolder(w, f) ==
      if !Fails(f.outcome) then (loaded, true)
      else (PluginWorld.Toggle(if f.outcome.RaisesBefore? then w else loaded, f.id, f.off).0, false)
  {
  }

  lemma DiscoverStep(w: World, f: Folder, rest: seq<Folder>, synced: bool)
    ensures var v := w.(ps := Met(w.ps, f));
      Discover(w, [f] + rest, synced) ==
      if f.id !in w.active then Discover(v, rest, synced)
      else if ActivatedFolder(v, f).1 then Discover(ActivatedFolder(v, f).0, rest, synced)
      else (ActivatedFolder(v, f).0, false)
  {
    assert ([f] + rest)[1..] == rest;
  }

  /** Forgetting the i-th plugin, and switching it off before. */
  function Forgotten(w: World, i: nat): World
    requires i < |w.ps|
  {
    w.(ps := w.ps[..i] + w.ps[i + 1..])
  }

  /** If the callback of the sync raises, the plugin is switched off and not forgotten. */
  function Dropped(w: World, i: nat, o: Outcome): (World, bool)
    requires i < |w.ps|
  {
    if w.ps[i].on && Fails(o) then (w, false)
    else if o.SyncRaises? then (ToggleOff(w, i), false)
    else (Forgotten(ToggleOff(w, i), i), true)
  }

  lemma UninstallCases(w: World, id: string, o: Outcome)
    requires UniqueIds(w.ps) && Exists(w.ps, id) && id != "core_plugin"
    ensures var i := Find(w.ps, id);
      PluginWorld.Uninstall(w, id, o) == if id in w.active then Dropped(w, i, o) else (Forgotten(w, i), true)
  {
    var i := Find(w.ps, id);
    if id in w.active {
      var off := ToggleOff(w, i);
      OffThenRemoved(w.ps, i);
      assert off.ps == SetPlugin(w.ps, i, NoItems, false);
      assert RemovePlugin(off.ps, id) == off.ps[..i] + off.ps[i + 1..];
    }
  }

  lemma ContributedNext(ps: seq<PluginV>, i: nat, act: set<string>)
    requires i < |ps|
    ensures Contributed(ps[..i + 1], act) ==
      if ps[i].id in act then Plus(Contributed(ps[..i], act), ps[i].items) else Contributed(ps[..i], act)
  {
    assert ps[..i + 1][..i] == ps[..i] && ps[..i + 1][i] == ps[i];
  }

  /** The grouped and sorted lists are the hook cache of the specification. */
  lemma GroupedIs(hooks: map<string, seq<Hook>>, hs: seq<Hook>)
    requires hooks.Keys == Names(hs) && forall n :: n in hooks ==> hooks[n] == SortBy(Named(hs, n), Descending)
    ensures hooks == Grouped(hs)
  {
  }

  class MadHatter {
    const app: App
    var plugins: seq<Plugin>            // the dictionary, in insertion order
    var active: seq<string>
    var saved: Option<seq<string>>      // the persisted list
    var hooks: map<string, seq<Hook>>
    var tools: seq<Procedure>
    var forms: seq<Procedure>
    var endpoints: seq<Endpoint>
    ghost var views: seq<PluginV>       // the plugins as values

    ghost predicate Valid()
      reads this, plugins
    {
      && |views| == |plugins|
      && (forall i :: 0 <= i < |plugins| ==> plugins[i].View() == views[i])
      && UniqueIds(views)
      && NoDup(active)
      && (saved.Some? ==> NoDup(saved.value))
    }

    ghost function State(): World
      reads this, app
    {
      World(views, Elements(active),
            match saved case Some(a) => Some(Elements(a)) case None => None,
            Index(hooks, tools, forms, endpoints), app.routes)
    }

    /** The fields before the first discovery. */
    constructor (app: App, saved: Option<seq<string>>)
      requires saved.Some? ==> NoDup(saved.value)
      ensures Valid() && this.app == app
      ensures State() == Born(match saved case Some(a) => Some(Elements(a)) case None => None, app.routes)
    {
      this.app := app;
      this.saved := saved;
      plugins, active, hooks, tools, forms, endpoints, views := [], [], map[], [], [], [], [];
    }

    method Lookup(id: string) returns (i: int)
      requires Valid()
      ensures -1 <= i < |plugins|
      ensures i < 0 <==> !Exists(views, id)
      ensures i >= 0 ==> i == Find(views, id) && plugins[i].id == id
    {
      i := 0;
      while i < |plugins|
        invariant 0 <= i <= |plugins|
        invariant forall j :: 0 <= j < i ==> views[j].id != id
      {
        assert plugins[i].View() == views[i];
        if plugins[i].id == id {
          FindUnique(views, i);
          return;
        }
        i := i + 1;
      }
      i := -1;
    }

    /** Appends the plugin's hooks to the lists of their names. */
    method CacheHooks(hs: seq<Hook>, ghost done: seq<Hook>)
      requires hooks.Keys == Names(done) && forall n :: n in hooks ==> hooks[n] == Named(done, n)
      modifies this`hooks
      ensures hooks.Keys == Names(done + hs)
      ensures forall n :: n in hooks ==> hooks[n] == Named(done + hs, n)
    {
      assert done + hs[..0] == done;
      for j := 0 to |hs|
        invariant hooks.Keys == Names(done + hs[..j])
        invariant forall n :: n in hooks ==> hooks[n] == Named(done + hs[..j], n)
      {
        CacheHook(hs[j], done + hs[..j]);
        assert done + hs[..j + 1] == done + hs[..j] + [hs[j]];
      }
      assert hs[..|hs|] == hs;
    }

    method CacheHook(h: Hook, ghost done: seq<Hook>)
      requires hooks.Keys == Names(done) && forall n :: n in hooks ==> hooks[n] == Named(done, n)
      modifies this`hooks
      ensures hooks.Keys == Names(done + [h])
      ensures forall n :: n in hooks ==> hooks[n] == Named(done + [h], n)
    {
      NamedSnoc(done, h);
      if h.name !in hooks {
        NamedOutside(done, h.name);
        hooks := hooks[h.name := []];
      }
      hooks := hooks[h.name := hooks[h.name] + [h]];
    }

    /** The caches hold the items of `c`, hooks grouped by name. */
    ghost predicate Holds(c: Items)
      reads this
    {
      && tools == c.tools && forms == c.forms && endpoints == c.endpoints
      && hooks.Keys == Names(c.hooks)
      && forall n :: n in hooks ==> hooks[n] == Named(c.hooks, n)
    }

    method CachePlugin(p: Plugin, ghost c: Items)
      requires Holds(c)
      modifies this`hooks, this`tools, this`forms, this`endpoints
      ensures Holds(Plus(c, p.View().items))
    {
      tools, forms, endpoints := tools + p.tools, forms + p.forms, endpoints + p.endpoints;
      CacheHooks(p.hooks, c.hooks);
    }

    /** Groups the hooks of the active plugins by name and concatenates the rest, in plugin order. */
    method Collect()
      requires Valid()
      modifies this`hooks, this`tools, this`forms, this`endpoints
      ensures Holds(Contributed(views, Elements(active)))
    {
      hooks, tools, forms, endpoints := map[], [], [], [];
      assert Holds(NoItems);
      var i := 0;
      while i < |plugins|
        invariant i <= |plugins| && Holds(Contributed(views[..i], Elements(active)))
      {
        assert plugins[i].View() == views[i];
        ghost var c := Contributed(views[..i], Elements(active));
        ContributedNext(views, i, Elements(active));
        if plugins[i].id in active { CachePlugin(plugins[i], c); }
        i := i + 1;
      }
      assert views[..i] == views;
    }

    method SortHooks()
      modifies this`hooks
      ensures hooks.Keys == old(hooks.Keys)
      ensures forall n :: n in hooks ==> hooks[n] == SortBy(old(hooks)[n], Descending)
    {
      var todo := hooks.Keys;
      while todo != {}
        invariant todo <= hooks.Keys == old(hooks.Keys)
        invariant forall n :: n in hooks ==>
          hooks[n] == if n in todo then old(hooks)[n] else SortBy(old(hooks)[n], Descending)
        decreases todo
      {
        var n :| n in todo;
        hooks := hooks[n := SortBy(hooks[n], Descending)];
        todo := todo - {n};
      }
    }

    method ActivateEndpoints()
      modifies app
      ensures app.routes == Activated(old(app.routes), endpoints, Elements(active))
    {
      for i := 0 to |endpoints|
        invariant app.routes == Activated(old(app.routes), endpoints[..i], Elements(active))
      {
        assert endpoints[..i + 1][..i] == endpoints[..i];
        if endpoints[i].owner in active { app.Include(endpoints[i].route); }
      }
      assert endpoints[..|endpoints|] == endpoints;
    }

    method Synchronize()
      requires Valid()
      modifies this`hooks, this`tools, this`forms, this`endpoints, app
      ensures Index(hooks, tools, forms, endpoints) == IndexOf(views, Elements(active))
      ensures app.routes == Activated(old(app.routes), endpoints, Elements(active))
    {
      Collect();
      SortHooks();
      GroupedIs(hooks, Contributed(views, Elements(active)).hooks);
      ActivateEndpoints();
    }

    method RemoveActive(id: string)
      requires id in active && NoDup(active)
      modifies this`active
      ensures NoDup(active) && Elements(active) == Elements(old(active)) - {id}
    {
      var k := 0;
      while active[k] != id
        invariant 0 <= k < |active| && id in active[k..]
        decreases |active| - k
      {
        k := k + 1;
      }
      active := active[..k] + active[k + 1..];
      ghost var was := old(active);
      forall x ensures x in active <==> x in was && x != id {
        if x in was && x != id {
          var j :| 0 <= j < |was| && was[j] == x;
          if j < k { assert active[j] == x; } else { assert active[j - 1] == x; }
        }
      }
    }

    method SwitchOff(i: nat, o: Outcome) returns (ok: bool)
      requires Valid() && i < |plugins| && plugins[i].id in active
      modifies this`views, this`active, plugins[i], app
      ensures Valid()
      ensures ok == (!old(views)[i].on || !Fails(o))
      ensures !ok ==> views == old(views) && active == old(active) && app.routes == old(app.routes)
      ensures ok ==>
                && views == SetPlugin(old(views), i, NoItems, false)
                && Elements(active) == Elements(old(active)) - {old(views)[i].id}
                && app.routes == Deactivated(old(app.routes), old(views)[i].items.endpoints)
    {
      var p := plugins[i];
      assert p.View() == views[i];
      assert forall j :: 0 <= j < |plugins| && j != i ==> plugins[j].View() == views[j] && plugins[j].id != p.id;
      ok := p.Deactivate(o, app);
      if ok {
        views := SetPlugin(views, i, NoItems, false);
        RemoveActive(p.id);
      }
    }

    method SwitchOn(i: nat, o: Outcome) returns (ok: bool)
      requires Valid() && i < |plugins|
      modifies this`views, plugins[i]
      ensures Valid() && ok == !Fails(o)
      ensures views == if o.RaisesBefore? then old(views)
                       else SetPlugin(old(views), i, Stamp(old(views)[i].disk, old(views)[i].id), true)
    {
      var p := plugins[i];
      assert p.View() == views[i];
      assert forall j :: 0 <= j < |plugins| && j != i ==> plugins[j].View() == views[j] && plugins[j].id != p.id;
      ok := p.Activate(o);
      if !o.RaisesBefore? {
        views := SetPlugin(views, i, Stamp(p.disk, p.id), true);
      }
    }

    method SaveActive()
      modifies this`saved
      ensures saved.Some? && NoDup(saved.value) && Elements(saved.value) == Elements(active)
    {
      var list := ListOfSet(set x | x in active);
      saved := Some(list);
    }

    /** Persists the active list and rebuilds every cache. */
    method SaveAndSync()
      requires Valid()
      modifies this`saved, this`hooks, this`tools, this`forms, this`endpoints, app
      ensures Valid()
      ensures State() == Sync(old(State()).(saved := Some(Elements(active))))
    {
      SaveActive();
      Synchronize();
    }

    /** Activates or deactivates a plugin, persists the list and rebuilds every cache. */
    method Toggle(id: string, o: Outcome) returns (ok: bool)
      requires Valid()
      modifies this, plugins, app
      ensures Valid() && plugins == old(plugins)
      ensures (State(), ok) == PluginWorld.Toggle(old(State()), id, o)
    {
      var i := Lookup(id);
      if i < 0 { return false; }
      if id in active {
        ok := ToggleToOff(i, o);
      } else {
        ok := ToggleToOn(i, o);
      }
    }

    method ToggleToOff(i: nat, o: Outcome) returns (ok: bool)
      requires Valid() && i < |plugins| && plugins[i].id in active
      modifies this`views, this`active, this`saved, this`hooks, this`tools, this`forms, this`endpoints, plugins[i], app
      ensures Valid()
      ensures (State(), ok) == if old(views)[i].on && Fails(o) then (old(State()), false)
                               else (ToggleOff(old(State()), i), !o.SyncRaises?)
    {
      assert plugins[i].View() == views[i];
      ok := SwitchOff(i, o);
      if ok {
        SaveAndSync();
        ok := !o.SyncRaises?;
      }
    }

    method ToggleToOn(i: nat, o: Outcome) returns (ok: bool)
      requires Valid() && i < |plugins| && plugins[i].id !in active
      modifies this`views, this`active, this`saved, this`hooks, this`tools, this`forms, this`endpoints, plugins[i], app
      ensures Valid() && ok == o.Fine?
      ensures var w := old(State());
        State() == match o
          case RaisesBefore => w
          case RaisesAfter => w.(ps := SetPlugin(w.ps, i, Stamp(w.ps[i].disk, w.ps[i].id), true))
          case _ => ToggleOn(w, i)
    {
      assert plugins[i].View() == views[i];
      ok := SwitchOn(i, o);
      if ok {
        active := active + [plugins[i].id];
        assert Elements(active) == Elements(old(active)) + {plugins[i].id};
        SaveAndSync();
        ok := o.Fine?;
      }
    }

    method LoadPlugin(id: string, disk: Items, valid: bool)
      requires Valid()
      modifies this`plugins, this`views
      ensures Valid()
      ensures forall j :: 0 <= j < |plugins| ==> plugins[j] in old(plugins) || fresh(plugins[j])
      ensures State() == if valid then old(State()).(ps := PutPlugin(old(views), PluginV(id, disk, NoItems, false)))
                         else old(State())
    {
      if !valid { return; }
      PutUnique(views, PluginV(id, disk, NoItems, false));
      var i := Lookup(id);
      StorePlugin(i, id, disk);
    }

    method StorePlugin(i: int, id: string, disk: Items)
      requires Valid() && i < |plugins|
      requires UniqueIds(if i >= 0 then views[i := PluginV(id, disk, NoItems, false)]
                         else views + [PluginV(id, disk, NoItems, false)])
      modifies this`plugins, this`views
      ensures Valid()
      ensures forall j :: 0 <= j < |plugins| ==> plugins[j] in old(plugins) || fresh(plugins[j])
      ensures views == if i >= 0 then old(views)[i := PluginV(id, disk, NoItems, false)]
                       else old(views) + [PluginV(id, disk, NoItems, false)]
    {
      var p := new Plugin(id, disk);
      plugins := if i >= 0 then plugins[i := p] else plugins + [p];
      views := if i >= 0 then views[i := p.View()] else views + [p.View()];
    }

    method Install(id: string, disk: Items, valid: bool, o: Outcome) returns (ok: bool)
      requires Valid()
      modifies this, plugins, app
      ensures Valid()
      ensures (State(), ok) == PluginWorld.Install(old(State()), id, disk, valid, o)
    {
      LoadPlugin(id, disk, valid);
      ok := Toggle(id, o);
    }

    method Forget(i: nat)
      requires Valid() && i < |plugins|
      modifies this`plugins, this`views
      ensures Valid() && State() == Forgotten(old(State()), i)
    {
      RemoveUnique(views, i);
      plugins := plugins[..i] + plugins[i + 1..];
      views := views[..i] + views[i + 1..];
    }

    method DropActive(i: nat, o: Outcome) returns (ok: bool)
      requires Valid() && i < |plugins| && plugins[i].id in active
      modifies this, plugins[i], app
      ensures Valid() && (State(), ok) == Dropped(old(State()), i, o)
    {
      ok := ToggleToOff(i, o);
      if ok { Forget(i); }
    }

    method Uninstall(id: string, o: Outcome) returns (ok: bool)
      requires Valid()
      modifies this, plugins, app
      ensures Valid()
      ensures (State(), ok) == PluginWorld.Uninstall(old(State()), id, o)
    {
      var i := Lookup(id);
      if i < 0 || id == "core_plugin" { return true; }
      UninstallCases(State(), id, o);
      if id in active {
        ok := DropActive(i, o);
      } else {
        Forget(i);
        ok := true;
      }
    }

    method LoadActive()
      requires saved.Some? ==> NoDup(saved.value)
      modifies this`active
      ensures NoDup(active)
      ensures Elements(active) == (match saved case Some(a) => Elements(a) case None => {}) + {"core_plugin"}
    {
      active := if saved.None? then [] else saved.value;
      if "core_plugin" !in active {
        active := active + ["core_plugin"];
      }
    }

    /** Activates the plugin of a folder; one that raises is switched off again, if that does not raise. */
    method ActivateFolder(f: Folder) returns (up: bool)
      requires Valid() && f.id in active
      modifies this, plugins, app
      ensures Valid() && plugins == old(plugins)
      ensures (State(), up) == ActivatedFolder(old(State()), f)
    {
      var i := Lookup(f.id);
      if i < 0 { return false; }
      ActivatedCases(State(), f, i);
      up := SwitchOn(i, f.outcome);
      assert State() == old(State()).(ps := views);
      if !up { UndoActivation(f); }
    }

    method UndoActivation(f: Folder)
      requires Valid()
      modifies this, plugins, app
      ensures Valid() && plugins == old(plugins)
      ensures State() == PluginWorld.Toggle(old(State()), f.id, f.off).0
    {
      var _ := Toggle(f.id, f.off);
    }

    /** One folder of the discovery; if it raises, the discovery ends here. */
    method DiscoverFolder(f: Folder, ghost rest: seq<Folder>, ghost synced: bool) returns (up: bool)
      requires Valid()
      modifies this, plugins, app
      ensures Valid() && forall j :: 0 <= j < |plugins| ==> plugins[j] in old(plugins) || fresh(plugins[j])
      ensures Discover(old(State()), [f] + rest, synced) ==
                if up then Discover(State(), rest, synced) else (State(), false)
    {
      DiscoverStep(State(), f, rest, synced);
      LoadPlugin(f.id, f.disk, f.valid);
      up := true;
      if f.id in active { up := ActivateFolder(f); }
    }

    method SyncAll()
      requires Valid()
      modifies this`hooks, this`tools, this`forms, this`endpoints, app
      ensures Valid() && State() == Sync(old(State()))
    {
      Synchronize();
    }

    method DiscoverAll(folders: seq<Folder>, synced: bool) returns (ok: bool)
      requires Valid()
      modifies this, plugins, app
      ensures Valid() && (State(), ok) == Discover(old(State()), folders, synced)
    {
      ghost var result := Discover(State(), folders, synced);
      assert folders[0..] == folders;
      var k := 0;
      while k < |folders|
        invariant k <= |folders| && Valid()
        invariant forall j :: 0 <= j < |plugins| ==> plugins[j] in old(plugins) || fresh(plugins[j])
        invariant result == Discover(State(), folders[k..], synced)
      {
        assert folders[k..] == [folders[k]] + folders[k + 1..];
        var up := DiscoverFolder(folders[k], folders[k + 1..], synced);
        if !up { return false; }
        k := k + 1;
      }
      assert result == (Sync(State()), synced);
      SyncAll();
      ok := synced;
    }

    /** Forgets every plugin object and discovers the folders again. */
    method FindPlugins(folders: seq<Folder>, synced: bool) returns (ok: bool)
      requires Valid()
      modifies this, app
      ensures Valid()
      ensures (State(), ok) == PluginWorld.FindPlugins(old(State()), folders, synced)
    {
      plugins, views := [], [];
      LoadActive();
      ok := DiscoverAll(folders, synced);
    }

    /** Pipes the value through the hooks of that name, from the highest priority down, skipping hooks
        that raise; the caller's object is not modified.  The handler of a raising hook fails exactly
        when that hook's plugin is not loaded, which never happens while the caches agree. */
    method ExecuteHook(name: string, arg: Cup) returns (r: HookResult)
      requires Valid()
      ensures name !in hooks ==> r.UnknownHook?
      ensures name in hooks ==>
        && (r.MissingOwner? <==> Orphaned(views, hooks[name], arg.content))
        && (!r.MissingOwner? ==> r.Returned? && fresh(r.cup) && r.cup.content == Pipe(hooks[name], arg.content))
      ensures Inv(State()) || OwnersLoaded(State()) ==> !r.MissingOwner?
      ensures r.Returned? ==>
                || (AllSilent(hooks[name], arg.content) && r.cup.content == arg.content)
                || exists i :: LastAnswer(hooks[name], arg.content, i, r.cup.content)
    {
      if name !in hooks { return UnknownHook; }
      var hs := hooks[name];
      if Inv(State()) {
        forall h | h in hs ensures Exists(views, h.owner) { HookOwnersLoaded(State(), name, h); }
      }
      r := RunHooks(hs, arg);
      if r.Returned? { PipeIff(hs, arg.content, r.cup.content); }
    }

    /** The branch without arguments: every hook is called in order, and nothing is piped.  The handler of
        a raising hook fails exactly as above, and then the hooks after it are not called. */
    method ExecuteHookPlain(name: string) returns (r: PlainResult)
      requires Valid()
      ensures name !in hooks ==> r == PlainUnknown
      ensures name in hooks ==>
        && r.Called? && r.ran <= hooks[name]
        && (r.ok ==> r.ran == hooks[name] && forall i :: 0 <= i < |r.ran| ==> !OrphanCall(views, r.ran[i]))
        && (!r.ok ==> r.ran != [] && OrphanCall(views, r.ran[|r.ran| - 1])
                      && forall i :: 0 <= i < |r.ran| - 1 ==> !OrphanCall(views, r.ran[i]))
      ensures name in hooks && (Inv(State()) || OwnersLoaded(State())) ==> r == Called(hooks[name], true)
    {
      if name !in hooks { return PlainUnknown; }
      var hs := hooks[name];
      if Inv(State()) {
        forall h | h in hs ensures Exists(views, h.owner) { HookOwnersLoaded(State(), name, h); }
      }
      for i := 0 to |hs|
        invariant forall j :: 0 <= j < i ==> !OrphanCall(views, hs[j])
      {
        if hs[i].reply(Null).Raises? {
          var k := Lookup(hs[i].owner);
          if k < 0 {
            assert hs[i] in hs;
            return Called(hs[..i + 1], false);
          }
        }
      }
      r := Called(hs, true);
    }

    method RunHooks(hs: seq<Hook>, arg: Cup) returns (r: HookResult)
      requires Valid()
      ensures r.MissingOwner? <==> Orphaned(views, hs, arg.content)
      ensures !r.MissingOwner? ==> r.Returned? && fresh(r.cup) && r.cup.content == Pipe(hs, arg.content)
    {
      var teaCup := new Cup(arg.content);
      for i := 0 to |hs|
        invariant fresh(teaCup) && teaCup.content == Pipe(hs[..i], arg.content)
        invariant forall j :: 0 <= j < i ==> !OrphanAt(views, hs, j, arg.content)
      {
        assert hs[..i + 1][..i] == hs[..i];
        var h := hs[i];
        var given := new Cup(teaCup.content);
        var reply := h.reply(given.content);
        given.content := h.scribble(given.content);
        match reply {
          case Nothing =>
          case Given => teaCup := given;
          case Other(v) => teaCup := new Cup(v);
          case Raises =>
            var k := Lookup(h.owner);
            if k < 0 {
              assert OrphanAt(views, hs, i, arg.content);
              return MissingOwner;
            }
        }
      }
      assert hs[..|hs|] == hs;
      r := Returned(teaCup);
    }
  }
}
