/** The procedural vector memory as an index of the active procedures' triggers.  Each sync compares
    the hashes of the stored points with the hashes of the active triggers, deletes one point per
    stale hash and adds one per missing hash. */
module ProcedureIndex {
  import opened Prelude
  import opened PluginWorld

  /** Legacy points have no trigger type. */
  datatype Point = Point(id: nat, source: string, trigger: Option<string>, content: string)

  datatype Trigger = Trigger(source: string, ttype: string, content: string)

  /** `get_all_points` returns at most this many points. */
  const LIMIT: nat := 10000

  function Hash(source: string, ttype: string, content: string): string {
    source + "." + ttype + "." + content
  }

  function HashOf(p: Point): string {
    Hash(p.source, match p.trigger case Some(t) => t case None => "unsupported", p.content)
  }

  function TriggerHash(t: Trigger): string {
    Hash(t.source, t.ttype, t.content)
  }

  function Seen(ps: seq<Point>): seq<Point> {
    if |ps| <= LIMIT then ps else ps[..LIMIT]
  }

  // ---------- the dictionaries ----------

  /** Hash to id, a later point winning over an earlier one. */
  function HashIds(ps: seq<Point>): map<string, nat> {
    if ps == [] then map[] else HashIds(ps[..|ps| - 1])[HashOf(ps[|ps| - 1]) := ps[|ps| - 1].id]
  }

  function TriggersOf(p: Procedure, ts: seq<(string, seq<string>)>): seq<Trigger> {
    if ts == [] then []
    else TriggersOf(p, ts[..|ts| - 1]) + Contents(p.name, ts[|ts| - 1].0, ts[|ts| - 1].1)
  }

  function Contents(name: string, ttype: string, cs: seq<string>): seq<Trigger> {
    if cs == [] then [] else Contents(name, ttype, cs[..|cs| - 1]) + [Trigger(name, ttype, cs[|cs| - 1])]
  }

  /** All triggers of all procedures. */
  function Triggers(procs: seq<Procedure>): seq<Trigger> {
    if procs == [] then []
    else Triggers(procs[..|procs| - 1]) + TriggersOf(procs[|procs| - 1], procs[|procs| - 1].triggers)
  }

  function TriggerMap(ts: seq<Trigger>): map<string, Trigger> {
    if ts == [] then map[] else TriggerMap(ts[..|ts| - 1])[TriggerHash(ts[|ts| - 1]) := ts[|ts| - 1]]
  }

  lemma {:induction false} TriggerMapIs(ts: seq<Trigger>)
    ensures forall h :: h in TriggerMap(ts) ==> TriggerMap(ts)[h] in ts && TriggerHash(TriggerMap(ts)[h]) == h
    ensures forall t :: t in ts ==> TriggerHash(t) in TriggerMap(ts)
  {
    if ts != [] {
      TriggerMapIs(ts[..|ts| - 1]);
      assert ts == ts[..|ts| - 1] + [ts[|ts| - 1]];
    }
  }

  /** The procedures define this trigger: one of their contents under one of their trigger types. */
  ghost predicate Defines(procs: seq<Procedure>, t: Trigger) {
    exists p, j :: p in procs && 0 <= j < |p.triggers| && t.content in p.triggers[j].1
      && t == Trigger(p.name, p.triggers[j].0, t.content)
  }

  lemma {:induction false} ContentsMember(name: string, ttype: string, cs: seq<string>, t: Trigger)
    ensures t in Contents(name, ttype, cs) <==> t.content in cs && t == Trigger(name, ttype, t.content)
  {
    if cs != [] {
      var n := |cs| - 1;
      ContentsMember(name, ttype, cs[..n], t);
      assert cs == cs[..n] + [cs[n]];
    }
  }

  lemma {:induction false} TriggersOfMember(p: Procedure, ts: seq<(string, seq<string>)>, t: Trigger)
    ensures t in TriggersOf(p, ts) <==>
      exists j :: 0 <= j < |ts| && t.content in ts[j].1 && t == Trigger(p.name, ts[j].0, t.content)
  {
    if ts != [] {
      var n := |ts| - 1;
      TriggersOfMember(p, ts[..n], t);
      ContentsMember(p.name, ts[n].0, ts[n].1, t);
      assert forall j :: 0 <= j < n ==> ts[..n][j] == ts[j];
    }
  }

  /** Every trigger of every procedure, and no other. */
  lemma {:induction false} TriggersIff(procs: seq<Procedure>, t: Trigger)
    ensures t in Triggers(procs) <==> Defines(procs, t)
  {
    if procs != [] {
      var n := |procs| - 1;
      TriggersIff(procs[..n], t);
      TriggersOfMember(procs[n], procs[n].triggers, t);
      assert procs == procs[..n] + [procs[n]];
    }
  }

  // ---------- one sync ----------

  function Without(ps: seq<Point>, victims: set<nat>): seq<Point> {
    if ps == [] then []
    else Without(ps[..|ps| - 1], victims) + (if ps[|ps| - 1].id in victims then [] else [ps[|ps| - 1]])
  }

  function Victims(ps: seq<Point>, act: map<string, Trigger>): set<nat> {
    var ids := HashIds(Seen(ps));
    set h | h in ids && h !in act :: ids[h]
  }

  /** The points a sync adds: one for each active hash that was not seen, carrying its trigger. */
  ghost predicate Fresh(added: seq<Point>, missing: set<string>, act: map<string, Trigger>) {
    && (forall h :: h in missing <==> exists i :: 0 <= i < |added| && HashOf(added[i]) == h)
    && (forall i, j :: 0 <= i < j < |added| ==> HashOf(added[i]) != HashOf(added[j]))
    && (forall i :: 0 <= i < |added| && HashOf(added[i]) in act ==>
          var t := act[HashOf(added[i])];
          added[i].source == t.source && added[i].trigger == Some(t.ttype) && added[i].content == t.content)
  }

  ghost predicate Synced(ps: seq<Point>, act: map<string, Trigger>, ps': seq<Point>) {
    var kept := Without(ps, Victims(ps, act));
    && kept <= ps'
    && Fresh(ps'[|kept|..], act.Keys - HashIds(Seen(ps)).Keys, act)
  }

  // ---------- the store ----------

  ghost predicate UniquePointIds(ps: seq<Point>) {
    forall i, j :: 0 <= i < j < |ps| ==> ps[i].id != ps[j].id
  }

  lemma {:induction false} WithoutMember(ps: seq<Point>, victims: set<nat>)
    ensures forall p :: p in Without(ps, victims) <==> p in ps && p.id !in victims
    ensures |Without(ps, victims)| <= |ps|
  {
    if ps != [] {
      var n := |ps| - 1;
      WithoutMember(ps[..n], victims);
      assert ps == ps[..n] + [ps[n]];
      assert Without(ps, victims) == Without(ps[..n], victims) + if ps[n].id in victims then [] else [ps[n]];
    }
  }

  lemma {:induction false} WithoutUnique(ps: seq<Point>, victims: set<nat>)
    requires UniquePointIds(ps)
    ensures UniquePointIds(Without(ps, victims))
  {
    if ps != [] {
      var n := |ps| - 1;
      var k := Without(ps[..n], victims);
      WithoutUnique(ps[..n], victims);
      WithoutMember(ps[..n], victims);
      forall i | 0 <= i < |k| ensures k[i].id != ps[n].id {
        assert k[i] in ps[..n];
      }
      assert Without(ps, victims) == if ps[n].id in victims then k else k + [ps[n]];
    }
  }

  class VectorStore {
    var points: seq<Point>
    var nextId: nat            // stands for the generator of fresh ids

    ghost predicate Valid()
      reads this
    {
      UniquePointIds(points) && forall i :: 0 <= i < |points| ==> points[i].id < nextId
    }

    constructor ()
      ensures Valid() && points == []
    {
      points, nextId := [], 0;
    }

    method AddPoint(t: Trigger)
      requires Valid()
      modifies this
      ensures Valid()
      ensures points == old(points) + [Point(old(nextId), t.source, Some(t.ttype), t.content)]
    {
      points := points + [Point(nextId, t.source, Some(t.ttype), t.content)];
      nextId := nextId + 1;
    }

    method DeletePoints(ids: set<nat>)
      requires Valid()
      modifies this`points
      ensures Valid() && points == Without(old(points), ids)
    {
      var kept := [];
      for i := 0 to |points|
        invariant points == old(points) && kept == Without(points[..i], ids)
      {
        assert points[..i + 1][..i] == points[..i];
        if points[i].id !in ids { kept := kept + [points[i]]; }
      }
      assert points[..|points|] == points;
      WithoutMember(points, ids);
      WithoutUnique(points, ids);
      forall i | 0 <= i < |kept| ensures kept[i].id < nextId {
        assert kept[i] in points;
      }
      points := kept;
    }

    /** Reconciles the store with the procedures of the active plugins. */
    method EmbedProcedures(procs: seq<Procedure>)
      requires Valid()
      modifies this
      ensures Valid() && Synced(old(points), TriggerMap(Triggers(procs)), points)
      ensures forall t :: Defines(procs, t) ==> HasHash(points, TriggerHash(t))
      ensures DotFreePoints(old(points)) && DotFreeProcs(procs) ==> forall t :: Defines(procs, t) ==> HasTrigger(points, t)
      ensures DotFreePoints(old(points)) && DotFreeProcs(procs) && |old(points)| <= LIMIT && NoRepeats(old(points)) ==>
                && (forall p :: p in points ==> p.trigger.Some? && Defines(procs, TriggerOf(p)))
                && (forall i, j :: 0 <= i < j < |points| ==> HashOf(points[i]) != HashOf(points[j]))
    {
      var embedded := BuildEmbedded();
      var act := BuildActive(procs);
      var toDelete := set h | h in embedded && h !in act :: embedded[h];
      var missing := act.Keys - embedded.Keys;
      assert toDelete == Victims(points, act);
      DeletePoints(toDelete);
      TriggerMapIs(Triggers(procs));
      EmbedMissing(act, missing);
      EveryTriggerHasPoint(old(points), procs, points);
      if DotFreePoints(old(points)) && DotFreeProcs(procs) {
        StoreHoldsTriggers(old(points), procs, points);
        if |old(points)| <= LIMIT && NoRepeats(old(points)) { StoreIsTriggers(old(points), procs, points); }
      }
    }

    method EmbedMissing(act: map<string, Trigger>, missing: set<string>)
      requires Valid() && missing <= act.Keys && forall h :: h in act ==> TriggerHash(act[h]) == h
      modifies this
      ensures Valid() && old(points) <= points
      ensures Fresh(points[|old(points)|..], missing, act)
    {
      var todo := missing;
      ghost var added: seq<Point> := [];
      while todo != {}
        invariant Valid() && todo <= missing
        invariant points == old(points) + added
        invariant Fresh(added, missing - todo, act)
        decreases todo
      {
        var h :| h in todo;
        ghost var p := Point(nextId, act[h].source, Some(act[h].ttype), act[h].content);
        AddPoint(act[h]);
        FreshSnoc(added, missing - todo, act, p, h);
        added := added + [p];
        todo := todo - {h};
        assert missing - todo == (missing - (todo + {h})) + {h};
      }
      assert missing - todo == missing;
      assert points[|old(points)|..] == added;
    }

    method BuildEmbedded() returns (hashes: map<string, nat>)
      ensures hashes == HashIds(Seen(points))
    {
      var seen := Seen(points);
      hashes := map[];
      for i := 0 to |seen|
        invariant hashes == HashIds(seen[..i])
      {
        assert seen[..i + 1][..i] == seen[..i];
        hashes := hashes[HashOf(seen[i]) := seen[i].id];
      }
      assert seen[..|seen|] == seen;
    }
  }

  lemma FreshSnoc(added: seq<Point>, done: set<string>, act: map<string, Trigger>, p: Point, h: string)
    requires Fresh(added, done, act) && h !in done && h in act && HashOf(p) == h
    requires p.source == act[h].source && p.trigger == Some(act[h].ttype) && p.content == act[h].content
    ensures Fresh(added + [p], done + {h}, act)
  {
    var a := added + [p];
    assert a[|added|] == p && forall i :: 0 <= i < |added| ==> a[i] == added[i];
    forall i | 0 <= i < |added| ensures HashOf(a[i]) in done && HashOf(a[i]) != h { assert a[i] == added[i]; }
    forall g ensures g in done + {h} <==> exists i :: 0 <= i < |a| && HashOf(a[i]) == g {
      if g in done {
        var i :| 0 <= i < |added| && HashOf(added[i]) == g;
        assert HashOf(a[i]) == g;
      }
      if g == h { assert HashOf(a[|added|]) == g; }
    }
  }

  lemma {:induction false} TriggerMapAppend(ts: seq<Trigger>, us: seq<Trigger>)
    ensures TriggerMap(ts + us) == TriggerMap(ts) + TriggerMap(us)
  {
    if us == [] {
      assert ts + us == ts;
    } else {
      var n := |us| - 1;
      assert (ts + us)[..|ts + us| - 1] == ts + us[..n];
      TriggerMapAppend(ts, us[..n]);
    }
  }

  /** The nested loops over procedures, trigger types and contents. */
  method BuildActive(procs: seq<Procedure>) returns (hashes: map<string, Trigger>)
    ensures hashes == TriggerMap(Triggers(procs))
  {
    hashes := map[];
    for i := 0 to |procs|
      invariant hashes == TriggerMap(Triggers(procs[..i]))
    {
      assert procs[..i + 1][..i] == procs[..i];
      hashes := AddProcedure(hashes, Triggers(procs[..i]), procs[i]);
    }
    assert procs[..|procs|] == procs;
  }

  method AddProcedure(hashes: map<string, Trigger>, ghost before: seq<Trigger>, p: Procedure)
    returns (r: map<string, Trigger>)
    requires hashes == TriggerMap(before)
    ensures r == TriggerMap(before + TriggersOf(p, p.triggers))
  {
    r := hashes;
    var ts := p.triggers;
    assert before + TriggersOf(p, ts[..0]) == before;
    for j := 0 to |ts|
      invariant r == TriggerMap(before + TriggersOf(p, ts[..j]))
    {
      assert ts[..j + 1][..j] == ts[..j];
      ghost var soFar := before + TriggersOf(p, ts[..j]);
      ghost var more := Contents(p.name, ts[j].0, ts[j].1);
      assert TriggersOf(p, ts[..j + 1]) == TriggersOf(p, ts[..j]) + more;
      assert before + TriggersOf(p, ts[..j + 1]) == soFar + more;
      r := AddContents(r, soFar, p.name, ts[j].0, ts[j].1);
    }
    assert ts[..|ts|] == ts;
  }

  lemma ContentsSnoc(before: seq<Trigger>, name: string, ttype: string, cs: seq<string>, k: nat)
    requires k < |cs|
    ensures TriggerMap(before + Contents(name, ttype, cs[..k + 1])) ==
      TriggerMap(before + Contents(name, ttype, cs[..k]))[Hash(name, ttype, cs[k]) := Trigger(name, ttype, cs[k])]
  {
    var soFar := before + Contents(name, ttype, cs[..k]);
    var t := Trigger(name, ttype, cs[k]);
    assert cs[..k + 1][..k] == cs[..k] && cs[..k + 1][k] == cs[k];
    assert before + Contents(name, ttype, cs[..k + 1]) == soFar + [t];
    assert (soFar + [t])[..|soFar|] == soFar;
  }

  method AddContents(hashes: map<string, Trigger>, ghost before: seq<Trigger>, name: string, ttype: string,
                     cs: seq<string>) returns (r: map<string, Trigger>)
    requires hashes == TriggerMap(before)
    ensures r == TriggerMap(before + Contents(name, ttype, cs))
  {
    r := hashes;
    assert before + Contents(name, ttype, cs[..0]) == before;
    for k := 0 to |cs|
      invariant r == TriggerMap(before + Contents(name, ttype, cs[..k]))
    {
      ContentsSnoc(before, name, ttype, cs, k);
      r := r[Hash(name, ttype, cs[k]) := Trigger(name, ttype, cs[k])];
    }
    assert cs[..|cs|] == cs;
  }

  // ---------- what a sync does to every hash ----------

  function Count(ps: seq<Point>, h: string): nat {
    if ps == [] then 0 else Count(ps[..|ps| - 1], h) + if HashOf(ps[|ps| - 1]) == h then 1 else 0
  }

  lemma {:induction false} CountAppend(ps: seq<Point>, qs: seq<Point>, h: string)
    ensures Count(ps + qs, h) == Count(ps, h) + Count(qs, h)
  {
    if qs == [] {
      assert ps + qs == ps;
    } else {
      assert (ps + qs)[..|ps + qs| - 1] == ps + qs[..|qs| - 1];
      CountAppend(ps, qs[..|qs| - 1], h);
    }
  }

  lemma {:induction false} CountPositive(ps: seq<Point>, h: string)
    ensures Count(ps, h) > 0 <==> exists i :: 0 <= i < |ps| && HashOf(ps[i]) == h
  {
    if ps != [] {
      var n := |ps| - 1;
      CountPositive(ps[..n], h);
      if i :| 0 <= i < |ps| && HashOf(ps[i]) == h && i < n { assert HashOf(ps[..n][i]) == h; }
      if i :| 0 <= i < n && HashOf(ps[..n][i]) == h { assert HashOf(ps[i]) == h; }
      if HashOf(ps[n]) == h { assert HashOf(ps[n]) == h; }
    }
  }

  lemma {:induction false} CountDistinct(ps: seq<Point>, h: string)
    requires forall i, j :: 0 <= i < j < |ps| ==> HashOf(ps[i]) != HashOf(ps[j])
    ensures Count(ps, h) <= 1
  {
    if ps != [] {
      var n := |ps| - 1;
      CountDistinct(ps[..n], h);
      CountPositive(ps[..n], h);
    }
  }

  /** Every hash in the store is a key, and its id is that of some point with that hash. */
  lemma {:induction false} HashIdsIs(ps: seq<Point>)
    ensures forall i :: 0 <= i < |ps| ==> HashOf(ps[i]) in HashIds(ps)
    ensures forall h :: h in HashIds(ps) ==> exists i :: 0 <= i < |ps| && HashOf(ps[i]) == h && ps[i].id == HashIds(ps)[h]
  {
    if ps != [] {
      var n := |ps| - 1;
      HashIdsIs(ps[..n]);
      forall h | h in HashIds(ps)
        ensures exists i :: 0 <= i < |ps| && HashOf(ps[i]) == h && ps[i].id == HashIds(ps)[h]
      {
        if h == HashOf(ps[n]) {
          assert HashOf(ps[n]) == h && ps[n].id == HashIds(ps)[h];
        } else {
          var i :| 0 <= i < n && HashOf(ps[..n][i]) == h && ps[..n][i].id == HashIds(ps[..n])[h];
          assert HashOf(ps[i]) == h && ps[i].id == HashIds(ps)[h];
        }
      }
      forall i | 0 <= i < |ps| ensures HashOf(ps[i]) in HashIds(ps) {
        if i < n { assert HashOf(ps[..n][i]) in HashIds(ps[..n]); }
      }
    }
  }

  /** Among the points of one hash, at most one is a victim: the one the dictionary names. */
  lemma VictimsOf(ps: seq<Point>, act: map<string, Trigger>, i: nat)
    requires UniquePointIds(ps) && |ps| <= LIMIT && i < |ps|
    ensures HashOf(ps[i]) in HashIds(ps)
    ensures ps[i].id in Victims(ps, act) <==> HashOf(ps[i]) !in act && HashIds(ps)[HashOf(ps[i])] == ps[i].id
  {
    HashIdsIs(ps);
    var ids := HashIds(ps);
    if ps[i].id in Victims(ps, act) {
      var h :| h in ids && h !in act && ids[h] == ps[i].id;
      var k :| 0 <= k < |ps| && HashOf(ps[k]) == h && ps[k].id == ids[h];
      assert k == i;
    }
  }

  lemma CountSingle(p: Point, h: string)
    ensures Count([p], h) == if HashOf(p) == h then 1 else 0
  {
  }

  lemma CountWithoutLast(ps: seq<Point>, victims: set<nat>, h: string)
    requires ps != []
    ensures var n := |ps| - 1;
      Count(Without(ps, victims), h) ==
      Count(Without(ps[..n], victims), h) + if ps[n].id in victims || HashOf(ps[n]) != h then 0 else 1
  {
    var n := |ps| - 1;
    var k := Without(ps[..n], victims);
    if ps[n].id in victims {
      assert Without(ps, victims) == k;
    } else {
      assert Without(ps, victims) == k + [ps[n]];
      CountAppend(k, [ps[n]], h);
      CountSingle(ps[n], h);
    }
  }

  lemma {:induction false} CountWithoutNone(ps: seq<Point>, victims: set<nat>, h: string)
    requires forall i :: 0 <= i < |ps| && HashOf(ps[i]) == h ==> ps[i].id !in victims
    ensures Count(Without(ps, victims), h) == Count(ps, h)
  {
    if ps != [] {
      var n := |ps| - 1;
      assert forall i :: 0 <= i < n ==> ps[..n][i] == ps[i];
      CountWithoutNone(ps[..n], victims, h);
      CountWithoutLast(ps, victims, h);
    }
  }

  lemma {:induction false} CountWithoutOne(ps: seq<Point>, victims: set<nat>, h: string, k: nat)
    requires k < |ps| && HashOf(ps[k]) == h && ps[k].id in victims
    requires forall i :: 0 <= i < |ps| && i != k && HashOf(ps[i]) == h ==> ps[i].id !in victims
    ensures Count(Without(ps, victims), h) == Count(ps, h) - 1
  {
    var n := |ps| - 1;
    assert forall i :: 0 <= i < n ==> ps[..n][i] == ps[i];
    CountWithoutLast(ps, victims, h);
    if k == n {
      CountWithoutNone(ps[..n], victims, h);
    } else {
      CountWithoutOne(ps[..n], victims, h, k);
    }
  }

  /** The points of one hash that are victims: none, or the one the dictionary names. */
  lemma VictimsOfHash(ps: seq<Point>, act: map<string, Trigger>, h: string)
    requires UniquePointIds(ps) && |ps| <= LIMIT
    ensures h in act ==> forall i :: 0 <= i < |ps| && HashOf(ps[i]) == h ==> ps[i].id !in Victims(ps, act)
    ensures h !in act ==> forall i :: 0 <= i < |ps| && HashOf(ps[i]) == h ==>
      h in HashIds(ps) && (ps[i].id in Victims(ps, act) <==> HashIds(ps)[h] == ps[i].id)
  {
    forall i | 0 <= i < |ps| && HashOf(ps[i]) == h
      ensures h in HashIds(ps)
      ensures ps[i].id in Victims(ps, act) <==> h !in act && HashIds(ps)[h] == ps[i].id
    {
      VictimsOf(ps, act, i);
    }
  }

  lemma KeptCount(ps: seq<Point>, act: map<string, Trigger>, h: string)
    requires UniquePointIds(ps) && |ps| <= LIMIT
    ensures Count(Without(ps, Victims(ps, act)), h) ==
            if h in act || Count(ps, h) == 0 then Count(ps, h) else Count(ps, h) - 1
  {
    var victims := Victims(ps, act);
    VictimsOfHash(ps, act, h);
    CountPositive(ps, h);
    if h in act || Count(ps, h) == 0 {
      CountWithoutNone(ps, victims, h);
    } else {
      var j :| 0 <= j < |ps| && HashOf(ps[j]) == h;
      var k := NamedPoint(ps, j);
      CountWithoutOne(ps, victims, h, k);
    }
  }

  lemma AddedCount(added: seq<Point>, missing: set<string>, act: map<string, Trigger>, h: string)
    requires Fresh(added, missing, act)
    ensures Count(added, h) == if h in missing then 1 else 0
  {
    CountDistinct(added, h);
    CountPositive(added, h);
  }

  /** The effect of one sync, hash by hash: an active hash keeps its points, or gets one; a stale
      hash loses exactly one. */
  lemma SyncCounts(ps: seq<Point>, act: map<string, Trigger>, ps': seq<Point>, h: string)
    requires UniquePointIds(ps) && |ps| <= LIMIT && Synced(ps, act, ps')
    ensures Count(ps', h) == if h in act then (if Count(ps, h) == 0 then 1 else Count(ps, h))
                             else (if Count(ps, h) == 0 then 0 else Count(ps, h) - 1)
  {
    var kept := Without(ps, Victims(ps, act));
    var added := ps'[|kept|..];
    assert ps' == kept + added;
    CountAppend(kept, added, h);
    KeptCount(ps, act, h);
    AddedCount(added, act.Keys - HashIds(ps).Keys, act, h);
    HashIdsIs(ps);
    CountPositive(ps, h);
  }

  // ---------- stores without repeated hashes ----------

  ghost predicate NoRepeats(ps: seq<Point>) {
    forall h :: Count(ps, h) <= 1
  }

  /** From a store without repeated hashes one sync ends with exactly one point per active trigger
      and no others, and every point of an active trigger is still the same point. */
  lemma SyncExact(ps: seq<Point>, act: map<string, Trigger>, ps': seq<Point>)
    requires UniquePointIds(ps) && |ps| <= LIMIT && NoRepeats(ps) && Synced(ps, act, ps')
    ensures forall h :: Count(ps', h) == if h in act then 1 else 0
    ensures forall p :: p in ps && HashOf(p) in act ==> p in ps'
  {
    forall h ensures Count(ps', h) == if h in act then 1 else 0 {
      SyncCounts(ps, act, ps', h);
    }
    var victims := Victims(ps, act);
    WithoutMember(ps, victims);
    forall p | p in ps && HashOf(p) in act ensures p in ps' {
      var i :| 0 <= i < |ps| && ps[i] == p;
      VictimsOf(ps, act, i);
      assert p in Without(ps, victims);
    }
  }

  lemma {:induction false} WithoutNothing(ps: seq<Point>)
    ensures Without(ps, {}) == ps
  {
    if ps != [] {
      WithoutNothing(ps[..|ps| - 1]);
      assert ps == ps[..|ps| - 1] + [ps[|ps| - 1]];
    }
  }

  lemma HashIdsKey(ps: seq<Point>, h: string)
    ensures h in HashIds(ps) <==> Count(ps, h) > 0
  {
  }

  lemma AddedIn(added: seq<Point>, missing: set<string>, act: map<string, Trigger>)
    requires Fresh(added, missing, act) && added != []
    ensures HashOf(added[0]) in missing
  {
  }

  /** A sync of a store that already agrees does nothing. */
  lemma SyncIdempotent(ps: seq<Point>, act: map<string, Trigger>, ps': seq<Point>)
    requires |ps| <= LIMIT && Synced(ps, act, ps')
    requires forall h :: Count(ps, h) > 0 <==> h in act
    ensures ps' == ps
  {
    var added := ps'[|Without(ps, Victims(ps, act))|..];
    if added != [] { AddedIn(added, act.Keys - HashIds(ps).Keys, act); }
    forall h ensures h in HashIds(ps) <==> h in act {
      HashIdsKey(ps, h);
    }
    assert Victims(ps, act) == {};
    WithoutNothing(ps);
  }

  // ---------- stores with repeated hashes ----------

  function Stale(ps: seq<Point>, act: map<string, Trigger>): nat {
    if ps == [] then 0 else Stale(ps[..|ps| - 1], act) + if HashOf(ps[|ps| - 1]) in act then 0 else 1
  }

  lemma {:induction false} StaleWithout(ps: seq<Point>, victims: set<nat>, act: map<string, Trigger>, k: int)
    requires k < |ps| && (k >= 0 ==> HashOf(ps[k]) !in act && ps[k].id in victims)
    ensures Stale(Without(ps, victims), act) + (if k >= 0 then 1 else 0) <= Stale(ps, act)
  {
    if ps != [] {
      var n := |ps| - 1;
      StaleWithout(ps[..n], victims, act, if k == n then -1 else k);
      StaleAppend(Without(ps[..n], victims), if ps[n].id in victims then [] else [ps[n]], act);
      assert [ps[n]][..0] == [];
    }
  }

  lemma {:induction false} StaleAppend(ps: seq<Point>, qs: seq<Point>, act: map<string, Trigger>)
    ensures Stale(ps + qs, act) == Stale(ps, act) + Stale(qs, act)
  {
    if qs == [] {
      assert ps + qs == ps;
    } else {
      assert (ps + qs)[..|ps + qs| - 1] == ps + qs[..|qs| - 1];
      StaleAppend(ps, qs[..|qs| - 1], act);
    }
  }

  lemma {:induction false} StaleZero(ps: seq<Point>, act: map<string, Trigger>)
    ensures Stale(ps, act) == 0 <==> forall i :: 0 <= i < |ps| ==> HashOf(ps[i]) in act
  {
    if ps != [] {
      var n := |ps| - 1;
      StaleZero(ps[..n], act);
      assert forall i :: 0 <= i < n ==> ps[..n][i] == ps[i];
    }
  }

  /** The point the dictionary names for a hash. */
  lemma NamedPoint(ps: seq<Point>, j: nat) returns (k: nat)
    requires j < |ps|
    ensures k < |ps| && HashOf(ps[k]) == HashOf(ps[j])
    ensures HashOf(ps[j]) in HashIds(ps) && HashIds(ps)[HashOf(ps[j])] == ps[k].id
  {
    HashIdsIs(ps);
    var h := HashOf(ps[j]);
    k :| 0 <= k < |ps| && HashOf(ps[k]) == h && ps[k].id == HashIds(ps)[h];
  }

  lemma AddedNotStale(added: seq<Point>, missing: set<string>, act: map<string, Trigger>)
    requires Fresh(added, missing, act) && missing <= act.Keys
    ensures Stale(added, act) == 0
  {
    StaleZero(added, act);
    forall i | 0 <= i < |added| ensures HashOf(added[i]) in act {
      assert HashOf(added[i]) in missing;
    }
  }

  lemma KeptFewerStale(ps: seq<Point>, act: map<string, Trigger>)
    requires UniquePointIds(ps) && |ps| <= LIMIT && Stale(ps, act) > 0
    ensures Stale(Without(ps, Victims(ps, act)), act) < Stale(ps, act)
  {
    StaleZero(ps, act);
    var j :| 0 <= j < |ps| && HashOf(ps[j]) !in act;
    var k := NamedPoint(ps, j);
    VictimsOf(ps, act, k);
    StaleWithout(ps, Victims(ps, act), act, k);
  }

  /** While there are stale points, each sync leaves strictly fewer of them. */
  lemma StaleDecreases(ps: seq<Point>, act: map<string, Trigger>, ps': seq<Point>)
    requires UniquePointIds(ps) && |ps| <= LIMIT && Synced(ps, act, ps') && Stale(ps, act) > 0
    ensures Stale(ps', act) < Stale(ps, act)
  {
    KeptFewerStale(ps, act);
    var kept := Without(ps, Victims(ps, act));
    var added := ps'[|kept|..];
    assert ps' == kept + added;
    StaleAppend(kept, added, act);
    AddedNotStale(added, act.Keys - HashIds(ps).Keys, act);
  }

  /** A run of syncs with a fixed active set. */
  ghost predicate SyncRun(ss: seq<seq<Point>>, act: map<string, Trigger>) {
    && (forall i :: 0 <= i < |ss| ==> UniquePointIds(ss[i]) && |ss[i]| <= LIMIT)
    && (forall i :: 0 <= i < |ss| - 1 ==> Synced(ss[i], act, ss[i + 1]))
  }

  /** A stale hash loses one point per sync, and never gains one. */
  lemma {:induction false} StaleAfter(ss: seq<seq<Point>>, act: map<string, Trigger>, k: nat, h: string)
    requires SyncRun(ss, act) && k < |ss| && h !in act
    ensures Count(ss[k], h) == if Count(ss[0], h) <= k then 0 else Count(ss[0], h) - k
  {
    if k > 0 {
      StaleAfter(ss, act, k - 1, h);
      SyncCounts(ss[k - 1], act, ss[k], h);
    }
  }

  /** After as many syncs as the largest multiplicity, no stale point is left. */
  lemma SyncsConverge(ss: seq<seq<Point>>, act: map<string, Trigger>, m: nat)
    requires SyncRun(ss, act) && m < |ss|
    requires forall h :: Count(ss[0], h) <= m
    ensures Stale(ss[m], act) == 0
  {
    StaleZero(ss[m], act);
    forall i | 0 <= i < |ss[m]| ensures HashOf(ss[m][i]) in act {
      var h := HashOf(ss[m][i]);
      CountPositive(ss[m], h);
      if h !in act { StaleAfter(ss, act, m, h); }
    }
  }

  /** Points beyond the page are never victims. */
  lemma BeyondKept(ps: seq<Point>, act: map<string, Trigger>, k: nat)
    requires UniquePointIds(ps) && LIMIT <= k < |ps|
    ensures ps[k].id !in Victims(ps, act)
  {
    var seen := Seen(ps);
    HashIdsIs(seen);
    assert forall i :: 0 <= i < |seen| ==> seen[i].id != ps[k].id;
  }

  /** An active point that lies beyond the page is embedded again. */
  lemma BeyondLimitRepeats(ps: seq<Point>, act: map<string, Trigger>, ps': seq<Point>, k: nat)
    requires Synced(ps, act, ps') && UniquePointIds(ps)
    requires LIMIT <= k < |ps| && HashOf(ps[k]) in act
    requires forall i :: 0 <= i < LIMIT ==> HashOf(ps[i]) != HashOf(ps[k])
    ensures Count(ps', HashOf(ps[k])) >= 2
  {
    var h := HashOf(ps[k]);
    var kept := Without(ps, Victims(ps, act));
    var added := ps'[|kept|..];
    assert ps' == kept + added;
    CountAppend(kept, added, h);
    assert Count(kept, h) > 0 by {
      BeyondKept(ps, act, k);
      WithoutMember(ps, Victims(ps, act));
      assert ps[k] in kept;
      CountPositive(kept, h);
    }
    assert h !in HashIds(Seen(ps)) by {
      HashIdsKey(Seen(ps), h);
      CountPositive(Seen(ps), h);
    }
    AddedCount(added, act.Keys - HashIds(Seen(ps)).Keys, act, h);
  }

  lemma NoRepeatsDistinct(ps: seq<Point>, i: nat, j: nat)
    requires NoRepeats(ps) && i < j < |ps|
    ensures HashOf(ps[i]) != HashOf(ps[j])
  {
    if HashOf(ps[i]) == HashOf(ps[j]) { CountTwo(ps, i, j); }
  }

  /** A stale point beyond the page stays. */
  lemma BeyondLimitStays(ps: seq<Point>, act: map<string, Trigger>, ps': seq<Point>, k: nat)
    requires Synced(ps, act, ps') && UniquePointIds(ps) && LIMIT <= k < |ps|
    ensures Count(ps', HashOf(ps[k])) >= 1
  {
    var kept := Without(ps, Victims(ps, act));
    assert ps' == kept + ps'[|kept|..];
    CountAppend(kept, ps'[|kept|..], HashOf(ps[k]));
    BeyondKept(ps, act, k);
    WithoutMember(ps, Victims(ps, act));
    assert ps[k] in kept;
    CountPositive(kept, HashOf(ps[k]));
  }

  /** From a store without repeated hashes, one sync ends with exactly one point per active hash and no
      other point if and only if the store fits the page that a sync looks at. */
  lemma SyncExactIff(ps: seq<Point>, act: map<string, Trigger>, ps': seq<Point>)
    requires UniquePointIds(ps) && NoRepeats(ps) && Synced(ps, act, ps')
    ensures (forall h :: Count(ps', h) == if h in act then 1 else 0) <==> |ps| <= 10000
  {
    if |ps| <= LIMIT {
      SyncExact(ps, act, ps');
    } else {
      var h := HashOf(ps[LIMIT]);
      BeyondLimitStays(ps, act, ps', LIMIT);
      if h in act {
        forall i | 0 <= i < LIMIT ensures HashOf(ps[i]) != h { NoRepeatsDistinct(ps, i, LIMIT); }
        BeyondLimitRepeats(ps, act, ps', LIMIT);
      }
    }
  }

  // ---------- what a hash says ----------

  predicate DotFree(s: string) { '.' !in s }

  lemma DotSplit(a: string, x: string, b: string, y: string)
    requires DotFree(a) && DotFree(b) && a + "." + x == b + "." + y
    ensures a == b && x == y
  {
    var s := a + "." + x;
    assert s[|a|] == '.' && s[|b|] == '.';
    assert forall i :: 0 <= i < |a| ==> s[i] == a[i] && s[i] != '.';
    assert forall i :: 0 <= i < |b| ==> s[i] == b[i] && s[i] != '.';
    assert |a| == |b|;
    assert a == s[..|a|] && b == s[..|b|];
    assert x == s[|a| + 1..] && y == s[|b| + 1..];
  }

  /** For dot-free procedure names and trigger types the hash determines all three parts. */
  lemma HashInjective(a: Trigger, b: Trigger)
    requires DotFree(a.source) && DotFree(b.source) && DotFree(a.ttype) && DotFree(b.ttype)
    requires TriggerHash(a) == TriggerHash(b)
    ensures a == b
  {
    assert TriggerHash(a) == a.source + "." + (a.ttype + "." + a.content);
    assert TriggerHash(b) == b.source + "." + (b.ttype + "." + b.content);
    DotSplit(a.source, a.ttype + "." + a.content, b.source, b.ttype + "." + b.content);
    DotSplit(a.ttype, a.content, b.ttype, b.content);
  }

  /** The name of `b` goes on where the name and type of `a` end, and the content of `a` makes up for it. */
  ghost predicate Continues(a: Trigger, b: Trigger) {
    || (b.source == a.source + "." + a.ttype && a.content == b.ttype + "." + b.content)
    || exists y :: b.source == a.source + "." + a.ttype + "." + y && a.content == Hash(y, b.ttype, b.content)
  }

  lemma ContinuesCollides(a: Trigger, b: Trigger)
    requires Continues(a, b)
    ensures TriggerHash(a) == TriggerHash(b)
  {
    if b.source == a.source + "." + a.ttype && a.content == b.ttype + "." + b.content {
      assert TriggerHash(a) == TriggerHash(b);
    } else {
      var y :| b.source == a.source + "." + a.ttype + "." + y && a.content == Hash(y, b.ttype, b.content);
      assert TriggerHash(a) == a.source + "." + a.ttype + "." + y + "." + b.ttype + "." + b.content;
      assert TriggerHash(b) == a.source + "." + a.ttype + "." + y + "." + b.ttype + "." + b.content;
    }
  }

  /** A dot-free text before the first dot of a string that also starts with `x` and a dot. */
  lemma FirstDot(t: string, c: string, x: string, z: string)
    requires DotFree(t) && t + "." + c == x + "." + z
    ensures |t| <= |x|
    ensures |t| == |x| ==> x == t && c == z
    ensures |t| < |x| ==> x == t + "." + x[|t| + 1..] && c == x[|t| + 1..] + "." + z
  {
    var s := t + "." + c;
    assert s[|x|] == '.' && s[|t|] == '.';
    assert forall i :: 0 <= i < |t| ==> s[i] == t[i] && t[i] in t;
    if |t| == |x| {
      assert x == s[..|x|] && t == s[..|t|] && c == s[|t| + 1..] && z == s[|x| + 1..];
    } else {
      assert x == s[..|x|] && x[|t|] == '.' && x[..|t|] == s[..|t|] == t;
      assert c == s[|t| + 1..] == s[|t| + 1..|x|] + s[|x|..] && s[|t| + 1..|x|] == x[|t| + 1..] && s[|x|..] == "." + z;
    }
  }

  /** A string that starts with `x` and a dot in two ways, the second text being longer. */
  lemma LongerPrefix(x: string, u: string, y: string, v: string)
    requires x + "." + u == y + "." + v && |x| < |y|
    ensures y == x + "." + y[|x| + 1..] && u == y[|x| + 1..] + "." + v
  {
    var s, n := x + "." + u, |x|;
    assert y == s[..|y|] && s[n] == '.' && s[..n] == x;
    assert u == s[n + 1..] && s[|y|..] == "." + v;
    assert s[n + 1..] == s[n + 1..|y|] + s[|y|..] && y[n + 1..] == s[n + 1..|y|];
  }

  lemma LongerNameContinues(a: Trigger, b: Trigger)
    requires DotFree(a.ttype) && TriggerHash(a) == TriggerHash(b) && |a.source| < |b.source|
    ensures Continues(a, b)
  {
    var z := b.ttype + "." + b.content;
    var x := b.source[|a.source| + 1..];
    HashSplit(a);
    HashSplit(b);
    LongerPrefix(a.source, a.ttype + "." + a.content, b.source, z);
    FirstDot(a.ttype, a.content, x, z);
    if |a.ttype| < |x| {
      var y := x[|a.ttype| + 1..];
      assert b.source == a.source + "." + a.ttype + "." + y;
      assert a.content == Hash(y, b.ttype, b.content) by { HashSplit(Trigger(y, b.ttype, b.content)); }
    }
  }

  lemma HashSplit(t: Trigger)
    ensures TriggerHash(t) == t.source + "." + (t.ttype + "." + t.content)
  {
  }

  /** Exactly when two triggers share a hash: they are the same, or the name of one goes on with the
      other's type, which takes a dot in a name. */
  lemma CollideIff(a: Trigger, b: Trigger)
    requires DotFree(a.ttype) && DotFree(b.ttype)
    ensures TriggerHash(a) == TriggerHash(b) <==> a == b || Continues(a, b) || Continues(b, a)
  {
    if Continues(a, b) { ContinuesCollides(a, b); }
    if Continues(b, a) { ContinuesCollides(b, a); }
    if TriggerHash(a) == TriggerHash(b) {
      if |a.source| < |b.source| { LongerNameContinues(a, b); }
      else if |b.source| < |a.source| { LongerNameContinues(b, a); }
      else {
        var s := TriggerHash(a);
        var n := |a.source|;
        assert s == a.source + "." + (a.ttype + "." + a.content) && s == b.source + "." + (b.ttype + "." + b.content);
        assert a.source == s[..n] == b.source;
        assert a.ttype + "." + a.content == s[n + 1..] == b.ttype + "." + b.content;
        DotSplit(a.ttype, a.content, b.ttype, b.content);
      }
    }
  }

  /** With the trigger types of tools and forms, any dotted name of that shape collides. */
  lemma DottedNamesCollide(name: string, more: string, content: string)
    ensures var a := Trigger(name, "description", more + ".start_example." + content);
            var b := Trigger(name + ".description." + more, "start_example", content);
            TriggerHash(a) == TriggerHash(b) && a != b
  {
    var a := Trigger(name, "description", more + ".start_example." + content);
    var b := Trigger(name + ".description." + more, "start_example", content);
    assert b.source == a.source + "." + a.ttype + "." + more;
    assert a.content == Hash(more, b.ttype, b.content);
    ContinuesCollides(a, b);
    assert |b.source| > |a.source|;
  }

  ghost predicate DotFreePoints(ps: seq<Point>) {
    forall i :: 0 <= i < |ps| ==> DotFree(ps[i].source) && (ps[i].trigger.Some? ==> DotFree(ps[i].trigger.value))
  }

  ghost predicate DotFreeTriggers(act: map<string, Trigger>) {
    forall h :: h in act ==>
      TriggerHash(act[h]) == h && DotFree(act[h].source) && DotFree(act[h].ttype) && act[h].ttype != "unsupported"
  }

  function TriggerOf(p: Point): Trigger
    requires p.trigger.Some?
  {
    Trigger(p.source, p.trigger.value, p.content)
  }

  lemma PointCarries(p: Point, act: map<string, Trigger>)
    requires DotFreeTriggers(act) && HashOf(p) in act
    requires DotFree(p.source) && (p.trigger.Some? ==> DotFree(p.trigger.value))
    ensures p.trigger.Some? && TriggerOf(p) == act[HashOf(p)]
  {
    var t := Trigger(p.source, match p.trigger case Some(t) => t case None => "unsupported", p.content);
    assert DotFree("unsupported");
    HashInjective(t, act[HashOf(p)]);
  }

  /** A sync of dot-free points and triggers stores dot-free points. */
  lemma SyncedDotFree(ps: seq<Point>, act: map<string, Trigger>, ps': seq<Point>)
    requires Synced(ps, act, ps') && DotFreePoints(ps) && DotFreeTriggers(act)
    ensures DotFreePoints(ps')
  {
    var kept := Without(ps, Victims(ps, act));
    WithoutMember(ps, Victims(ps, act));
    forall i | 0 <= i < |ps'|
      ensures DotFree(ps'[i].source) && (ps'[i].trigger.Some? ==> DotFree(ps'[i].trigger.value))
    {
      if i < |kept| {
        assert ps'[i] == kept[i] && kept[i] in ps;
      } else {
        var added := ps'[|kept|..];
        var j := i - |kept|;
        assert ps'[i] == added[j] && HashOf(added[j]) in act.Keys - HashIds(Seen(ps)).Keys;
      }
    }
  }

  /** The store after a sync is the set of active triggers: every point carries one, legacy points are
      gone, every active trigger has a point, and no trigger has two. */
  lemma SyncedStoreIsActiveTriggers(ps: seq<Point>, act: map<string, Trigger>, ps': seq<Point>)
    requires UniquePointIds(ps) && |ps| <= LIMIT && NoRepeats(ps) && Synced(ps, act, ps')
    requires DotFreePoints(ps) && DotFreeTriggers(act)
    ensures forall p :: p in ps' ==> p.trigger.Some? && TriggerHash(TriggerOf(p)) in act && act[TriggerHash(TriggerOf(p))] == TriggerOf(p)
    ensures forall h :: h in act ==> exists p :: p in ps' && p.trigger.Some? && TriggerOf(p) == act[h]
    ensures forall i, j :: 0 <= i < j < |ps'| ==> HashOf(ps'[i]) != HashOf(ps'[j])
  {
    SyncExact(ps, act, ps');
    SyncedDotFree(ps, act, ps');
    forall p | p in ps'
      ensures p.trigger.Some? && TriggerHash(TriggerOf(p)) in act && act[TriggerHash(TriggerOf(p))] == TriggerOf(p)
    {
      var i :| 0 <= i < |ps'| && ps'[i] == p;
      CountPositive(ps', HashOf(p));
      PointCarries(p, act);
    }
    forall h | h in act ensures exists p :: p in ps' && p.trigger.Some? && TriggerOf(p) == act[h] {
      CountPositive(ps', h);
      var i :| 0 <= i < |ps'| && HashOf(ps'[i]) == h;
      PointCarries(ps'[i], act);
      assert ps'[i] in ps';
    }
    forall i, j | 0 <= i < j < |ps'| ensures HashOf(ps'[i]) != HashOf(ps'[j]) {
      if HashOf(ps'[i]) == HashOf(ps'[j]) { CountTwo(ps', i, j); }
    }
  }

  // ---------- the store and the procedures ----------

  ghost predicate HasHash(ps: seq<Point>, h: string) {
    exists p :: p in ps && HashOf(p) == h
  }

  ghost predicate HasTrigger(ps: seq<Point>, t: Trigger) {
    exists p :: p in ps && p.trigger.Some? && TriggerOf(p) == t
  }

  /** Names and trigger types are dot-free, and none is the one that stands for legacy points. */
  ghost predicate DotFreeProcs(procs: seq<Procedure>) {
    forall p, j :: p in procs && 0 <= j < |p.triggers| ==>
      DotFree(p.name) && DotFree(p.triggers[j].0) && p.triggers[j].0 != "unsupported"
  }

  lemma DotFreeMap(procs: seq<Procedure>)
    requires DotFreeProcs(procs)
    ensures DotFreeTriggers(TriggerMap(Triggers(procs)))
  {
    var act := TriggerMap(Triggers(procs));
    TriggerMapIs(Triggers(procs));
    forall h | h in act
      ensures TriggerHash(act[h]) == h && DotFree(act[h].source) && DotFree(act[h].ttype) && act[h].ttype != "unsupported"
    {
      TriggersIff(procs, act[h]);
    }
  }

  /** A victim is the point on the page that the dictionary names for a stale hash. */
  lemma VictimIs(ps: seq<Point>, act: map<string, Trigger>, i: nat)
    requires UniquePointIds(ps) && i < |ps| && ps[i].id in Victims(ps, act)
    ensures i < |Seen(ps)| && HashOf(ps[i]) !in act
    ensures HashOf(ps[i]) in HashIds(Seen(ps)) && HashIds(Seen(ps))[HashOf(ps[i])] == ps[i].id
  {
    var seen := Seen(ps);
    HashIdsIs(seen);
    var h :| h in HashIds(seen) && h !in act && HashIds(seen)[h] == ps[i].id;
    var k :| 0 <= k < |seen| && HashOf(seen[k]) == h && seen[k].id == HashIds(seen)[h];
    assert ps[k] == seen[k] && k == i;
  }

  /** A sync never deletes a point with an active hash, on the page or beyond it. */
  lemma ActiveKept(ps: seq<Point>, act: map<string, Trigger>, i: nat)
    requires UniquePointIds(ps) && i < |ps| && HashOf(ps[i]) in act
    ensures ps[i] in Without(ps, Victims(ps, act))
  {
    WithoutMember(ps, Victims(ps, act));
    assert ps[i] in ps;
    if ps[i].id in Victims(ps, act) { VictimIs(ps, act, i); }
  }

  lemma ActiveHashHasPoint(ps: seq<Point>, act: map<string, Trigger>, ps': seq<Point>, h: string)
    requires UniquePointIds(ps) && Synced(ps, act, ps') && h in act
    ensures HasHash(ps', h)
  {
    var kept := Without(ps, Victims(ps, act));
    var added := ps'[|kept|..];
    assert ps' == kept + added;
    var seen := Seen(ps);
    if h in HashIds(seen) {
      HashIdsIs(seen);
      var i :| 0 <= i < |seen| && HashOf(seen[i]) == h;
      ActiveKept(ps, act, i);
      assert ps[i] in ps';
    } else {
      assert h in act.Keys - HashIds(seen).Keys;
      var i :| 0 <= i < |added| && HashOf(added[i]) == h;
      assert added[i] in ps';
    }
  }

  /** After a sync every trigger of every procedure has a point under its hash, however large the store. */
  lemma EveryTriggerHasPoint(ps: seq<Point>, procs: seq<Procedure>, ps': seq<Point>)
    requires UniquePointIds(ps) && Synced(ps, TriggerMap(Triggers(procs)), ps')
    ensures forall t :: Defines(procs, t) ==> HasHash(ps', TriggerHash(t))
  {
    TriggerMapIs(Triggers(procs));
    forall t | Defines(procs, t) ensures HasHash(ps', TriggerHash(t)) {
      TriggersIff(procs, t);
      ActiveHashHasPoint(ps, TriggerMap(Triggers(procs)), ps', TriggerHash(t));
    }
  }

  /** With dot-free names that point carries the very trigger. */
  lemma StoreHoldsTriggers(ps: seq<Point>, procs: seq<Procedure>, ps': seq<Point>)
    requires UniquePointIds(ps) && Synced(ps, TriggerMap(Triggers(procs)), ps')
    requires DotFreePoints(ps) && DotFreeProcs(procs)
    ensures forall t :: Defines(procs, t) ==> HasTrigger(ps', t)
  {
    var act := TriggerMap(Triggers(procs));
    DotFreeMap(procs);
    EveryTriggerHasPoint(ps, procs, ps');
    SyncedDotFree(ps, act, ps');
    TriggerMapIs(Triggers(procs));
    forall t | Defines(procs, t) ensures HasTrigger(ps', t) {
      TriggersIff(procs, t);
      var p :| p in ps' && HashOf(p) == TriggerHash(t);
      PointCarries(p, act);
      assert TriggerHash(act[HashOf(p)]) == TriggerHash(t);
      HashInjective(act[HashOf(p)], t);
    }
  }

  /** And if the store fits the page and repeats no hash, it then holds exactly the triggers of the
      procedures, each once. */
  lemma StoreIsTriggers(ps: seq<Point>, procs: seq<Procedure>, ps': seq<Point>)
    requires UniquePointIds(ps) && |ps| <= LIMIT && NoRepeats(ps) && Synced(ps, TriggerMap(Triggers(procs)), ps')
    requires DotFreePoints(ps) && DotFreeProcs(procs)
    ensures forall p :: p in ps' ==> p.trigger.Some? && Defines(procs, TriggerOf(p))
    ensures forall i, j :: 0 <= i < j < |ps'| ==> HashOf(ps'[i]) != HashOf(ps'[j])
  {
    var act := TriggerMap(Triggers(procs));
    DotFreeMap(procs);
    TriggerMapIs(Triggers(procs));
    SyncedStoreIsActiveTriggers(ps, act, ps');
    forall p | p in ps' ensures p.trigger.Some? && Defines(procs, TriggerOf(p)) {
      TriggersIff(procs, TriggerOf(p));
    }
  }

  // ---------- which points a sync deletes ----------

  lemma {:induction false} HashIdsLast(ps: seq<Point>, h: string) returns (i: nat)
    requires h in HashIds(ps)
    ensures i < |ps| && HashOf(ps[i]) == h && ps[i].id == HashIds(ps)[h]
    ensures forall j :: i < j < |ps| ==> HashOf(ps[j]) != h
  {
    var n := |ps| - 1;
    if HashOf(ps[n]) == h {
      i := n;
    } else {
      i := HashIdsLast(ps[..n], h);
      assert forall j :: i < j < n ==> ps[..n][j] == ps[j];
    }
  }

  /** A sync deletes, of every stale hash on the page, the last point, and nothing else. */
  lemma SyncKeepsIff(ps: seq<Point>, act: map<string, Trigger>, ps': seq<Point>, i: nat)
    requires UniquePointIds(ps) && Synced(ps, act, ps') && i < |ps|
    ensures ps[i] in ps' <==>
      || HashOf(ps[i]) in act || i >= LIMIT
      || exists j :: i < j < |ps| && j < LIMIT && HashOf(ps[j]) == HashOf(ps[i])
  {
    var kept, h := Without(ps, Victims(ps, act)), HashOf(ps[i]);
    assert ps' == kept + ps'[|kept|..];
    WithoutMember(ps, Victims(ps, act));
    if i >= LIMIT {
      BeyondKept(ps, act, i);
    } else if h in act {
      ActiveKept(ps, act, i);
    } else {
      var seen := Seen(ps);
      assert seen[i] == ps[i];
      HashIdsIs(seen);
      var k := HashIdsLast(seen, h);
      assert ps[k] == seen[k];
      StaleVictimIff(ps, act, i);
      AddedNew(ps, act, ps'[|kept|..], i);
      if k > i { assert HashOf(ps[k]) == h; }
      if k == i {
        forall j | i < j < |ps| && j < LIMIT ensures HashOf(ps[j]) != h { assert seen[j] == ps[j]; }
      }
    }
  }

  lemma StaleVictimIff(ps: seq<Point>, act: map<string, Trigger>, i: nat)
    requires UniquePointIds(ps) && i < |ps| && i < LIMIT && HashOf(ps[i]) !in act
    ensures HashOf(ps[i]) in HashIds(Seen(ps))
    ensures ps[i].id in Victims(ps, act) <==> HashIds(Seen(ps))[HashOf(ps[i])] == ps[i].id
  {
    HashIdsIs(Seen(ps));
    assert Seen(ps)[i] == ps[i];
    if ps[i].id in Victims(ps, act) { VictimIs(ps, act, i); }
  }

  /** No added point has a hash that was seen. */
  lemma AddedNew(ps: seq<Point>, act: map<string, Trigger>, added: seq<Point>, i: nat)
    requires Fresh(added, act.Keys - HashIds(Seen(ps)).Keys, act) && i < |Seen(ps)|
    ensures ps[i] !in added
  {
    HashIdsIs(Seen(ps));
    assert Seen(ps)[i] == ps[i];
    forall k | 0 <= k < |added| ensures HashOf(added[k]) !in HashIds(Seen(ps)) {
      assert HashOf(added[k]) in act.Keys - HashIds(Seen(ps)).Keys;
    }
  }

  lemma {:induction false} CountTwo(ps: seq<Point>, i: nat, j: nat)
    requires i < j < |ps| && HashOf(ps[i]) == HashOf(ps[j])
    ensures Count(ps, HashOf(ps[i])) >= 2
  {
    var n := |ps| - 1;
    if j == n {
      CountPositive(ps[..n], HashOf(ps[i]));
      assert HashOf(ps[..n][i]) == HashOf(ps[i]);
    } else {
      CountTwo(ps[..n], i, j);
    }
  }
}
