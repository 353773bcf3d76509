/** The project cost ledger: one table of component rows shared by all users, kept in a file that is
    absent while the table is empty.  Numbers are reals, and text that denotes a number is read as
    that number, as it is when the table is read back. */
module CostLedger {
  import opened Prelude

  datatype Cell = Num(value: real) | Text(text: string)

  datatype Column =
    | Id | Created | User | Project | Code | Description | Unit | Quantity | Total | Note
    | Unknown(name: string)

  datatype Row = Row(id: int, created: Cell, user: Cell, project: Cell, code: Cell, description: Cell,
                     unit: Cell, quantity: Cell, total: Cell, note: Cell)

  datatype Update = Update(column: Column, value: Cell)

  function TotalCost(unit: Cell, quantity: Cell): Option<real> {
    if unit.Num? && quantity.Num? then Some(unit.value * quantity.value) else None
  }

  // ---------- adding ----------

  /** One object of the request; a missing field and a null one are alike.  `at` is the moment at
      which the object is processed. */
  datatype Component =
    | Fields(project: Option<string>, code: Option<string>, description: Option<string>,
             unit: Option<Cell>, quantity: Option<Cell>, note: Option<string>, at: real)
    | NotAnObject

  predicate Acceptable(c: Component, known: set<string>) {
    && c.Fields?
    && (if c.project.Some? then c.project.value else "") in known
    && c.project.Some? && c.code.Some? && c.description.Some?
    && c.unit.Some? && c.quantity.Some?
    && TotalCost(c.unit.value, c.quantity.value).Some?
  }

  function Entry(c: Component, known: set<string>, user: string, id: int): Row
    requires Acceptable(c, known)
  {
    Row(id, Num(c.at), Text(user), Text(c.project.value), Text(c.code.value), Text(c.description.value),
        c.unit.value, c.quantity.value, Num(TotalCost(c.unit.value, c.quantity.value).value),
        Text(if c.note.Some? then c.note.value else ""))
  }

  function MaxId(rows: seq<Row>): (m: int)
    ensures forall r :: r in rows ==> r.id <= m
    ensures rows != [] ==> exists r :: r in rows && r.id == m
    ensures rows == [] ==> m == 0
  {
    if rows == [] then 0
    else if |rows| == 1 then
      assert rows[0] in rows; rows[0].id
    else
      var m := MaxId(rows[1..]);
      assert rows == [rows[0]] + rows[1..];
      if rows[0].id > m then rows[0].id else m
  }

  function Entries(components: seq<Component>, known: set<string>, user: string, next: int): (r: seq<Row>)
    requires forall c :: c in components ==> Acceptable(c, known)
    ensures |r| == |components|
    ensures forall i :: 0 <= i < |r| ==> r[i] == Entry(components[i], known, user, next + i)
  {
    if components == [] then []
    else
      [Entry(components[0], known, user, next)] + Entries(components[1..], known, user, next + 1)
  }

  /** All components or none. */
  function Add(rows: seq<Row>, user: string, known: set<string>, components: seq<Component>): Option<seq<Row>> {
    if forall c :: c in components ==> Acceptable(c, known)
    then Some(rows + Entries(components, known, user, MaxId(rows) + 1))
    else None
  }

  // ---------- deleting ----------

  predicate Mine(r: Row, user: string, id: int) {
    r.id == id && r.user == Text(user)
  }

  function Find(rows: seq<Row>, user: string, id: int): (i: nat)
    ensures i <= |rows| && (i < |rows| ==> Mine(rows[i], user, id))
    ensures forall j :: 0 <= j < i ==> !Mine(rows[j], user, id)
  {
    if rows == [] || Mine(rows[0], user, id) then 0
    else
      var i := Find(rows[1..], user, id);
      assert forall j :: 1 <= j <= i ==> rows[j] == rows[1..][j - 1];
      i + 1
  }

  predicate Hit(r: Row, user: string, ids: seq<int>) {
    r.id in ids && r.user == Text(user)
  }

  /** What a delete leaves: everything but the caller's rows with the given ids, in order. */
  function Kept(rows: seq<Row>, user: string, ids: seq<int>): seq<Row> {
    if rows == [] then []
    else if Hit(rows[0], user, ids) then Kept(rows[1..], user, ids)
    else [rows[0]] + Kept(rows[1..], user, ids)
  }

  /** Removing the first match of each id in turn. */
  function DropEach(rows: seq<Row>, user: string, ids: seq<int>): seq<Row> {
    if ids == [] then rows
    else
      var s := DropEach(rows, user, ids[..|ids| - 1]);
      var k := Find(s, user, ids[|ids| - 1]);
      if k < |s| then s[..k] + s[k + 1..] else s
  }

  function Deleted(rows: seq<Row>, user: string, ids: seq<int>): seq<Row> {
    if rows == [] then []
    else if Hit(rows[0], user, ids) then [rows[0]] + Deleted(rows[1..], user, ids)
    else Deleted(rows[1..], user, ids)
  }

  // ---------- modifying ----------

  function Put(r: Row, u: Update): Row {
    match u.column
    case Created => r.(created := u.value)
    case User => r.(user := u.value)
    case Project => r.(project := u.value)
    case Code => r.(code := u.value)
    case Description => r.(description := u.value)
    case Unit => r.(unit := u.value)
    case Quantity => r.(quantity := u.value)
    case Total => r.(total := u.value)
    case Note => r.(note := u.value)
    case Id => r
    case Unknown(_) => r
  }

  function PutAll(r: Row, updates: seq<Update>): Row {
    if updates == [] then r else Put(PutAll(r, updates[..|updates| - 1]), updates[|updates| - 1])
  }

  predicate Sets(updates: seq<Update>, c: Column) {
    exists i :: 0 <= i < |updates| && updates[i].column == c
  }

  /** The row after a modification, or nothing if a number needed for the total is not one. */
  function Modified(r: Row, updates: seq<Update>): Option<Row> {
    var s := PutAll(r, updates);
    if !Sets(updates, Unit) && !Sets(updates, Quantity) then Some(s)
    else match TotalCost(s.unit, s.quantity)
      case Some(cost) => Some(s.(total := Num(cost)))
      case None => None
  }

  function Modify(rows: seq<Row>, user: string, id: int, updates: seq<Update>): Option<seq<Row>> {
    var i := Find(rows, user, id);
    if Sets(updates, Id) || i == |rows| || Modified(rows[i], updates).None? then None
    else Some(rows[i := Modified(rows[i], updates).value])
  }

  // ---------- the stored table ----------

  class Ledger {
    var file: Option<seq<Row>>

    constructor ()
      ensures Rows() == []
    {
      file := None;
    }

    function Rows(): seq<Row>
      reads this
    {
      if file.Some? then file.value else []
    }

    method Load() returns (rows: seq<Row>)
      modifies this
      ensures rows == Rows() == old(Rows()) && file.Some?
    {
      if file.None? { file := Some([]); }
      rows := file.value;
    }

    method Save(rows: seq<Row>)
      requires file.Some?
      modifies this
      ensures Rows() == rows
    {
      file := if rows == [] then None else Some(rows);
    }

    /** Adds all the components with fresh consecutive ids, or fails and stores none. */
    method AddComponents(user: string, known: set<string>, components: seq<Component>) returns (ok: bool)
      modifies this
      ensures var r := Add(old(Rows()), user, known, components);
        ok == r.Some? && Rows() == if ok then r.value else old(Rows())
    {
      var rows := Load();
      var r := Appended(rows, user, known, components);
      if r.Some? { Save(r.value); }
      ok := r.Some?;
    }

    /** Deletes the first row of the caller for each id.  Ids are unique in every run, so that is every
        row of the caller with one of the ids; nothing else changes, order included. */
    method DeleteByIds(user: string, ids: seq<int>) returns (ok: bool)
      modifies this
      ensures Rows() == DropEach(old(Rows()), user, ids) && (ok <==> Rows() != old(Rows()))
      ensures UniqueIds(old(Rows())) ==>
        Rows() == Kept(old(Rows()), user, ids) && (ok <==> Deleted(old(Rows()), user, ids) != [])
    {
      var rows := Load();
      var left, deleted := Removed(rows, user, ids);
      KeptAndDeleted(rows, user, ids);
      if UniqueIds(rows) { DropEachIsKept(rows, user, ids); }
      if deleted != [] { Save(left); }
      ok := deleted != [];
    }

    /** Rewrites one row of the caller, or fails and changes nothing. */
    method ModifyById(user: string, id: int, updates: seq<Update>) returns (ok: bool)
      modifies this
      ensures var r := Modify(old(Rows()), user, id, updates);
        ok == r.Some? && Rows() == if ok then r.value else old(Rows())
    {
      if Sets(updates, Id) { return false; }
      var rows := Load();
      var k := Find(rows, user, id);
      if k == |rows| { return false; }
      var row := rows[k];
      for i := 0 to |updates|
        invariant row == PutAll(rows[k], updates[..i])
        invariant Rows() == rows && file.Some?
      {
        assert updates[..i + 1][..i] == updates[..i];
        row := Put(row, updates[i]);
      }
      assert updates[..|updates|] == updates;
      if Sets(updates, Unit) || Sets(updates, Quantity) {
        var cost := TotalCost(row.unit, row.quantity);
        if cost.None? { return false; }
        row := row.(total := Num(cost.value));
      }
      Save(rows[k := row]);
      ok := true;
    }
  }

  /** The loop of an add: ids count up from one above the largest. */
  method Appended(rows: seq<Row>, user: string, known: set<string>, components: seq<Component>)
    returns (r: Option<seq<Row>>)
    ensures r == Add(rows, user, known, components)
  {
    var list := rows;
    var next := MaxId(rows) + 1;
    for i := 0 to |components|
      invariant next == MaxId(rows) + 1 + i
      invariant |list| == |rows| + i && list[..|rows|] == rows
      invariant forall j :: 0 <= j < i ==>
        Acceptable(components[j], known) && list[|rows| + j] == Entry(components[j], known, user, MaxId(rows) + 1 + j)
    {
      if !Acceptable(components[i], known) {
        assert components[i] in components;
        return None;
      }
      list := list + [Entry(components[i], known, user, next)];
      next := next + 1;
    }
    assert list == rows + list[|rows|..];
    AddIs(rows, user, known, components, list[|rows|..]);
    r := Some(list);
  }

  lemma {:induction false} EntriesAre(added: seq<Row>, components: seq<Component>, known: set<string>, user: string, next: int)
    requires |added| == |components|
    requires forall j :: 0 <= j < |components| ==>
      Acceptable(components[j], known) && added[j] == Entry(components[j], known, user, next + j)
    ensures forall c :: c in components ==> Acceptable(c, known)
    ensures added == Entries(components, known, user, next)
  {
  }

  /** The loop of a delete: each id removes the first row of the caller that has it. */
  method Removed(rows: seq<Row>, user: string, ids: seq<int>) returns (left: seq<Row>, deleted: seq<int>)
    ensures left == DropEach(rows, user, ids)
    ensures deleted == [] <==> left == rows
  {
    left, deleted := rows, [];
    for i := 0 to |ids|
      invariant left == DropEach(rows, user, ids[..i])
      invariant |left| <= |rows|
      invariant deleted == [] ==> left == rows
      invariant deleted != [] ==> |left| < |rows|
    {
      assert ids[..i + 1][..i] == ids[..i];
      var k := Find(left, user, ids[i]);
      if k < |left| {
        left := left[..k] + left[k + 1..];
        deleted := deleted + [ids[i]];
      }
    }
    assert ids[..|ids|] == ids;
  }

  lemma AddIs(rows: seq<Row>, user: string, known: set<string>, components: seq<Component>, added: seq<Row>)
    requires |added| == |components|
    requires forall j :: 0 <= j < |components| ==>
      Acceptable(components[j], known) && added[j] == Entry(components[j], known, user, MaxId(rows) + 1 + j)
    ensures Add(rows, user, known, components) == Some(rows + added)
  {
    EntriesAre(added, components, known, user, MaxId(rows) + 1);
  }

  /** A component is accepted exactly if it names a known project and gives a code, a description and two
      numbers; a note is optional. */
  lemma AcceptableIff(c: Component, known: set<string>)
    ensures Acceptable(c, known) <==>
      && c.Fields? && c.code.Some? && c.description.Some?
      && (exists p :: c.project == Some(p) && p in known)
      && (exists u, q :: c.unit == Some(Num(u)) && c.quantity == Some(Num(q)))
  {
    if Acceptable(c, known) {
      assert c.project == Some(c.project.value);
      assert c.unit == Some(Num(c.unit.value.value)) && c.quantity == Some(Num(c.quantity.value.value));
    }
  }

  /** Column by column, what is stored for a component. */
  ghost predicate StoredAs(r: Row, c: Component, user: string) {
    && c.Fields?
    && Some(r.project) == TextOf(c.project) && Some(r.code) == TextOf(c.code) && Some(r.description) == TextOf(c.description)
    && Some(r.unit) == c.unit && Some(r.quantity) == c.quantity && r.user == Text(user) && r.created == Num(c.at)
    && r.note == (if c.note.Some? then Text(c.note.value) else Text(""))
    && Costed(r)
  }

  lemma TotalIsProduct(unit: Cell, quantity: Cell)
    ensures TotalCost(unit, quantity).Some? <==> unit.Num? && quantity.Num?
    ensures unit.Num? && quantity.Num? ==> TotalCost(unit, quantity).value == unit.value * quantity.value
  {
  }

  function TextOf(s: Option<string>): Option<Cell> {
    match s case Some(t) => Some(Text(t)) case None => None
  }

  /** An add succeeds exactly if every component is acceptable. */
  lemma AddsIff(rows: seq<Row>, user: string, known: set<string>, components: seq<Component>)
    ensures Add(rows, user, known, components).Some? <==>
      forall i :: 0 <= i < |components| ==> Acceptable(components[i], known)
  {
    if forall i :: 0 <= i < |components| ==> Acceptable(components[i], known) {
      assert forall c :: c in components ==> Acceptable(c, known);
    }
  }

  /** Then the old rows stay in front, and every component is stored in turn, with ids counting up from one
      above the largest. */
  lemma AddedRow(rows: seq<Row>, user: string, known: set<string>, components: seq<Component>, i: nat)
    requires Add(rows, user, known, components).Some? && i < |components|
    ensures var all := Add(rows, user, known, components).value;
      && |all| == |rows| + |components| && all[..|rows|] == rows
      && all[|rows| + i].id == MaxId(rows) + 1 + i && StoredAs(all[|rows| + i], components[i], user)
  {
    AppendedAt(rows, Entries(components, known, user, MaxId(rows) + 1), i);
    EntriesStored(components, known, user, MaxId(rows) + 1, i);
  }

  lemma EntriesStored(components: seq<Component>, known: set<string>, user: string, next: int, i: nat)
    requires i < |components| && forall c :: c in components ==> Acceptable(c, known)
    ensures var r := Entries(components, known, user, next)[i]; r.id == next + i && StoredAs(r, components[i], user)
  {
    EntriesAt(components, known, user, next, i);
    EntryStored(components[i], known, user, next + i);
  }

  lemma EntriesAt(components: seq<Component>, known: set<string>, user: string, next: int, i: nat)
    requires i < |components| && forall c :: c in components ==> Acceptable(c, known)
    ensures Acceptable(components[i], known)
    ensures Entries(components, known, user, next)[i] == Entry(components[i], known, user, next + i)
  {
    assert components[i] in components;
  }

  lemma AppendedAt(rows: seq<Row>, added: seq<Row>, i: nat)
    requires i < |added|
    ensures var all := rows + added;
      |all| == |rows| + |added| && all[..|rows|] == rows && all[|rows| + i] == added[i]
  {
  }

  lemma EntryStored(c: Component, known: set<string>, user: string, id: int)
    requires Acceptable(c, known)
    ensures StoredAs(Entry(c, known, user, id), c, user) && Entry(c, known, user, id).id == id
  {
  }

  lemma DropOneMore(rows: seq<Row>, user: string, ids: seq<int>, id: int, s: seq<Row>)
    requires s == Kept(rows, user, ids) == DropEach(rows, user, ids) && UniqueIds(s)
    ensures DropEach(rows, user, ids + [id]) == Kept(rows, user, ids + [id])
  {
    assert (ids + [id])[..|ids|] == ids;
    DeleteOne(s, user, id);
    KeptTwice(rows, user, ids, id);
  }

  /** With unique ids, removing first matches is filtering. */
  lemma {:induction false} DropEachIsKept(rows: seq<Row>, user: string, ids: seq<int>)
    requires UniqueIds(rows)
    ensures DropEach(rows, user, ids) == Kept(rows, user, ids)
  {
    if ids == [] {
      KeptNone(rows, user);
    } else {
      var n := |ids| - 1;
      assert ids == ids[..n] + [ids[n]];
      DropEachIsKept(rows, user, ids[..n]);
      KeptUnique(rows, user, ids[..n]);
      DropOneMore(rows, user, ids[..n], ids[n], Kept(rows, user, ids[..n]));
    }
  }

  // ---------- identifiers ----------

  ghost predicate UniqueIds(rows: seq<Row>) {
    forall i, j :: 0 <= i < j < |rows| ==> rows[i].id != rows[j].id
  }

  lemma {:induction false} KeptNone(rows: seq<Row>, user: string)
    ensures Kept(rows, user, []) == rows
  {
    if rows != [] { KeptNone(rows[1..], user); }
  }

  lemma {:induction false} KeptMembers(rows: seq<Row>, user: string, ids: seq<int>)
    ensures forall r :: r in Kept(rows, user, ids) <==> r in rows && !Hit(r, user, ids)
    ensures forall r :: r in Deleted(rows, user, ids) <==> r in rows && Hit(r, user, ids)
    ensures |Kept(rows, user, ids)| + |Deleted(rows, user, ids)| == |rows|
  {
    if rows != [] {
      KeptMembers(rows[1..], user, ids);
      assert rows == [rows[0]] + rows[1..];
    }
  }

  lemma {:induction false} KeptUnique(rows: seq<Row>, user: string, ids: seq<int>)
    requires UniqueIds(rows)
    ensures UniqueIds(Kept(rows, user, ids))
  {
    if rows != [] {
      KeptUnique(rows[1..], user, ids);
      KeptMembers(rows[1..], user, ids);
      var t := Kept(rows[1..], user, ids);
      forall j | 0 <= j < |t| ensures t[j].id != rows[0].id {
        assert t[j] in rows[1..];
        var k :| 0 <= k < |rows[1..]| && rows[1..][k] == t[j];
        assert rows[k + 1] == t[j];
      }
    }
  }

  lemma {:induction false} KeptTwice(rows: seq<Row>, user: string, ids: seq<int>, id: int)
    ensures Kept(Kept(rows, user, ids), user, [id]) == Kept(rows, user, ids + [id])
  {
    if rows != [] {
      KeptTwice(rows[1..], user, ids, id);
      assert Hit(rows[0], user, ids + [id]) <==> Hit(rows[0], user, ids) || Hit(rows[0], user, [id]);
      if !Hit(rows[0], user, ids) {
        var t := [rows[0]] + Kept(rows[1..], user, ids);
        assert t == Kept(rows, user, ids) && t[1..] == Kept(rows[1..], user, ids);
      }
    }
  }

  /** Removing the first match is removing all matches, because ids are unique. */
  lemma {:induction false} DeleteOne(rows: seq<Row>, user: string, id: int)
    requires UniqueIds(rows)
    ensures UniqueIds(Kept(rows, user, [id]))
    ensures var k := Find(rows, user, id);
      Kept(rows, user, [id]) == if k < |rows| then rows[..k] + rows[k + 1..] else rows
  {
    KeptUnique(rows, user, [id]);
    if rows != [] {
      DeleteOne(rows[1..], user, id);
      if Mine(rows[0], user, id) {
        assert forall j :: 0 <= j < |rows[1..]| ==> rows[1..][j] == rows[j + 1];
        NothingToDelete(rows[1..], user, id);
      }
    }
  }

  lemma {:induction false} NothingToDelete(rows: seq<Row>, user: string, id: int)
    requires forall j :: 0 <= j < |rows| ==> rows[j].id != id
    ensures Kept(rows, user, [id]) == rows
  {
    if rows != [] { NothingToDelete(rows[1..], user, id); }
  }

  lemma {:induction false} KeptAndDeleted(rows: seq<Row>, user: string, ids: seq<int>)
    ensures Kept(rows, user, ids) == rows <==> Deleted(rows, user, ids) == []
  {
    KeptMembers(rows, user, ids);
    if rows != [] && Deleted(rows, user, ids) == [] {
      KeptAndDeleted(rows[1..], user, ids);
    }
  }

  // ---------- every run ----------

  datatype Call =
    | AddCall(user: string, known: set<string>, components: seq<Component>)
    | DeleteCall(user: string, ids: seq<int>)
    | ModifyCall(user: string, id: int, updates: seq<Update>)

  /** The table after a call; a call that fails leaves it alone. */
  function Step(rows: seq<Row>, call: Call): seq<Row> {
    match call
    case AddCall(u, known, components) => Or(Add(rows, u, known, components), rows)
    case DeleteCall(u, ids) => Kept(rows, u, ids)
    case ModifyCall(u, id, updates) => Or(Modify(rows, u, id, updates), rows)
  }

  function Or(r: Option<seq<Row>>, rows: seq<Row>): seq<Row> {
    match r case Some(s) => s case None => rows
  }

  function Run(calls: seq<Call>): seq<Row> {
    if calls == [] then [] else Step(Run(calls[..|calls| - 1]), calls[|calls| - 1])
  }

  lemma {:induction false} PutKeepsId(r: Row, updates: seq<Update>)
    ensures PutAll(r, updates).id == r.id
  {
    if updates != [] { PutKeepsId(r, updates[..|updates| - 1]); }
  }

  lemma StepKeepsIds(rows: seq<Row>, call: Call)
    requires UniqueIds(rows)
    ensures UniqueIds(Step(rows, call))
  {
    match call
    case AddCall(u, known, components) =>
    case DeleteCall(u, ids) => KeptUnique(rows, u, ids);
    case ModifyCall(u, id, updates) =>
      var i := Find(rows, u, id);
      if i < |rows| { PutKeepsId(rows[i], updates); }
  }

  /** Ids stay unique in every run. */
  lemma {:induction false} IdsUniqueInEveryRun(calls: seq<Call>)
    ensures UniqueIds(Run(calls))
  {
    if calls != [] {
      IdsUniqueInEveryRun(calls[..|calls| - 1]);
      StepKeepsIds(Run(calls[..|calls| - 1]), calls[|calls| - 1]);
    }
  }

  // ---------- total = unit cost * quantity ----------

  ghost predicate Costed(r: Row) {
    TotalCost(r.unit, r.quantity).Some? && r.total == Num(TotalCost(r.unit, r.quantity).value)
  }

  ghost predicate AllCosted(rows: seq<Row>) {
    forall i :: 0 <= i < |rows| ==> Costed(rows[i])
  }

  /** The value of the last update of a column. */
  function LastSet(updates: seq<Update>, c: Column): Option<Cell> {
    if updates == [] then None
    else if updates[|updates| - 1].column == c then Some(updates[|updates| - 1].value)
    else LastSet(updates[..|updates| - 1], c)
  }

  function CellOf(r: Row, c: Column): Option<Cell> {
    match c
    case Created => Some(r.created)
    case User => Some(r.user)
    case Project => Some(r.project)
    case Code => Some(r.code)
    case Description => Some(r.description)
    case Unit => Some(r.unit)
    case Quantity => Some(r.quantity)
    case Total => Some(r.total)
    case Note => Some(r.note)
    case Id => None
    case Unknown(_) => None
  }

  /** Every column ends with its last update, or as it was. */
  lemma {:induction false} PutAllIs(r: Row, updates: seq<Update>, c: Column)
    requires c != Id && !c.Unknown?
    ensures CellOf(PutAll(r, updates), c) == if LastSet(updates, c).Some? then LastSet(updates, c) else CellOf(r, c)
  {
    if updates != [] { PutAllIs(r, updates[..|updates| - 1], c); }
  }

  lemma {:induction false} SetsIsLastSet(updates: seq<Update>, c: Column)
    ensures Sets(updates, c) <==> LastSet(updates, c).Some?
  {
    if updates != [] {
      var n := |updates| - 1;
      SetsIsLastSet(updates[..n], c);
      assert Sets(updates[..n], c) ==> Sets(updates, c) by {
        if Sets(updates[..n], c) {
          var i :| 0 <= i < n && updates[..n][i].column == c;
          assert updates[i].column == c;
        }
      }
    }
  }

  /** The total is set while neither factor is. */
  predicate TotalAlone(updates: seq<Update>) {
    Sets(updates, Total) && !Sets(updates, Unit) && !Sets(updates, Quantity)
  }

  /** A row whose total was right stays right exactly if the total is not set alone, or to itself. */
  lemma ModifiedCostedIff(r: Row, updates: seq<Update>)
    requires Costed(r) && Modified(r, updates).Some?
    ensures Costed(Modified(r, updates).value) <==> !TotalAlone(updates) || LastSet(updates, Total) == Some(r.total)
  {
    PutAllIs(r, updates, Unit);
    PutAllIs(r, updates, Quantity);
    PutAllIs(r, updates, Total);
    SetsIsLastSet(updates, Unit);
    SetsIsLastSet(updates, Quantity);
    SetsIsLastSet(updates, Total);
  }

  /** A modification fails exactly if it touches the id, the caller has no row with that id, or the row would
      have to be repriced and a factor is not a number. */
  lemma ModifyFailsIff(rows: seq<Row>, user: string, id: int, updates: seq<Update>)
    ensures Modify(rows, user, id, updates).None? <==>
      || (exists i :: 0 <= i < |updates| && updates[i].column == Id)
      || (forall r :: r in rows ==> r.id != id || r.user != Text(user))
      || ((LastSet(updates, Unit).Some? || LastSet(updates, Quantity).Some?) &&
          var r := PutAll(rows[Find(rows, user, id)], updates); !r.unit.Num? || !r.quantity.Num?)
  {
    var k := Find(rows, user, id);
    SetsIsLastSet(updates, Unit);
    SetsIsLastSet(updates, Quantity);
    if k < |rows| { assert rows[k] in rows && Mine(rows[k], user, id); }
  }

  lemma {:induction false} KeptCosted(rows: seq<Row>, user: string, ids: seq<int>)
    requires AllCosted(rows)
    ensures AllCosted(Kept(rows, user, ids))
  {
    if rows != [] { KeptCosted(rows[1..], user, ids); }
  }

  lemma EntryCosted(c: Component, known: set<string>, user: string, id: int)
    requires Acceptable(c, known)
    ensures Costed(Entry(c, known, user, id))
  {
  }

  lemma StepKeepsCosted(rows: seq<Row>, call: Call)
    requires AllCosted(rows) && (call.ModifyCall? ==> !TotalAlone(call.updates))
    ensures AllCosted(Step(rows, call))
  {
    match call
    case AddCall(u, known, components) =>
      var added := RowsIn(rows, call);
      assert Step(rows, call) == rows + added;
      forall i | 0 <= i < |added| ensures Costed(added[i]) {
        EntryCosted(components[i], known, u, MaxId(rows) + 1 + i);
      }
    case DeleteCall(u, ids) => KeptCosted(rows, u, ids);
    case ModifyCall(u, id, updates) =>
      var i := Find(rows, u, id);
      if i < |rows| && Modified(rows[i], updates).Some? { ModifiedCostedIff(rows[i], updates); }
  }

  // ---------- project totals ----------

  function Amount(r: Row): real {
    if r.total.Num? then r.total.value else 0.0
  }

  predicate Belongs(r: Row, user: string, project: string) {
    r.user == Text(user) && r.project == Text(project)
  }

  function ProjectTotal(rows: seq<Row>, user: string, project: string): real {
    if rows == [] then 0.0
    else (if Belongs(rows[0], user, project) then Amount(rows[0]) else 0.0) + ProjectTotal(rows[1..], user, project)
  }

  lemma {:induction false} TotalAppend(a: seq<Row>, b: seq<Row>, user: string, project: string)
    ensures ProjectTotal(a + b, user, project) == ProjectTotal(a, user, project) + ProjectTotal(b, user, project)
  {
    if a == [] {
      assert a + b == b;
    } else {
      assert (a + b)[1..] == a[1..] + b;
      TotalAppend(a[1..], b, user, project);
    }
  }

  lemma {:induction false} TotalKept(rows: seq<Row>, caller: string, ids: seq<int>, user: string, project: string)
    ensures ProjectTotal(rows, user, project)
      == ProjectTotal(Kept(rows, caller, ids), user, project) + ProjectTotal(Deleted(rows, caller, ids), user, project)
  {
    if rows != [] {
      TotalKept(rows[1..], caller, ids, user, project);
      var k, d := Kept(rows[1..], caller, ids), Deleted(rows[1..], caller, ids);
      assert ([rows[0]] + k)[1..] == k && ([rows[0]] + d)[1..] == d;
    }
  }

  lemma TotalReplaced(rows: seq<Row>, i: nat, r: Row, user: string, project: string)
    requires i < |rows|
    ensures ProjectTotal(rows[i := r], user, project)
      == ProjectTotal(rows, user, project) + ProjectTotal([r], user, project) - ProjectTotal([rows[i]], user, project)
  {
    assert rows == rows[..i] + ([rows[i]] + rows[i + 1..]);
    assert rows[i := r] == rows[..i] + ([r] + rows[i + 1..]);
    TotalAppend(rows[..i], [rows[i]] + rows[i + 1..], user, project);
    TotalAppend(rows[..i], [r] + rows[i + 1..], user, project);
    TotalAppend([rows[i]], rows[i + 1..], user, project);
    TotalAppend([r], rows[i + 1..], user, project);
  }

  /** The rows that a call puts in and the rows that it takes out; a repriced row is both. */
  function RowsIn(rows: seq<Row>, call: Call): seq<Row> {
    match call
    case AddCall(u, known, components) =>
      if forall c :: c in components ==> Acceptable(c, known)
      then Entries(components, known, u, MaxId(rows) + 1) else []
    case DeleteCall(_, _) => []
    case ModifyCall(u, id, updates) =>
      var i := Find(rows, u, id);
      if Modify(rows, u, id, updates).Some? then [Modified(rows[i], updates).value] else []
  }

  function RowsOut(rows: seq<Row>, call: Call): seq<Row> {
    match call
    case AddCall(_, _, _) => []
    case DeleteCall(u, ids) => Deleted(rows, u, ids)
    case ModifyCall(u, id, updates) =>
      if Modify(rows, u, id, updates).Some? then [rows[Find(rows, u, id)]] else []
  }

  /** Every call moves every project total by exactly the rows it puts in and takes out. */
  lemma TotalMovesByRows(rows: seq<Row>, call: Call, user: string, project: string)
    ensures ProjectTotal(Step(rows, call), user, project)
      == ProjectTotal(rows, user, project) + ProjectTotal(RowsIn(rows, call), user, project)
         - ProjectTotal(RowsOut(rows, call), user, project)
  {
    match call
    case AddCall(u, known, components) =>
      assert rows + [] == rows;
      TotalAppend(rows, RowsIn(rows, call), user, project);
    case DeleteCall(u, ids) => TotalKept(rows, u, ids, user, project);
    case ModifyCall(u, id, updates) =>
      var i := Find(rows, u, id);
      if Modify(rows, u, id, updates).Some? {
        TotalReplaced(rows, i, Modified(rows[i], updates).value, user, project);
      }
  }

  /** What a run put in, less what it took out. */
  function Balance(calls: seq<Call>, user: string, project: string): real {
    if calls == [] then 0.0
    else
      var n := |calls| - 1;
      Balance(calls[..n], user, project)
      + ProjectTotal(RowsIn(Run(calls[..n]), calls[n]), user, project)
      - ProjectTotal(RowsOut(Run(calls[..n]), calls[n]), user, project)
  }

  /** The same total with every row priced as unit cost times quantity. */
  function Priced(rows: seq<Row>, user: string, project: string): real {
    if rows == [] then 0.0
    else
      var cost := TotalCost(rows[0].unit, rows[0].quantity);
      (if Belongs(rows[0], user, project) && cost.Some? then cost.value else 0.0) + Priced(rows[1..], user, project)
  }

  lemma {:induction false} CostedIsPriced(rows: seq<Row>, user: string, project: string)
    requires AllCosted(rows)
    ensures ProjectTotal(rows, user, project) == Priced(rows, user, project)
  {
    if rows != [] {
      assert Costed(rows[0]);
      CostedIsPriced(rows[1..], user, project);
    }
  }

  /** In every run each project total is the balance of the rows moved; and unless some call set a
      total alone, it is the sum of unit cost times quantity. */
  lemma {:induction false} LedgerBalances(calls: seq<Call>, user: string, project: string)
    ensures ProjectTotal(Run(calls), user, project) == Balance(calls, user, project)
    ensures (forall i :: 0 <= i < |calls| && calls[i].ModifyCall? ==> !TotalAlone(calls[i].updates)) ==>
      AllCosted(Run(calls)) && ProjectTotal(Run(calls), user, project) == Priced(Run(calls), user, project)
  {
    if calls != [] {
      var n := |calls| - 1;
      var init := calls[..n];
      LedgerBalances(init, user, project);
      TotalMovesByRows(Run(init), calls[n], user, project);
      if forall i :: 0 <= i < |calls| && calls[i].ModifyCall? ==> !TotalAlone(calls[i].updates) {
        assert forall i :: 0 <= i < |init| ==> init[i] == calls[i];
        StepKeepsCosted(Run(init), calls[n]);
        CostedIsPriced(Run(calls), user, project);
      }
    }
  }

  // ---------- users ----------

  function View(rows: seq<Row>, user: string): seq<Row> {
    if rows == [] then []
    else if rows[0].user == Text(user) then [rows[0]] + View(rows[1..], user)
    else View(rows[1..], user)
  }

  lemma {:induction false} ViewAppend(a: seq<Row>, b: seq<Row>, user: string)
    ensures View(a + b, user) == View(a, user) + View(b, user)
  {
    if a == [] {
      assert a + b == b;
    } else {
      assert (a + b)[1..] == a[1..] + b;
      ViewAppend(a[1..], b, user);
    }
  }

  lemma {:induction false} ViewKept(rows: seq<Row>, caller: string, ids: seq<int>, user: string)
    requires user != caller
    ensures View(Kept(rows, caller, ids), user) == View(rows, user)
  {
    if rows != [] {
      ViewKept(rows[1..], caller, ids, user);
      var k := Kept(rows[1..], caller, ids);
      assert ([rows[0]] + k)[1..] == k;
    }
  }

  lemma {:induction false} ViewNone(rows: seq<Row>, user: string)
    requires forall r :: r in rows ==> r.user != Text(user)
    ensures View(rows, user) == []
  {
    if rows != [] { ViewNone(rows[1..], user); }
  }

  lemma ViewReplaced(rows: seq<Row>, i: nat, r: Row, user: string)
    requires i < |rows| && rows[i].user != Text(user)
    ensures View(rows[i := r], user) == View(rows, user) <==> r.user != Text(user)
  {
    assert rows == rows[..i] + ([rows[i]] + rows[i + 1..]);
    assert rows[i := r] == rows[..i] + ([r] + rows[i + 1..]);
    ViewAppend(rows[..i], [rows[i]] + rows[i + 1..], user);
    ViewAppend(rows[..i], [r] + rows[i + 1..], user);
    assert ([rows[i]] + rows[i + 1..])[1..] == rows[i + 1..];
    assert ([r] + rows[i + 1..])[1..] == rows[i + 1..];
  }

  /** A call by somebody else changes a user's rows exactly when it is a successful modification that
      rewrites the user column of one of the caller's rows to that user. */
  lemma OthersTouchedIff(rows: seq<Row>, call: Call, user: string)
    requires call.user != user
    ensures View(Step(rows, call), user) == View(rows, user) <==>
      !(call.ModifyCall? && Modify(rows, call.user, call.id, call.updates).Some?
        && LastSet(call.updates, User) == Some(Text(user)))
  {
    match call
    case AddCall(u, known, components) =>
      var added := RowsIn(rows, call);
      assert Step(rows, call) == rows + added;
      ViewAppend(rows, added, user);
      ViewNone(added, user);
    case DeleteCall(u, ids) => ViewKept(rows, u, ids, user);
    case ModifyCall(u, id, updates) =>
      var i := Find(rows, u, id);
      if Modify(rows, u, id, updates).Some? {
        PutAllIs(rows[i], updates, User);
        ViewReplaced(rows, i, Modified(rows[i], updates).value, user);
      }
  }

  // ---------- the project summary ----------

  datatype Summary = Summary(count: nat, total: real)

  predicate Blank(s: string) {
    forall c :: c in s ==> c in " \t\n\r"
  }

  function RowsOf(rows: seq<Row>, user: string, project: string): seq<Row> {
    if rows == [] then []
    else if Belongs(rows[0], user, project) then [rows[0]] + RowsOf(rows[1..], user, project)
    else RowsOf(rows[1..], user, project)
  }

  function Sum(rows: seq<Row>): Option<real> {
    if rows == [] then Some(0.0)
    else match Sum(rows[1..])
      case Some(s) => if rows[0].total.Num? then Some(rows[0].total.value + s) else None
      case None => None
  }

  function Summarise(rows: seq<Row>, known: set<string>, user: string, project: string): Option<Summary> {
    var mine := RowsOf(rows, user, project);
    if Blank(project) || project !in known || mine == [] then None
    else match Sum(mine)
      case Some(total) => Some(Summary(|mine|, total))
      case None => None
  }

  lemma {:induction false} SumIs(rows: seq<Row>, user: string, project: string)
    requires AllCosted(rows)
    ensures Sum(RowsOf(rows, user, project)) == Some(Priced(rows, user, project))
  {
    if rows != [] {
      assert Costed(rows[0]);
      SumIs(rows[1..], user, project);
      var t := RowsOf(rows[1..], user, project);
      assert ([rows[0]] + t)[1..] == t;
    }
  }

  lemma {:induction false} RowsOfAre(rows: seq<Row>, user: string, project: string, r: Row)
    ensures r in RowsOf(rows, user, project) <==> r in rows && r.user == Text(user) && r.project == Text(project)
  {
    if rows != [] {
      RowsOfAre(rows[1..], user, project, r);
      assert rows == [rows[0]] + rows[1..];
    }
  }

  lemma {:induction false} SumFailsIff(rows: seq<Row>)
    ensures Sum(rows).None? <==> exists r :: r in rows && !r.total.Num?
  {
    if rows != [] {
      SumFailsIff(rows[1..]);
      assert rows == [rows[0]] + rows[1..];
    }
  }

  /** A summary fails exactly if the name is blank or unknown, the caller has no row in the project, or the
      total of such a row is not a number. */
  lemma SummaryFailsIff(rows: seq<Row>, known: set<string>, user: string, project: string)
    ensures Summarise(rows, known, user, project).None? <==>
      || (forall c :: c in project ==> c == ' ' || c == '\t' || c == '\n' || c == '\r')
      || project !in known
      || (forall r :: r in rows ==> r.user != Text(user) || r.project != Text(project))
      || (exists r :: r in rows && r.user == Text(user) && r.project == Text(project) && !r.total.Num?)
  {
    var mine := RowsOf(rows, user, project);
    forall r ensures r in mine <==> r in rows && r.user == Text(user) && r.project == Text(project) {
      RowsOfAre(rows, user, project, r);
    }
    SumFailsIff(mine);
    if mine != [] { assert mine[0] in mine; }
  }

  /** While no total was set alone, a summary never fails on its numbers and reports the sum of unit
      cost times quantity over the caller's rows of the project. */
  lemma SummaryIsPriced(calls: seq<Call>, known: set<string>, user: string, project: string)
    requires forall i :: 0 <= i < |calls| && calls[i].ModifyCall? ==> !TotalAlone(calls[i].updates)
    requires !Blank(project) && project in known && RowsOf(Run(calls), user, project) != []
    ensures Summarise(Run(calls), known, user, project)
      == Some(Summary(|RowsOf(Run(calls), user, project)|, Balance(calls, user, project)))
    ensures Balance(calls, user, project) == Priced(Run(calls), user, project)
  {
    LedgerBalances(calls, user, project);
    SumIs(Run(calls), user, project);
  }
}
