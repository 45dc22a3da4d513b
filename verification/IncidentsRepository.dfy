/** The incidents repository: its statements are assembled with numbered placeholders and
    executed against the table. `fails` is the database's answer. */
module IncidentsRepository {
  import opened Common
  import opened Incidents

  datatype CreateIncident = CreateIncident(title: string, description: string, center: Point, radius: int)

  /** Absent fields are left as they are. */
  datatype UpdateIncident = UpdateIncident(title: Option<string>, description: Option<string>,
                                           center: Option<Point>, radius: Option<int>)

  // ----- statements -----

  datatype Arg = Text(s: string) | NullText(t: Option<string>) | Number(r: real) | Int(n: int)

  /** One assignment of UPDATE ... SET; positions are the numbers of its placeholders, from 1. */
  datatype SetPart =
    | SetTitle(pos: nat)
    | SetDescription(pos: nat)
    | SetCenter(lonPos: nat, latPos: nat)  // ST_MakePoint($lon, $lat)
    | SetRadius(pos: nat)
    | TouchUpdatedAt

  predicate Bound(args: seq<Arg>, pos: nat) {
    1 <= pos <= |args|
  }

  /** What the server makes of one assignment; None if a placeholder has no argument or one of
      another type. */
  function ExecPart(part: SetPart, args: seq<Arg>, row: DbIncident, now: int): Option<DbIncident> {
    match part
    case SetTitle(p) =>
      if Bound(args, p) && args[p - 1].Text? then Some(row.(title := args[p - 1].s)) else None
    case SetDescription(p) =>
      if Bound(args, p) && args[p - 1].NullText? then Some(row.(description := args[p - 1].t)) else None
    case SetCenter(lon, lat) =>
      if Bound(args, lon) && Bound(args, lat) && args[lon - 1].Number? && args[lat - 1].Number?
      then Some(row.(center := Point(args[lat - 1].r, args[lon - 1].r))) else None
    case SetRadius(p) =>
      if Bound(args, p) && args[p - 1].Int? then Some(row.(radius := args[p - 1].n)) else None
    case TouchUpdatedAt => Some(row.(updatedAt := now))
  }

  function ExecSet(parts: seq<SetPart>, args: seq<Arg>, row: DbIncident, now: int): Option<DbIncident> {
    if parts == [] then Some(row)
    else match ExecSet(parts[..|parts| - 1], args, row, now)
      case None => None
      case Some(r) => ExecPart(parts[|parts| - 1], args, r, now)
  }

  /** Arguments appended later do not disturb assignments already written. */
  lemma {:induction false} ExecSetExtend(parts: seq<SetPart>, args: seq<Arg>, more: seq<Arg>, row: DbIncident, now: int)
    requires ExecSet(parts, args, row, now).Some?
    ensures ExecSet(parts, args + more, row, now) == ExecSet(parts, args, row, now)
  {
    if parts != [] {
      ExecSetExtend(parts[..|parts| - 1], args, more, row, now);
    }
  }

  lemma ExecSetSnoc(parts: seq<SetPart>, args: seq<Arg>, part: SetPart, more: seq<Arg>, row: DbIncident, now: int)
    requires ExecSet(parts, args, row, now).Some?
    ensures ExecSet(parts + [part], args + more, row, now)
         == ExecPart(part, args + more, ExecSet(parts, args, row, now).value, now)
  {
    ExecSetExtend(parts, args, more, row, now);
    assert (parts + [part])[..|parts|] == parts;
  }

  /** The row an update is meant to leave: given fields replaced, the rest kept. */
  function Patched(row: DbIncident, u: UpdateIncident, now: int): DbIncident {
    DbIncident(
      if u.title.Some? then u.title.value else row.title,
      if u.description.Some? then NullString(u.description.value) else row.description,
      if u.center.Some? then u.center.value else row.center,
      if u.radius.Some? then u.radius.value else row.radius,
      row.active, row.createdAt, now)
  }

  predicate Changes(u: UpdateIncident) {
    u.title.Some? || u.description.Some? || u.center.Some? || u.radius.Some?
  }

  /** SELECT ... ORDER BY created_at DESC, id DESC LIMIT $limit OFFSET $offset. */
  datatype Select = Select(whereActive: bool, limitPos: nat, offsetPos: nat, args: seq<int>)

  class Repository {
    var table: Table
    var nextId: nat

    constructor ()
      ensures table == map[] && nextId == 1
    {
      table, nextId := map[], 1;
    }

    ghost predicate Valid()
      reads this
    {
      forall id :: id in table ==> id < nextId && table[id].radius > 0 && table[id].description != Some("")
    }

    method Create(c: CreateIncident, now: int, fails: bool) returns (r: Result<Incident>)
      requires Valid()
      modifies this
      ensures Valid()
      ensures r.Ok? <==> !fails && c.radius > 0
      ensures r.Err? ==> table == old(table)
      ensures r.Ok? ==>
        && r.value == Incident(old(nextId), c.title, c.description, c.center, c.radius, true, now, now)
        && table.Keys == old(table.Keys) + {old(nextId)}
        && ToDomain(old(nextId), table[old(nextId)]) == r.value
        && table[old(nextId)] == DbIncident(c.title, if c.description == "" then None else Some(c.description),
                                            c.center, c.radius, true, now, now)
        && (forall id :: id in old(table) ==> table[id] == old(table)[id])
    {
      var id := nextId;
      nextId := nextId + 1;
      if fails || c.radius <= 0 { return Err(StatementFailed); }
      table := table[id := DbIncident(c.title, NullString(c.description), c.center, c.radius, true, now, now)];
      return Ok(ToDomain(id, table[id]));
    }

    /** What is returned determines the row it was read from. */
    method GetByID(id: nat, fails: bool) returns (r: Result<Incident>)
      ensures fails ==> r == Err(StatementFailed)
      ensures !fails ==> (r.Ok? <==> id in table) && (r.Err? ==> r.error == NotFound)
      ensures r.Ok? ==> r.value == ToDomain(id, table[id])
      ensures r.Ok? ==>
        var row := table[id];
        && (row.description.None? ==> r.value.description == "")
        && (row.description.Some? ==> r.value.description == row.description.value)
        && r.value.title == row.title && r.value.center == row.center && r.value.radius == row.radius
        && r.value.active == row.active && r.value.createdAt == row.createdAt && r.value.updatedAt == row.updatedAt
      ensures r.Ok? && Valid() ==> r.value.id == id && ToRow(r.value) == table[id]
    {
      if fails { return Err(StatementFailed); }
      if id !in table { return Err(NotFound); }
      return Ok(ToDomain(id, table[id]));
    }

    /** The numbered placeholders come out bound to the right arguments whichever fields are
        present: executing the statement patches exactly those. */
    method Update(id: nat, u: UpdateIncident, now: int, fails: bool) returns (r: Result<Incident>)
      requires Valid()
      modifies this`table
      ensures Valid()
      ensures r.Ok? <==> !fails && id in old(table) && (u.radius.Some? ==> u.radius.value > 0)
      ensures r.Err? ==> table == old(table)
      ensures r.Ok? ==>
        && table == (if Changes(u) then old(table)[id := Patched(old(table)[id], u, now)] else old(table))
        && r.value == ToDomain(id, table[id])
      // field by field: what is given is set, what is not is kept, in the answer and in the row
      ensures r.Ok? ==>
        && r.value.id == id && r.value.active == old(table)[id].active && r.value.createdAt == old(table)[id].createdAt
        && (u.title.Some? ==> r.value.title == u.title.value)
        && (u.title.None? ==> r.value.title == old(table)[id].title)
        && (u.description.Some? ==> r.value.description == u.description.value)
        && (u.description.None? ==> table[id].description == old(table)[id].description)
        && (u.center.Some? ==> r.value.center == u.center.value)
        && (u.center.None? ==> r.value.center == old(table)[id].center)
        && (u.radius.Some? ==> r.value.radius == u.radius.value)
        && (u.radius.None? ==> r.value.radius == old(table)[id].radius)
        && (u != UpdateIncident(None, None, None, None) ==> r.value.updatedAt == now)
        && (u == UpdateIncident(None, None, None, None) ==> table == old(table))
        && table[id] == DbIncident(r.value.title, if r.value.description == "" then None else Some(r.value.description),
                                   r.value.center, r.value.radius, r.value.active, r.value.createdAt, r.value.updatedAt)
        && table.Keys == old(table).Keys
        && (forall other :: other in old(table) && other != id ==> table[other] == old(table)[other])
    {
      var parts, args := BuildSet(u);
      if |parts| == 0 {
        r := GetByID(id, fails);
        return;
      }
      ghost var set0, args0 := parts, args;
      assert id in table ==> Patches(set0, args0, u, table[id], now);
      parts := parts + [TouchUpdatedAt];
      args := args + [Int(id)];
      var idPos := |args|;
      if fails { return Err(StatementFailed); }
      var target := args[idPos - 1].n;
      if target < 0 || target !in table { return Err(NotFound); }
      ExecSetSnoc(set0, args0, TouchUpdatedAt, [Int(id)], table[id], now);
      var row := ExecSet(parts, args, table[target], now);
      if row.None? || row.value.radius <= 0 { return Err(StatementFailed); }
      table := table[target := row.value];
      return Ok(ToDomain(target, row.value));
    }

    static method BuildSet(u: UpdateIncident) returns (parts: seq<SetPart>, args: seq<Arg>)
      ensures Built(parts, args, u)
      // executed on any row, the statement sets what is given and keeps what is not
      ensures parts == [] <==> u == UpdateIncident(None, None, None, None)
      ensures forall row, now ::
        var r := ExecSet(parts, args, row, now);
        && r.Some?
        && r.value.title == (if u.title.Some? then u.title.value else row.title)
        && (u.description == Some("") ==> r.value.description == None)
        && (u.description.Some? && u.description.value != "" ==> r.value.description == u.description)
        && (u.description.None? ==> r.value.description == row.description)
        && r.value.center == (if u.center.Some? then u.center.value else row.center)
        && r.value.radius == (if u.radius.Some? then u.radius.value else row.radius)
        && r.value.active == row.active && r.value.createdAt == row.createdAt && r.value.updatedAt == row.updatedAt
    {
      parts, args := [], [];
      ghost var done := UpdateIncident(None, None, None, None);
      assert Built(parts, args, done);
      if u.title.Some? {
        AddTitle(parts, args, done, u.title.value);
        args := args + [Text(u.title.value)];
        parts := parts + [SetTitle(|args|)];
        done := done.(title := u.title);
      }
      if u.description.Some? {
        AddDescription(parts, args, done, u.description.value);
        args := args + [NullText(NullString(u.description.value))];
        parts := parts + [SetDescription(|args|)];
        done := done.(description := u.description);
      }
      if u.center.Some? {
        AddCenter(parts, args, done, u.center.value);
        ghost var args0 := args;
        args := args + [Number(u.center.value.lon)];
        var lonPos := |args|;
        args := args + [Number(u.center.value.lat)];
        var latPos := |args|;
        assert args == args0 + [Number(u.center.value.lon), Number(u.center.value.lat)];
        parts := parts + [SetCenter(lonPos, latPos)];
        done := done.(center := u.center);
      }
      if u.radius.Some? {
        AddRadius(parts, args, done, u.radius.value);
        args := args + [Int(u.radius.value)];
        parts := parts + [SetRadius(|args|)];
        done := done.(radius := u.radius);
      }
      assert done == u;
      forall row, now ensures ExecSet(parts, args, row, now) == Some(Patched(row, u, row.updatedAt)) {
        assert Patches(parts, args, u, row, now);
      }
    }

    static ghost predicate Patches(parts: seq<SetPart>, args: seq<Arg>, done: UpdateIncident, row: DbIncident, now: int) {
      ExecSet(parts, args, row, now) == Some(Patched(row, done, row.updatedAt))
    }

    /** The statement so far patches exactly the fields of `done`. */
    static ghost predicate Built(parts: seq<SetPart>, args: seq<Arg>, done: UpdateIncident) {
      && (parts == [] <==> !Changes(done))
      && forall row, now :: Patches(parts, args, done, row, now)
    }

    static lemma AddTitle(parts: seq<SetPart>, args: seq<Arg>, done: UpdateIncident, title: string)
      requires Built(parts, args, done)
      ensures Built(parts + [SetTitle(|args| + 1)], args + [Text(title)], done.(title := Some(title)))
    {
      var parts', args', done' := parts + [SetTitle(|args| + 1)], args + [Text(title)], done.(title := Some(title));
      forall row, now ensures Patches(parts', args', done', row, now)
      {
        assert Patches(parts, args, done, row, now);
        ExecSetSnoc(parts, args, SetTitle(|args| + 1), [Text(title)], row, now);
      }
    }

    static lemma AddDescription(parts: seq<SetPart>, args: seq<Arg>, done: UpdateIncident, d: string)
      requires Built(parts, args, done)
      ensures Built(parts + [SetDescription(|args| + 1)], args + [NullText(NullString(d))], done.(description := Some(d)))
    {
      var parts', args', done' := parts + [SetDescription(|args| + 1)], args + [NullText(NullString(d))], done.(description := Some(d));
      forall row, now ensures Patches(parts', args', done', row, now)
      {
        assert Patches(parts, args, done, row, now);
        ExecSetSnoc(parts, args, SetDescription(|args| + 1), [NullText(NullString(d))], row, now);
      }
    }

    static lemma AddCenter(parts: seq<SetPart>, args: seq<Arg>, done: UpdateIncident, c: Point)
      requires Built(parts, args, done)
      ensures Built(parts + [SetCenter(|args| + 1, |args| + 2)], args + [Number(c.lon), Number(c.lat)], done.(center := Some(c)))
    {
      var parts', args', done' := parts + [SetCenter(|args| + 1, |args| + 2)], args + [Number(c.lon), Number(c.lat)], done.(center := Some(c));
      forall row, now ensures Patches(parts', args', done', row, now)
      {
        assert Patches(parts, args, done, row, now);
        ExecSetSnoc(parts, args, SetCenter(|args| + 1, |args| + 2), [Number(c.lon), Number(c.lat)], row, now);
      }
    }

    static lemma AddRadius(parts: seq<SetPart>, args: seq<Arg>, done: UpdateIncident, n: int)
      requires Built(parts, args, done)
      ensures Built(parts + [SetRadius(|args| + 1)], args + [Int(n)], done.(radius := Some(n)))
    {
      var parts', args', done' := parts + [SetRadius(|args| + 1)], args + [Int(n)], done.(radius := Some(n));
      forall row, now ensures Patches(parts', args', done', row, now)
      {
        assert Patches(parts, args, done, row, now);
        ExecSetSnoc(parts, args, SetRadius(|args| + 1), [Int(n)], row, now);
      }
    }

    method Deactivate(id: nat, now: int, fails: bool) returns (r: Result<()>)
      requires Valid()
      modifies this`table
      ensures Valid()
      ensures r.Ok? <==> !fails && id in old(table) && old(table)[id].active
      ensures table == if r.Ok? then old(table)[id := old(table)[id].(active := false, updatedAt := now)] else old(table)
    {
      if fails { return Err(StatementFailed); }
      if id !in table || !table[id].active { return Err(NotFound); }
      table := table[id := table[id].(active := false, updatedAt := now)];
      return Ok(());
    }

    method List(f: ListFilter, fails: bool) returns (r: Result<seq<Incident>>)
      ensures fails ==> r == Err(StatementFailed)
      ensures !fails ==> r == ListPage(table, f)
    {
      var args: seq<int> := [];
      args := args + [f.limit];
      var limitPos := |args|;
      args := args + [f.offset];
      var offsetPos := |args|;
      if fails { return Err(StatementFailed); }
      r := Execute(table, Select(f.activeOnly, limitPos, offsetPos, args));
    }

    static method Execute(t: Table, q: Select) returns (r: Result<seq<Incident>>)
      requires 1 <= q.limitPos <= |q.args| && 1 <= q.offsetPos <= |q.args|
      ensures r == ListPage(t, ListFilter(q.args[q.limitPos - 1], q.args[q.offsetPos - 1], q.whereActive))
    {
      var limit, offset := q.args[q.limitPos - 1], q.args[q.offsetPos - 1];
      if limit < 0 || offset < 0 { return Err(BadLimit); }
      var all := OrderRows(t, Selected(t, q.whereActive));
      return Ok(Slice(all, limit, offset));
    }

    static method OrderRows(t: Table, ids: set<nat>) returns (s: seq<Incident>)
      requires ids <= t.Keys
      ensures s == Ordered(t, ids)
    {
      s := [];
      var rest := ids;
      while rest != {}
        invariant rest <= ids
        invariant IsListing(t, ids - rest, s)
        invariant Ahead(t, s, rest)
        decreases rest
      {
        ghost var first := FirstExists(t, rest);
        var id: nat :| IsFirst(t, rest, id);
        AppendListing(t, ids - rest, s, rest, id);
        assert ids - (rest - {id}) == ids - rest + {id};
        s := s + [ToDomain(id, t[id])];
        rest := rest - {id};
      }
      assert ids - rest == ids;
      ListingUnique(t, ids, s, Ordered(t, ids));
    }

    static ghost predicate Ahead(t: Table, s: seq<Incident>, rest: set<nat>) {
      forall x, id :: x in s && id in rest && id in t ==> Before(x, ToDomain(id, t[id]))
    }

    static lemma AppendListing(t: Table, ids: set<nat>, s: seq<Incident>, rest: set<nat>, id: nat)
      requires IsListing(t, ids, s) && Ahead(t, s, rest) && IsFirst(t, rest, id)
      ensures id in t && id in rest
      ensures IsListing(t, ids + {id}, s + [ToDomain(id, t[id])])
      ensures Ahead(t, s + [ToDomain(id, t[id])], rest - {id})
    {
      var s' := s + [ToDomain(id, t[id])];
      forall i, j | 0 <= i < j < |s'| ensures Before(s'[i], s'[j]) {
        if j == |s| { assert s[i] in s; }
      }
      forall k | k in ids + {id} && k in t ensures ToDomain(k, t[k]) in s' {
        if k in ids { assert ToDomain(k, t[k]) in s; } else { assert s'[|s|] == ToDomain(k, t[k]); }
      }
    }
  }
}
