/** The incidents table: its rows, the order List returns them in, and its pages. */
module Incidents {
  import opened Common

  datatype Point = Point(lat: real, lon: real)

  /** A row; the description column is NULL for an empty description. */
  datatype DbIncident = DbIncident(title: string, description: Option<string>, center: Point, radius: int,
                                   active: bool, createdAt: int, updatedAt: int)

  datatype Incident = Incident(id: nat, title: string, description: string, center: Point, radius: int,
                               active: bool, createdAt: int, updatedAt: int)

  type Table = map<nat, DbIncident>

  datatype ListFilter = ListFilter(limit: int, offset: int, activeOnly: bool)

  function NullString(s: string): Option<string> {
    if s == "" then None else Some(s)
  }

  function ToDomain(id: nat, d: DbIncident): Incident {
    var description := if d.description.Some? then d.description.value else "";
    Incident(id, d.title, description, d.center, d.radius, d.active, d.createdAt, d.updatedAt)
  }

  /** The row an incident is stored as. */
  function ToRow(x: Incident): DbIncident {
    DbIncident(x.title, NullString(x.description), x.center, x.radius, x.active, x.createdAt, x.updatedAt)
  }

  /** What is written as a description is read back, the empty one included. */
  lemma DescriptionRoundTrip(id: nat, d: DbIncident, s: string)
    ensures ToDomain(id, d.(description := NullString(s))).description == s
  {
  }

  /** ORDER BY created_at DESC, id DESC. */
  predicate Before(a: Incident, b: Incident) {
    a.createdAt > b.createdAt || (a.createdAt == b.createdAt && a.id > b.id)
  }

  function Selected(t: Table, activeOnly: bool): set<nat> {
    set id | id in t && (activeOnly ==> t[id].active)
  }

  /** `s` lists exactly the rows `ids` of t, in that order. */
  ghost predicate IsListing(t: Table, ids: set<nat>, s: seq<Incident>) {
    && (forall i, j :: 0 <= i < j < |s| ==> Before(s[i], s[j]))
    && (forall x :: x in s ==> x.id in ids && x.id in t && x == ToDomain(x.id, t[x.id]))
    && (forall id :: id in ids && id in t ==> ToDomain(id, t[id]) in s)
  }

  predicate IsFirst(t: Table, ids: set<nat>, first: nat) {
    && first in ids && first in t
    && forall id :: id in ids && id in t && id != first ==> Before(ToDomain(first, t[first]), ToDomain(id, t[id]))
  }

  lemma {:induction false} FirstExists(t: Table, ids: set<nat>) returns (first: nat)
    requires ids != {} && ids <= t.Keys
    ensures IsFirst(t, ids, first)
    decreases ids
  {
    var x :| x in ids;
    first := x;
    if ids - {x} != {} {
      var rest := FirstExists(t, ids - {x});
      if Before(ToDomain(rest, t[rest]), ToDomain(x, t[x])) { first := rest; }
    }
    forall id | id in ids && id in t && id != first
      ensures Before(ToDomain(first, t[first]), ToDomain(id, t[id]))
    {
      if id != x { assert id in ids - {x}; }
    }
  }

  ghost function Ordered(t: Table, ids: set<nat>): (s: seq<Incident>)
    requires ids <= t.Keys
    ensures IsListing(t, ids, s)
    decreases ids
  {
    if ids == {} then []
    else
      assert exists first :: IsFirst(t, ids, first) by { var first := FirstExists(t, ids); }
      var first :| IsFirst(t, ids, first);
      [ToDomain(first, t[first])] + Ordered(t, ids - {first})
  }

  lemma HasElement<T>(s: seq<T>)
    requires s != []
    ensures exists x :: x in s
  {
    assert s[0] in s;
  }

  /** There is only one such listing. */
  lemma {:induction false} ListingUnique(t: Table, ids: set<nat>, a: seq<Incident>, b: seq<Incident>)
    requires IsListing(t, ids, a) && IsListing(t, ids, b)
    ensures a == b
    decreases |a|
  {
    if a == [] {
      if b != [] { HasElement(b); }
    } else {
      assert a[0] in a && a[0] in b;
      assert b[0] in b && b[0] in a;
      var i :| 0 <= i < |b| && b[i] == a[0];
      var j :| 0 <= j < |a| && a[j] == b[0];
      assert a[0] == b[0];
      var rest := ids - {a[0].id};
      TailListing(t, ids, a);
      TailListing(t, ids, b);
      ListingUnique(t, rest, a[1..], b[1..]);
      assert a == [a[0]] + a[1..] && b == [b[0]] + b[1..];
    }
  }

  lemma TailListing(t: Table, ids: set<nat>, a: seq<Incident>)
    requires IsListing(t, ids, a) && a != []
    ensures IsListing(t, ids - {a[0].id}, a[1..])
  {
    assert a[0] in a;
    forall x | x in a[1..] ensures x.id in ids - {a[0].id} && x == ToDomain(x.id, t[x.id]) {
      var i :| 0 <= i < |a| - 1 && a[1..][i] == x;
      assert a[i + 1] == x && x in a;
      assert Before(a[0], a[i + 1]);
    }
    forall id | id in ids - {a[0].id} && id in t ensures ToDomain(id, t[id]) in a[1..] {
      assert ToDomain(id, t[id]) in a;
      var i :| 0 <= i < |a| && a[i] == ToDomain(id, t[id]);
      assert a[1..][i - 1] == a[i];
    }
  }

  /** LIMIT and OFFSET. */
  function Slice<T>(s: seq<T>, limit: nat, offset: nat): seq<T> {
    if offset >= |s| then []
    else if offset + limit >= |s| then s[offset..]
    else s[offset..offset + limit]
  }

  ghost function Listing(t: Table, activeOnly: bool): seq<Incident> {
    Ordered(t, Selected(t, activeOnly))
  }

  /** Postgres rejects a negative LIMIT or OFFSET. */
  ghost function ListPage(t: Table, f: ListFilter): Result<seq<Incident>> {
    if f.limit < 0 || f.offset < 0 then Err(BadLimit)
    else Ok(Slice(Listing(t, f.activeOnly), f.limit, f.offset))
  }

  ghost function Pages(t: Table, activeOnly: bool, limit: nat, n: nat): seq<Incident> {
    if n == 0 then []
    else Pages(t, activeOnly, limit, n - 1) + ListPage(t, ListFilter(limit, (n - 1) * limit, activeOnly)).value
  }

  lemma SliceExtendsPrefix<T>(s: seq<T>, from: nat, limit: nat)
    ensures (if from >= |s| then s else s[..from]) + Slice(s, limit, from)
         == if from + limit >= |s| then s else s[..from + limit]
  {
    if from < |s| && from + limit < |s| {
      assert s[..from] + s[from..from + limit] == s[..from + limit];
    }
  }

  lemma NextPage<T>(s: seq<T>, limit: nat, n: nat)
    requires n > 0
    ensures var from, to := (n - 1) * limit, n * limit;
      && from >= 0
      && (if from >= |s| then s else s[..from]) + Slice(s, limit, from) == if to >= |s| then s else s[..to]
  {
    assert n * limit == (n - 1) * limit + limit;
    SliceExtendsPrefix(s, (n - 1) * limit, limit);
  }

  lemma {:induction false} PagesArePrefix(t: Table, activeOnly: bool, limit: nat, n: nat)
    ensures var s := Listing(t, activeOnly);
      Pages(t, activeOnly, limit, n) == if n * limit >= |s| then s else s[..n * limit]
  {
    var s := Listing(t, activeOnly);
    if n > 0 {
      PagesArePrefix(t, activeOnly, limit, n - 1);
      NextPage(s, limit, n);
    }
  }

  /** The listing has exactly the rows the filter admits, each once, newest first, and among
      rows of one age the higher id first. */
  lemma ListingMeaning(t: Table, activeOnly: bool)
    ensures var s := Listing(t, activeOnly);
      && (forall i, j :: 0 <= i < j < |s| ==>
            s[i].createdAt > s[j].createdAt || (s[i].createdAt == s[j].createdAt && s[i].id > s[j].id))
      && NoDup(s)
      && (forall x :: x in s <==> x.id in t && (activeOnly ==> t[x.id].active) && x == ToDomain(x.id, t[x.id]))
  {
    var s, ids := Listing(t, activeOnly), Selected(t, activeOnly);
    assert IsListing(t, ids, s);
    forall x ensures x in s <==> x.id in t && (activeOnly ==> t[x.id].active) && x == ToDomain(x.id, t[x.id]) {
      if x.id in ids && x == ToDomain(x.id, t[x.id]) { assert ToDomain(x.id, t[x.id]) in s; }
    }
  }

  lemma SliceIsWindow<T>(s: seq<T>, limit: nat, offset: nat)
    ensures var page := Slice(s, limit, offset);
      && |page| == (if offset >= |s| then 0 else if limit <= |s| - offset then limit else |s| - offset)
      && forall k :: 0 <= k < |page| ==> page[k] == s[offset + k]
  {
  }

  /** A page is a window on the listing: entry k is entry offset + k, up to the limit and the
      end; negative numbers are rejected. */
  lemma PageIsWindow(t: Table, f: ListFilter)
    ensures ListPage(t, f).Ok? <==> f.limit >= 0 && f.offset >= 0
    ensures ListPage(t, f).Ok? ==>
      var s, page := Listing(t, f.activeOnly), ListPage(t, f).value;
      && |page| == (if f.offset >= |s| then 0 else if f.limit <= |s| - f.offset then f.limit else |s| - f.offset)
      && forall k :: 0 <= k < |page| ==> page[k] == s[f.offset + k]
  {
    if f.limit >= 0 && f.offset >= 0 { SliceIsWindow(Listing(t, f.activeOnly), f.limit, f.offset); }
  }

  /** Paging partitions the rows the filter admits: enough pages of a positive size, laid end
      to end, are those incidents, newest first, each exactly once. */
  lemma PagesPartition(t: Table, activeOnly: bool, limit: nat, n: nat)
    requires limit >= 1 && n * limit >= |Listing(t, activeOnly)|
    ensures var s := Pages(t, activeOnly, limit, n);
      && (forall i, j :: 0 <= i < j < |s| ==>
            s[i].createdAt > s[j].createdAt || (s[i].createdAt == s[j].createdAt && s[i].id > s[j].id))
      && NoDup(s)
      && (forall x :: x in s <==> x.id in t && (activeOnly ==> t[x.id].active) && x == ToDomain(x.id, t[x.id]))
  {
    PagesArePrefix(t, activeOnly, limit, n);
    ListingMeaning(t, activeOnly);
  }
}
