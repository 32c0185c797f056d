/**
 * The `short_urls` table behind the generated queries the short-URL
 * repositories and handlers call. The SQL of those queries is not part of
 * this model; they are taken to do what their names say: the slug is unique
 * (constraint `short_urls_slug_key`), the id is generated by the database,
 * a lookup that matches nothing fails with `pgx.ErrNoRows`, and a `:exec`
 * delete that matches nothing succeeds.
 */
module ShortUrlDb {
  import opened Wrappers
  import opened WrapErrors
  import opened Uuids
  import opened Times
  import UserDb

  /** `pgtype.Timestamptz` (and `pgtype.Timestamp`): a time that may be SQL NULL. */
  datatype Timestamptz = Timestamptz(time: int, valid: bool)

  /** The NULL timestamp: not valid, and its time is Go's zero time. */
  const Null: Timestamptz := Timestamptz(ZeroTime, false)

  datatype UrlRow = UrlRow(
    id: Uuid, slug: string, originalUrl: string, userId: Uuid,
    createdAt: int, expiresAt: Timestamptz, accessCount: int)

  datatype CreateParams = CreateParams(userId: Uuid, slug: string, originalUrl: string, expiresAt: Timestamptz)
  datatype UpdateParams = UpdateParams(id: Uuid, slug: string, originalUrl: string, expiresAt: Timestamptz)

  const SlugKey: string := "short_urls_slug_key"
  const PrimaryKey: string := "short_urls_pkey"

  function FindById(rows: seq<UrlRow>, id: Uuid): (r: Option<nat>)
    ensures r.Some? ==> r.value < |rows| && rows[r.value].id == id
    ensures r.None? ==> forall i :: 0 <= i < |rows| ==> rows[i].id != id
  {
    if rows == [] then None
    else if rows[0].id == id then Some(0)
    else
      var r := FindById(rows[1..], id);
      if r.Some? then Some(r.value + 1) else None
  }

  function FindBySlug(rows: seq<UrlRow>, slug: string): (r: Option<nat>)
    ensures r.Some? ==> r.value < |rows| && rows[r.value].slug == slug
    ensures r.None? ==> forall i :: 0 <= i < |rows| ==> rows[i].slug != slug
  {
    if rows == [] then None
    else if rows[0].slug == slug then Some(0)
    else
      var r := FindBySlug(rows[1..], slug);
      if r.Some? then Some(r.value + 1) else None
  }

  /** What the constraints guarantee: ids and slugs are unique. */
  predicate Consistent(rows: seq<UrlRow>) {
    forall i, j :: 0 <= i < j < |rows| ==> rows[i].id != rows[j].id && rows[i].slug != rows[j].slug
  }

  /** `GetShortUrlById`. */
  function GetById(rows: seq<UrlRow>, id: Uuid, fault: Option<Error>): (r: Result<UrlRow, Error>)
    ensures r.Ok? ==> r.value in rows && r.value.id == id
    ensures fault.None? ==> (r.Err? <==> r == Err(NoRows))
    ensures fault.None? && FindById(rows, id).Some? ==> r == Ok(rows[FindById(rows, id).value])
    ensures fault.None? && FindById(rows, id).None? ==> r == Err(NoRows)
    ensures fault.Some? ==> r == Err(fault.value)
  {
    if fault.Some? then Err(fault.value)
    else
      var i := FindById(rows, id);
      if i.Some? then Ok(rows[i.value]) else Err(NoRows)
  }

  /** `GetShortUrlBySlug`. */
  function GetBySlug(rows: seq<UrlRow>, slug: string, fault: Option<Error>): (r: Result<UrlRow, Error>)
    ensures r.Ok? ==> r.value in rows && r.value.slug == slug
    ensures fault.None? ==> (r.Err? <==> forall i :: 0 <= i < |rows| ==> rows[i].slug != slug)
    ensures fault.None? && r.Err? ==> r.error == NoRows
  {
    if fault.Some? then Err(fault.value)
    else
      var i := FindBySlug(rows, slug);
      if i.Some? then Ok(rows[i.value]) else Err(NoRows)
  }

  /** The rows a user owns, in table order. */
  function OwnedBy(rows: seq<UrlRow>, userId: Uuid): (r: seq<UrlRow>)
    ensures forall i :: 0 <= i < |r| ==> r[i] in rows && r[i].userId == userId
    ensures forall row :: row in rows && row.userId == userId ==> row in r
  {
    if rows == [] then []
    else
      var rest := OwnedBy(rows[1..], userId);
      assert forall k :: 0 <= k < |rest| ==> rest[k] in rows[1..];
      if rows[0].userId == userId then [rows[0]] + rest else rest
  }

  /** `GetShortUrlsByUserId`. */
  function GetByUser(rows: seq<UrlRow>, userId: Uuid, fault: Option<Error>): Result<seq<UrlRow>, Error> {
    if fault.Some? then Err(fault.value) else Ok(OwnedBy(rows, userId))
  }

  /** `CreateShortUrl`: a new row with a fresh id, no accesses, created now; answers its id. */
  function Create(rows: seq<UrlRow>, p: CreateParams, newId: Uuid, now: int, fault: Option<Error>)
    : (r: (Result<Uuid, Error>, seq<UrlRow>))
    ensures r.0.Err? ==> r.1 == rows
    ensures r.0.Ok? ==> (r.0.value == newId && r.1 == rows + [UrlRow(newId, p.slug, p.originalUrl, p.userId, now, p.expiresAt, 0)])
    ensures fault.None? && FindBySlug(rows, p.slug).Some? ==> r.0 == Err(UserDb.DuplicateKey(SlugKey))
    ensures r.0.Ok? <==> (fault.None? && FindBySlug(rows, p.slug).None? && FindById(rows, newId).None?)
    ensures Consistent(rows) ==> Consistent(r.1)
  {
    if fault.Some? then (Err(fault.value), rows)
    else if FindBySlug(rows, p.slug).Some? then (Err(UserDb.DuplicateKey(SlugKey)), rows)
    else if FindById(rows, newId).Some? then (Err(UserDb.DuplicateKey(PrimaryKey)), rows)
    else (Ok(newId), rows + [UrlRow(newId, p.slug, p.originalUrl, p.userId, now, p.expiresAt, 0)])
  }

  /** `UpdateShortUrl`: rewrites slug, URL and expiry of the row with this id and answers it. */
  function Update(rows: seq<UrlRow>, p: UpdateParams, fault: Option<Error>): (r: (Result<UrlRow, Error>, seq<UrlRow>))
    ensures r.0.Err? ==> r.1 == rows
    ensures r.0.Ok? ==> (FindById(rows, p.id).Some? &&
      r.0.value == rows[FindById(rows, p.id).value].(slug := p.slug, originalUrl := p.originalUrl, expiresAt := p.expiresAt) &&
      r.1 == rows[FindById(rows, p.id).value := r.0.value])
    ensures fault.None? && FindById(rows, p.id).None? ==> r.0 == Err(NoRows)
    ensures r.0.Ok? <==> (fault.None? && FindById(rows, p.id).Some? &&
      (FindBySlug(rows, p.slug).None? || rows[FindBySlug(rows, p.slug).value].id == p.id))
    ensures Consistent(rows) ==> Consistent(r.1)
  {
    if fault.Some? then (Err(fault.value), rows)
    else
      var i := FindById(rows, p.id);
      if i.None? then (Err(NoRows), rows)
      else
        var clash := FindBySlug(rows, p.slug);
        if clash.Some? && rows[clash.value].id != p.id then (Err(UserDb.DuplicateKey(SlugKey)), rows)
        else
          var row := rows[i.value].(slug := p.slug, originalUrl := p.originalUrl, expiresAt := p.expiresAt);
          (Ok(row), rows[i.value := row])
  }

  function Without(rows: seq<UrlRow>, id: Uuid): (r: seq<UrlRow>)
    ensures forall i :: 0 <= i < |r| ==> r[i] in rows && r[i].id != id
    ensures forall row :: row in rows && row.id != id ==> row in r
    ensures Consistent(rows) ==> Consistent(r)
  {
    if rows == [] then []
    else
      var rest := Without(rows[1..], id);
      WithoutStep(rows, id, rest);
      if rows[0].id == id then rest else [rows[0]] + rest
  }

  /** The step of `Without`: keeping or dropping the first row keeps its three properties. */
  lemma WithoutStep(rows: seq<UrlRow>, id: Uuid, rest: seq<UrlRow>)
    requires rows != []
    requires forall i :: 0 <= i < |rest| ==> rest[i] in rows[1..] && rest[i].id != id
    requires forall row :: row in rows[1..] && row.id != id ==> row in rest
    requires Consistent(rows[1..]) ==> Consistent(rest)
    ensures var r := if rows[0].id == id then rest else [rows[0]] + rest;
      (forall i :: 0 <= i < |r| ==> r[i] in rows && r[i].id != id) &&
      (forall row :: row in rows && row.id != id ==> row in r) &&
      (Consistent(rows) ==> Consistent(r))
  {
    assert rows == [rows[0]] + rows[1..];
    var r := if rows[0].id == id then rest else [rows[0]] + rest;
    forall row | row in rows && row.id != id
      ensures row in r
    {
      if row != rows[0] {
        var m :| 0 <= m < |rows| && rows[m] == row;
        assert rows[1..][m - 1] == row;
      }
    }
    forall i | 0 <= i < |r|
      ensures r[i] in rows && r[i].id != id
    {
      if r[i] != rows[0] {
        var k := if rows[0].id == id then i else i - 1;
        assert r[i] == rest[k];
        var m :| 0 <= m < |rows[1..]| && rows[1..][m] == rest[k];
        assert rows[m + 1] == r[i];
      }
    }
    if Consistent(rows) {
      ConsistentTail(rows);
      if rows[0].id != id {
        ConsistentCons(rows[0], rows[1..], rest);
      }
    }
  }


  lemma ConsistentTail(rows: seq<UrlRow>)
    requires rows != [] && Consistent(rows)
    ensures Consistent(rows[1..])
  {
    forall i, j | 0 <= i < j < |rows[1..]|
      ensures rows[1..][i].id != rows[1..][j].id && rows[1..][i].slug != rows[1..][j].slug
    {
      assert rows[1..][i] == rows[i + 1] && rows[1..][j] == rows[j + 1];
    }
  }


  /** Putting a row in front of rows drawn from a table it heads keeps them consistent. */
  lemma ConsistentCons(head: UrlRow, tail: seq<UrlRow>, rest: seq<UrlRow>)
    requires Consistent([head] + tail) && Consistent(rest)
    requires forall k :: 0 <= k < |rest| ==> rest[k] in tail
    ensures Consistent([head] + rest)
  {
    var rows := [head] + tail;
    forall k | 0 <= k < |rest|
      ensures rest[k].id != head.id && rest[k].slug != head.slug
    {
      var m :| 0 <= m < |tail| && tail[m] == rest[k];
      assert rows[0] == head && rows[m + 1] == tail[m];
    }
  }

  /** `DeleteShortUrl`, an `:exec` query. */
  function Delete(rows: seq<UrlRow>, id: Uuid, fault: Option<Error>): (r: (Option<Error>, seq<UrlRow>)) {
    if fault.Some? then (fault, rows) else (None, Without(rows, id))
  }

  /** The `short_urls` table as the generated queries change it. */
  class UrlTable {
    var rows: seq<UrlRow>

    constructor (rows: seq<UrlRow>)
      ensures this.rows == rows
    {
      this.rows := rows;
    }

    method CreateShortUrl(p: CreateParams, newId: Uuid, now: int, fault: Option<Error>) returns (r: Result<Uuid, Error>)
      modifies this`rows
      ensures (r, rows) == Create(old(rows), p, newId, now, fault)
    {
      var res := Create(rows, p, newId, now, fault);
      r, rows := res.0, res.1;
    }

    method UpdateShortUrl(p: UpdateParams, fault: Option<Error>) returns (r: Result<UrlRow, Error>)
      modifies this`rows
      ensures (r, rows) == Update(old(rows), p, fault)
    {
      var res := Update(rows, p, fault);
      r, rows := res.0, res.1;
    }

    method DeleteShortUrl(id: Uuid, fault: Option<Error>) returns (r: Option<Error>)
      modifies this`rows
      ensures (r, rows) == Delete(old(rows), id, fault)
    {
      var res := Delete(rows, id, fault);
      r, rows := res.0, res.1;
    }
  }
}
