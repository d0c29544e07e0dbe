/** The vacancy repository: the `vacancies` table, the record it stores and the
    field checks on that record. */
module Vacancies {
  import opened Base
  import opened Validator

  /** The record the handlers work with. `createdAt` is the store's timestamp. */
  datatype Vacancy = Vacancy(id: int, createdAt: int, title: Text, company: Text,
                             active: bool, tags: Slice<Text>, version: int)

  /** A row of the `vacancies` table; its `id` is the key it is stored under. */
  datatype VacancyRow = VacancyRow(createdAt: int, title: Text, company: Text,
                                   active: bool, tags: Slice<Text>, version: int)

  const MaxFieldBytes := 500
  const MaxTags := 5

  /** The record the handlers build from a create request: only the three fields
      the request carries are set, the others keep Go's zero values. */
  function Draft(title: Text, company: Text, tags: Slice<Text>): Vacancy {
    Vacancy(0, 0, title, company, false, tags, 0)
  }

  /** The eight checks of `ValidateVacancy`, in order: two on the title, two on
      the company, four on the tags. */
  function ValidateVacancy(v: Vacancy): seq<Violation> {
    TitleChecks(v.title) + CompanyChecks(v.company) + TagChecks(v.tags)
  }

  function TitleChecks(title: Text): seq<Violation> {
    var f := Check([], title != [], "title", "must be provided");
    Check(f, |title| <= MaxFieldBytes, "title", "must not be more than 500 bytes long")
  }

  function CompanyChecks(company: Text): seq<Violation> {
    var f := Check([], company != [], "company", "must be provided");
    Check(f, |company| <= MaxFieldBytes, "company", "must not be more than 500 bytes long")
  }

  function TagChecks(tags: Slice<Text>): seq<Violation> {
    var f1 := Check([], tags.Slice?, "tags", "must be provided");
    var f2 := Check(f1, tags.Len() >= 1, "tags", "must contain at least 1 tag");
    var f3 := Check(f2, tags.Len() <= MaxTags, "tags", "must not contain more than 5 tags");
    Check(f3, Unique(tags.Elems()), "tags", "must not contain duplicate values")
  }

  /** The field constraints of a vacancy, stated directly. */
  predicate WellFormed(title: Text, company: Text, tags: Slice<Text>) {
    && 0 < |title| <= MaxFieldBytes
    && 0 < |company| <= MaxFieldBytes
    && tags.Slice? && 1 <= |tags.elems| <= MaxTags && Unique(tags.elems)
  }

  /** A vacancy validates exactly when its fields are well formed. */
  lemma ValidateVacancyAccepts(v: Vacancy)
    ensures ValidateVacancy(v) == [] <==> WellFormed(v.title, v.company, v.tags)
  {
    ValidateVacancyFields(v);
    var fs := ValidateVacancy(v);
    if fs != [] {
      assert fs[0].field in {"title", "company", "tags"};
      assert Reports(fs, fs[0].field);
    }
  }

  /** Each field is reported exactly when its own constraint fails, and nothing
      else is ever reported. */
  lemma ValidateVacancyFields(v: Vacancy)
    ensures Reports(ValidateVacancy(v), "title") <==> !(0 < |v.title| <= MaxFieldBytes)
    ensures Reports(ValidateVacancy(v), "company") <==> !(0 < |v.company| <= MaxFieldBytes)
    ensures Reports(ValidateVacancy(v), "tags")
            <==> !(v.tags.Slice? && 1 <= |v.tags.elems| <= MaxTags && Unique(v.tags.elems))
    ensures FiledUnder(ValidateVacancy(v), {"title", "company", "tags"})
  {
    var t, c, g := TitleChecks(v.title), CompanyChecks(v.company), TagChecks(v.tags);
    TitleChecksShape(v.title);
    CompanyChecksShape(v.company);
    TagChecksShape(v.tags);
    ReportsOfThree(t, c, g, "title", "company", "tags");
    assert ValidateVacancy(v) == t + c + g;
  }

  /** Three lists of violations, each filed under its own field, concatenated:
      each field is reported exactly when its own list is not empty. */
  lemma ReportsOfThree(t: seq<Violation>, c: seq<Violation>, g: seq<Violation>, ft: string, fc: string, fg: string)
    requires FiledUnder(t, {ft}) && FiledUnder(c, {fc}) && FiledUnder(g, {fg})
    requires ft != fc && ft != fg && fc != fg
    ensures Reports(t + c + g, ft) <==> t != []
    ensures Reports(t + c + g, fc) <==> c != []
    ensures Reports(t + c + g, fg) <==> g != []
    ensures FiledUnder(t + c + g, {ft, fc, fg})
  {
    ReportsOnly(t, ft, fc);
    ReportsOnly(t, ft, fg);
    ReportsOnly(c, fc, ft);
    ReportsOnly(c, fc, fg);
    ReportsOnly(g, fg, ft);
    ReportsOnly(g, fg, fc);
    ReportsConcat(t, c, ft);
    ReportsConcat(t, c, fc);
    ReportsConcat(t, c, fg);
    ReportsConcat(t + c, g, ft);
    ReportsConcat(t + c, g, fc);
    ReportsConcat(t + c, g, fg);
    var all := {ft, fc, fg};
    FiledUnderWiden(t, {ft}, all);
    FiledUnderWiden(c, {fc}, all);
    FiledUnderWiden(g, {fg}, all);
    FiledUnderConcat(t, c, all);
    FiledUnderConcat(t + c, g, all);
  }

  lemma TitleChecksShape(title: Text)
    ensures FiledUnder(TitleChecks(title), {"title"})
    ensures TitleChecks(title) == [] <==> 0 < |title| <= MaxFieldBytes
  {
  }

  lemma CompanyChecksShape(company: Text)
    ensures FiledUnder(CompanyChecks(company), {"company"})
    ensures CompanyChecks(company) == [] <==> 0 < |company| <= MaxFieldBytes
  {
  }

  lemma TagChecksShape(tags: Slice<Text>)
    ensures FiledUnder(TagChecks(tags), {"tags"})
    ensures TagChecks(tags) == [] <==> (tags.Slice? && 1 <= |tags.elems| <= MaxTags && Unique(tags.elems))
  {
  }

  lemma FiledUnderWiden(fs: seq<Violation>, fields: set<string>, wider: set<string>)
    requires FiledUnder(fs, fields) && fields <= wider
    ensures FiledUnder(fs, wider)
  {
  }

  lemma FiledUnderConcat(a: seq<Violation>, b: seq<Violation>, fields: set<string>)
    requires FiledUnder(a, fields) && FiledUnder(b, fields)
    ensures FiledUnder(a + b, fields)
  {
    forall k | 0 <= k < |a + b| ensures (a + b)[k].field in fields {
      if k < |a| { assert (a + b)[k] == a[k]; } else { assert (a + b)[k] == b[k - |a|]; }
    }
  }

  /** A list of violations all filed under `field` reports `field` exactly when
      it is non-empty, and never reports another field. */
  lemma ReportsOnly(fs: seq<Violation>, field: string, other: string)
    requires FiledUnder(fs, {field})
    requires other != field
    ensures Reports(fs, field) <==> fs != []
    ensures !Reports(fs, other)
  {
    if fs != [] { assert fs[0].field in {field}; }
  }

  lemma ReportsConcat(a: seq<Violation>, b: seq<Violation>, field: string)
    ensures Reports(a + b, field) <==> Reports(a, field) || Reports(b, field)
  {
    if Reports(a + b, field) {
      var k :| 0 <= k < |a + b| && (a + b)[k].field == field;
      if k >= |a| { assert b[k - |a|] == (a + b)[k]; }
    }
    if Reports(b, field) {
      var k :| 0 <= k < |b| && b[k].field == field;
      assert (a + b)[k + |a|] == b[k];
    }
    if Reports(a, field) {
      var k :| 0 <= k < |a| && a[k].field == field;
      assert (a + b)[k] == a[k];
    }
  }

  /** The record `Get` scans from row `id`: `active` is not in its column list,
      so it keeps its zero value. */
  function Fetched(id: int, row: VacancyRow): Vacancy {
    Vacancy(id, row.createdAt, row.title, row.company, false, row.tags, row.version)
  }

  /** The record a lookup that also selects `active` would scan from row `id`. */
  function FetchedWithActive(id: int, row: VacancyRow): Vacancy {
    Vacancy(id, row.createdAt, row.title, row.company, row.active, row.tags, row.version)
  }

  /** The rows a matching `UPDATE ... WHERE id = $5 AND version = $6` finds. */
  predicate IsCurrent(rows: map<int, VacancyRow>, v: Vacancy) {
    v.id in rows && rows[v.id].version == v.version
  }

  /** `VacancyModel`: the `vacancies` table as a map from id to row, with the
      counter the table's id column draws fresh ids from. */
  class VacancyModel {
    var rows: map<int, VacancyRow>
    var nextId: int

    /** Ids are positive and below the counter (so the counter's value is fresh);
        versions start at 1 and only grow. */
    ghost predicate Valid()
      reads this
    {
      && 1 <= nextId
      && forall id :: id in rows ==> 1 <= id < nextId && rows[id].version >= 1
    }

    /** An empty table. */
    constructor ()
      ensures Valid() && rows == map[] && nextId == 1
    {
      rows := map[];
      nextId := 1;
    }

    /** `INSERT INTO vacancies (title, company, tags) ... RETURNING id, created_at, version`.
        The store supplies the id, the timestamp `now`, `version = 1` and `active = false`;
        only `id`, `createdAt` and `version` are written back into the record. */
    method Insert(v: Vacancy, now: int, fault: Option<StoreFault>) returns (written: Vacancy, err: Option<Error>)
      requires Valid()
      modifies this
      ensures Valid()
      ensures fault.Some? ==>
                err == Some(Store(fault.value)) && written == v
                && rows == old(rows) && nextId == old(nextId)
      ensures fault.None? ==>
                && err == None
                && old(nextId) !in old(rows)
                && written == v.(id := old(nextId), createdAt := now, version := 1)
                && rows == old(rows)[old(nextId) := VacancyRow(now, v.title, v.company, false, v.tags, 1)]
                && nextId == old(nextId) + 1
    {
      if fault.Some? {
        return v, Some(Store(fault.value));
      }
      var id := nextId;
      rows := rows[id := VacancyRow(now, v.title, v.company, false, v.tags, 1)];
      nextId := nextId + 1;
      written := v.(id := id, createdAt := now, version := 1);
      err := None;
    }

    /** `SELECT id, created_at, title, company, tags, version FROM vacancies WHERE id = $1`.
        An id below 1 is refused before the table or the store is consulted; the
        `active` column is not selected, so the record carries `false`. */
    method Get(id: int, fault: Option<StoreFault>) returns (r: Result<Vacancy>)
      ensures id < 1 ==> r == Err(RecordNotFound)
      ensures id >= 1 && fault.Some? ==> r == Err(Store(fault.value))
      ensures id >= 1 && fault.None? && id !in rows ==> r == Err(RecordNotFound)
      ensures id >= 1 && fault.None? && id in rows ==>
                r == Ok(Fetched(id, rows[id])) && !r.value.active
    {
      if id < 1 {
        return Err(RecordNotFound);
      }
      if fault.Some? {
        return Err(Store(fault.value));
      }
      if id !in rows {
        return Err(RecordNotFound);
      }
      var row := rows[id];
      r := Ok(Fetched(id, row));
    }

    /** `Get` as it would read with `active` in its column list: the corrected
        lookup the fixed update handler uses. */
    method GetWithActive(id: int, fault: Option<StoreFault>) returns (r: Result<Vacancy>)
      ensures id < 1 ==> r == Err(RecordNotFound)
      ensures id >= 1 && fault.Some? ==> r == Err(Store(fault.value))
      ensures id >= 1 && fault.None? && id !in rows ==> r == Err(RecordNotFound)
      ensures id >= 1 && fault.None? && id in rows ==>
                r == Ok(FetchedWithActive(id, rows[id])) && r.value.active == rows[id].active
    {
      if id < 1 {
        return Err(RecordNotFound);
      }
      if fault.Some? {
        return Err(Store(fault.value));
      }
      if id !in rows {
        return Err(RecordNotFound);
      }
      var row := rows[id];
      r := Ok(FetchedWithActive(id, row));
    }

    /** `UPDATE vacancies SET title, company, tags, active, version = version + 1
        WHERE id = $5 AND version = $6 RETURNING version`: a compare-and-swap on
        `(id, version)`. A missing id and a stale version both give `EditConflict`
        and leave the table as it was; on success only that row changes, its
        creation time is kept and the new version is written back. */
    method Update(v: Vacancy, fault: Option<StoreFault>) returns (written: Vacancy, err: Option<Error>)
      requires Valid()
      modifies this
      ensures Valid() && nextId == old(nextId)
      ensures fault.Some? ==> err == Some(Store(fault.value)) && written == v && rows == old(rows)
      ensures fault.None? && !IsCurrent(old(rows), v) ==>
                err == Some(EditConflict) && written == v && rows == old(rows)
      ensures fault.None? && IsCurrent(old(rows), v) ==>
                && err == None
                && written == v.(version := v.version + 1)
                && rows == old(rows)[v.id := VacancyRow(old(rows)[v.id].createdAt, v.title, v.company,
                                                        v.active, v.tags, v.version + 1)]
    {
      if fault.Some? {
        return v, Some(Store(fault.value));
      }
      if !(v.id in rows && rows[v.id].version == v.version) {
        return v, Some(EditConflict);
      }
      var newVersion := rows[v.id].version + 1;
      rows := rows[v.id := VacancyRow(rows[v.id].createdAt, v.title, v.company, v.active, v.tags, newVersion)];
      written := v.(version := newVersion);
      err := None;
    }

    /** `DELETE FROM vacancies WHERE id = $1`: an id below 1 is refused without a
        query, and "no row affected" is reported as `RecordNotFound`. */
    method Delete(id: int, fault: Option<StoreFault>) returns (err: Option<Error>)
      requires Valid()
      modifies this
      ensures Valid() && nextId == old(nextId)
      ensures id < 1 ==> err == Some(RecordNotFound) && rows == old(rows)
      ensures id >= 1 && fault.Some? ==> err == Some(Store(fault.value)) && rows == old(rows)
      ensures id >= 1 && fault.None? && id !in old(rows) ==> err == Some(RecordNotFound) && rows == old(rows)
      ensures id >= 1 && fault.None? && id in old(rows) ==> err == None && rows == old(rows) - {id}
    {
      if id < 1 {
        return Some(RecordNotFound);
      }
      if fault.Some? {
        return Some(Store(fault.value));
      }
      if id !in rows {
        return Some(RecordNotFound);
      }
      rows := rows - {id};
      err := None;
    }
  }

  /** An inserted vacancy read back: the input's title, company and tags, the
      fresh id, the insert's timestamp and version 1; `active` reads as false. */
  method InsertThenGet(m: VacancyModel, v: Vacancy, now: int) returns (written: Vacancy, read: Result<Vacancy>)
    requires m.Valid()
    modifies m
    ensures m.Valid()
    ensures written.id >= 1 && written.id !in old(m.rows)
    ensures read == Ok(Vacancy(written.id, now, v.title, v.company, false, v.tags, 1))
  {
    var err;
    written, err := m.Insert(v, now, None);
    read := m.Get(written.id, None);
  }

  /** Two updates that start from the same version: the first is applied in full,
      the second is refused with `EditConflict` and changes nothing. */
  method RacingUpdates(m: VacancyModel, a: Vacancy, b: Vacancy) returns (errA: Option<Error>, errB: Option<Error>)
    requires m.Valid()
    requires a.id == b.id && a.version == b.version && IsCurrent(m.rows, a)
    modifies m
    ensures m.Valid()
    ensures errA == None && errB == Some(EditConflict)
    ensures m.rows == old(m.rows)[a.id := VacancyRow(old(m.rows)[a.id].createdAt, a.title, a.company,
                                                     a.active, a.tags, a.version + 1)]
  {
    var wa, wb;
    wa, errA := m.Update(a, None);
    wb, errB := m.Update(b, None);
  }

  /** Deleting the same id twice: the first removes the row, the second fails with
      `RecordNotFound`. */
  method DeleteTwice(m: VacancyModel, id: int) returns (first: Option<Error>, second: Option<Error>)
    requires m.Valid() && id in m.rows
    modifies m
    ensures m.Valid()
    ensures first == None && second == Some(RecordNotFound)
    ensures m.rows == old(m.rows) - {id}
  {
    first := m.Delete(id, None);
    second := m.Delete(id, None);
  }
}
