/**
 * The `suggestions` table as the three action files use it through the
 * Supabase client: insert one row, update the response fields of the row
 * with a given id, delete the row with a given id, and select every row
 * ordered by `created_at` descending. The insert, the update and the
 * delete may fail (`fails`), in which case the table is left as it was;
 * the select does not fail.
 */
module SuggestionStore {

  import opened Wrappers
  import opened Database

  /**
   * The object an insert sends. A field it does not send is `None` and
   * takes the column's default: `category` the table's `defaultCategory`,
   * `user_id` null, and the three response columns stay unset.
   */
  datatype NewSuggestion = NewSuggestion(
    content: string,
    category: Option<string>,
    user_id: Option<string>,
    author_name: Option<string>)

  /** The object an update of the response columns sends. */
  datatype ResponsePatch = ResponsePatch(
    status: string,
    admin_response: Option<string>,
    admin_responded_at: Option<Timestamp>)

  /** The row the store keeps for an insert, given the id and instant it assigns. */
  function Stored(payload: NewSuggestion, id: string, now: Timestamp, defaultCategory: string): Suggestion {
    Suggestion(id, payload.content, payload.author_name, payload.user_id,
               payload.category.GetOr(defaultCategory), None, None, None, now)
  }

  /** `row` with the three response columns written from `patch`. */
  function Apply(row: Suggestion, patch: ResponsePatch): Suggestion {
    row.(status := Some(patch.status),
         admin_response := Some(patch.admin_response),
         admin_responded_at := Some(patch.admin_responded_at))
  }

  /** `rows` with the row whose id is `id` patched, every other row as it was. */
  function PatchRows(rows: seq<Suggestion>, id: string, patch: ResponsePatch): (r: seq<Suggestion>)
    ensures |r| == |rows|
    ensures forall k :: 0 <= k < |r| ==> r[k] == if rows[k].id == id then Apply(rows[k], patch) else rows[k]
  {
    seq(|rows|, k requires 0 <= k < |rows| => if rows[k].id == id then Apply(rows[k], patch) else rows[k])
  }

  predicate HasId(rows: seq<Suggestion>, id: string) {
    exists k :: 0 <= k < |rows| && rows[k].id == id
  }

  /** The primary key: no two rows share an id. */
  predicate UniqueIds(rows: seq<Suggestion>) {
    forall i, j :: 0 <= i < j < |rows| ==> rows[i].id != rows[j].id
  }

  /** Newest first: `created_at` never increases along the sequence. */
  predicate NewestFirst(rows: seq<Suggestion>) {
    forall i, j :: 0 <= i < j < |rows| ==> rows[i].created_at >= rows[j].created_at
  }

  /** Puts `row` into a newest-first sequence at its place. */
  function InsertNewestFirst(sorted: seq<Suggestion>, row: Suggestion): (r: seq<Suggestion>)
    requires NewestFirst(sorted)
    ensures NewestFirst(r)
    ensures multiset(r) == multiset(sorted) + multiset{row}
    ensures r[0] == row || r[0] == sorted[0]
  {
    if sorted == [] || row.created_at >= sorted[0].created_at then
      ConsNewestFirst(row, sorted);
      [row] + sorted
    else
      var rest := InsertNewestFirst(sorted[1..], row);
      ConsNewestFirst(sorted[0], rest);
      ConsMultiset(sorted, rest, row);
      [sorted[0]] + rest
  }

  lemma ConsNewestFirst(head: Suggestion, rows: seq<Suggestion>)
    requires NewestFirst(rows) && (rows == [] || rows[0].created_at <= head.created_at)
    ensures NewestFirst([head] + rows)
  {
  }

  lemma ConsMultiset(sorted: seq<Suggestion>, rest: seq<Suggestion>, row: Suggestion)
    requires sorted != [] && multiset(rest) == multiset(sorted[1..]) + multiset{row}
    ensures multiset([sorted[0]] + rest) == multiset(sorted) + multiset{row}
  {
    assert sorted == [sorted[0]] + sorted[1..];
  }

  /** `rows` without the rows whose id is `id`, the others kept in order. */
  function RemoveId(rows: seq<Suggestion>, id: string): (r: seq<Suggestion>)
    ensures forall k :: 0 <= k < |r| ==> r[k].id != id
    ensures forall x :: x in rows && x.id != id ==> x in r
    ensures forall x :: x in r ==> x in rows
    ensures UniqueIds(rows) ==> UniqueIds(r)
  {
    if rows == [] then []
    else
      var rest := RemoveId(rows[1..], id);
      assert forall x :: x in rows[1..] ==> x in rows;
      if rows[0].id == id then rest
      else
        assert forall k :: 0 <= k < |rest| ==> rest[k] in rows[1..];
        [rows[0]] + rest
  }

  /** Under the primary key, deleting by id removes exactly one row when the id is present and none otherwise. */
  lemma {:induction false} RemoveIdCount(rows: seq<Suggestion>, id: string)
    requires UniqueIds(rows)
    ensures |RemoveId(rows, id)| == |rows| - (if HasId(rows, id) then 1 else 0)
  {
    if rows != [] {
      var tail := rows[1..];
      assert UniqueIds(tail);
      RemoveIdCount(tail, id);
      if rows[0].id == id {
        assert !HasId(tail, id) by {
          forall k | 0 <= k < |tail| ensures tail[k].id != id {
            assert rows[k + 1] == tail[k];
          }
        }
      } else {
        assert HasId(rows, id) <==> HasId(tail, id) by {
          if HasId(rows, id) {
            var k :| 0 <= k < |rows| && rows[k].id == id;
            assert tail[k - 1].id == id;
          }
          if HasId(tail, id) {
            var k :| 0 <= k < |tail| && tail[k].id == id;
            assert rows[k + 1].id == id;
          }
        }
      }
    }
  }

  class Table {
    var rows: seq<Suggestion>
    /** The schema's default for `category`, which is not part of this repository. */
    const defaultCategory: string

    ghost predicate Valid()
      reads this
    {
      UniqueIds(rows)
    }

    constructor (initial: seq<Suggestion>, defaultCategory: string)
      requires UniqueIds(initial)
      ensures Valid() && rows == initial && this.defaultCategory == defaultCategory
    {
      rows := initial;
      this.defaultCategory := defaultCategory;
    }

    /**
     * `insert(payload)`: on success exactly one row, with the assigned
     * `id` and `created_at`, is appended. An id already present is a
     * primary-key violation and fails like any other store error.
     */
    method Insert(payload: NewSuggestion, id: string, now: Timestamp, fails: bool) returns (ok: bool)
      requires Valid()
      modifies this
      ensures Valid()
      ensures ok <==> !fails && !HasId(old(rows), id)
      ensures rows == if ok then old(rows) + [Stored(payload, id, now, defaultCategory)] else old(rows)
    {
      ok := !fails && !HasId(rows, id);
      if ok {
        rows := rows + [Stored(payload, id, now, defaultCategory)];
      }
    }

    /**
     * `update(patch).eq("id", id)`: the row with that id, if any, gets the
     * three response columns from `patch`; every other row and every other
     * column is unchanged.
     */
    method UpdateById(id: string, patch: ResponsePatch, fails: bool) returns (ok: bool)
      requires Valid()
      modifies this
      ensures Valid()
      ensures ok == !fails
      ensures rows == if ok then PatchRows(old(rows), id, patch) else old(rows)
    {
      ok := !fails;
      if ok {
        rows := PatchRows(rows, id, patch);
      }
    }

    /** `delete().eq("id", id)`: removes the row with that id, if any, and no other. */
    method DeleteById(id: string, fails: bool) returns (ok: bool)
      requires Valid()
      modifies this
      ensures Valid()
      ensures ok == !fails
      ensures rows == if ok then RemoveId(old(rows), id) else old(rows)
      ensures ok ==> |rows| == |old(rows)| - (if HasId(old(rows), id) then 1 else 0)
    {
      ok := !fails;
      if ok {
        RemoveIdCount(rows, id);
        rows := RemoveId(rows, id);
      }
    }

    /** `select().order("created_at", { ascending: false })`: every row, newest first. */
    method SelectNewestFirst() returns (r: seq<Suggestion>)
      ensures NewestFirst(r)
      ensures multiset(r) == multiset(rows)
    {
      r := [];
      var i := 0;
      while i < |rows|
        invariant 0 <= i <= |rows|
        invariant NewestFirst(r)
        invariant multiset(r) == multiset(rows[..i])
      {
        assert rows[..i + 1] == rows[..i] + [rows[i]];
        r := InsertNewestFirst(r, rows[i]);
        i := i + 1;
      }
      assert rows[..i] == rows;
    }
  }
}
