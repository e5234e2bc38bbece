/**
 * The Experience form: the rows the user edits, and the submit handler that
 * reconciles them with the remote collection (deletes first, then one update
 * or create per row, in row order, stopping at the first failure, with the
 * id of each created document written back into the live rows).
 *
 * The handler is proved against a three-phase description: `Plan` lists
 * the calls a submit intends, `Exec` runs them until one fails, and
 * `PatchBack` gives the rows after the creates that succeeded.
 */
module ExperienceForm {
  import opened Optional
  import opened ExperienceStore

  /** A row's `id`: absent, null or a string; strict equality (`===`) is equality of these values. */
  datatype RowId = Undefined | Null | Text(s: string)

  /** JavaScript truthiness of a row id: only a non-empty string is truthy. */
  predicate Truthy(id: RowId) {
    id.Text? && id.s != ""
  }

  /** One row of the form: its id and the five editable fields. */
  datatype Row = Row(id: RowId, fields: Fields)

  /** One row per loaded document, in order, carrying its `$id` and its editable fields. */
  function RowsOf(docs: seq<Document>): (rows: seq<Row>)
    ensures |rows| == |docs|
    ensures forall k :: 0 <= k < |docs| ==> rows[k] == Row(Text(docs[k].id), docs[k].fields)
  {
    if docs == [] then [] else [Row(Text(docs[0].id), docs[0].fields)] + RowsOf(docs[1..])
  }

  /** The form's initial rows: the loaded documents, or none when `data` is null. */
  function InitialRows(data: Option<seq<Document>>): (rows: seq<Row>)
    ensures data.None? ==> rows == []
    ensures data.Some? ==> |rows| == |data.value|
    ensures data.Some? ==> forall k :: 0 <= k < |rows| ==> rows[k] == Row(Text(data.value[k].id), data.value[k].fields)
  {
    match data
    case None => []
    case Some(docs) => RowsOf(docs)
  }

  /** `formIds.includes(x)`: some row carries exactly the string `x` as its id. */
  predicate Carried(rows: seq<Row>, x: string) {
    exists k :: 0 <= k < |rows| && rows[k].id == Text(x)
  }

  /** `x` is the `$id` of some loaded document. */
  predicate Loaded(data: Option<seq<Document>>, x: string) {
    data.Some? && exists k :: 0 <= k < |data.value| && data.value[k].id == x
  }

  /** The loaded ids, in order (`existingIds`). */
  function LoadedIds(docs: seq<Document>): (ids: seq<string>)
    ensures |ids| == |docs| && forall k :: 0 <= k < |docs| ==> ids[k] == docs[k].id
  {
    seq(|docs|, k requires 0 <= k < |docs| => docs[k].id)
  }

  /** The ids in `ids` that no row carries, in order and with their multiplicity. */
  function Difference(ids: seq<string>, rows: seq<Row>): (r: seq<string>)
    ensures |r| <= |ids|
    decreases |ids|
  {
    if ids == [] then []
    else
      var rest := Difference(ids[1..], rows);
      if Carried(rows, ids[0]) then rest else [ids[0]] + rest
  }

  /** Every id `Difference` keeps occurs in `ids` and is carried by no row. */
  lemma {:induction false} DifferenceKeeps(ids: seq<string>, rows: seq<Row>)
    ensures forall x :: x in Difference(ids, rows) ==> x in ids && !Carried(rows, x)
    decreases |ids|
  {
    if ids != [] {
      DifferenceKeeps(ids[1..], rows);
    }
  }

  /** `Difference` keeps every uncarried id as often as it occurs and drops every carried one. */
  lemma {:induction false} DifferenceCount(ids: seq<string>, rows: seq<Row>)
    ensures forall x :: multiset(Difference(ids, rows))[x] == if Carried(rows, x) then 0 else multiset(ids)[x]
    decreases |ids|
  {
    if ids != [] {
      DifferenceCount(ids[1..], rows);
      assert ids == [ids[0]] + ids[1..];
    }
  }

  /** The delete set: the loaded ids that the submitted rows no longer carry. */
  function DeleteSet(rows: seq<Row>, data: Option<seq<Document>>): seq<string> {
    match data
    case None => []
    case Some(docs) => Difference(LoadedIds(docs), rows)
  }

  /**
   * The delete set holds exactly the loaded ids that no row carries, each as
   * often as it was loaded; with no loaded data it is empty.
   */
  lemma DeleteSetMembers(rows: seq<Row>, data: Option<seq<Document>>)
    ensures data.None? ==> DeleteSet(rows, data) == []
    ensures forall x :: x in DeleteSet(rows, data) <==> Loaded(data, x) && !Carried(rows, x)
  {
    if data.Some? {
      var docs := data.value;
      var ids := LoadedIds(docs);
      var d := Difference(ids, rows);
      DifferenceCount(ids, rows);
      assert forall x :: x in d <==> multiset(d)[x] > 0;
      assert forall x :: x in ids <==> multiset(ids)[x] > 0;
      forall x
        ensures x in ids <==> Loaded(data, x)
      {
        if Loaded(data, x) {
          var k :| 0 <= k < |docs| && docs[k].id == x;
          assert ids[k] == x;
        }
      }
    }
  }

  /** The upsert for one row: an update of a truthy id, otherwise a create under a fresh id. */
  function UpsertFor(row: Row, account: string, portfolio: Option<string>, newId: UniqueId): (c: Call)
    ensures c.Update? <==> Truthy(row.id)
    ensures c.Update? ==> c.id == row.id.s && c.fields == row.fields
    ensures !c.Update? ==> c.Create? && c.id == newId && c.doc == Stored(row.fields, account, portfolio)
  {
    if Truthy(row.id) then Update(row.id.s, row.fields)
    else Create(newId, Stored(row.fields, account, portfolio))
  }

  /** One delete per id of the delete set, in order. */
  function Deletes(d: seq<string>): (calls: seq<Call>)
    ensures |calls| == |d|
  {
    seq(|d|, i requires 0 <= i < |d| => Delete(d[i]))
  }

  /** One upsert per row, in row order; the create for row j is issued at log position first + j. */
  function Upserts(rows: seq<Row>, account: string, portfolio: Option<string>, unique: nat -> UniqueId, first: nat): (calls: seq<Call>)
    ensures |calls| == |rows|
  {
    seq(|rows|, j requires 0 <= j < |rows| => UpsertFor(rows[j], account, portfolio, unique(first + j)))
  }

  /**
   * Every call a submit intends, issued from log position `base`: the account
   * lookup, one delete per id of the delete set, then one upsert per row.
   */
  function Plan(rows: seq<Row>, data: Option<seq<Document>>, account: string, portfolio: Option<string>,
                unique: nat -> UniqueId, base: nat): (p: seq<Call>)
    ensures |p| == 1 + |DeleteSet(rows, data)| + |rows|
  {
    PlanFor(DeleteSet(rows, data), rows, account, portfolio, unique, base)
  }

  /** The plan for a given delete set `d`. */
  function PlanFor(d: seq<string>, rows: seq<Row>, account: string, portfolio: Option<string>,
                   unique: nat -> UniqueId, base: nat): (p: seq<Call>)
    ensures |p| == 1 + |d| + |rows|
  {
    [GetAccount] + Deletes(d) + Upserts(rows, account, portfolio, unique, base + 1 + |d|)
  }

  lemma PlanForAt(d: seq<string>, rows: seq<Row>, account: string, portfolio: Option<string>,
                  unique: nat -> UniqueId, base: nat, t: nat)
    requires t < 1 + |d| + |rows|
    ensures var p := PlanFor(d, rows, account, portfolio, unique, base);
            && (t == 0 ==> p[t] == GetAccount)
            && (0 < t <= |d| ==> p[t] == Delete(d[t - 1]))
            && (1 + |d| <= t ==> p[t] == UpsertFor(rows[t - 1 - |d|], account, portfolio, unique(base + t)))
  {
    var ds := Deletes(d);
    var us := Upserts(rows, account, portfolio, unique, base + 1 + |d|);
    var head := [GetAccount] + ds;
    assert PlanFor(d, rows, account, portfolio, unique, base) == head + us;
    if t <= |d| {
      assert (head + us)[t] == head[t];
      if t > 0 {
        assert head[t] == ds[t - 1];
      }
    } else {
      var j := t - 1 - |d|;
      assert (head + us)[t] == us[j];
      assert us[j] == UpsertFor(rows[j], account, portfolio, unique(base + 1 + |d| + j));
    }
  }

  /**
   * The plan's layout, call by call: the lookup first; then the deletes in
   * delete-set order; then, for row j in row order, an update of its truthy id
   * carrying only the five fields, or a create carrying the five fields, the
   * account as creator and the current portfolio, under the id generated at
   * its log position.
   */
  lemma PlanAt(rows: seq<Row>, data: Option<seq<Document>>, account: string, portfolio: Option<string>,
               unique: nat -> UniqueId, base: nat, t: nat)
    requires t < |Plan(rows, data, account, portfolio, unique, base)|
    ensures var d := DeleteSet(rows, data);
            var p := Plan(rows, data, account, portfolio, unique, base);
            && (t == 0 ==> p[t] == GetAccount)
            && (0 < t <= |d| ==> p[t] == Delete(d[t - 1]))
            && (1 + |d| <= t ==> p[t] == UpsertFor(rows[t - 1 - |d|], account, portfolio, unique(base + t)))
            && (1 + |d| <= t && Truthy(rows[t - 1 - |d|].id) ==>
                  p[t] == Update(rows[t - 1 - |d|].id.s, rows[t - 1 - |d|].fields))
            && (1 + |d| <= t && !Truthy(rows[t - 1 - |d|].id) ==>
                  p[t] == Create(unique(base + t), Stored(rows[t - 1 - |d|].fields, account, portfolio)))
  {
    PlanForAt(DeleteSet(rows, data), rows, account, portfolio, unique, base, t);
  }

  /** The account lookup is the first call and the only one; no delete follows an update or a create. */
  lemma LookupThenDeletesThenUpserts(rows: seq<Row>, data: Option<seq<Document>>, account: string,
                                     portfolio: Option<string>, unique: nat -> UniqueId, base: nat)
    ensures var p := Plan(rows, data, account, portfolio, unique, base);
            && p[0] == GetAccount
            && (forall t :: 0 < t < |p| ==> !p[t].GetAccount?)
            && (forall s, t :: 0 <= s < t < |p| && p[t].Delete? ==> !p[s].Update? && !p[s].Create?)
  {
    var d := DeleteSet(rows, data);
    var p := Plan(rows, data, account, portfolio, unique, base);
    PlanAt(rows, data, account, portfolio, unique, base, 0);
    forall t | 0 < t < |p|
      ensures (t <= |d| ==> p[t].Delete?) && (t > |d| ==> p[t].Update? || p[t].Create?)
    {
      PlanAt(rows, data, account, portfolio, unique, base, t);
    }
  }

  /** The user-visible notifications. */
  datatype Notice = Deleted | Updated(title: string) | Created(title: string) | Failed

  function NoticeFor(c: Call): seq<Notice> {
    match c
    case GetAccount => []
    case Delete(_) => [Deleted]
    case Update(_, f) => [Updated(f.title)]
    case Create(_, doc) => [Created(doc.fields.title)]
  }

  /** The notifications raised by the first `n` of `calls`, all successful. */
  function Notices(calls: seq<Call>, n: nat): (ns: seq<Notice>)
    requires n <= |calls|
    ensures |ns| <= n
    decreases n
  {
    if n == 0 then [] else Notices(calls, n - 1) + NoticeFor(calls[n - 1])
  }

  /** Successful calls never raise the error notification. */
  lemma {:induction false} NoErrorNoticeFromSuccesses(calls: seq<Call>, n: nat)
    requires n <= |calls|
    ensures Failed !in Notices(calls, n)
    decreases n
  {
    if n != 0 {
      NoErrorNoticeFromSuccesses(calls, n - 1);
    }
  }

  /**
   * After the leading account lookup, which raises nothing, each successful
   * call raises exactly one notification, in call order: a delete its
   * "deleted" notice, an update or a create its notice with the title it wrote.
   */
  lemma {:induction false} NoticesPerCall(calls: seq<Call>, n: nat)
    requires 1 <= n <= |calls| && calls[0] == GetAccount
    requires forall i :: 0 < i < |calls| ==> !calls[i].GetAccount?
    ensures var ns := Notices(calls, n);
            && |ns| == n - 1
            && forall i :: 1 <= i < n ==>
                 && (calls[i].Delete? ==> ns[i - 1] == Deleted)
                 && (calls[i].Update? ==> ns[i - 1] == Updated(calls[i].fields.title))
                 && (calls[i].Create? ==> ns[i - 1] == Created(calls[i].doc.fields.title))
    decreases n
  {
    if n > 1 {
      NoticesPerCall(calls, n - 1);
    }
  }

  /** The patch-back after one create: every row whose id strictly equals `from` takes the new id. */
  function Patch(rows: seq<Row>, from: RowId, to: UniqueId): (r: seq<Row>)
    ensures |r| == |rows|
  {
    seq(|rows|, k requires 0 <= k < |rows| => if rows[k].id == from then rows[k].(id := Text(to)) else rows[k])
  }

  /**
   * One patch-back keeps every row's fields; the rows whose id strictly
   * equals `from` take the new id and every other row is unchanged.
   */
  lemma PatchRows(rows: seq<Row>, from: RowId, to: UniqueId)
    ensures var r := Patch(rows, from, to);
            forall k :: 0 <= k < |r| ==>
              && r[k].fields == rows[k].fields
              && (rows[k].id == from ==> r[k].id == Text(to))
              && (rows[k].id != from ==> r[k] == rows[k])
  {
  }

  /**
   * The rows after the upserts of the first `n` rows of `exps` (the first at
   * log position `first`) all succeeded: each create patches back its new id.
   */
  function PatchBack(rows: seq<Row>, exps: seq<Row>, n: nat, first: nat, unique: nat -> UniqueId): (r: seq<Row>)
    requires n <= |exps|
    ensures |r| == |rows|
    decreases n
  {
    if n == 0 then rows
    else
      var prev := PatchBack(rows, exps, n - 1, first, unique);
      var e := exps[n - 1];
      if Truthy(e.id) then prev else Patch(prev, e.id, unique(first + n - 1))
  }

  /**
   * Reference for the patch-back: a row's id after the upserts of `exps` is the
   * new id of the first create whose row carried the same falsy id, or is
   * unchanged when there is none.
   */
  function FinalId(id: RowId, exps: seq<Row>, first: nat, unique: nat -> UniqueId): RowId
    decreases |exps|
  {
    if exps == [] then id
    else if !Truthy(exps[0].id) && exps[0].id == id then Text(unique(first))
    else FinalId(id, exps[1..], first + 1, unique)
  }

  lemma {:induction false} FinalIdSnoc(id: RowId, exps: seq<Row>, e: Row, first: nat, unique: nat -> UniqueId)
    ensures var f := FinalId(id, exps, first, unique);
            FinalId(id, exps + [e], first, unique)
              == if !Truthy(e.id) && e.id == f then Text(unique(first + |exps|)) else f
    decreases |exps|
  {
    if exps == [] {
    } else {
      assert (exps + [e])[1..] == exps[1..] + [e];
      if !Truthy(exps[0].id) && exps[0].id == id {
      } else {
        FinalIdSnoc(id, exps[1..], e, first + 1, unique);
      }
    }
  }

  /** The patch-back keeps every row's fields and gives each row the id `FinalId` describes. */
  lemma {:induction false} PatchBackIds(rows: seq<Row>, exps: seq<Row>, n: nat, first: nat, unique: nat -> UniqueId)
    requires n <= |exps|
    ensures var r := PatchBack(rows, exps, n, first, unique);
            && |r| == |rows|
            && forall k :: 0 <= k < |rows| ==> r[k] == Row(FinalId(rows[k].id, exps[..n], first, unique), rows[k].fields)
    decreases n
  {
    if n > 0 {
      PatchBackIds(rows, exps, n - 1, first, unique);
      assert exps[..n - 1] + [exps[n - 1]] == exps[..n];
      forall k | 0 <= k < |rows|
        ensures PatchBack(rows, exps, n, first, unique)[k] == Row(FinalId(rows[k].id, exps[..n], first, unique), rows[k].fields)
      {
        FinalIdSnoc(rows[k].id, exps[..n - 1], exps[n - 1], first, unique);
      }
    }
  }

  /** A row whose id is truthy, or was carried by one of the upserted rows, ends with a truthy id. */
  lemma {:induction false} FinalIdTruthy(id: RowId, exps: seq<Row>, first: nat, unique: nat -> UniqueId)
    requires Truthy(id) || exists j :: 0 <= j < |exps| && exps[j].id == id
    ensures Truthy(FinalId(id, exps, first, unique))
    decreases |exps|
  {
    if exps != [] && !(!Truthy(exps[0].id) && exps[0].id == id) {
      if !Truthy(id) {
        var j :| 0 <= j < |exps| && exps[j].id == id;
        assert j > 0 && exps[1..][j - 1].id == id;
      }
      FinalIdTruthy(id, exps[1..], first + 1, unique);
    }
  }

  /** After every upsert of a submit succeeded, no row of the form has a falsy id. */
  lemma NoFalsyIdAfterSuccess(rows: seq<Row>, first: nat, unique: nat -> UniqueId)
    ensures var r := PatchBack(rows, rows, |rows|, first, unique);
            |r| == |rows| && forall k :: 0 <= k < |r| ==> Truthy(r[k].id)
  {
    PatchBackIds(rows, rows, |rows|, first, unique);
    assert rows[..|rows|] == rows;
    forall k | 0 <= k < |rows|
      ensures Truthy(FinalId(rows[k].id, rows, first, unique))
    {
      FinalIdTruthy(rows[k].id, rows, first, unique);
    }
  }

  lemma {:induction false} FinalIdFirstCarrier(id: RowId, exps: seq<Row>, a: nat, first: nat, unique: nat -> UniqueId)
    requires a < |exps| && exps[a].id == id && !Truthy(id)
    requires forall i :: 0 <= i < a ==> exps[i].id != id
    ensures FinalId(id, exps, first, unique) == Text(unique(first + a))
    decreases a
  {
    if a > 0 {
      FinalIdFirstCarrier(id, exps[1..], a - 1, first + 1, unique);
    }
  }

  /**
   * Patch-back matches by value: when rows a < b carry the same falsy id and
   * row a is the first to carry it, row b ends with the id of the document
   * created for row a, although row b's own create (at position first + b)
   * wrote a different document.
   */
  lemma NewRowsShareFirstCreatedId(rows: seq<Row>, a: nat, b: nat, first: nat, unique: nat -> UniqueId)
    requires a < b < |rows|
    requires !Truthy(rows[a].id) && rows[b].id == rows[a].id
    requires forall i :: 0 <= i < a ==> rows[i].id != rows[a].id
    ensures PatchBack(rows, rows, |rows|, first, unique)[a].id == Text(unique(first + a))
    ensures PatchBack(rows, rows, |rows|, first, unique)[b].id == Text(unique(first + a))
  {
    PatchBackIds(rows, rows, |rows|, first, unique);
    assert rows[..|rows|] == rows;
    FinalIdFirstCarrier(rows[a].id, rows, a, first, unique);
  }

  /** `ID.unique()` never returns the id of a loaded document, and loaded ids are non-empty. */
  ghost predicate FreshFor(unique: nat -> UniqueId, data: Option<seq<Document>>) {
    data.Some? ==>
      (forall k :: 0 <= k < |data.value| ==> data.value[k].id != "")
      && (forall n: nat, k :: 0 <= k < |data.value| ==> unique(n) != data.value[k].id)
  }

  lemma {:induction false} FinalIdOrigin(id: RowId, exps: seq<Row>, first: nat, unique: nat -> UniqueId)
    ensures var f := FinalId(id, exps, first, unique);
            f == id || (!Truthy(id) && exists n: nat :: f == Text(unique(n)))
    decreases |exps|
  {
    if exps != [] && !(!Truthy(exps[0].id) && exps[0].id == id) {
      FinalIdOrigin(id, exps[1..], first + 1, unique);
    }
  }

  lemma {:induction false} DifferenceCongruent(ids: seq<string>, r1: seq<Row>, r2: seq<Row>)
    requires forall k :: 0 <= k < |ids| ==> (Carried(r1, ids[k]) <==> Carried(r2, ids[k]))
    ensures Difference(ids, r1) == Difference(ids, r2)
    decreases |ids|
  {
    if ids != [] {
      DifferenceCongruent(ids[1..], r1, r2);
    }
  }

  /**
   * Deletes repeat on resubmit: the delete set is recomputed from the loaded
   * documents, and the patch-back never makes a row carry a loaded id, so a
   * second submit of the patched rows has the same delete set as the first.
   */
  lemma {:induction false} DeleteSetSurvivesPatchBack(rows: seq<Row>, exps: seq<Row>, n: nat, data: Option<seq<Document>>,
                                   first: nat, unique: nat -> UniqueId)
    requires n <= |exps| && FreshFor(unique, data)
    ensures DeleteSet(PatchBack(rows, exps, n, first, unique), data) == DeleteSet(rows, data)
  {
    if data.Some? {
      var docs := data.value;
      var patched := PatchBack(rows, exps, n, first, unique);
      PatchBackIds(rows, exps, n, first, unique);
      var ids := LoadedIds(docs);
      forall i | 0 <= i < |ids|
        ensures Carried(patched, ids[i]) <==> Carried(rows, ids[i])
      {
        var x := ids[i];
        assert x == docs[i].id && x != "";
        if Carried(rows, x) {
          var k :| 0 <= k < |rows| && rows[k].id == Text(x);
          FinalIdOrigin(rows[k].id, exps[..n], first, unique);
          assert patched[k].id == Text(x);
        }
        if Carried(patched, x) {
          var k :| 0 <= k < |patched| && patched[k].id == Text(x);
          FinalIdOrigin(rows[k].id, exps[..n], first, unique);
          assert rows[k].id == Text(x);
        }
      }
      DifferenceCongruent(ids, patched, rows);
    }
  }

  /** A submit whose first delete targets a missing document fails on the lookup or on that delete. */
  lemma {:induction false} FirstDeleteOfMissingFails(rows: seq<Row>, data: Option<seq<Document>>, account: string,
                                  portfolio: Option<string>, unique: nat -> UniqueId, base: nat,
                                  docs: map<string, Stored>, faults: set<nat>)
    requires DeleteSet(rows, data) != [] && DeleteSet(rows, data)[0] !in docs
    ensures var p := Plan(rows, data, account, portfolio, unique, base);
            var run := Exec(docs, p, |p|, base, faults);
            !run.ok && run.done <= 1
  {
    var p := Plan(rows, data, account, portfolio, unique, base);
    PlanAt(rows, data, account, portfolio, unique, base, 0);
    PlanAt(rows, data, account, portfolio, unique, base, 1);
    ExecDeleteOfMissing(docs, p, base, faults);
  }

  /** No call of the plan creates a document under a loaded id. */
  lemma {:induction false} PlanCreatesNoLoadedId(rows: seq<Row>, data: Option<seq<Document>>, account: string,
                              portfolio: Option<string>, unique: nat -> UniqueId, base: nat, x: string)
    requires FreshFor(unique, data) && Loaded(data, x)
    ensures var p := Plan(rows, data, account, portfolio, unique, base);
            forall s :: 0 <= s < |p| ==> !(p[s].Create? && p[s].id == x)
  {
    var p := Plan(rows, data, account, portfolio, unique, base);
    var k :| 0 <= k < |data.value| && data.value[k].id == x;
    forall s | 0 <= s < |p|
      ensures !(p[s].Create? && p[s].id == x)
    {
      PlanAt(rows, data, account, portfolio, unique, base, s);
      assert unique(base + s) != data.value[k].id;
    }
  }

  /**
   * A second submit of the patched rows, against a store `after` that no
   * longer holds the first id of the delete set, has the same delete set and
   * fails on the lookup or on that first delete.
   */
  lemma {:induction false} SecondSubmitFails(rows: seq<Row>, data: Option<seq<Document>>, account: string,
                                             portfolio: Option<string>, unique: nat -> UniqueId, first: nat,
                                             base2: nat, after: map<string, Stored>, faults: set<nat>)
    requires FreshFor(unique, data)
    requires DeleteSet(rows, data) != [] && DeleteSet(rows, data)[0] !in after
    ensures var rows2 := PatchBack(rows, rows, |rows|, first, unique);
            var p2 := Plan(rows2, data, account, portfolio, unique, base2);
            var run2 := Exec(after, p2, |p2|, base2, faults);
            DeleteSet(rows2, data) == DeleteSet(rows, data) && !run2.ok && run2.done <= 1
  {
    var rows2 := PatchBack(rows, rows, |rows|, first, unique);
    DeleteSetSurvivesPatchBack(rows, rows, |rows|, data, first, unique);
    FirstDeleteOfMissingFails(rows2, data, account, portfolio, unique, base2, after, faults);
  }

  /**
   * Resubmitting after a fully successful submit with a non-empty delete set
   * re-issues the first delete, the document is gone, and the second submit
   * fails there (or on the lookup) before any update or create.
   */
  lemma {:induction false} ResubmitAfterSuccessFails(rows: seq<Row>, data: Option<seq<Document>>, account: string,
                                  portfolio: Option<string>, unique: nat -> UniqueId, base: nat, base2: nat,
                                  docs: map<string, Stored>, faults: set<nat>)
    requires FreshFor(unique, data)
    requires DeleteSet(rows, data) != []
    requires var p := Plan(rows, data, account, portfolio, unique, base);
             Exec(docs, p, |p|, base, faults).ok
    ensures var d := DeleteSet(rows, data);
            var p := Plan(rows, data, account, portfolio, unique, base);
            var after := Exec(docs, p, |p|, base, faults).docs;
            var rows2 := PatchBack(rows, rows, |rows|, base + 1 + |d|, unique);
            var p2 := Plan(rows2, data, account, portfolio, unique, base2);
            var run2 := Exec(after, p2, |p2|, base2, faults);
            DeleteSet(rows2, data) == d && !run2.ok && run2.done <= 1
  {
    var d := DeleteSet(rows, data);
    var p := Plan(rows, data, account, portfolio, unique, base);
    FirstDeleteDone(rows, data, account, portfolio, unique, base, docs, faults);
    SecondSubmitFails(rows, data, account, portfolio, unique, base + 1 + |d|, base2,
                      Exec(docs, p, |p|, base, faults).docs, faults);
  }

  /** After a fully successful submit, the first id of its delete set is absent from the store. */
  lemma {:induction false} FirstDeleteDone(rows: seq<Row>, data: Option<seq<Document>>, account: string,
                        portfolio: Option<string>, unique: nat -> UniqueId, base: nat,
                        docs: map<string, Stored>, faults: set<nat>)
    requires FreshFor(unique, data)
    requires DeleteSet(rows, data) != []
    requires var p := Plan(rows, data, account, portfolio, unique, base);
             Exec(docs, p, |p|, base, faults).ok
    ensures var p := Plan(rows, data, account, portfolio, unique, base);
            DeleteSet(rows, data)[0] !in Exec(docs, p, |p|, base, faults).docs
  {
    var d := DeleteSet(rows, data);
    var p := Plan(rows, data, account, portfolio, unique, base);
    DeleteSetMembers(rows, data);
    assert d[0] in d;
    PlanAt(rows, data, account, portfolio, unique, base, 0);
    PlanAt(rows, data, account, portfolio, unique, base, 1);
    PlanCreatesNoLoadedId(rows, data, account, portfolio, unique, base, d[0]);
    ExecDeletedStaysAbsent(docs, p, base, faults);
  }

  /** After a fully successful submit, a second submit issues no create. */
  lemma {:induction false} ResubmitCreatesNothing(rows: seq<Row>, data: Option<seq<Document>>, account: string,
                               portfolio: Option<string>, unique: nat -> UniqueId, first: nat, base2: nat)
    ensures var p := Plan(PatchBack(rows, rows, |rows|, first, unique), data, account, portfolio, unique, base2);
            forall t :: 0 <= t < |p| ==> !p[t].Create?
  {
    var rows2 := PatchBack(rows, rows, |rows|, first, unique);
    NoFalsyIdAfterSuccess(rows, first, unique);
    var d := DeleteSet(rows2, data);
    var p := Plan(rows2, data, account, portfolio, unique, base2);
    forall t | 0 <= t < |p|
      ensures !p[t].Create?
    {
      PlanAt(rows2, data, account, portfolio, unique, base2, t);
      if 1 + |d| <= t {
        assert Truthy(rows2[t - 1 - |d|].id);
      }
    }
  }

  /** How many upserts precede index `t` of a plan whose delete set has `deletes` ids. */
  function UpsertsBefore(t: nat, deletes: nat): nat {
    if t <= 1 + deletes then 0 else t - 1 - deletes
  }

  /** The state a submit leaves: the store, the call log, the notifications raised and the form's rows. */
  datatype Outcome = Outcome(docs: map<string, Stored>, log: seq<Call>, notices: seq<Notice>, rows: seq<Row>)

  /**
   * The state a submit leaves once `plan` (with delete set `d`) has run as
   * `run`: the calls issued are logged, each success raises its notification
   * and a failure the one error notification, and the creates among the
   * upserts that succeeded patch their ids back into the rows.
   */
  function Settle(rows: seq<Row>, d: seq<string>, plan: seq<Call>, run: Run, log: seq<Call>,
                  unique: nat -> UniqueId): Outcome
    requires |plan| == 1 + |d| + |rows| && run.Issued() <= |plan|
  {
    Outcome(run.docs,
            log + plan[..run.Issued()],
            if run.ok then Notices(plan, run.done) else Notices(plan, run.done) + [Failed],
            PatchBack(rows, rows, UpsertsBefore(run.done, |d|), |log| + 1 + |d|, unique))
  }

  /**
   * A whole submit as a function of the state before it, in three phases:
   * plan the calls, run them until one fails, and patch back the ids of the
   * creates that succeeded.
   */
  function Reconcile(rows: seq<Row>, data: Option<seq<Document>>, portfolio: Option<string>, account: string,
                     unique: nat -> UniqueId, faults: set<nat>, docs: map<string, Stored>, log: seq<Call>): Outcome
  {
    var plan := Plan(rows, data, account, portfolio, unique, |log|);
    var run := Exec(docs, plan, |plan|, |log|, faults);
    Settle(rows, DeleteSet(rows, data), plan, run, log, unique)
  }

  /** Settling logs exactly the calls issued after the earlier log, and keeps the number of rows. */
  lemma SettleLog(rows: seq<Row>, d: seq<string>, plan: seq<Call>, run: Run, log: seq<Call>, unique: nat -> UniqueId)
    requires |plan| == 1 + |d| + |rows| && run.Issued() <= |plan|
    ensures var o := Settle(rows, d, plan, run, log, unique);
            && |o.log| == |log| + run.Issued() && o.log[..|log|] == log
            && o.log[|log|..] == plan[..run.Issued()]
            && |o.rows| == |rows|
  {
    var o := Settle(rows, d, plan, run, log, unique);
    assert o.log == log + plan[..run.Issued()];
  }

  /**
   * A submit keeps the earlier log as a prefix, logs at least the account
   * lookup and at most every planned call, and keeps the number of rows.
   */
  lemma ReconcileLog(rows: seq<Row>, data: Option<seq<Document>>, portfolio: Option<string>, account: string,
                     unique: nat -> UniqueId, faults: set<nat>, docs: map<string, Stored>, log: seq<Call>)
    ensures var o := Reconcile(rows, data, portfolio, account, unique, faults, docs, log);
            && |log| < |o.log| <= |log| + 1 + |DeleteSet(rows, data)| + |rows|
            && o.log[..|log|] == log
            && o.log[|log|] == GetAccount
            && |o.rows| == |rows|
  {
    var plan := Plan(rows, data, account, portfolio, unique, |log|);
    var run := Exec(docs, plan, |plan|, |log|, faults);
    SettleLog(rows, DeleteSet(rows, data), plan, run, log, unique);
    PlanAt(rows, data, account, portfolio, unique, |log|, 0);
  }

  /**
   * A submit raises the error notification iff one of its calls failed, and
   * then exactly once, as its last notification.
   */
  lemma ErrorNoticeIffFailure(rows: seq<Row>, data: Option<seq<Document>>, portfolio: Option<string>, account: string,
                              unique: nat -> UniqueId, faults: set<nat>, docs: map<string, Stored>, log: seq<Call>)
    ensures var plan := Plan(rows, data, account, portfolio, unique, |log|);
            var run := Exec(docs, plan, |plan|, |log|, faults);
            var n := Reconcile(rows, data, portfolio, account, unique, faults, docs, log).notices;
            && (Failed in n <==> !run.ok)
            && (!run.ok ==> n[|n| - 1] == Failed && Failed !in n[..|n| - 1])
  {
    var plan := Plan(rows, data, account, portfolio, unique, |log|);
    var run := Exec(docs, plan, |plan|, |log|, faults);
    var n := Reconcile(rows, data, portfolio, account, unique, faults, docs, log).notices;
    NoErrorNoticeFromSuccesses(plan, run.done);
    if !run.ok {
      assert n[..|n| - 1] == Notices(plan, run.done);
    }
  }

  /**
   * The notifications of the first `m` calls of a plan laid out as the lookup,
   * the deletes of `d` and the upserts of `rows`, all successful.
   */
  lemma PlanNotices(plan: seq<Call>, d: seq<string>, rows: seq<Row>, account: string,
                    portfolio: Option<string>, unique: nat -> UniqueId, base: nat, m: nat)
    requires 1 <= m <= |plan|
    requires plan[0] == GetAccount && DeletesAt(plan, d) && UpsertsAt(plan, d, rows, account, portfolio, unique, base)
    ensures var ns := Notices(plan, m);
            && |ns| == m - 1
            && (forall i :: 0 <= i < |d| && 1 + i < m ==> ns[i] == Deleted)
            && (forall j :: 0 <= j < |rows| && 1 + |d| + j < m ==>
                  ns[|d| + j] == if Truthy(rows[j].id) then Updated(rows[j].fields.title) else Created(rows[j].fields.title))
  {
    forall i | 0 < i < |plan|
      ensures !plan[i].GetAccount?
    {
      if i <= |d| {
        DeleteNext(plan, d, i - 1);
      } else {
        UpsertNext(plan, d, rows, account, portfolio, unique, base, i - 1 - |d|);
      }
    }
    NoticesPerCall(plan, m);
    forall i | 0 <= i < |d| && 1 + i < m
      ensures Notices(plan, m)[i] == Deleted
    {
      DeleteNext(plan, d, i);
    }
    forall j | 0 <= j < |rows| && 1 + |d| + j < m
      ensures Notices(plan, m)[|d| + j]
              == if Truthy(rows[j].id) then Updated(rows[j].fields.title) else Created(rows[j].fields.title)
    {
      UpsertNext(plan, d, rows, account, portfolio, unique, base, j);
    }
  }

  /**
   * `n` is what a submit whose delete set is `d` raises when its first `done`
   * calls succeeded (and, unless `ok`, the next one failed): one notification
   * per success after the account lookup, in plan order, then the error
   * notification on a failure. A delete raises "deleted", and the upsert of
   * row j "updated" or "created" with the row's title.
   */
  ghost predicate NoticesFollow(n: seq<Notice>, d: seq<string>, rows: seq<Row>, done: nat, ok: bool) {
    && |n| == (if done == 0 then 0 else done - 1) + (if ok then 0 else 1)
    && (forall i :: 0 <= i < |d| && 1 + i < done ==> n[i] == Deleted)
    && (forall j :: 0 <= j < |rows| && 1 + |d| + j < done ==>
          n[|d| + j] == if Truthy(rows[j].id) then Updated(rows[j].fields.title) else Created(rows[j].fields.title))
  }

  /** The notifications `Settle` raises for a run of a plan laid out as the lookup, the deletes of `d` and the upserts of `rows`. */
  lemma SettleNotices(rows: seq<Row>, d: seq<string>, plan: seq<Call>, run: Run, log: seq<Call>,
                      unique: nat -> UniqueId, account: string, portfolio: Option<string>)
    requires |plan| == 1 + |d| + |rows| && run.Issued() <= |plan|
    requires plan[0] == GetAccount && DeletesAt(plan, d) && UpsertsAt(plan, d, rows, account, portfolio, unique, |log|)
    ensures NoticesFollow(Settle(rows, d, plan, run, log, unique).notices, d, rows, run.done, run.ok)
  {
    var ns := Notices(plan, run.done);
    var n := Settle(rows, d, plan, run, log, unique).notices;
    assert n == if run.ok then ns else ns + [Failed];
    if run.done > 0 {
      PlanNotices(plan, d, rows, account, portfolio, unique, |log|, run.done);
      assert n[..|ns|] == ns;
    }
  }

  /**
   * The notifications of a submit follow its calls: one per call that
   * succeeded after the account lookup, in plan order, with "deleted" for a
   * delete and "updated" or "created" with the row's title for an upsert, then
   * the error notification when a call failed. A clean submit raises exactly
   * one per delete and one per row.
   */
  lemma ReconcileNotices(rows: seq<Row>, data: Option<seq<Document>>, portfolio: Option<string>, account: string,
                         unique: nat -> UniqueId, faults: set<nat>, docs: map<string, Stored>, log: seq<Call>)
    ensures var plan := Plan(rows, data, account, portfolio, unique, |log|);
            var run := Exec(docs, plan, |plan|, |log|, faults);
            var n := Reconcile(rows, data, portfolio, account, unique, faults, docs, log).notices;
            && NoticesFollow(n, DeleteSet(rows, data), rows, run.done, run.ok)
            && (run.ok ==> |n| == |DeleteSet(rows, data)| + |rows|)
  {
    var d := DeleteSet(rows, data);
    var plan := Plan(rows, data, account, portfolio, unique, |log|);
    var run := Exec(docs, plan, |plan|, |log|, faults);
    assert plan == PlanFor(d, rows, account, portfolio, unique, |log|);
    PlanLayout(d, rows, account, portfolio, unique, |log|);
    SettleNotices(rows, d, plan, run, log, unique, account, portfolio);
  }

  /**
   * The first `t` calls of `plan` ran cleanly from `docs0`, leaving the store
   * `docs`, the log `log` (the calls before them in `log0`) and the
   * notifications `notices`.
   */
  ghost predicate Ran(plan: seq<Call>, docs0: map<string, Stored>, log0: seq<Call>, faults: set<nat>,
                      t: nat, docs: map<string, Stored>, log: seq<Call>, notices: seq<Notice>) {
    && t <= |plan|
    && log == log0 + plan[..t]
    && notices == Notices(plan, t)
    && var r := Exec(docs0, plan, t, |log0|, faults); r.ok && r.docs == docs
  }

  /** Logging the call at index `t` after the ones before it. */
  lemma LogSnoc(log0: seq<Call>, plan: seq<Call>, t: nat)
    requires t < |plan|
    ensures (log0 + plan[..t]) + [plan[t]] == log0 + plan[..t + 1]
  {
    assert plan[..t + 1] == plan[..t] + [plan[t]];
  }

  /** Nothing has run yet. */
  lemma RanNothing(plan: seq<Call>, docs0: map<string, Stored>, log0: seq<Call>, faults: set<nat>)
    ensures Ran(plan, docs0, log0, faults, 0, docs0, log0, [])
  {
    assert plan[..0] == [];
    assert log0 + [] == log0;
  }

  /** One more call succeeds: it is logged, applied and notified. */
  lemma RanStep(plan: seq<Call>, docs0: map<string, Stored>, log0: seq<Call>, faults: set<nat>,
                t: nat, docs: map<string, Stored>, log: seq<Call>, notices: seq<Notice>, c: Call)
    requires Ran(plan, docs0, log0, faults, t, docs, log, notices) && t < |plan| && plan[t] == c
    requires Succeeds(docs, c, |log|, faults)
    ensures Ran(plan, docs0, log0, faults, t + 1, Apply(docs, c), log + [c], notices + NoticeFor(c))
  {
    LogSnoc(log0, plan, t);
    ExecAdvance(docs0, plan, |log0|, faults, t, docs);
  }

  /**
   * The call at index `t` fails after the ones before it succeeded: the
   * submit ends with that call logged, the store as it was, one error
   * notification, and the rows patched by the creates among the upserts
   * before it.
   */
  lemma RanHalt(rows: seq<Row>, d: seq<string>, plan: seq<Call>, docs0: map<string, Stored>, log0: seq<Call>,
                faults: set<nat>, unique: nat -> UniqueId,
                t: nat, docs: map<string, Stored>, log: seq<Call>, notices: seq<Notice>)
    requires |plan| == 1 + |d| + |rows|
    requires Ran(plan, docs0, log0, faults, t, docs, log, notices) && t < |plan|
    requires !Succeeds(docs, plan[t], |log|, faults)
    ensures Settle(rows, d, plan, Exec(docs0, plan, |plan|, |log0|, faults), log0, unique)
            == Outcome(docs, log + [plan[t]], notices + [Failed],
                       PatchBack(rows, rows, UpsertsBefore(t, |d|), |log0| + 1 + |d|, unique))
  {
    ExecHalt(docs0, plan, |plan|, |log0|, faults, t, docs);
    LogSnoc(log0, plan, t);
    SettleHalt(rows, d, plan, log0, unique, t, docs);
    SettleHaltRows(rows, d, plan, log0, unique, t, docs);
  }

  /**
   * The upsert of row `j` fails after every call before it succeeded: the
   * submit ends with that call logged, the store as it was, one error
   * notification, and the rows patched by the creates of rows before `j`.
   */
  lemma UpsertHalt(rows: seq<Row>, d: seq<string>, plan: seq<Call>, docs0: map<string, Stored>, log0: seq<Call>,
                   faults: set<nat>, unique: nat -> UniqueId,
                   j: nat, docs: map<string, Stored>, log: seq<Call>, notices: seq<Notice>)
    requires |plan| == 1 + |d| + |rows| && j < |rows|
    requires Ran(plan, docs0, log0, faults, 1 + |d| + j, docs, log, notices)
    requires !Succeeds(docs, plan[1 + |d| + j], |log|, faults)
    ensures Settle(rows, d, plan, Exec(docs0, plan, |plan|, |log0|, faults), log0, unique)
            == Outcome(docs, log + [plan[1 + |d| + j]], notices + [Failed],
                       PatchBack(rows, rows, j, |log0| + 1 + |d|, unique))
  {
    RanHalt(rows, d, plan, docs0, log0, faults, unique, 1 + |d| + j, docs, log, notices);
    assert UpsertsBefore(1 + |d| + j, |d|) == j;
  }

  /** The store, log and notifications a submit leaves when its call at index `t` fails. */
  lemma SettleHalt(rows: seq<Row>, d: seq<string>, plan: seq<Call>, log0: seq<Call>, unique: nat -> UniqueId,
                   t: nat, docs: map<string, Stored>)
    requires |plan| == 1 + |d| + |rows| && t < |plan|
    ensures var o := Settle(rows, d, plan, Run(docs, t, false), log0, unique);
            o.docs == docs && o.log == log0 + plan[..t + 1] && o.notices == Notices(plan, t) + [Failed]
  {
  }

  /** The rows a submit leaves when its call at index `t` fails: patched by the upserts before it. */
  lemma SettleHaltRows(rows: seq<Row>, d: seq<string>, plan: seq<Call>, log0: seq<Call>, unique: nat -> UniqueId,
                       t: nat, docs: map<string, Stored>)
    requires |plan| == 1 + |d| + |rows| && t < |plan|
    ensures Settle(rows, d, plan, Run(docs, t, false), log0, unique).rows
              == PatchBack(rows, rows, UpsertsBefore(t, |d|), |log0| + 1 + |d|, unique)
  {
  }

  /** Every call of the plan succeeded. */
  lemma RanAll(rows: seq<Row>, d: seq<string>, plan: seq<Call>, docs0: map<string, Stored>, log0: seq<Call>,
               faults: set<nat>, unique: nat -> UniqueId,
               docs: map<string, Stored>, log: seq<Call>, notices: seq<Notice>)
    requires |plan| == 1 + |d| + |rows|
    requires Ran(plan, docs0, log0, faults, |plan|, docs, log, notices)
    ensures Settle(rows, d, plan, Exec(docs0, plan, |plan|, |log0|, faults), log0, unique)
            == Outcome(docs, log, notices, PatchBack(rows, rows, |rows|, |log0| + 1 + |d|, unique))
  {
    assert plan[..|plan|] == plan;
  }

  /** The calls of `plan` from index 1 are the deletes of `d`, in order. */
  ghost predicate DeletesAt(plan: seq<Call>, d: seq<string>) {
    |plan| >= 1 + |d| && forall i :: 0 <= i < |d| ==> plan[1 + i] == Delete(d[i])
  }

  /** After the lookup and the deletes of `d`, the calls of `plan` are the upserts of `rows`. */
  ghost predicate UpsertsAt(plan: seq<Call>, d: seq<string>, rows: seq<Row>, account: string,
                            portfolio: Option<string>, unique: nat -> UniqueId, base: nat) {
    && |plan| == 1 + |d| + |rows|
    && forall j :: 0 <= j < |rows| ==> plan[1 + |d| + j] == UpsertFor(rows[j], account, portfolio, unique(base + 1 + |d| + j))
  }

  /** The plan for a delete set is laid out as the lookup, its deletes, then its upserts. */
  lemma PlanLayout(d: seq<string>, rows: seq<Row>, account: string, portfolio: Option<string>,
                   unique: nat -> UniqueId, base: nat)
    ensures var p := PlanFor(d, rows, account, portfolio, unique, base);
            p[0] == GetAccount && DeletesAt(p, d) && UpsertsAt(p, d, rows, account, portfolio, unique, base)
  {
    var p := PlanFor(d, rows, account, portfolio, unique, base);
    PlanForAt(d, rows, account, portfolio, unique, base, 0);
    forall i | 0 <= i < |d|
      ensures p[1 + i] == Delete(d[i])
    {
      PlanForAt(d, rows, account, portfolio, unique, base, 1 + i);
    }
    forall j | 0 <= j < |rows|
      ensures p[1 + |d| + j] == UpsertFor(rows[j], account, portfolio, unique(base + 1 + |d| + j))
    {
      PlanForAt(d, rows, account, portfolio, unique, base, 1 + |d| + j);
    }
  }

  /** The delete at index `1 + i` of a plan laid out by `DeletesAt`. */
  lemma DeleteNext(plan: seq<Call>, d: seq<string>, i: nat)
    requires DeletesAt(plan, d) && i < |d|
    ensures plan[1 + i] == Delete(d[i])
  {
  }

  /** The upsert at index `1 + |d| + j` of a plan laid out by `UpsertsAt`. */
  lemma UpsertNext(plan: seq<Call>, d: seq<string>, rows: seq<Row>, account: string,
                   portfolio: Option<string>, unique: nat -> UniqueId, base: nat, j: nat)
    requires UpsertsAt(plan, d, rows, account, portfolio, unique, base) && j < |rows|
    ensures plan[1 + |d| + j] == UpsertFor(rows[j], account, portfolio, unique(base + 1 + |d| + j))
  {
  }

  /** A clean run of `t` calls has logged exactly those calls. */
  lemma RanLogged(plan: seq<Call>, docs0: map<string, Stored>, log0: seq<Call>, faults: set<nat>,
                  t: nat, docs: map<string, Stored>, log: seq<Call>, notices: seq<Notice>)
    requires Ran(plan, docs0, log0, faults, t, docs, log, notices)
    ensures |log| == |log0| + t
  {
  }

  /** The patch-back after one more upsert. */
  lemma PatchBackNext(rows: seq<Row>, j: nat, first: nat, unique: nat -> UniqueId)
    requires j < |rows|
    ensures PatchBack(rows, rows, j + 1, first, unique)
              == if Truthy(rows[j].id) then PatchBack(rows, rows, j, first, unique)
                 else Patch(PatchBack(rows, rows, j, first, unique), rows[j].id, unique(first + j))
  {
  }

  /** The update for row `j`, whose id is truthy, leaves the patch-back as it was. */
  lemma UpdateNext(rows: seq<Row>, d: seq<string>, plan: seq<Call>, base: nat, unique: nat -> UniqueId,
                   account: string, portfolio: Option<string>, j: nat, cur: seq<Row>)
    requires UpsertsAt(plan, d, rows, account, portfolio, unique, base) && j < |rows| && Truthy(rows[j].id)
    requires cur == PatchBack(rows, rows, j, base + 1 + |d|, unique)
    ensures plan[1 + |d| + j] == Update(rows[j].id.s, rows[j].fields)
    ensures cur == PatchBack(rows, rows, j + 1, base + 1 + |d|, unique)
  {
    UpsertNext(plan, d, rows, account, portfolio, unique, base, j);
    PatchBackNext(rows, j, base + 1 + |d|, unique);
  }

  /** The create for row `j`, issued after a clean run of the calls before it, and its patch-back. */
  lemma CreateNext(rows: seq<Row>, d: seq<string>, plan: seq<Call>, base: nat, unique: nat -> UniqueId,
                   account: string, portfolio: Option<string>, j: nat, pos: nat, cur: seq<Row>)
    requires UpsertsAt(plan, d, rows, account, portfolio, unique, base) && j < |rows| && !Truthy(rows[j].id)
    requires pos == base + 1 + |d| + j
    requires cur == PatchBack(rows, rows, j, base + 1 + |d|, unique)
    ensures plan[1 + |d| + j] == Create(unique(pos), Stored(rows[j].fields, account, portfolio))
    ensures Patch(cur, rows[j].id, unique(pos)) == PatchBack(rows, rows, j + 1, base + 1 + |d|, unique)
  {
    UpsertNext(plan, d, rows, account, portfolio, unique, base, j);
    PatchBackNext(rows, j, base + 1 + |d|, unique);
  }

  /** A whole submit is its plan, run and settled. */
  lemma ReconcileIs(rows: seq<Row>, data: Option<seq<Document>>, portfolio: Option<string>, account: string,
                    unique: nat -> UniqueId, faults: set<nat>, docs: map<string, Stored>, log: seq<Call>)
    ensures var d := DeleteSet(rows, data);
            var plan := PlanFor(d, rows, account, portfolio, unique, |log|);
            Reconcile(rows, data, portfolio, account, unique, faults, docs, log)
              == Settle(rows, d, plan, Exec(docs, plan, |plan|, |log|, faults), log, unique)
  {
  }

  /**
   * The upserts of the first `j` rows ran cleanly after the lookup and the
   * deletes of `d`: the plan ran up to call `t`, and the live rows `cur` are
   * the rows patched by the creates among those upserts.
   */
  ghost predicate Upserted(plan: seq<Call>, d: seq<string>, rows: seq<Row>, docs0: map<string, Stored>,
                           log0: seq<Call>, faults: set<nat>, unique: nat -> UniqueId, j: nat, t: nat,
                           docs: map<string, Stored>, log: seq<Call>, notices: seq<Notice>, cur: seq<Row>) {
    && j <= |rows|
    && t == 1 + |d| + j
    && Ran(plan, docs0, log0, faults, t, docs, log, notices)
    && cur == PatchBack(rows, rows, j, |log0| + 1 + |d|, unique)
  }

  /** The `ExperienceForm` component: its loaded documents, the current portfolio, and the live rows. */
  class Form {
    const data: Option<seq<Document>>
    /** `current?.id` from the portfolio store. */
    const current: Option<string>
    var rows: seq<Row>

    constructor (data: Option<seq<Document>>, current: Option<string>)
      ensures this.data == data && this.current == current
      ensures rows == InitialRows(data)
    {
      this.data := data;
      this.current := current;
      this.rows := InitialRows(data);
    }

    /**
     * `onSubmit`: looks up the account, deletes the delete set, then updates or
     * creates each row in order, patching new ids back into the rows. The first
     * failing call ends the submit with one error notification; what was
     * written before stays written.
     */
    method Submit(b: Backend) returns (notices: seq<Notice>)
      modifies this, b
      ensures Outcome(b.docs, b.log, notices, rows)
              == Reconcile(old(rows), data, current, b.account, b.unique, b.faults, old(b.docs), old(b.log))
    {
      var experience := rows;
      var difference := DeleteSet(experience, data);
      ghost var log0 := b.log;
      ghost var docs0 := b.docs;
      ghost var plan := PlanFor(difference, experience, b.account, current, b.unique, |log0|);
      PlanLayout(difference, experience, b.account, current, b.unique, |log0|);
      ReconcileIs(experience, data, current, b.account, b.unique, b.faults, docs0, log0);
      RanNothing(plan, docs0, log0, b.faults);

      var ok := b.Issue(GetAccount);
      if !ok {
        RanHalt(experience, difference, plan, docs0, log0, b.faults, b.unique, 0, docs0, log0, []);
        notices := [Failed];
        return;
      }
      RanStep(plan, docs0, log0, b.faults, 0, docs0, log0, [], GetAccount);
      notices := [];

      ok, notices := DeleteStale(b, difference, notices, experience, plan, docs0, log0);
      if ok {
        ok, notices := UpsertRows(b, experience, b.account, notices, difference, plan, docs0, log0);
      }
    }

    /** The deletes of a submit: one per id of the delete set, in order, stopping at the first failure. */
    method DeleteStale(b: Backend, difference: seq<string>, notices0: seq<Notice>, ghost experience: seq<Row>,
                       ghost plan: seq<Call>, ghost docs0: map<string, Stored>, ghost log0: seq<Call>)
      returns (ok: bool, notices: seq<Notice>)
      modifies b
      requires |plan| == 1 + |difference| + |experience| && DeletesAt(plan, difference)
      requires Ran(plan, docs0, log0, b.faults, 1, b.docs, b.log, notices0)
      requires rows == experience
      ensures ok ==> Ran(plan, docs0, log0, b.faults, 1 + |difference|, b.docs, b.log, notices)
      ensures !ok ==> Outcome(b.docs, b.log, notices, rows)
                      == Settle(experience, difference, plan, Exec(docs0, plan, |plan|, |log0|, b.faults), log0, b.unique)
    {
      notices := notices0;
      var i := 0;
      ghost var t := 1;
      while i < |difference|
        invariant 0 <= i <= |difference| && t == 1 + i
        invariant Ran(plan, docs0, log0, b.faults, t, b.docs, b.log, notices)
      {
        ok, notices := DeleteOne(b, difference, i, notices, experience, plan, docs0, log0, t);
        if !ok {
          return;
        }
        i, t := i + 1, t + 1;
      }
      ok := true;
    }

    /** The delete of the `i`-th id of the delete set, with its notification. */
    method DeleteOne(b: Backend, difference: seq<string>, i: nat, notices0: seq<Notice>, ghost experience: seq<Row>,
                     ghost plan: seq<Call>, ghost docs0: map<string, Stored>, ghost log0: seq<Call>, ghost t: nat)
      returns (ok: bool, notices: seq<Notice>)
      modifies b
      requires |plan| == 1 + |difference| + |experience| && DeletesAt(plan, difference) && i < |difference|
      requires t == 1 + i && Ran(plan, docs0, log0, b.faults, t, b.docs, b.log, notices0)
      requires rows == experience
      ensures ok ==> Ran(plan, docs0, log0, b.faults, t + 1, b.docs, b.log, notices)
      ensures !ok ==> Outcome(b.docs, b.log, notices, rows)
                      == Settle(experience, difference, plan, Exec(docs0, plan, |plan|, |log0|, b.faults), log0, b.unique)
    {
      ghost var (docs, log) := (b.docs, b.log);
      DeleteNext(plan, difference, i);
      var c := Delete(difference[i]);
      ok := b.Issue(c);
      if !ok {
        RanHalt(experience, difference, plan, docs0, log0, b.faults, b.unique, t, docs, log, notices0);
        notices := notices0 + [Failed];
        return;
      }
      RanStep(plan, docs0, log0, b.faults, t, docs, log, notices0, c);
      notices := notices0 + [Deleted];
    }

    /**
     * The upserts of a submit, one per row in row order, stopping at the first
     * failure.
     */
    method UpsertRows(b: Backend, experience: seq<Row>, user: string, notices0: seq<Notice>,
                      ghost difference: seq<string>, ghost plan: seq<Call>, ghost docs0: map<string, Stored>,
                      ghost log0: seq<Call>)
      returns (ok: bool, notices: seq<Notice>)
      modifies this, b
      requires UpsertsAt(plan, difference, experience, user, current, b.unique, |log0|)
      requires Ran(plan, docs0, log0, b.faults, 1 + |difference|, b.docs, b.log, notices0)
      requires rows == experience
      ensures Outcome(b.docs, b.log, notices, rows)
              == Settle(experience, difference, plan, Exec(docs0, plan, |plan|, |log0|, b.faults), log0, b.unique)
    {
      notices := notices0;
      var j: nat := 0;
      ghost var t: nat := 1 + |difference|;
      while j < |experience|
        invariant Upserted(plan, difference, experience, docs0, log0, b.faults, b.unique, j, t, b.docs, b.log, notices, rows)
      {
        ok, notices := UpsertRow(b, experience, j, user, notices, difference, plan, docs0, log0, t);
        if !ok {
          return;
        }
        j, t := j + 1, t + 1;
      }
      ok := true;
      RanAll(experience, difference, plan, docs0, log0, b.faults, b.unique, b.docs, b.log, notices);
    }

    /**
     * The upsert of row `j`: an update of its truthy id, otherwise a create
     * under a fresh id, which is then patched into every row whose id strictly
     * equals the created row's id.
     */
    method UpsertRow(b: Backend, experience: seq<Row>, j: nat, user: string, notices0: seq<Notice>,
                     ghost difference: seq<string>, ghost plan: seq<Call>, ghost docs0: map<string, Stored>,
                     ghost log0: seq<Call>, ghost t: nat)
      returns (ok: bool, notices: seq<Notice>)
      modifies this, b
      requires UpsertsAt(plan, difference, experience, user, current, b.unique, |log0|) && j < |experience|
      requires Upserted(plan, difference, experience, docs0, log0, b.faults, b.unique, j, t, b.docs, b.log, notices0, rows)
      ensures ok ==> Upserted(plan, difference, experience, docs0, log0, b.faults, b.unique, j + 1, t + 1,
                              b.docs, b.log, notices, rows)
      ensures !ok ==> Outcome(b.docs, b.log, notices, rows)
                      == Settle(experience, difference, plan, Exec(docs0, plan, |plan|, |log0|, b.faults), log0, b.unique)
    {
      if Truthy(experience[j].id) {
        ok, notices := UpdateRow(b, experience, j, user, notices0, difference, plan, docs0, log0, t);
      } else {
        ok, notices := CreateRow(b, experience, j, user, notices0, difference, plan, docs0, log0, t);
      }
    }

    /** The upsert of a row with a truthy id: an update of the document under that id. */
    method UpdateRow(b: Backend, experience: seq<Row>, j: nat, user: string, notices0: seq<Notice>,
                     ghost difference: seq<string>, ghost plan: seq<Call>, ghost docs0: map<string, Stored>,
                     ghost log0: seq<Call>, ghost t: nat)
      returns (ok: bool, notices: seq<Notice>)
      modifies b
      requires UpsertsAt(plan, difference, experience, user, current, b.unique, |log0|) && j < |experience|
      requires Truthy(experience[j].id)
      requires Upserted(plan, difference, experience, docs0, log0, b.faults, b.unique, j, t, b.docs, b.log, notices0, rows)
      ensures ok ==> Upserted(plan, difference, experience, docs0, log0, b.faults, b.unique, j + 1, t + 1,
                              b.docs, b.log, notices, rows)
      ensures !ok ==> Outcome(b.docs, b.log, notices, rows)
                      == Settle(experience, difference, plan, Exec(docs0, plan, |plan|, |log0|, b.faults), log0, b.unique)
    {
      var exp := experience[j];
      ghost var (docs, log) := (b.docs, b.log);
      UpdateNext(experience, difference, plan, |log0|, b.unique, user, current, j, rows);
      var c := Update(exp.id.s, exp.fields);
      ok := b.Issue(c);
      if !ok {
        UpsertHalt(experience, difference, plan, docs0, log0, b.faults, b.unique, j, docs, log, notices0);
        notices := notices0 + [Failed];
        return;
      }
      RanStep(plan, docs0, log0, b.faults, t, docs, log, notices0, c);
      notices := notices0 + [Updated(exp.fields.title)];
      assert notices == notices0 + NoticeFor(c);
    }

    /**
     * The upsert of a row with a falsy id: a create under a fresh id, which is
     * then patched into every row whose id strictly equals the created row's id.
     */
    method CreateRow(b: Backend, experience: seq<Row>, j: nat, user: string, notices0: seq<Notice>,
                     ghost difference: seq<string>, ghost plan: seq<Call>, ghost docs0: map<string, Stored>,
                     ghost log0: seq<Call>, ghost t: nat)
      returns (ok: bool, notices: seq<Notice>)
      modifies this, b
      requires UpsertsAt(plan, difference, experience, user, current, b.unique, |log0|) && j < |experience|
      requires !Truthy(experience[j].id)
      requires Upserted(plan, difference, experience, docs0, log0, b.faults, b.unique, j, t, b.docs, b.log, notices0, rows)
      ensures ok ==> Upserted(plan, difference, experience, docs0, log0, b.faults, b.unique, j + 1, t + 1,
                              b.docs, b.log, notices, rows)
      ensures !ok ==> Outcome(b.docs, b.log, notices, rows)
                      == Settle(experience, difference, plan, Exec(docs0, plan, |plan|, |log0|, b.faults), log0, b.unique)
    {
      var exp := experience[j];
      ghost var (docs, log) := (b.docs, b.log);
      RanLogged(plan, docs0, log0, b.faults, t, docs, log, notices0);
      CreateNext(experience, difference, plan, |log0|, b.unique, user, current, j, |log|, rows);
      var newId := b.unique(|b.log|);
      var c := Create(newId, Stored(exp.fields, user, current));
      ok := b.Issue(c);
      if !ok {
        UpsertHalt(experience, difference, plan, docs0, log0, b.faults, b.unique, j, docs, log, notices0);
        notices := notices0 + [Failed];
        return;
      }
      RanStep(plan, docs0, log0, b.faults, t, docs, log, notices0, c);
      rows := Patch(rows, exp.id, newId);
      notices := notices0 + [Created(exp.fields.title)];
      assert notices == notices0 + NoticeFor(c);
    }
  }
}
