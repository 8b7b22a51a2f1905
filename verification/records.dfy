/**
 * The version store shared by tasks and workflows. A record is identified by
 * its record id; each version of it is one row, keyed by (record id, version),
 * that carries a lifecycle status. Records are immutable: an edit appends a
 * new draft version, submit moves a draft to submitted, and confirm moves a
 * submitted version to confirmed after deprecating the version that was
 * confirmed before it.
 */
module Records {
  import opened Base
  import opened Errors

  datatype Status = Draft | Submitted | Confirmed | Deprecated

  /** The primary key of both version tables: (record_id, version). */
  datatype Key = Key(recordId: string, version: int)

  /** The bookkeeping columns every version row carries. */
  datatype Meta = Meta(
    createdAt: string,
    updatedAt: string,
    createdBy: string,
    updatedBy: string,
    reviewedAt: Option<string>,
    reviewedBy: Option<string>,
    changeNote: Option<string>,
    needsReview: bool,
    needsReviewNote: Option<string>)

  /** One version row: its status, the columns specific to the table, and the bookkeeping columns. */
  datatype Row<C> = Row(status: Status, content: C, meta: Meta)

  type Table<C> = map<Key, Row<C>>

  /** The bookkeeping columns of a freshly inserted version: created and updated now by `actor`, not reviewed. */
  function NewMeta(now: string, actor: string, changeNote: Option<string>, needsReview: bool, needsReviewNote: Option<string>): (m: Meta)
    ensures m.createdAt == m.updatedAt == now && m.createdBy == m.updatedBy == actor
    ensures m.reviewedAt.None? && m.reviewedBy.None?
  {
    Meta(now, now, actor, actor, None, None, changeNote, needsReview, needsReviewNote)
  }

  // ---------------------------------------------------------------------------
  // Table-wide invariants

  /** No record has two confirmed versions. */
  predicate AtMostOneConfirmed<C>(t: Table<C>)
  {
    forall a, b :: a in t && b in t && a.recordId == b.recordId && t[a].status == Confirmed && t[b].status == Confirmed ==> a == b
  }

  /** Versions are numbered from 1. */
  predicate PositiveVersions<C>(t: Table<C>)
  {
    forall k :: k in t ==> k.version >= 1
  }

  // ---------------------------------------------------------------------------
  // get_latest_version and the number of a new version

  /** The largest element of a non-empty finite set. */
  ghost function MaxOf(s: set<int>): (m: int)
    requires s != {}
    ensures m in s && forall x :: x in s ==> x <= m
  {
    assert exists x :: x in s by { var y := Element(s); }
    var x :| x in s;
    if s == {x} then x
    else
      var rest := s - {x};
      assert rest != {} by { assert s != {x}; }
      var m' := MaxOf(rest);
      assert forall y :: y in s ==> y == x || y in rest;
      if x > m' then x else m'
  }

  lemma Element(s: set<int>) returns (y: int)
    requires s != {}
    ensures y in s
  {
    if forall x :: x !in s {
      assert false;
    }
    y :| y in s;
  }

  /** The version numbers that exist for one record. */
  function Versions<C>(t: Table<C>, rid: string): (r: set<int>)
    ensures forall v :: v in r <==> Key(rid, v) in t
  {
    set k | k in t && k.recordId == rid :: k.version
  }

  /** `MAX(version)` over the rows of one record: None when the record has no version. */
  ghost function LatestVersion<C>(t: Table<C>, rid: string): (r: Option<int>)
    ensures r.None? <==> forall v :: Key(rid, v) !in t
    ensures r.Some? ==> Key(rid, r.value) in t && forall v :: Key(rid, v) in t ==> v <= r.value
  {
    var vs := Versions(t, rid);
    if vs == {} then None else Some(MaxOf(vs))
  }

  /** `get_latest_version`: the query scans the rows of the record and keeps the largest version. */
  method GetLatestVersion<C>(t: Table<C>, rid: string) returns (r: Option<int>)
    ensures r == LatestVersion(t, rid)
  {
    r := None;
    var rest := t.Keys;
    while rest != {}
      invariant rest <= t.Keys
      invariant r.None? ==> forall v :: Key(rid, v) in t ==> Key(rid, v) in rest
      invariant r.Some? ==> Key(rid, r.value) in t && forall v :: Key(rid, v) in t && Key(rid, v) !in rest ==> v <= r.value
      decreases rest
    {
      var k :| k in rest;
      if k.recordId == rid && (r.None? || r.value < k.version) {
        r := Some(k.version);
      }
      rest := rest - {k};
    }
    var latest := LatestVersion(t, rid);
    if r.Some? {
      assert latest.Some? && latest.value == r.value;
    }
  }

  /** `(get_latest_version(...) or version) + 1`: a missing or zero maximum falls back to the source version. */
  ghost function NewVersionNumber<C>(t: Table<C>, rid: string, version: int): (r: int)
    ensures LatestVersion(t, rid).None? ==> r == version + 1
    ensures forall v :: Key(rid, v) in t && v > 0 ==> v < r
  {
    var latest := match LatestVersion(t, rid) case Some(v) => v case None => 0;
    (if latest != 0 then latest else version) + 1
  }

  /**
   * When the source version exists and versions are numbered from 1, the new
   * version is one past the latest, so it is greater than every existing
   * version of the record and its key is free.
   */
  lemma NewVersionIsFresh<C>(t: Table<C>, rid: string, version: int)
    requires Key(rid, version) in t && PositiveVersions(t)
    ensures LatestVersion(t, rid).Some?
    ensures NewVersionNumber(t, rid, version) == LatestVersion(t, rid).value + 1
    ensures forall v :: Key(rid, v) in t ==> v < NewVersionNumber(t, rid, version)
    ensures Key(rid, NewVersionNumber(t, rid, version)) !in t
  {
    var latest := LatestVersion(t, rid);
    assert latest.Some?;
    assert Key(rid, latest.value) in t;
  }

  /** `require_can_edit`: only a confirmed version refuses edits (with 409). */
  function RequireCanEdit(status: Status): (r: Outcome<Error>)
    ensures r.Fail? <==> status == Confirmed
    ensures r.Fail? ==> r.error == Immutable
  {
    if status == Confirmed then Fail(Immutable) else Pass
  }

  // ---------------------------------------------------------------------------
  // Submit

  /** The checks the submit handler makes after the permission check: the row exists (404) and is a draft (409). */
  function SubmitCheck<C>(t: Table<C>, kind: Kind, key: Key): (r: Outcome<Error>)
    ensures r.Pass? <==> key in t && t[key].status == Draft
    ensures key !in t ==> r == Fail(NotFound)
    ensures key in t && t[key].status != Draft ==> r == Fail(NotDraft(kind))
  {
    if key !in t then Fail(NotFound)
    else if t[key].status != Draft then Fail(NotDraft(kind))
    else Pass
  }

  /** `UPDATE ... SET status='submitted', updated_at, updated_by WHERE record_id=? AND version=?` */
  function MarkSubmitted<C>(t: Table<C>, key: Key, now: string, actor: string): (r: Table<C>)
    requires key in t
    ensures r.Keys == t.Keys
    ensures r[key].status == Submitted && r[key].content == t[key].content
    ensures r[key].meta == t[key].meta.(updatedAt := now, updatedBy := actor)
    ensures forall k :: k in t && k != key ==> r[k] == t[k]
  {
    t[key := t[key].(status := Submitted, meta := t[key].meta.(updatedAt := now, updatedBy := actor))]
  }

  lemma SubmitKeepsAtMostOneConfirmed<C>(t: Table<C>, key: Key, now: string, actor: string)
    requires AtMostOneConfirmed(t) && key in t
    ensures AtMostOneConfirmed(MarkSubmitted(t, key, now, actor))
  {
    var r := MarkSubmitted(t, key, now, actor);
    forall a, b | a in r && b in r && a.recordId == b.recordId && r[a].status == Confirmed && r[b].status == Confirmed
      ensures a == b
    {
      assert a != key && b != key;
      assert t[a].status == Confirmed && t[b].status == Confirmed;
    }
  }

  // ---------------------------------------------------------------------------
  // Confirm

  /** The checks the confirm handler makes after the permission check: the row exists (404) and is submitted (409). */
  function ConfirmCheck<C>(t: Table<C>, kind: Kind, key: Key): (r: Outcome<Error>)
    ensures r.Pass? <==> key in t && t[key].status == Submitted
    ensures key !in t ==> r == Fail(NotFound)
    ensures key in t && t[key].status != Submitted ==> r == Fail(NotSubmitted(kind))
  {
    if key !in t then Fail(NotFound)
    else if t[key].status != Submitted then Fail(NotSubmitted(kind))
    else Pass
  }

  /** `UPDATE ... SET status='deprecated', updated_at, updated_by WHERE record_id=? AND status='confirmed'` */
  function DeprecateConfirmed<C>(t: Table<C>, rid: string, now: string, actor: string): (r: Table<C>)
    ensures r.Keys == t.Keys
    ensures forall k :: k in t && k.recordId == rid && t[k].status == Confirmed ==>
      r[k] == t[k].(status := Deprecated, meta := t[k].meta.(updatedAt := now, updatedBy := actor))
    ensures forall k :: k in t && !(k.recordId == rid && t[k].status == Confirmed) ==> r[k] == t[k]
  {
    map k | k in t ::
      if k.recordId == rid && t[k].status == Confirmed
      then t[k].(status := Deprecated, meta := t[k].meta.(updatedAt := now, updatedBy := actor))
      else t[k]
  }

  /** `UPDATE ... SET status='confirmed', reviewed_at, reviewed_by, updated_at, updated_by WHERE record_id=? AND version=?` */
  function MarkConfirmed<C>(t: Table<C>, key: Key, now: string, actor: string): (r: Table<C>)
    requires key in t
    ensures r.Keys == t.Keys
    ensures r[key].status == Confirmed && r[key].content == t[key].content
    ensures r[key].meta == t[key].meta.(reviewedAt := Some(now), reviewedBy := Some(actor), updatedAt := now, updatedBy := actor)
    ensures forall k :: k in t && k != key ==> r[k] == t[k]
  {
    t[key := t[key].(status := Confirmed, meta := t[key].meta.(reviewedAt := Some(now), reviewedBy := Some(actor), updatedAt := now, updatedBy := actor))]
  }

  /** The two updates of the confirm handler, in order. */
  function Confirm<C>(t: Table<C>, key: Key, now: string, actor: string): (r: Table<C>)
    requires key in t
    ensures r.Keys == t.Keys
    ensures r[key].status == Confirmed && r[key].content == t[key].content
    ensures forall k :: k in t && k.recordId != key.recordId ==> r[k] == t[k]
  {
    MarkConfirmed(DeprecateConfirmed(t, key.recordId, now, actor), key, now, actor)
  }

  /**
   * After confirming a version: the same rows exist, the target is the only
   * confirmed version of its record, the versions of the record that were
   * confirmed before are deprecated, and every other row is untouched.
   */
  lemma ConfirmFacts<C>(t: Table<C>, key: Key, now: string, actor: string)
    requires key in t
    ensures Confirm(t, key, now, actor).Keys == t.Keys
    ensures Confirm(t, key, now, actor)[key].status == Confirmed
    ensures Confirm(t, key, now, actor)[key].content == t[key].content
    ensures Confirm(t, key, now, actor)[key].meta ==
      t[key].meta.(reviewedAt := Some(now), reviewedBy := Some(actor), updatedAt := now, updatedBy := actor)
    ensures forall k :: k in t && k.recordId == key.recordId && Confirm(t, key, now, actor)[k].status == Confirmed ==> k == key
    ensures forall k :: k in t && k != key && k.recordId == key.recordId && t[k].status == Confirmed ==>
      Confirm(t, key, now, actor)[k].status == Deprecated
    ensures forall k :: k in t && k != key && k.recordId == key.recordId && t[k].status == Confirmed ==>
      Confirm(t, key, now, actor)[k] == t[k].(status := Deprecated, meta := t[k].meta.(updatedAt := now, updatedBy := actor))
    ensures forall k :: k in t && k != key && t[k].status != Confirmed ==> Confirm(t, key, now, actor)[k] == t[k]
    ensures forall k :: k in t && k.recordId != key.recordId ==> Confirm(t, key, now, actor)[k] == t[k]
  {
    var d := DeprecateConfirmed(t, key.recordId, now, actor);
    assert Confirm(t, key, now, actor) == MarkConfirmed(d, key, now, actor);
  }

  lemma ConfirmKeepsAtMostOneConfirmed<C>(t: Table<C>, key: Key, now: string, actor: string)
    requires AtMostOneConfirmed(t) && key in t
    ensures AtMostOneConfirmed(Confirm(t, key, now, actor))
  {
    var r := Confirm(t, key, now, actor);
    ConfirmFacts(t, key, now, actor);
    forall a, b | a in r && b in r && a.recordId == b.recordId && r[a].status == Confirmed && r[b].status == Confirmed
      ensures a == b
    {
      if a.recordId != key.recordId {
        assert r[a] == t[a] && r[b] == t[b];
      }
    }
  }

  // ---------------------------------------------------------------------------
  // Inserting a version

  /** Inserting a draft version under a free key keeps every existing row and adds no confirmed one. */
  lemma InsertDraftKeepsAtMostOneConfirmed<C>(t: Table<C>, key: Key, row: Row<C>)
    requires AtMostOneConfirmed(t) && key !in t && row.status == Draft
    ensures AtMostOneConfirmed(t[key := row])
  {
    var r := t[key := row];
    forall a, b | a in r && b in r && a.recordId == b.recordId && r[a].status == Confirmed && r[b].status == Confirmed
      ensures a == b
    {
      assert a != key && b != key;
    }
  }

  // ---------------------------------------------------------------------------
  // The lifecycle

  /** One step of the lifecycle: draft to submitted, submitted to confirmed, confirmed to deprecated. */
  predicate StatusStep(a: Status, b: Status)
  {
    (a == Draft && b == Submitted) || (a == Submitted && b == Confirmed) || (a == Confirmed && b == Deprecated)
  }

  /**
   * `r` is a later state of `t`: no version disappears, the content of an
   * existing version never changes (records are immutable), and its status
   * either stays or takes one lifecycle step.
   */
  ghost predicate Evolves<C>(t: Table<C>, r: Table<C>)
  {
    t.Keys <= r.Keys
    && forall k :: k in t ==> r[k].content == t[k].content && (r[k].status == t[k].status || StatusStep(t[k].status, r[k].status))
  }

  /** Submitting and confirming only move statuses forward and leave content alone. */
  lemma TransitionsEvolve<C>(t: Table<C>, key: Key, now: string, actor: string)
    requires key in t
    ensures t[key].status == Draft ==> Evolves(t, MarkSubmitted(t, key, now, actor))
    ensures t[key].status == Submitted ==> Evolves(t, Confirm(t, key, now, actor))
  {
    var c := Confirm(t, key, now, actor);
    ConfirmFacts(t, key, now, actor);
    forall k | k in t
      ensures c[k].content == t[k].content
    {
      var d := DeprecateConfirmed(t, key.recordId, now, actor);
      assert c[k].content == d[k].content;
    }
  }

  /** Inserting under a free key is an evolution too. */
  lemma InsertEvolves<C>(t: Table<C>, key: Key, row: Row<C>)
    requires key !in t
    ensures Evolves(t, t[key := row])
  {
    assert forall k :: k in t ==> k != key;
  }

  // ---------------------------------------------------------------------------
  // Row-by-row passes over a table (the seed backfills)

  /** Every row rewritten by `f`. */
  function AllRowsUpdated<C>(f: Row<C> -> Row<C>, t: Table<C>): (r: Table<C>)
    ensures r.Keys == t.Keys
    ensures forall k :: k in t ==> r[k] == f(t[k])
  {
    map k | k in t :: f(t[k])
  }

  /** The table once the rows `ks` have been rewritten by `f`, in that order. */
  function RowsUpdated<C>(f: Row<C> -> Row<C>, t: Table<C>, ks: seq<Key>): (r: Table<C>)
    ensures r.Keys == t.Keys
  {
    if ks == [] then t
    else
      var k := ks[|ks| - 1];
      var r := RowsUpdated(f, t, ks[..|ks| - 1]);
      if k in t then r[k := f(t[k])] else r
  }

  /** Processed rows hold their rewritten value, the others their original one. */
  lemma {:induction false} RowsUpdatedAt<C>(f: Row<C> -> Row<C>, t: Table<C>, ks: seq<Key>, k: Key)
    requires k in t
    ensures RowsUpdated(f, t, ks)[k] == if k in ks then f(t[k]) else t[k]
  {
    if ks != [] {
      var init := ks[..|ks| - 1];
      RowsUpdatedAt(f, t, init, k);
      assert ks == init + [ks[|ks| - 1]];
    }
  }

  /** One more row processed. */
  lemma RowsUpdatedStep<C>(f: Row<C> -> Row<C>, t: Table<C>, ks: seq<Key>, i: nat)
    requires i < |ks| && ks[i] in t
    ensures RowsUpdated(f, t, ks[..i + 1]) == RowsUpdated(f, t, ks[..i])[ks[i] := f(t[ks[i]])]
  {
    assert ks[..i + 1][..i] == ks[..i];
  }

  /** Once every row has been processed the whole table is rewritten. */
  lemma RowsUpdatedAll<C>(f: Row<C> -> Row<C>, t: Table<C>, ks: seq<Key>)
    requires forall k :: k in t ==> k in ks
    ensures RowsUpdated(f, t, ks) == AllRowsUpdated(f, t)
  {
    forall k | k in t ensures RowsUpdated(f, t, ks)[k] == AllRowsUpdated(f, t)[k] {
      RowsUpdatedAt(f, t, ks, k);
    }
  }

  /** A pass that keeps every status keeps the table invariants. */
  lemma StatusPreservingPass<C>(f: Row<C> -> Row<C>, t: Table<C>)
    requires forall row :: f(row).status == row.status
    ensures AtMostOneConfirmed(t) ==> AtMostOneConfirmed(AllRowsUpdated(f, t))
    ensures PositiveVersions(t) ==> PositiveVersions(AllRowsUpdated(f, t))
  {
    var r := AllRowsUpdated(f, t);
    assert forall k :: k in r ==> k in t && r[k].status == t[k].status;
  }
}
