/**
 * The daily trash expiry job (lib/BackgroundJob/TrashCleanupJob.php): rows
 * that have sat in the trash for more than 30 days are deleted for good,
 * except those created by a member of the admin group. Each delete may fail
 * on its own without stopping the sweep; `run` swallows whatever the sweep
 * throws. The clock is the parameter `now`; which deletes fail, and whether
 * the expired-rows query fails, are parameters too.
 */
module TrashCleanup {
  import opened Common
  import opened Calendar
  import opened ContractEntity
  import opened Contracts
  import opened Permissions

  const TrashRetentionDays := 30

  /** new DateTime('-30 days'): the same time of day, 30 calendar days back. */
  function Cutoff(now: Instant): (c: Instant)
    requires ValidInstant(now)
    ensures ValidInstant(c)
  {
    ShiftDays(now, -TrashRetentionDays)
  }

  /** The cutoff lies exactly 30 * 86400 seconds before now. */
  lemma CutoffIsThirtyDaysEarlier(now: Instant)
    requires ValidInstant(now)
    ensures Timestamp(Cutoff(now)) == Timestamp(now) - TrashRetentionDays * SecondsPerDay
  {
    AddDaysOrdinal(now.date, -TrashRetentionDays);
  }

  /** The row findExpiredDeleted selects: trashed before the cutoff and not owned by an admin. */
  predicate Expired(r: ContractRecord, cutoff: Instant, adminIds: seq<string>)
    requires ValidRecord(r) && ValidInstant(cutoff)
  {
    r.deletedAt.Some? && Before(r.deletedAt.value, cutoff) && r.createdBy !in adminIds
  }

  /** What the mapper guarantees of its rows: each stored under its own id, with valid dates. */
  ghost predicate ValidRows(rows: map<int, ContractRecord>)
  {
    forall id :: id in rows ==> rows[id].id == id && ValidRecord(rows[id])
  }

  /** The ids of every expired row of the table. */
  ghost function ExpiredIds(rows: map<int, ContractRecord>, cutoff: Instant, adminIds: seq<string>): set<int>
    requires ValidRows(rows) && ValidInstant(cutoff)
  {
    set id | id in rows && Expired(rows[id], cutoff, adminIds)
  }

  /** Distinct rows of the table: each id once, each as stored. */
  ghost predicate RowsOf(es: seq<ContractRecord>, rows: map<int, ContractRecord>)
  {
    && (forall i :: 0 <= i < |es| ==> es[i].id in rows && rows[es[i].id] == es[i])
    && (forall i, j :: 0 <= i < j < |es| ==> es[i].id != es[j].id)
  }

  ghost function Ids(es: seq<ContractRecord>): set<int>
  {
    set i | 0 <= i < |es| :: es[i].id
  }

  /** The ids of the rows a WHERE clause keeps. */
  ghost function Where(rows: map<int, ContractRecord>, keep: ContractRecord -> bool): set<int>
  {
    set id | id in rows && keep(rows[id])
  }

  /** A table scan, one row at a time in no particular order, keeping the rows `keep` accepts. */
  method SelectWhere(rows: map<int, ContractRecord>, keep: ContractRecord -> bool)
    returns (selected: seq<ContractRecord>)
    requires forall id :: id in rows ==> rows[id].id == id
    ensures RowsOf(selected, rows)
    ensures Ids(selected) == Where(rows, keep)
  {
    var todo := rows.Keys;
    selected := [];
    while todo != {}
      invariant todo <= rows.Keys
      invariant RowsOf(selected, rows)
      invariant forall i :: 0 <= i < |selected| ==> selected[i].id !in todo
      invariant Ids(selected) == Where(rows, keep) - todo
      decreases todo
    {
      NonEmptyHasMember(todo);
      var id :| id in todo;
      ScanStep(rows, keep, selected, todo, id);
      if keep(rows[id]) {
        selected := selected + [rows[id]];
      }
      todo := todo - {id};
    }
  }

  /** One row of the scan: the loop invariants of SelectWhere carry over. */
  lemma ScanStep(rows: map<int, ContractRecord>, keep: ContractRecord -> bool,
                 selected: seq<ContractRecord>, todo: set<int>, id: int)
    requires forall k :: k in rows ==> rows[k].id == k
    requires todo <= rows.Keys && id in todo
    requires RowsOf(selected, rows)
    requires forall i :: 0 <= i < |selected| ==> selected[i].id !in todo
    requires Ids(selected) == Where(rows, keep) - todo
    ensures var next := if keep(rows[id]) then selected + [rows[id]] else selected;
      && RowsOf(next, rows)
      && (forall i :: 0 <= i < |next| ==> next[i].id !in todo - {id})
      && Ids(next) == Where(rows, keep) - (todo - {id})
  {
    if keep(rows[id]) {
      IdsSnoc(selected, rows[id]);
    }
  }

  class TrashCleanupJob {
    const mapper: ContractMapper
    /** The group manager's membership relation. */
    const directory: Directory

    constructor (mapper: ContractMapper, directory: Directory)
      ensures this.mapper == mapper && this.directory == directory
    {
      this.mapper := mapper;
      this.directory := directory;
    }

    /** getAdminUserIds: the members of group "admin", or none when the group does not exist. */
    method GetAdminUserIds() returns (ids: seq<string>)
      ensures AdminGroup !in directory ==> ids == []
      ensures AdminGroup in directory ==> ids == directory[AdminGroup]
      ensures forall u :: u in ids <==> IsAdmin(directory, u)
    {
      if AdminGroup !in directory {
        return [];
      }
      var users := directory[AdminGroup];
      ids := [];
      var i := 0;
      while i < |users|
        invariant 0 <= i <= |users|
        invariant ids == users[..i]
      {
        ids := ids + [users[i]];
        i := i + 1;
      }
      assert users[..i] == users;
    }

    /**
     * findExpiredDeleted: every expired row, each once. The query is not
     * part of the mapper; its meaning is the job's own description.
     */
    method FindExpiredDeleted(cutoff: Instant, adminIds: seq<string>) returns (expired: seq<ContractRecord>)
      requires mapper.Valid() && ValidInstant(cutoff)
      ensures RowsOf(expired, mapper.rows)
      ensures Ids(expired) == ExpiredIds(mapper.rows, cutoff, adminIds)
    {
      var keep := (r: ContractRecord) => ValidRecord(r) && Expired(r, cutoff, adminIds);
      expired := SelectWhere(mapper.rows, keep);
      assert Where(mapper.rows, keep) == ExpiredIds(mapper.rows, cutoff, adminIds);
    }

    /**
     * cleanupExpiredTrash: deletes each expired row whose delete does not
     * throw, and counts those. None stands for the query itself throwing.
     */
    method CleanupExpiredTrash(now: Instant, failing: set<int>, queryFails: bool) returns (r: Option<nat>)
      requires mapper.Valid() && ValidInstant(now)
      modifies mapper`rows
      ensures mapper.Valid()
      ensures r.None? <==> queryFails
      ensures r.None? ==> mapper.rows == old(mapper.rows)
      ensures r.Some? ==>
        var gone := ExpiredIds(old(mapper.rows), Cutoff(now), AdminIds(directory)) - failing;
        && mapper.rows == old(mapper.rows) - gone
        && r.value == |gone| <= |ExpiredIds(old(mapper.rows), Cutoff(now), AdminIds(directory))|
      // no row created by an admin is deleted
      ensures forall id :: id in old(mapper.rows) && IsAdmin(directory, old(mapper.rows)[id].createdBy)
                ==> id in mapper.rows
      // a deleted row was trashed before the cutoff and its delete did not fail
      ensures forall id :: id in old(mapper.rows) && id !in mapper.rows ==>
                && old(mapper.rows)[id].deletedAt.Some?
                && Before(old(mapper.rows)[id].deletedAt.value, Cutoff(now))
                && id !in failing
    {
      var cutoff := Cutoff(now);
      var adminIds := GetAdminUserIds();
      assert adminIds == AdminIds(directory);
      if queryFails {
        return None;
      }
      var expired := FindExpiredDeleted(cutoff, adminIds);
      var deletedCount := DeleteEach(expired, failing);
      return Some(deletedCount);
    }

    /** The foreach of cleanupExpiredTrash: a failing delete is skipped and the rest go on. */
    method DeleteEach(expired: seq<ContractRecord>, failing: set<int>) returns (deletedCount: nat)
      requires mapper.Valid() && RowsOf(expired, mapper.rows)
      modifies mapper`rows
      ensures mapper.Valid()
      ensures mapper.rows == old(mapper.rows) - (Ids(expired) - failing)
      ensures deletedCount == |Ids(expired) - failing|
    {
      ghost var rows0 := mapper.rows;
      deletedCount := 0;
      var i := 0;
      while i < |expired|
        invariant 0 <= i <= |expired|
        invariant mapper.Valid()
        invariant mapper.rows == rows0 - DeletedIds(expired[..i], failing)
        invariant deletedCount == |DeletedIds(expired[..i], failing)|
      {
        var row := expired[i];
        DeletedIdsStep(expired, i, failing);
        if row.id !in failing {
          DeleteRow(row);
          RemoveOneMore(rows0, DeletedIds(expired[..i], failing), row.id);
          deletedCount := deletedCount + 1;
        }
        i := i + 1;
      }
      assert expired[..i] == expired;
      DeletedIdsAll(expired, failing);
    }

    /** contractMapper->delete() on the entity loaded from the row. */
    method DeleteRow(row: ContractRecord)
      requires mapper.Valid()
      modifies mapper`rows
      ensures mapper.Valid() && mapper.rows == old(mapper.rows) - {row.id}
    {
      var c := new Contract.FromRecord(row);
      var deleted := mapper.Delete(c);
    }

    /** run: the sweep, with anything it throws caught and only logged. */
    method Run(now: Instant, failing: set<int>, queryFails: bool)
      requires mapper.Valid() && ValidInstant(now)
      modifies mapper`rows
      ensures mapper.Valid()
      ensures queryFails ==> mapper.rows == old(mapper.rows)
      ensures !queryFails ==>
        mapper.rows == old(mapper.rows) - (ExpiredIds(old(mapper.rows), Cutoff(now), AdminIds(directory)) - failing)
    {
      var deletedCount := CleanupExpiredTrash(now, failing, queryFails);
    }
  }

  /** The admin ids as the group manager lists them. */
  function AdminIds(dir: Directory): (ids: seq<string>)
    ensures forall u :: u in ids <==> IsAdmin(dir, u)
  {
    if AdminGroup in dir then dir[AdminGroup] else []
  }

  lemma IdsSnoc(es: seq<ContractRecord>, e: ContractRecord)
    ensures Ids(es + [e]) == Ids(es) + {e.id}
  {
    var t := es + [e];
    assert t[|es|] == e;
    forall x | x in Ids(t)
      ensures x in Ids(es) + {e.id}
    {
      var i :| 0 <= i < |t| && t[i].id == x;
      if i < |es| {
        assert t[i] == es[i];
      }
    }
    forall x | x in Ids(es)
      ensures x in Ids(t)
    {
      var i :| 0 <= i < |es| && es[i].id == x;
      assert t[i] == es[i];
    }
  }

  /** The ids a sweep over es deletes: those whose delete does not fail. */
  ghost function DeletedIds(es: seq<ContractRecord>, failing: set<int>): set<int>
    decreases |es|
  {
    if es == [] then {}
    else
      var last := es[|es| - 1].id;
      DeletedIds(es[..|es| - 1], failing) + (if last in failing then {} else {last})
  }

  lemma {:induction false} DeletedIdsWithin(es: seq<ContractRecord>, failing: set<int>)
    ensures DeletedIds(es, failing) <= Ids(es)
    decreases |es|
  {
    if es != [] {
      var init := es[..|es| - 1];
      DeletedIdsWithin(init, failing);
      assert es == init + [es[|es| - 1]];
      IdsSnoc(init, es[|es| - 1]);
    }
  }

  /** One candidate of the sweep: the deleted set grows by its id exactly when its delete succeeds. */
  lemma DeletedIdsStep(es: seq<ContractRecord>, i: int, failing: set<int>)
    requires 0 <= i < |es|
    requires forall a, b :: 0 <= a < b < |es| ==> es[a].id != es[b].id
    ensures var before := DeletedIds(es[..i], failing);
      var after := DeletedIds(es[..i + 1], failing);
      if es[i].id in failing then after == before
      else after == before + {es[i].id} && |after| == |before| + 1
  {
    assert es[..i + 1][..i] == es[..i];
    DeletedIdsWithin(es[..i], failing);
    NotAmongEarlier(es, i);
  }

  /** Sweeping the whole list deletes exactly its ids that do not fail. */
  lemma {:induction false} DeletedIdsAll(es: seq<ContractRecord>, failing: set<int>)
    ensures DeletedIds(es, failing) == Ids(es) - failing
    decreases |es|
  {
    if es != [] {
      var init := es[..|es| - 1];
      DeletedIdsAll(init, failing);
      assert es == init + [es[|es| - 1]];
      IdsSnoc(init, es[|es| - 1]);
    }
  }

  lemma RemoveOneMore(rows: map<int, ContractRecord>, gone: set<int>, id: int)
    ensures (rows - gone) - {id} == rows - (gone + {id})
  {
  }

  lemma NotAmongEarlier(es: seq<ContractRecord>, i: int)
    requires 0 <= i < |es|
    requires forall a, b :: 0 <= a < b < |es| ==> es[a].id != es[b].id
    ensures es[i].id !in Ids(es[..i])
  {
  }
}
