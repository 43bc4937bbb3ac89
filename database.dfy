/**
 * The shared SQLite store through which the two workers cooperate:
 * the work queue `check_queue`, the append-only result log
 * `group_checks` and the side queue `leave_queue`. Each table is a
 * sequence of rows in rowid order; every API call is one SQL statement,
 * so each mutating call is one method of `Store` and each query is a
 * function of the table it reads.
 */
module Database {
  import opened Wrappers
  import opened Json
  import opened Text

  /** The status a new `check_queue` or `leave_queue` row gets from the schema's DEFAULT. */
  const PENDING := "pending"
  /** The reason `add_to_leave_queue` uses when none is given. */
  const MANUAL_REASON := "manual"

  /** A `check_queue` row. */
  datatype QueueRow = QueueRow(
    id: int, groupId: int, groupTitle: string, userId: int, inviteLink: string, status: string)

  /**
   * The content of a TEXT column written with `json.dumps(x)` where `x`
   * is a dictionary or `None`: SQL NULL, the empty text, or a JSON
   * document (`"null"` when `x` is `None`).
   */
  datatype Stored = SqlNull | EmptyText | JsonText(value: Option<Fields>)

  /** A `group_checks` row. */
  datatype CheckRow = CheckRow(
    id: int, groupId: int, groupTitle: string, userId: int,
    botCheckResult: Stored, userbotCheckResult: Stored, finalResult: bool, issues: string)

  /** A `leave_queue` row. */
  datatype LeaveRow = LeaveRow(id: int, groupId: int, reason: string, status: string)

  /** `json.dumps` of a dictionary or of `None`. */
  function Encode(x: Option<Fields>): Stored {
    JsonText(x)
  }

  /**
   * What `get_userbot_result` makes of a column: NULL and the empty
   * text are absent, otherwise `json.loads`, which turns `"null"` into
   * `None` as well.
   */
  function Decode(t: Stored): (x: Option<Fields>)
    ensures x.Some? ==> t == JsonText(x)
  {
    match t
    case SqlNull => None
    case EmptyText => None
    case JsonText(v) => v
  }

  lemma DecodeEncode(x: Option<Fields>)
    ensures Decode(Encode(x)) == x
  {
  }

  // ----- row ids -----

  predicate IdsIncreasing(ids: seq<int>) {
    forall i, j :: 0 <= i < j < |ids| ==> ids[i] < ids[j]
  }

  /** AUTOINCREMENT ids: positive and strictly increasing in rowid order. */
  predicate IdsValid(ids: seq<int>) {
    IdsIncreasing(ids) && forall i :: 0 <= i < |ids| ==> ids[i] >= 1
  }

  /** The id AUTOINCREMENT gives the next row of a table that is never deleted from. */
  function NextId(ids: seq<int>): (n: int)
    requires IdsValid(ids)
    ensures n >= 1
    ensures forall i :: 0 <= i < |ids| ==> ids[i] < n
    ensures IdsValid(ids + [n])
  {
    if ids == [] then 1 else ids[|ids| - 1] + 1
  }

  // One id projection per table: a single generic one would take the
  // projection as a function value, which every id lemma would then go through.
  function QueueIds(q: seq<QueueRow>): (ids: seq<int>)
    ensures |ids| == |q| && forall i :: 0 <= i < |q| ==> ids[i] == q[i].id
  {
    seq(|q|, i requires 0 <= i < |q| => q[i].id)
  }

  function CheckIds(c: seq<CheckRow>): (ids: seq<int>)
    ensures |ids| == |c| && forall i :: 0 <= i < |c| ==> ids[i] == c[i].id
  {
    seq(|c|, i requires 0 <= i < |c| => c[i].id)
  }

  function LeaveIds(l: seq<LeaveRow>): (ids: seq<int>)
    ensures |ids| == |l| && forall i :: 0 <= i < |l| ==> ids[i] == l[i].id
  {
    seq(|l|, i requires 0 <= i < |l| => l[i].id)
  }

  lemma QueueIdsAppend(q: seq<QueueRow>, r: QueueRow)
    ensures QueueIds(q + [r]) == QueueIds(q) + [r.id]
  {
    assert QueueIds(q + [r]) == QueueIds(q) + [r.id] by {
      var a, b := QueueIds(q + [r]), QueueIds(q) + [r.id];
      assert |a| == |b|;
      forall i | 0 <= i < |a| ensures a[i] == b[i] {
        if i < |q| { assert (q + [r])[i] == q[i]; }
      }
    }
  }

  lemma CheckIdsAppend(c: seq<CheckRow>, r: CheckRow)
    ensures CheckIds(c + [r]) == CheckIds(c) + [r.id]
  {
    var a, b := CheckIds(c + [r]), CheckIds(c) + [r.id];
    forall i | 0 <= i < |a| ensures a[i] == b[i] {
      if i < |c| { assert (c + [r])[i] == c[i]; }
    }
  }

  lemma LeaveIdsAppend(l: seq<LeaveRow>, r: LeaveRow)
    ensures LeaveIds(l + [r]) == LeaveIds(l) + [r.id]
  {
    var a, b := LeaveIds(l + [r]), LeaveIds(l) + [r.id];
    forall i | 0 <= i < |a| ensures a[i] == b[i] {
      if i < |l| { assert (l + [r])[i] == l[i]; }
    }
  }

  // ----- check_queue -----

  /**
   * `UPDATE check_queue SET status = ? WHERE id = ?`: every row with that
   * id gets the new status, whatever it had; other rows are untouched.
   */
  function WithStatus(q: seq<QueueRow>, queueId: int, status: string): (r: seq<QueueRow>)
    ensures |r| == |q| && QueueIds(r) == QueueIds(q)
    ensures forall i :: 0 <= i < |q| && q[i].id == queueId ==> r[i] == q[i].(status := status)
    ensures forall i :: 0 <= i < |q| && q[i].id != queueId ==> r[i] == q[i]
  {
    if q == [] then []
    else [if q[0].id == queueId then q[0].(status := status) else q[0]] + WithStatus(q[1..], queueId, status)
  }

  /** Updating an id that no row has is a silent no-op. */
  lemma WithStatusMissingId(q: seq<QueueRow>, queueId: int, status: string)
    requires forall i :: 0 <= i < |q| ==> q[i].id != queueId
    ensures WithStatus(q, queueId, status) == q
  {
  }

  /** The last update wins: writing a status twice is the same as writing the second one. */
  lemma WithStatusOverwrites(q: seq<QueueRow>, queueId: int, s1: string, s2: string)
    ensures WithStatus(WithStatus(q, queueId, s1), queueId, s2) == WithStatus(q, queueId, s2)
  {
  }

  /** `SELECT * FROM check_queue WHERE status = "pending"`, in rowid order. */
  function GetPendingChecks(q: seq<QueueRow>): (p: seq<QueueRow>)
    ensures forall r :: r in p <==> r in q && r.status == PENDING
    ensures Subsequence(p, q)
  {
    if q == [] then []
    else
      var rest := GetPendingChecks(q[1..]);
      if q[0].status == PENDING then
        assert ([q[0]] + rest)[1..] == rest;
        [q[0]] + rest
      else rest
  }

  /** Ids increase along the listing as they do along the table. */
  lemma {:induction false} PendingIdsIncreasing(q: seq<QueueRow>)
    requires IdsIncreasing(QueueIds(q))
    ensures IdsIncreasing(QueueIds(GetPendingChecks(q)))
  {
    if q != [] {
      TailIdsIncreasing(q);
      PendingIdsIncreasing(q[1..]);
      if q[0].status == PENDING {
        HeadBelowPending(q);
        ConsIdsIncreasing(q[0], GetPendingChecks(q[1..]));
      }
    }
  }

  lemma TailIdsIncreasing(q: seq<QueueRow>)
    requires q != [] && IdsIncreasing(QueueIds(q))
    ensures IdsIncreasing(QueueIds(q[1..]))
  {
    var ids, tids := QueueIds(q), QueueIds(q[1..]);
    forall i, j | 0 <= i < j < |tids| ensures tids[i] < tids[j] {
      assert tids[i] == ids[i + 1] && tids[j] == ids[j + 1];
    }
  }

  lemma ConsIdsIncreasing(r: QueueRow, rest: seq<QueueRow>)
    requires IdsIncreasing(QueueIds(rest))
    requires forall i :: 0 <= i < |rest| ==> r.id < rest[i].id
    ensures IdsIncreasing(QueueIds([r] + rest))
  {
    var pids, rids := QueueIds([r] + rest), QueueIds(rest);
    forall i, j | 0 <= i < j < |pids| ensures pids[i] < pids[j] {
      assert pids[j] == rids[j - 1];
      if i > 0 { assert pids[i] == rids[i - 1]; }
    }
  }

  /** Every row listed from the tail has a larger id than the head row. */
  lemma HeadBelowPending(q: seq<QueueRow>)
    requires q != [] && IdsIncreasing(QueueIds(q))
    ensures forall r :: r in GetPendingChecks(q[1..]) ==> q[0].id < r.id
  {
    var ids := QueueIds(q);
    forall r | r in GetPendingChecks(q[1..]) ensures q[0].id < r.id {
      var m :| 0 <= m < |q| - 1 && q[1..][m] == r;
      assert ids[0] < ids[m + 1];
    }
  }

  // ----- group_checks -----

  /**
   * The row `fetchone()` returns for `SELECT ... WHERE group_id = ?`
   * without ORDER BY: the first matching row of the table scan.
   */
  function FirstCheckRow(checks: seq<CheckRow>, groupId: int): (k: Option<nat>)
    ensures k.None? ==> forall j :: 0 <= j < |checks| ==> checks[j].groupId != groupId
    ensures k.Some? ==> k.value < |checks| && checks[k.value].groupId == groupId
    ensures k.Some? ==> forall j :: 0 <= j < k.value ==> checks[j].groupId != groupId
  {
    if checks == [] then None
    else if checks[0].groupId == groupId then Some(0)
    else match FirstCheckRow(checks[1..], groupId)
      case None => None
      case Some(k) => Some(k + 1)
  }

  /** `get_userbot_result`: the decoded `userbot_check_result` of the first row of the group. */
  function GetUserbotResult(checks: seq<CheckRow>, groupId: int): (r: Option<Fields>)
    ensures (forall j :: 0 <= j < |checks| ==> checks[j].groupId != groupId) ==> r.None?
    ensures r.Some? ==> exists k :: 0 <= k < |checks| && checks[k].groupId == groupId
                                && checks[k].userbotCheckResult == JsonText(r)
                                && forall j :: 0 <= j < k ==> checks[j].groupId != groupId
  {
    match FirstCheckRow(checks, groupId)
    case None => None
    case Some(k) => Decode(checks[k].userbotCheckResult)
  }

  /** `is_check_complete`: the first row of the group exists and its column is not NULL. */
  function IsCheckComplete(checks: seq<CheckRow>, groupId: int): (done: bool)
    ensures done <==> exists k :: 0 <= k < |checks| && checks[k].groupId == groupId
                              && checks[k].userbotCheckResult != SqlNull
                              && forall j :: 0 <= j < k ==> checks[j].groupId != groupId
  {
    match FirstCheckRow(checks, groupId)
    case None => false
    case Some(k) => checks[k].userbotCheckResult != SqlNull
  }

  /** A present result implies a complete check. */
  lemma ResultImpliesComplete(checks: seq<CheckRow>, groupId: int)
    requires GetUserbotResult(checks, groupId).Some?
    ensures IsCheckComplete(checks, groupId)
  {
  }

  /**
   * The two queries disagree on a first row whose text is "null" (or the
   * empty text): the check counts as complete, yet there is no result.
   */
  lemma CompleteWithoutResult(checks: seq<CheckRow>, groupId: int, k: nat)
    requires k < |checks| && checks[k].groupId == groupId
    requires forall j :: 0 <= j < k ==> checks[j].groupId != groupId
    requires checks[k].userbotCheckResult in {JsonText(None), EmptyText}
    ensures IsCheckComplete(checks, groupId)
    ensures GetUserbotResult(checks, groupId).None?
  {
    assert FirstCheckRow(checks, groupId) == Some(k);
  }

  /** Appending to the table keeps the first row of a group that already has one. */
  lemma {:induction false} FirstCheckRowAppend(checks: seq<CheckRow>, extra: seq<CheckRow>, groupId: int)
    ensures FirstCheckRow(checks + extra, groupId) ==
              match FirstCheckRow(checks, groupId)
              case Some(k) => Some(k)
              case None =>
                match FirstCheckRow(extra, groupId)
                case Some(k) => Some(|checks| + k)
                case None => None
  {
    if checks == [] {
      assert checks + extra == extra;
    } else {
      assert (checks + extra)[0] == checks[0];
      if checks[0].groupId != groupId {
        assert (checks + extra)[1..] == checks[1..] + extra;
        FirstCheckRowAppend(checks[1..], extra, groupId);
      }
    }
  }

  /** Later rows of a group never change what the two queries report for it. */
  lemma LaterRowsIgnored(checks: seq<CheckRow>, extra: seq<CheckRow>, groupId: int)
    requires exists k :: 0 <= k < |checks| && checks[k].groupId == groupId
    ensures GetUserbotResult(checks + extra, groupId) == GetUserbotResult(checks, groupId)
    ensures IsCheckComplete(checks + extra, groupId) == IsCheckComplete(checks, groupId)
  {
    FirstCheckRowAppend(checks, extra, groupId);
    var k := FirstCheckRow(checks, groupId).value;
    assert (checks + extra)[k] == checks[k];
  }

  /** A row of another group never changes what the two queries report. */
  lemma OtherGroupRowIgnored(checks: seq<CheckRow>, row: CheckRow, groupId: int)
    requires row.groupId != groupId
    ensures GetUserbotResult(checks + [row], groupId) == GetUserbotResult(checks, groupId)
    ensures IsCheckComplete(checks + [row], groupId) == IsCheckComplete(checks, groupId)
  {
    FirstCheckRowAppend(checks, [row], groupId);
    if FirstCheckRow(checks, groupId).Some? {
      var k := FirstCheckRow(checks, groupId).value;
      assert (checks + [row])[k] == checks[k];
    }
  }

  /** The first row appended for a group decides both queries from then on. */
  lemma FirstAppendDecides(checks: seq<CheckRow>, row: CheckRow)
    requires forall j :: 0 <= j < |checks| ==> checks[j].groupId != row.groupId
    ensures GetUserbotResult(checks + [row], row.groupId) == Decode(row.userbotCheckResult)
    ensures IsCheckComplete(checks + [row], row.groupId) == (row.userbotCheckResult != SqlNull)
  {
    FirstCheckRowAppend(checks, [row], row.groupId);
    assert (checks + [row])[|checks|] == row;
  }

  /** The store, as one process sees it. */
  class Store {
    var checkQueue: seq<QueueRow>
    var groupChecks: seq<CheckRow>
    var leaveQueue: seq<LeaveRow>

    ghost predicate Valid()
      reads this
    {
      IdsValid(QueueIds(checkQueue)) && IdsValid(CheckIds(groupChecks)) && IdsValid(LeaveIds(leaveQueue))
    }

    /** `init_db` on a fresh database: three empty tables. */
    constructor ()
      ensures Valid()
      ensures checkQueue == [] && groupChecks == [] && leaveQueue == []
    {
      checkQueue, groupChecks, leaveQueue := [], [], [];
    }

    /** `add_to_queue`: one new `pending` row with a fresh id, which is returned. */
    method AddToQueue(groupId: int, groupTitle: string, userId: int, inviteLink: string) returns (queueId: int)
      requires Valid()
      modifies this
      ensures Valid()
      ensures queueId >= 1 && forall r :: r in old(checkQueue) ==> r.id < queueId
      ensures checkQueue == old(checkQueue) + [QueueRow(queueId, groupId, groupTitle, userId, inviteLink, PENDING)]
      ensures groupChecks == old(groupChecks) && leaveQueue == old(leaveQueue)
    {
      queueId := NextId(QueueIds(checkQueue));
      var row := QueueRow(queueId, groupId, groupTitle, userId, inviteLink, PENDING);
      QueueIdsAppend(checkQueue, row);
      checkQueue := checkQueue + [row];
    }

    /** `update_queue_status`: an unconditional overwrite; a missing id changes nothing. */
    method UpdateQueueStatus(queueId: int, status: string)
      requires Valid()
      modifies this
      ensures Valid()
      ensures checkQueue == WithStatus(old(checkQueue), queueId, status)
      ensures groupChecks == old(groupChecks) && leaveQueue == old(leaveQueue)
    {
      checkQueue := WithStatus(checkQueue, queueId, status);
    }

    /** `save_check_result`: always appends one new row, even for a group that has rows. */
    method SaveCheckResult(groupId: int, groupTitle: string, userId: int, botResult: Option<Fields>,
                           userbotResult: Option<Fields>, finalResult: bool, issues: string)
      requires Valid()
      modifies this
      ensures Valid()
      ensures groupChecks == old(groupChecks) + [CheckRow(
        NextId(CheckIds(old(groupChecks))), groupId, groupTitle, userId,
        Encode(botResult), Encode(userbotResult), finalResult, issues)]
      ensures checkQueue == old(checkQueue) && leaveQueue == old(leaveQueue)
    {
      var row := CheckRow(NextId(CheckIds(groupChecks)), groupId, groupTitle, userId,
                          Encode(botResult), Encode(userbotResult), finalResult, issues);
      CheckIdsAppend(groupChecks, row);
      groupChecks := groupChecks + [row];
    }

    /** `add_to_leave_queue`: one new `pending` row with a fresh id, which is returned. */
    method AddToLeaveQueue(groupId: int, reason: string := MANUAL_REASON) returns (queueId: int)
      requires Valid()
      modifies this
      ensures Valid()
      ensures queueId >= 1 && forall r :: r in old(leaveQueue) ==> r.id < queueId
      ensures leaveQueue == old(leaveQueue) + [LeaveRow(queueId, groupId, reason, PENDING)]
      ensures checkQueue == old(checkQueue) && groupChecks == old(groupChecks)
    {
      queueId := NextId(LeaveIds(leaveQueue));
      var row := LeaveRow(queueId, groupId, reason, PENDING);
      LeaveIdsAppend(leaveQueue, row);
      leaveQueue := leaveQueue + [row];
    }
  }

  /** A client of the store: enqueueing adds exactly one listed pending entry. */
  method EnqueueThenList(store: Store, groupId: int, groupTitle: string, userId: int, inviteLink: string)
    returns (queueId: int, pending: seq<QueueRow>)
    requires store.Valid()
    modifies store
    ensures store.Valid()
    ensures pending == GetPendingChecks(store.checkQueue)
    ensures pending == GetPendingChecks(old(store.checkQueue)) + [QueueRow(queueId, groupId, groupTitle, userId, inviteLink, PENDING)]
  {
    queueId := store.AddToQueue(groupId, groupTitle, userId, inviteLink);
    pending := GetPendingChecks(store.checkQueue);
    PendingAppend(old(store.checkQueue), QueueRow(queueId, groupId, groupTitle, userId, inviteLink, PENDING));
  }

  /** Listing after an append is the old listing plus the new row when it is pending. */
  lemma {:induction false} PendingAppend(q: seq<QueueRow>, r: QueueRow)
    ensures GetPendingChecks(q + [r]) == GetPendingChecks(q) + (if r.status == PENDING then [r] else [])
  {
    if q == [] {
      assert GetPendingChecks([r]) == (if r.status == PENDING then [r] else []) by {
        assert ([r])[1..] == [];
      }
    } else {
      assert (q + [r])[0] == q[0];
      assert (q + [r])[1..] == q[1..] + [r];
      PendingAppend(q[1..], r);
    }
  }
}
