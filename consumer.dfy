/**
 * One sweep of the deep worker's consumer loop (`process_pending_checks`
 * without its outer `while True`): list the pending entries, and for each
 * one in listing order either skip it because a result is already stored,
 * or claim it, join the group, analyse it, store the result and mark it
 * done. Joining and analysing are the external collaborators; what they
 * do for an entry is given by `env`.
 */
module Consumer {
  import opened Wrappers
  import opened Json
  import opened Database

  const PROCESSING := "processing"
  const USERBOT_DONE := "userbot_done"
  const FAILED := "failed"

  /**
   * How storing an analysed entry ends: the result row is committed and
   * the entry marked `userbot_done`; `save_check_result` raises before
   * its commit, so no row is committed; or the row is committed and an
   * exception follows before the `userbot_done` update commits (the
   * update itself raising is the usual case), leaving the entry `processing`.
   */
  datatype Storing = Stored | SaveRaises | UpdateRaises

  /**
   * What the collaborators do for one entry: whether `join_group`
   * succeeds, the payload `analyze_group` returns (it catches its own
   * exceptions and returns an error payload instead), and how storing ends.
   */
  datatype Attempt = Attempt(joined: bool, payload: Fields, storing: Storing)

  /** An observable call made while handling the entry with id `queueId`. */
  datatype Event =
    | StatusSet(queueId: int, status: string)
    | JoinAttempted(queueId: int)
    | ResultSaved(queueId: int)
    | LeaveAttempted(queueId: int)

  /** The tables, the calls made so far, and whether an exception ended the sweep. */
  datatype SweepState = SweepState(queue: seq<QueueRow>, checks: seq<CheckRow>, log: seq<Event>, raised: bool)

  /** The calls made for one entry; `skip` is the already-has-a-result guard. */
  function EntryEvents(skip: bool, queueId: int, attempt: Attempt): seq<Event> {
    if skip then [StatusSet(queueId, USERBOT_DONE)]
    else if !attempt.joined then
      [StatusSet(queueId, PROCESSING), JoinAttempted(queueId), StatusSet(queueId, FAILED)]
    else if attempt.storing == SaveRaises then
      [StatusSet(queueId, PROCESSING), JoinAttempted(queueId)]
    else if attempt.storing == UpdateRaises then
      [StatusSet(queueId, PROCESSING), JoinAttempted(queueId), ResultSaved(queueId)]
    else
      [StatusSet(queueId, PROCESSING), JoinAttempted(queueId), ResultSaved(queueId),
       StatusSet(queueId, USERBOT_DONE), LeaveAttempted(queueId)]
  }

  /** The `group_checks` row the consumer stores for an analysed entry. */
  function ResultRow(checks: seq<CheckRow>, entry: QueueRow, payload: Fields): (row: CheckRow)
    requires IdsValid(CheckIds(checks))
    ensures IdsValid(CheckIds(checks + [row]))
    ensures forall j :: 0 <= j < |checks| ==> checks[j].id < row.id
  {
    var row := CheckRow(NextId(CheckIds(checks)), entry.groupId, entry.groupTitle, entry.userId,
                        Encode(Some(map[])), Encode(Some(payload)), false, "");
    CheckIdsAppend(checks, row);
    row
  }

  /** Handling one entry: the body of the `for check in pending_checks` loop. */
  function Step(s: SweepState, entry: QueueRow, attempt: Attempt): (t: SweepState)
    requires IdsValid(CheckIds(s.checks))
    ensures IdsValid(CheckIds(t.checks))
    ensures |t.queue| == |s.queue| && s.checks <= t.checks && s.log <= t.log
  {
    var skip := TruthyDict(GetUserbotResult(s.checks, entry.groupId));
    var log := s.log + EntryEvents(skip, entry.id, attempt);
    if skip then
      SweepState(WithStatus(s.queue, entry.id, USERBOT_DONE), s.checks, log, false)
    else
      var claimed := WithStatus(s.queue, entry.id, PROCESSING);
      if !attempt.joined then
        SweepState(WithStatus(claimed, entry.id, FAILED), s.checks, log, false)
      else
        var stored := s.checks + [ResultRow(s.checks, entry, attempt.payload)];
        match attempt.storing
        case SaveRaises => SweepState(claimed, s.checks, log, true)
        case UpdateRaises => SweepState(claimed, stored, log, true)
        case Stored => SweepState(WithStatus(claimed, entry.id, USERBOT_DONE), stored, log, false)
  }

  /** The entries from `pending` on, until one raises. */
  function Run(s: SweepState, pending: seq<QueueRow>, env: QueueRow -> Attempt): (t: SweepState)
    requires IdsValid(CheckIds(s.checks))
    ensures IdsValid(CheckIds(t.checks))
    ensures |t.queue| == |s.queue| && s.checks <= t.checks && s.log <= t.log
    ensures s.raised ==> t == s
    decreases |pending|
  {
    if pending == [] || s.raised then s
    else Run(Step(s, pending[0], env(pending[0])), pending[1..], env)
  }

  /** The state a sweep starts from. */
  function Start(queue: seq<QueueRow>, checks: seq<CheckRow>): SweepState {
    SweepState(queue, checks, [], false)
  }

  /**
   * One sweep. An exception raised while storing ends the sweep at that
   * entry (the outer `try` catches it), leaving the remaining entries
   * pending for the next sweep.
   */
  method ProcessPendingChecks(store: Store, env: QueueRow -> Attempt) returns (log: seq<Event>, raised: bool)
    requires store.Valid()
    modifies store
    ensures store.Valid()
    ensures var final := Run(Start(old(store.checkQueue), old(store.groupChecks)),
                             GetPendingChecks(old(store.checkQueue)), env);
            store.checkQueue == final.queue && store.groupChecks == final.checks
            && log == final.log && raised == final.raised
    ensures store.leaveQueue == old(store.leaveQueue)
  {
    var pending := GetPendingChecks(store.checkQueue);
    ghost var final := Run(Start(store.checkQueue, store.groupChecks), pending, env);
    log, raised := [], false;
    var i := 0;
    while i < |pending| && !raised
      invariant 0 <= i <= |pending|
      invariant store.Valid()
      invariant Run(SweepState(store.checkQueue, store.groupChecks, log, raised), pending[i..], env) == final
      invariant store.leaveQueue == old(store.leaveQueue)
    {
      assert pending[i..][1..] == pending[i + 1..];
      log, raised := HandleEntry(store, pending[i], env(pending[i]), log);
      i := i + 1;
    }
  }

  /** The loop body for one entry, with the calls logged after those of earlier entries. */
  method HandleEntry(store: Store, entry: QueueRow, attempt: Attempt, log0: seq<Event>)
    returns (log: seq<Event>, raised: bool)
    requires store.Valid()
    modifies store
    ensures store.Valid()
    ensures SweepState(store.checkQueue, store.groupChecks, log, raised)
            == Step(SweepState(old(store.checkQueue), old(store.groupChecks), log0, false), entry, attempt)
    ensures store.leaveQueue == old(store.leaveQueue)
  {
    raised := false;
    ghost var s := SweepState(store.checkQueue, store.groupChecks, log0, false);
    var existing := GetUserbotResult(store.groupChecks, entry.groupId);
    if TruthyDict(existing) {
      store.UpdateQueueStatus(entry.id, USERBOT_DONE);
      log := log0 + [StatusSet(entry.id, USERBOT_DONE)];
      return;
    }
    ghost var claimed := WithStatus(s.queue, entry.id, PROCESSING);
    store.UpdateQueueStatus(entry.id, PROCESSING);
    var calls := [StatusSet(entry.id, PROCESSING), JoinAttempted(entry.id)];
    assert store.checkQueue == claimed && store.groupChecks == s.checks;
    if !attempt.joined {
      store.UpdateQueueStatus(entry.id, FAILED);
      calls := calls + [StatusSet(entry.id, FAILED)];
      log := log0 + calls;
      return;
    }
    if attempt.storing == SaveRaises {
      raised := true;
      log := log0 + calls;
      return;
    }
    store.SaveCheckResult(entry.groupId, entry.groupTitle, entry.userId, Some(map[]), Some(attempt.payload), false, "");
    assert store.groupChecks == s.checks + [ResultRow(s.checks, entry, attempt.payload)];
    calls := calls + [ResultSaved(entry.id)];
    if attempt.storing == UpdateRaises {
      raised := true;
      log := log0 + calls;
      assert calls == EntryEvents(false, entry.id, attempt);
      return;
    }
    store.UpdateQueueStatus(entry.id, USERBOT_DONE);
    calls := calls + [StatusSet(entry.id, USERBOT_DONE), LeaveAttempted(entry.id)];
    log := log0 + calls;
    assert calls == EntryEvents(false, entry.id, attempt);
    assert store.checkQueue == WithStatus(claimed, entry.id, USERBOT_DONE);
  }

  // ----- what a sweep does, for every input -----

  /** The statuses written for the entry `queueId`, in order. */
  function StatusesOf(log: seq<Event>, queueId: int): seq<string> {
    if log == [] then []
    else (if log[0].StatusSet? && log[0].queueId == queueId then [log[0].status] else [])
         + StatusesOf(log[1..], queueId)
  }

  lemma {:induction false} StatusesOfConcat(a: seq<Event>, b: seq<Event>, queueId: int)
    ensures StatusesOf(a + b, queueId) == StatusesOf(a, queueId) + StatusesOf(b, queueId)
  {
    if a != [] {
      assert (a + b)[0] == a[0];
      assert (a + b)[1..] == a[1..] + b;
      StatusesOfConcat(a[1..], b, queueId);
    } else {
      assert a + b == b;
    }
  }

  lemma StatusesOfCons(e: Event, rest: seq<Event>, queueId: int)
    ensures StatusesOf([e] + rest, queueId)
         == (if e.StatusSet? && e.queueId == queueId then [e.status] else []) + StatusesOf(rest, queueId)
  {
    assert ([e] + rest)[1..] == rest;
  }

  /**
   * The status histories an entry can have after a sweep: untouched
   * (the sweep ended before it), skipped, failed to join, done, or
   * left `processing` by an exception.
   */
  predicate AllowedHistory(h: seq<string>) {
    || h == [] || h == [USERBOT_DONE] || h == [PROCESSING]
    || h == [PROCESSING, FAILED] || h == [PROCESSING, USERBOT_DONE]
  }

  /** The statuses a list of events for one entry writes, read off event by event. */
  function StatusesOfOwn(ev: seq<Event>): seq<string> {
    if ev == [] then [] else (if ev[0].StatusSet? then [ev[0].status] else []) + StatusesOfOwn(ev[1..])
  }

  lemma {:induction false} OwnEvents(ev: seq<Event>, queueId: int, other: int)
    requires forall i :: 0 <= i < |ev| ==> ev[i].queueId == queueId
    requires other != queueId
    ensures StatusesOf(ev, queueId) == StatusesOfOwn(ev)
    ensures StatusesOf(ev, other) == []
  {
    if ev != [] {
      OwnEvents(ev[1..], queueId, other);
    }
  }

  lemma EntryStatuses(skip: bool, queueId: int, attempt: Attempt, other: int)
    requires other != queueId
    ensures AllowedHistory(StatusesOf(EntryEvents(skip, queueId, attempt), queueId))
    ensures StatusesOf(EntryEvents(skip, queueId, attempt), queueId) != []
    ensures StatusesOf(EntryEvents(skip, queueId, attempt), queueId) == [PROCESSING] <==>
              Raises(skip, attempt)
    ensures StatusesOf(EntryEvents(skip, queueId, attempt), other) == []
  {
    var ev := EntryEvents(skip, queueId, attempt);
    OwnEvents(ev, queueId, other);
    var t1 := ev[1..];
    assert StatusesOfOwn(ev) == (if ev[0].StatusSet? then [ev[0].status] else []) + StatusesOfOwn(t1);
    if skip {
      assert t1 == [];
      assert StatusesOfOwn(ev) == [USERBOT_DONE];
    } else {
      var t2 := t1[1..];
      assert StatusesOfOwn(t1) == StatusesOfOwn(t2);
      if !attempt.joined {
        assert t2[1..] == [];
        assert StatusesOfOwn(t2) == [FAILED];
        assert StatusesOfOwn(ev) == [PROCESSING] + [FAILED] == [PROCESSING, FAILED];
      } else if attempt.storing == SaveRaises {
        assert t2 == [];
        assert StatusesOfOwn(ev) == [PROCESSING];
      } else if attempt.storing == UpdateRaises {
        assert t2[1..] == [];
        assert StatusesOfOwn(t2) == [];
        assert StatusesOfOwn(ev) == [PROCESSING];
      } else {
        var t3 := t2[1..];
        var t4 := t3[1..];
        assert t4[1..] == [];
        assert StatusesOfOwn(t4) == [];
        assert StatusesOfOwn(t3) == [USERBOT_DONE];
        assert StatusesOfOwn(t2) == StatusesOfOwn(t3);
        assert StatusesOfOwn(ev) == [PROCESSING] + [USERBOT_DONE] == [PROCESSING, USERBOT_DONE];
      }
    }
  }

  /** What handling one entry adds to the log. */
  lemma StepLog(s: SweepState, entry: QueueRow, attempt: Attempt)
    requires IdsValid(CheckIds(s.checks))
    ensures Step(s, entry, attempt).log
         == s.log + EntryEvents(TruthyDict(GetUserbotResult(s.checks, entry.groupId)), entry.id, attempt)
  {
  }

  /** Handling one entry changes only that entry's queue rows, and no id. */
  lemma StepQueue(s: SweepState, entry: QueueRow, attempt: Attempt)
    requires IdsValid(CheckIds(s.checks))
    ensures var t := Step(s, entry, attempt);
      && |t.queue| == |s.queue| && QueueIds(t.queue) == QueueIds(s.queue)
      && forall i :: 0 <= i < |s.queue| && s.queue[i].id != entry.id ==> t.queue[i] == s.queue[i]
  {
  }

  /**
   * An entry that is not skipped, joins, and whose `save_check_result`
   * commits: the cases that store a row, whether or not the update after
   * it raises.
   */
  predicate Stores(skip: bool, attempt: Attempt) {
    !skip && attempt.joined && attempt.storing != SaveRaises
  }

  /** An entry that is not skipped, joins, and whose storing raises. */
  predicate Raises(skip: bool, attempt: Attempt) {
    !skip && attempt.joined && attempt.storing != Stored
  }

  /** The status an entry's row is left with once its handling ends. */
  function StatusAfter(skip: bool, attempt: Attempt): string {
    if skip then USERBOT_DONE
    else if !attempt.joined then FAILED
    else if attempt.storing != Stored then PROCESSING
    else USERBOT_DONE
  }

  /**
   * Handling one entry appends exactly the consumer's row for it when
   * `save_check_result` commits (even if the update after it raises),
   * and no row otherwise.
   */
  lemma StepChecks(s: SweepState, entry: QueueRow, attempt: Attempt)
    requires IdsValid(CheckIds(s.checks))
    ensures var t := Step(s, entry, attempt);
      var skip := TruthyDict(GetUserbotResult(s.checks, entry.groupId));
      && s.checks <= t.checks && |t.checks| <= |s.checks| + 1
      && (|t.checks| > |s.checks| ==> ResultFor(t.checks[|s.checks|], entry, attempt))
      && (Stores(skip, attempt) ==>
            t.checks == s.checks + [ResultRow(s.checks, entry, attempt.payload)])
      && (!Stores(skip, attempt) ==> t.checks == s.checks)
  {
  }

  /**
   * The entry's own rows end with `StatusAfter`: `userbot_done` when
   * skipped or stored, `failed` when the join fails, `processing` when
   * storing raises, which is the one outcome that ends the sweep.
   */
  lemma StepOutcome(s: SweepState, entry: QueueRow, attempt: Attempt)
    requires IdsValid(CheckIds(s.checks))
    ensures var t := Step(s, entry, attempt);
      var skip := TruthyDict(GetUserbotResult(s.checks, entry.groupId));
      && (forall i :: 0 <= i < |s.queue| && s.queue[i].id == entry.id ==>
            t.queue[i] == s.queue[i].(status := StatusAfter(skip, attempt)))
      && (t.raised <==> Raises(skip, attempt))
  {
  }

  /** A sweep writes nothing for an id that no listed entry has. */
  lemma {:induction false} RunOtherIds(s: SweepState, pending: seq<QueueRow>, env: QueueRow -> Attempt, queueId: int)
    requires IdsValid(CheckIds(s.checks))
    requires forall r :: r in pending ==> r.id != queueId
    ensures StatusesOf(Run(s, pending, env).log, queueId) == StatusesOf(s.log, queueId)
    decreases |pending|
  {
    if pending != [] && !s.raised {
      var e := pending[0];
      var skip := TruthyDict(GetUserbotResult(s.checks, e.groupId));
      var t := Step(s, e, env(e));
      StepLog(s, e, env(e));
      EntryStatuses(skip, e.id, env(e), queueId);
      StatusesOfConcat(s.log, EntryEvents(skip, e.id, env(e)), queueId);
      RunOtherIds(t, pending[1..], env, queueId);
      assert Run(s, pending, env) == Run(t, pending[1..], env);
    }
  }

  /** Every listed entry ends a sweep with one of the allowed status histories. */
  lemma {:induction false} RunStatusHistory(s: SweepState, pending: seq<QueueRow>, env: QueueRow -> Attempt, entry: QueueRow)
    requires IdsValid(CheckIds(s.checks))
    requires IdsIncreasing(QueueIds(pending)) && entry in pending
    requires StatusesOf(s.log, entry.id) == []
    ensures AllowedHistory(StatusesOf(Run(s, pending, env).log, entry.id))
    ensures !Run(s, pending, env).raised ==> StatusesOf(Run(s, pending, env).log, entry.id) != []
    ensures StatusesOf(Run(s, pending, env).log, entry.id) == [PROCESSING] ==> Run(s, pending, env).raised
    decreases |pending|
  {
    if !s.raised {
      var e := pending[0];
      var skip := TruthyDict(GetUserbotResult(s.checks, e.groupId));
      var t := Step(s, e, env(e));
      StepLog(s, e, env(e));
      StatusesOfConcat(s.log, EntryEvents(skip, e.id, env(e)), entry.id);
      assert Run(s, pending, env) == Run(t, pending[1..], env);
      var ids := QueueIds(pending);
      if e == entry {
        EntryStatuses(skip, e.id, env(e), e.id + 1);
        StepOutcome(s, e, env(e));
        forall r | r in pending[1..] ensures r.id != entry.id {
          var m :| 0 <= m < |pending| - 1 && pending[1..][m] == r;
          assert ids[0] < ids[m + 1];
        }
        RunOtherIds(t, pending[1..], env, entry.id);
      } else {
        var m :| 0 <= m < |pending| && pending[m] == entry;
        assert ids[0] < ids[m];
        EntryStatuses(skip, e.id, env(e), entry.id);
        TailIdsIncreasing(pending);
        assert entry in pending[1..];
        RunStatusHistory(t, pending[1..], env, entry);
      }
    }
  }

  /** No call in the log writes the status `pending`. */
  predicate NeverPending(log: seq<Event>) {
    forall i :: 0 <= i < |log| && log[i].StatusSet? ==> log[i].status != PENDING
  }

  /** A sweep never sets an entry back to `pending`. */
  lemma {:induction false} RunNeverPending(s: SweepState, pending: seq<QueueRow>, env: QueueRow -> Attempt)
    requires IdsValid(CheckIds(s.checks))
    requires NeverPending(s.log)
    ensures NeverPending(Run(s, pending, env).log)
    decreases |pending|
  {
    if pending != [] && !s.raised {
      var e := pending[0];
      var skip := TruthyDict(GetUserbotResult(s.checks, e.groupId));
      var t := Step(s, e, env(e));
      var ev := EntryEvents(skip, e.id, env(e));
      StepLog(s, e, env(e));
      forall i | 0 <= i < |t.log| && t.log[i].StatusSet? ensures t.log[i].status != PENDING {
        if i >= |s.log| { assert t.log[i] == ev[i - |s.log|]; }
      }
      RunNeverPending(t, pending[1..], env);
      assert Run(s, pending, env) == Run(t, pending[1..], env);
    }
  }

  /** A sweep changes no `check_queue` row except those of listed entries, and no id. */
  lemma {:induction false} RunKeepsOtherRows(s: SweepState, pending: seq<QueueRow>, env: QueueRow -> Attempt)
    requires IdsValid(CheckIds(s.checks))
    ensures |Run(s, pending, env).queue| == |s.queue|
    ensures QueueIds(Run(s, pending, env).queue) == QueueIds(s.queue)
    ensures forall i :: 0 <= i < |s.queue| && (forall r :: r in pending ==> r.id != s.queue[i].id) ==>
              Run(s, pending, env).queue[i] == s.queue[i]
    decreases |pending|
  {
    if pending != [] && !s.raised {
      var e := pending[0];
      var t := Step(s, e, env(e));
      StepQueue(s, e, env(e));
      RunKeepsOtherRows(t, pending[1..], env);
      assert Run(s, pending, env) == Run(t, pending[1..], env);
    }
  }

  /** Every event one entry's handling logs is about that entry. */
  lemma EntryEventsOwn(skip: bool, queueId: int, attempt: Attempt)
    ensures forall i :: 0 <= i < |EntryEvents(skip, queueId, attempt)| ==>
              EntryEvents(skip, queueId, attempt)[i].queueId == queueId
  {
  }

  /** The events after `from` concern the listed ids, in non-decreasing id order. */
  ghost predicate InListingOrder(log: seq<Event>, from: nat, ids: seq<int>) {
    && (forall i, j :: from <= i < j < |log| ==> log[i].queueId <= log[j].queueId)
    && (forall i :: from <= i < |log| ==> log[i].queueId in ids)
  }

  lemma ListingOrderCons(log: seq<Event>, from: nat, mid: nat, id: int, tail: seq<int>)
    requires from <= mid <= |log|
    requires forall i :: from <= i < mid ==> log[i].queueId == id
    requires forall k :: 0 <= k < |tail| ==> id < tail[k]
    requires InListingOrder(log, mid, tail)
    ensures InListingOrder(log, from, [id] + tail)
  {
    forall i, j | from <= i < j < |log| ensures log[i].queueId <= log[j].queueId {
      if i < mid && mid <= j {
        var k :| 0 <= k < |tail| && tail[k] == log[j].queueId;
      }
    }
  }

  /**
   * Entries are handled in the order the listing returns them: the
   * sweep only appends to the log, and what it appends is grouped by
   * entry in increasing id order.
   */
  lemma {:induction false} RunFollowsListing(s: SweepState, pending: seq<QueueRow>, env: QueueRow -> Attempt)
    requires IdsValid(CheckIds(s.checks))
    requires IdsIncreasing(QueueIds(pending))
    ensures s.log <= Run(s, pending, env).log
    ensures InListingOrder(Run(s, pending, env).log, |s.log|, QueueIds(pending))
    decreases |pending|
  {
    if pending != [] && !s.raised {
      var e := pending[0];
      var skip := TruthyDict(GetUserbotResult(s.checks, e.groupId));
      var t := Step(s, e, env(e));
      var ev := EntryEvents(skip, e.id, env(e));
      EntryEventsOwn(skip, e.id, env(e));
      TailIdsIncreasing(pending);
      RunFollowsListing(t, pending[1..], env);
      var log := Run(t, pending[1..], env).log;
      StepLog(s, e, env(e));
      assert Run(s, pending, env).log == log;
      forall i | |s.log| <= i < |t.log| ensures log[i].queueId == e.id {
        assert log[i] == ev[i - |s.log|];
      }
      var ids, tail := QueueIds(pending), QueueIds(pending[1..]);
      assert ids == [e.id] + tail;
      forall k | 0 <= k < |tail| ensures e.id < tail[k] {
        assert tail[k] == ids[k + 1];
      }
      ListingOrderCons(log, |s.log|, |t.log|, e.id, tail);
    }
  }

  /** A stored row is what the consumer writes for a joined entry whose `save_check_result` commits. */
  predicate ResultFor(row: CheckRow, entry: QueueRow, attempt: Attempt) {
    && attempt.joined && attempt.storing != SaveRaises
    && row.groupId == entry.groupId && row.groupTitle == entry.groupTitle && row.userId == entry.userId
    && row.botCheckResult == Encode(Some(map[]))
    && row.userbotCheckResult == Encode(Some(attempt.payload))
    && !row.finalResult && row.issues == ""
  }

  /** A sweep only appends to `group_checks`, and only rows for joined entries whose `save_check_result` committed. */
  lemma {:induction false} RunAppendsResults(s: SweepState, pending: seq<QueueRow>, env: QueueRow -> Attempt)
    requires IdsValid(CheckIds(s.checks))
    ensures s.checks <= Run(s, pending, env).checks
    ensures forall j :: |s.checks| <= j < |Run(s, pending, env).checks| ==>
              exists e :: e in pending && ResultFor(Run(s, pending, env).checks[j], e, env(e))
    decreases |pending|
  {
    if pending != [] && !s.raised {
      var e := pending[0];
      var t := Step(s, e, env(e));
      StepChecks(s, e, env(e));
      RunAppendsResults(t, pending[1..], env);
      var final := Run(t, pending[1..], env);
      assert Run(s, pending, env) == final;
      forall j | |s.checks| <= j < |final.checks|
        ensures exists e' :: e' in pending && ResultFor(final.checks[j], e', env(e'))
      {
        if j < |t.checks| {
          assert j == |s.checks| && final.checks[j] == t.checks[j];
          assert e in pending;
        } else {
          var e' :| e' in pending[1..] && ResultFor(final.checks[j], e', env(e'));
          assert e' in pending;
        }
      }
    }
  }

  /** Running two listings in turn is running their concatenation. */
  lemma {:induction false} RunConcat(s: SweepState, a: seq<QueueRow>, b: seq<QueueRow>, env: QueueRow -> Attempt)
    requires IdsValid(CheckIds(s.checks))
    ensures Run(s, a + b, env) == Run(Run(s, a, env), b, env)
    decreases |a|
  {
    if a == [] {
      assert a + b == b;
    } else if !s.raised {
      assert (a + b)[0] == a[0] && (a + b)[1..] == a[1..] + b;
      RunConcat(Step(s, a[0], env(a[0])), a[1..], b, env);
    }
  }

  /** The entry after a prefix that did not raise is handled by one `Step`. */
  lemma RunSnoc(s: SweepState, pre: seq<QueueRow>, e: QueueRow, env: QueueRow -> Attempt)
    requires IdsValid(CheckIds(s.checks))
    requires !Run(s, pre, env).raised
    ensures Run(s, pre + [e], env) == Step(Run(s, pre, env), e, env(e))
  {
    var u := Run(s, pre, env);
    RunConcat(s, pre, [e], env);
    assert Run(u, [e], env) == Run(Step(u, e, env(e)), [], env);
  }

  lemma RunCons(u: SweepState, e: QueueRow, post: seq<QueueRow>, env: QueueRow -> Attempt)
    requires IdsValid(CheckIds(u.checks))
    requires !u.raised
    ensures Run(u, [e] + post, env) == Run(Step(u, e, env(e)), post, env)
  {
    assert ([e] + post)[0] == e && ([e] + post)[1..] == post;
  }

  /** The sweep seen around one entry `e`: the entries before it, the step for `e`, the rest. */
  lemma RunAround(s: SweepState, pre: seq<QueueRow>, e: QueueRow, post: seq<QueueRow>, env: QueueRow -> Attempt)
    requires IdsValid(CheckIds(s.checks))
    requires !Run(s, pre, env).raised
    ensures var t := Step(Run(s, pre, env), e, env(e));
      && Run(s, pre + [e], env) == t
      && Run(s, pre + [e] + post, env) == Run(t, post, env)
  {
    var u := Run(s, pre, env);
    assert IdsValid(CheckIds(u.checks));
    RunSnoc(s, pre, e, env);
    var rest := [e] + post;
    assert pre + [e] + post == pre + rest;
    RunConcat(s, pre, rest, env);
    RunCons(u, e, post, env);
  }

  /**
   * A listed entry `e` that the sweep reaches (no earlier entry raised)
   * and that no later entry shares an id with ends with its queue rows
   * set to `StatusAfter` the guard and the collaborators' outcome.
   */
  lemma RunEntryStatus(s: SweepState, pre: seq<QueueRow>, e: QueueRow, post: seq<QueueRow>, env: QueueRow -> Attempt)
    requires IdsValid(CheckIds(s.checks))
    requires !Run(s, pre, env).raised
    requires forall r :: r in post ==> r.id != e.id
    ensures var skip := TruthyDict(GetUserbotResult(Run(s, pre, env).checks, e.groupId));
      var f := Run(s, pre + [e] + post, env);
      && |f.queue| == |s.queue|
      && forall i :: 0 <= i < |s.queue| && s.queue[i].id == e.id ==> f.queue[i].status == StatusAfter(skip, env(e))
  {
    var u := Run(s, pre, env);
    var t := Step(u, e, env(e));
    RunAround(s, pre, e, post, env);
    RunKeepsOtherRows(s, pre, env);
    StepOutcome(u, e, env(e));
    StepQueue(u, e, env(e));
    RunKeepsOtherRows(t, post, env);
    forall i | 0 <= i < |s.queue| && s.queue[i].id == e.id
      ensures t.queue[i].status == StatusAfter(TruthyDict(GetUserbotResult(u.checks, e.groupId)), env(e))
    {
      assert QueueIds(u.queue)[i] == QueueIds(s.queue)[i];
    }
  }

  /**
   * The same entry's result row: when `save_check_result` commits, the
   * consumer's row for it is the next row appended to `group_checks`
   * (also when the update after it raises); otherwise its handling
   * appends none.
   */
  lemma RunEntryChecks(s: SweepState, pre: seq<QueueRow>, e: QueueRow, post: seq<QueueRow>, env: QueueRow -> Attempt)
    requires IdsValid(CheckIds(s.checks))
    requires !Run(s, pre, env).raised
    ensures var u := Run(s, pre, env);
      var skip := TruthyDict(GetUserbotResult(u.checks, e.groupId));
      var f := Run(s, pre + [e] + post, env);
      && u.checks <= f.checks
      && (Stores(skip, env(e)) ==>
            |u.checks| < |f.checks| && f.checks[|u.checks|] == ResultRow(u.checks, e, env(e).payload))
      && (!Stores(skip, env(e)) ==> Run(s, pre + [e], env).checks == u.checks)
  {
    var u := Run(s, pre, env);
    var t := Step(u, e, env(e));
    RunAround(s, pre, e, post, env);
    StepChecks(u, e, env(e));
    RunAppendsResults(t, post, env);
  }

  /** An entry whose storing raises ends the sweep. */
  lemma RunEntryRaises(s: SweepState, pre: seq<QueueRow>, e: QueueRow, post: seq<QueueRow>, env: QueueRow -> Attempt)
    requires IdsValid(CheckIds(s.checks))
    requires !Run(s, pre, env).raised
    requires Raises(TruthyDict(GetUserbotResult(Run(s, pre, env).checks, e.groupId)), env(e))
    ensures Run(s, pre + [e] + post, env).raised
    ensures Run(s, pre + [e] + post, env) == Run(s, pre + [e], env)
  {
    var u := Run(s, pre, env);
    RunAround(s, pre, e, post, env);
    StepOutcome(u, e, env(e));
  }

  /**
   * The already-has-a-result guard: an entry whose group has a truthy
   * stored result is only marked done; nothing is joined or stored.
   */
  lemma SkipGuard(s: SweepState, entry: QueueRow, attempt: Attempt)
    requires IdsValid(CheckIds(s.checks))
    requires TruthyDict(GetUserbotResult(s.checks, entry.groupId))
    ensures Step(s, entry, attempt).log == s.log + [StatusSet(entry.id, USERBOT_DONE)]
    ensures Step(s, entry, attempt).checks == s.checks
    ensures Step(s, entry, attempt).queue == WithStatus(s.queue, entry.id, USERBOT_DONE)
  {
  }

  /**
   * Two listed entries for the same group: once the first's non-empty
   * payload is committed, the second is skipped by the guard, also when
   * the update after the commit raised.
   */
  lemma DuplicateEntrySkipped(s: SweepState, first: QueueRow, second: QueueRow, a1: Attempt, a2: Attempt)
    requires IdsValid(CheckIds(s.checks))
    requires first.groupId == second.groupId
    requires forall j :: 0 <= j < |s.checks| ==> s.checks[j].groupId != first.groupId
    requires a1.joined && a1.storing != SaveRaises && a1.payload != map[]
    ensures var t := Step(s, first, a1);
            GetUserbotResult(t.checks, second.groupId) == Some(a1.payload)
            && Step(t, second, a2).checks == t.checks
            && Step(t, second, a2).log == t.log + [StatusSet(second.id, USERBOT_DONE)]
  {
    var row := ResultRow(s.checks, first, a1.payload);
    FirstAppendDecides(s.checks, row);
  }
}
