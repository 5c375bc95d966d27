/** The reminder lifecycle (repository/reminders_repository.go): list with
    occurrences attached, create after a productivity check, update by
    merge-then-revalidate, delete, each over the store interface. */
module RemindersRepository {
  import opened Wrappers
  import opened Recurrence
  import opened Models
  import opened Domain
  import opened Results
  import opened RemindersStore
  import opened Repository

  /** A call the repository makes on the store, with its arguments. */
  datatype StoreCall =
    | ListCall(filters: ListFilters)
    | GetCall(userId: string, reminderId: string)
    | CreateCall(reminder: Reminder)
    | UpdateCall(reminder: Reminder)
    | DeleteCall(userId: string, reminderId: string)

  /** `validateReminderOccurrences`: the rule started at `startAt` yields at
      least one occurrence. The engine must accept the rule: on a rule it
      rejects, the source goes on to use the missing rule object. */
  predicate HasOccurrences(lib: RRuleLib, rule: string, startAt: Time)
    requires lib.valid(rule)
  {
    lib.productive(rule, startAt)
  }

  // ---------------------------------------------------------------------------
  // List

  /** Attaches occurrences to every row, in order; a nil slice stays nil. */
  function PopulateAll(lib: RRuleLib, rows: Option<seq<Reminder>>, start: Option<Time>, end: Option<Time>): (res: Option<seq<Reminder>>)
    ensures res.None? <==> rows.None?
    ensures rows.Some? ==> |res.value| == |rows.value|
    ensures rows.Some? ==> forall k :: 0 <= k < |rows.value| ==>
              res.value[k] == PopulateMetadataFields(lib, rows.value[k], start, end)
  {
    match rows
    case None => None
    case Some(rs) => Some(seq(|rs|, k requires 0 <= k < |rs| => PopulateMetadataFields(lib, rs[k], start, end)))
  }

  /** Asks the store once, with the owner, search and window copied as they are;
      a store error is returned as it is; otherwise every row, in the store's
      order, comes back with the window's occurrences attached. */
  function ListReminders(lib: RRuleLib, store: ReminderStoreApi, req: ReminderListDomain): (run: Run<StoreCall, ReminderListResult>)
    ensures var f := ListFilters(req.userId, req.search, req.startDate, req.endDate, None, None);
            && run.calls == [ListCall(f)]
            && (store.list(f).Failure? ==> run.result == Failure(StoreFailed(store.list(f).error)))
            && (store.list(f).Success? ==>
                  var rows := store.list(f).value.GetOr([]);
                  && run.result.Success?
                  && |run.result.value.reminders| == |rows|
                  && forall k :: 0 <= k < |rows| ==>
                       run.result.value.reminders[k] == PopulateMetadataFields(lib, rows[k], req.startDate, req.endDate))
  {
    var f := ListFilters(req.userId, req.search, req.startDate, req.endDate, None, None);
    match store.list(f)
    case Failure(e) => Run([ListCall(f)], Failure(StoreFailed(e)))
    case Success(rows) => Run([ListCall(f)], Success(NewReminderListResult(PopulateAll(lib, rows, req.startDate, req.endDate))))
  }

  /** Without a whole window the listing is exactly what the store returned. */
  lemma ListWithoutWindowIsStoreRows(lib: RRuleLib, store: ReminderStoreApi, req: ReminderListDomain)
    requires req.startDate.None? || req.endDate.None?
    ensures var f := ListFilters(req.userId, req.search, req.startDate, req.endDate, None, None);
            store.list(f).Success? ==>
              ListReminders(lib, store, req).result == Success(ReminderListResult(store.list(f).value.GetOr([])))
  {
    var f := ListFilters(req.userId, req.search, req.startDate, req.endDate, None, None);
    if store.list(f).Success? {
      var rows := store.list(f).value.GetOr([]);
      var got := ListReminders(lib, store, req).result.value.reminders;
      assert got == rows;
    }
  }

  // ---------------------------------------------------------------------------
  // Create

  /** The row a create request persists: a fresh id, the request's owner, rule,
      description and start, and no stamps (the database assigns them). */
  function NewReminder(req: ReminderCreateDomain, freshId: string): Reminder
  {
    Reminder(freshId, req.userId, req.rrule, req.description, req.startAt, None, None, [])
  }

  /** `CreateReminder`. An unproductive rule fails with `InvalidRRule` before the
      store is touched. Otherwise the store is asked once to create a row with
      a fresh non-empty id and the request's owner, rule, description and start
      and no stamps; its error comes back as it is, its row as a create result. */
  function CreateReminder(lib: RRuleLib, store: ReminderStoreApi, req: ReminderCreateDomain, freshId: string): (run: Run<StoreCall, ReminderCreateResult>)
    requires lib.valid(req.rrule)
    requires freshId != ""
    ensures run.result == Failure(InvalidRRule(NoOccurrences)) <==> !lib.productive(req.rrule, req.startAt)
    ensures !lib.productive(req.rrule, req.startAt) ==> run.calls == []
    ensures lib.productive(req.rrule, req.startAt) ==>
              && |run.calls| == 1 && run.calls[0].CreateCall?
              && var sent := run.calls[0].reminder;
              && sent.id == freshId && sent.id != ""
              && sent.userId == req.userId && sent.rrule == req.rrule
              && sent.description == req.description && sent.startAt == req.startAt
              && sent.createdAt.None? && sent.updatedAt.None?
              && (store.create(sent).Failure? ==> run.result == Failure(StoreFailed(store.create(sent).error)))
              && (store.create(sent).Success? ==> run.result == Success(NewReminderCreateResult(store.create(sent).value)))
  {
    if !HasOccurrences(lib, req.rrule, req.startAt) then
      Run([], Failure(InvalidRRule(NoOccurrences)))
    else
      var sent := NewReminder(req, freshId);
      match store.create(sent)
      case Failure(e) => Run([CreateCall(sent)], Failure(StoreFailed(e)))
      case Success(created) => Run([CreateCall(sent)], Success(NewReminderCreateResult(created)))
  }

  // ---------------------------------------------------------------------------
  // Update

  /** True when the update sends at least one field. */
  predicate Supplied(req: ReminderUpdateDomain)
  {
    req.rrule.Some? || req.startAt.Some? || req.description.Some?
  }

  /** The row an update writes: every supplied field over the current row;
      identity, owner and creation stamp always from the current row; the
      update stamp cleared; nothing transient carried over. */
  function Merge(cur: Reminder, req: ReminderUpdateDomain): (m: Reminder)
    ensures m.id == cur.id && m.userId == cur.userId && m.createdAt == cur.createdAt
    ensures m.updatedAt.None? && m.occurrences == []
    ensures m.rrule == (if req.rrule.Some? then req.rrule.value else cur.rrule)
    ensures m.startAt == (if req.startAt.Some? then req.startAt.value else cur.startAt)
    ensures m.description == (if req.description.Some? then req.description else cur.description)
  {
    Reminder(
      cur.id,
      cur.userId,
      req.rrule.GetOr(cur.rrule),
      if req.description.Some? then req.description else cur.description,
      req.startAt.GetOr(cur.startAt),
      cur.createdAt,
      None,
      [])
  }

  /** Sending the same fields twice writes the same row as sending them once. */
  lemma MergeIdempotent(cur: Reminder, req: ReminderUpdateDomain)
    ensures Merge(Merge(cur, req), req) == Merge(cur, req)
  {
  }

  /** Two updates in a row write what one update with the later fields laid
      over the earlier ones writes. */
  lemma MergeComposes(cur: Reminder, a: ReminderUpdateDomain, b: ReminderUpdateDomain)
    ensures Merge(Merge(cur, a), b) == Merge(cur, a.(
              rrule := if b.rrule.Some? then b.rrule else a.rrule,
              description := if b.description.Some? then b.description else a.description,
              startAt := if b.startAt.Some? then b.startAt else a.startAt))
  {
  }

  /** What the update needs of the engine: when the merged row is to be
      checked, its rule must be one the engine accepts. */
  predicate MergedRuleAccepted(lib: RRuleLib, store: ReminderStoreApi, req: ReminderUpdateDomain)
  {
    Supplied(req) && store.get(req.userId, req.reminderId).Success? ==>
      lib.valid(Merge(store.get(req.userId, req.reminderId).value, req).rrule)
  }

  /** `UpdateReminder`. The current row is fetched with the request's owner and
      id; a failure there is `NoResourceFound` with nothing else done. When any
      field is sent — a lone description included — the merged rule and start
      must be productive, or the call fails with `InvalidRRule` and writes
      nothing; when none is sent the check is skipped. The merged row is then
      written, and any store error is reported as `NoResourceFound`. */
  function UpdateReminder(lib: RRuleLib, store: ReminderStoreApi, req: ReminderUpdateDomain): (run: Run<StoreCall, ReminderUpdateResult>)
    requires MergedRuleAccepted(lib, store, req)
    ensures |run.calls| >= 1 && run.calls[0] == GetCall(req.userId, req.reminderId)
    ensures var got := store.get(req.userId, req.reminderId);
            && (got.Failure? ==> run == Run([GetCall(req.userId, req.reminderId)], Failure(NoResourceFound(got.error))))
            && (got.Success? ==>
                  var m := Merge(got.value, req);
                  && (run.result == Failure(InvalidRRule(NoOccurrences)) <==>
                        Supplied(req) && !lib.productive(m.rrule, m.startAt))
                  && (run.result == Failure(InvalidRRule(NoOccurrences)) ==> |run.calls| == 1)
                  && (run.result != Failure(InvalidRRule(NoOccurrences)) ==>
                        && run.calls == [GetCall(req.userId, req.reminderId), UpdateCall(m)]
                        && (store.update(m).Failure? ==> run.result == Failure(NoResourceFound(store.update(m).error)))
                        && (store.update(m).Success? ==> run.result == Success(NewReminderUpdateResult(store.update(m).value)))))
  {
    var get := GetCall(req.userId, req.reminderId);
    match store.get(req.userId, req.reminderId)
    case Failure(e) => Run([get], Failure(NoResourceFound(e)))
    case Success(cur) =>
      var m := Merge(cur, req);
      if Supplied(req) && !HasOccurrences(lib, m.rrule, m.startAt) then
        Run([get], Failure(InvalidRRule(NoOccurrences)))
      else
        match store.update(m)
        case Failure(e) => Run([get, UpdateCall(m)], Failure(NoResourceFound(e)))
        case Success(updated) => Run([get, UpdateCall(m)], Success(NewReminderUpdateResult(updated)))
  }

  /** An update that sends nothing is never checked against the engine: the
      current row, with its update stamp cleared, is written back as it is. */
  lemma EmptyUpdateSkipsCheck(lib: RRuleLib, store: ReminderStoreApi, req: ReminderUpdateDomain)
    requires !Supplied(req)
    requires store.get(req.userId, req.reminderId).Success?
    ensures var cur := store.get(req.userId, req.reminderId).value;
            UpdateReminder(lib, store, req).calls ==
              [GetCall(req.userId, req.reminderId), UpdateCall(cur.(updatedAt := None, occurrences := []))]
  {
  }

  // ---------------------------------------------------------------------------
  // Delete

  /** `DeleteReminder`: one store call with the request's owner and id; any
      store error is reported as `NoResourceFound`. */
  function DeleteReminder(store: ReminderStoreApi, req: ReminderDeleteDomain): (run: Run<StoreCall, ()>)
    ensures run.calls == [DeleteCall(req.userId, req.reminderId)]
    ensures run.result.Success? <==> store.delete(req.userId, req.reminderId).None?
    ensures run.result.Failure? ==> run.result.error == NoResourceFound(store.delete(req.userId, req.reminderId).value)
  {
    match store.delete(req.userId, req.reminderId)
    case Some(e) => Run([DeleteCall(req.userId, req.reminderId)], Failure(NoResourceFound(e)))
    case None => Run([DeleteCall(req.userId, req.reminderId)], Success(()))
  }

  // ---------------------------------------------------------------------------
  // The lifecycle over the reminders table

  /** The store answers reads, updates and deletes as the (well-keyed) table does. */
  ghost predicate BackedBy(store: ReminderStoreApi, t: Table, now: Time)
  {
    && WellKeyed(t)
    && (forall u, id :: store.get(u, id) == RemindersStore.GetReminderByID(t, u, id, None))
    && (forall r :: store.update(r) == RemindersStore.UpdateReminder(t, r, now, None).1)
    && (forall u, id :: store.delete(u, id) == RemindersStore.DeleteReminder(t, u, id, None).1)
  }

  /** Updating a reminder the user does not own, or that does not exist, is
      "not found" carrying its id; updating one they own either fails the
      productivity check or returns the row with the sent fields laid over it. */
  lemma {:induction false} UpdateThroughTable(lib: RRuleLib, store: ReminderStoreApi, t: Table, now: Time, req: ReminderUpdateDomain)
    requires BackedBy(store, t, now)
    requires MergedRuleAccepted(lib, store, req)
    ensures var run := UpdateReminder(lib, store, req);
            var k := Key(req.userId, req.reminderId);
            && (k !in t ==> run.result == Failure(NoResourceFound(NoReminderFound(req.reminderId))))
            && (k in t ==>
                  run.result == Failure(InvalidRRule(NoOccurrences)) ||
                  run.result == Success(ReminderUpdateResult(
                    req.reminderId,
                    if req.rrule.Some? then req.rrule.value else t[k].rrule,
                    if req.description.Some? then req.description else t[k].description,
                    if req.startAt.Some? then req.startAt.value else t[k].startAt)))
  {
    var k := Key(req.userId, req.reminderId);
    var got := store.get(req.userId, req.reminderId);
    assert got == RemindersStore.GetReminderByID(t, req.userId, req.reminderId, None);
    if k in t {
      var m := Merge(t[k], req);
      assert KeyOf(m) == k;
      assert store.update(m) == RemindersStore.UpdateReminder(t, m, now, None).1;
    }
  }

  /** Deleting succeeds exactly when the user owns a reminder with that id, and
      otherwise is "not found" carrying the id. */
  lemma {:induction false} DeleteThroughTable(store: ReminderStoreApi, t: Table, now: Time, req: ReminderDeleteDomain)
    requires BackedBy(store, t, now)
    ensures var run := DeleteReminder(store, req);
            && (run.result.Success? <==> Key(req.userId, req.reminderId) in t)
            && (run.result.Failure? ==> run.result.error == NoResourceFound(NoReminderFound(req.reminderId)))
  {
    assert store.delete(req.userId, req.reminderId) == RemindersStore.DeleteReminder(t, req.userId, req.reminderId, None).1;
  }
}
