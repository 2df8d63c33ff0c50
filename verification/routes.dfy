/**
 * The HTTP handlers (server/routes.ts) as methods over the rate limiter and the
 * storage. Every write route passes the shared write limiter first (60 requests
 * per 60 000 ms per client key), then body validation where the route declares
 * a schema, then its storage calls in sequence. The authenticated user is the
 * `userId` parameter; `now` stands for the clock at the time of the request.
 * An answer is a `Response` instead of a status code with a JSON body.
 */
module Routes {
  import opened Schema
  import opened Storage
  import opened RateLimit
  import Ordering
  import Bank

  datatype ErrorCode = ValidationError | NotFound | InvalidRequest | RateLimitExceeded | ServerError

  /** 200, 201, 204, or an error code with the failing field paths (empty unless validation failed). */
  datatype Response<T> = Ok(value: T) | Created(value: T) | NoContent | Fail(code: ErrorCode, details: set<string>)

  /** `writeRateLimit`: 60 requests per minute. */
  const WRITE_LIMIT: Options := Options(60 * 1000, 60)

  /** The write limiter turns this request away: exactly when the client's window is still
      open and already holds the maximum number of requests. */
  predicate Throttles(store: map<string, Window>, clientKey: string, now: Timestamp)
    ensures Throttles(store, clientKey, now) <==>
              clientKey in store && !Expired(store[clientKey], now.ms) &&
              store[clientKey].count >= WRITE_LIMIT.max
  {
    Admit(store, clientKey, now.ms, WRITE_LIMIT).decision == Rejected
  }

  // ---------------------------------------------------------------------------
  // Selection and total of a transfer request.

  /** `entries.filter((e) => entryIds.includes(e.id))`, order kept. */
  function SelectEntries(es: seq<Entry>, ids: seq<string>): (r: seq<Entry>)
    ensures forall e :: e in r <==> e in es && e.id in ids
    ensures Ordering.DistinctIds(es, EntryId) ==> Ordering.DistinctIds(r, EntryId)
  {
    if es == [] then []
    else
      var rest := SelectEntries(es[1..], ids);
      DistinctSelectionStep(es, rest);
      if es[0].id in ids then [es[0]] + rest else rest
  }

  /** Distinct ids survive filtering one element at a time. */
  lemma DistinctSelectionStep(es: seq<Entry>, rest: seq<Entry>)
    requires es != []
    requires forall e :: e in rest ==> e in es[1..]
    requires Ordering.DistinctIds(es[1..], EntryId) ==> Ordering.DistinctIds(rest, EntryId)
    ensures Ordering.DistinctIds(es, EntryId) ==>
              Ordering.DistinctIds(rest, EntryId) && Ordering.DistinctIds([es[0]] + rest, EntryId)
  {
    if Ordering.DistinctIds(es, EntryId) {
      Ordering.DistinctIdsTail(es, EntryId);
      Ordering.DistinctIdsCons(es[0], rest, EntryId);
    }
  }

  /** The caller's rows of the entries table whose ids the request names. */
  ghost function OwnedSelection(m: map<string, Entry>, userId: string, ids: seq<string>): set<Entry>
  {
    set e | e in m.Values && e.userId == userId && e.id in ids
  }

  /** The caller's rows picked out of their own list are the caller's rows among the ids. */
  lemma SelectionIsOwned(m: map<string, Entry>, userId: string, ids: seq<string>, es: seq<Entry>, selected: seq<Entry>)
    requires EntriesKeyed(m)
    requires forall e :: e in es <==> e.id in m && m[e.id] == e && e.userId == userId
    requires forall e :: e in selected <==> e in es && e.id in ids
    ensures (set e | e in selected) == OwnedSelection(m, userId, ids)
  {
  }

  ghost function AnyOf(s: set<Entry>): (e: Entry)
    requires s != {}
    ensures e in s
  {
    var e :| e in s; e
  }

  /** The sum of the amounts of a set of entries: an order-free reference for `reduce`. */
  ghost function SetTotal(s: set<Entry>): int
    decreases s
  {
    if s == {} then 0 else var e := AnyOf(s); e.amount + SetTotal(s - {e})
  }

  lemma {:induction false} SetTotalRemove(s: set<Entry>, e: Entry)
    requires e in s
    ensures SetTotal(s) == e.amount + SetTotal(s - {e})
    decreases s
  {
    var x := AnyOf(s);
    if x != e {
      calc {
        SetTotal(s);
        x.amount + SetTotal(s - {x});
        { SetTotalRemove(s - {x}, e); }
        x.amount + e.amount + SetTotal(s - {x} - {e});
        { assert s - {x} - {e} == s - {e} - {x}; }
        e.amount + (x.amount + SetTotal(s - {e} - {x}));
        { SetTotalRemove(s - {e}, x); }
        e.amount + SetTotal(s - {e});
      }
    }
  }

  /** Folding a list of entries with distinct ids gives the sum over the set of its entries,
      whatever the order. */
  lemma {:induction false} ListTotalIsSetTotal(es: seq<Entry>)
    requires Ordering.DistinctIds(es, EntryId)
    ensures TotalAmount(es) == SetTotal(set e | e in es)
  {
    if es != [] {
      var tail := es[1..];
      assert Ordering.DistinctIds(tail, EntryId) by {
        forall i, j | 0 <= i < j < |tail| ensures tail[i].id != tail[j].id {
          assert tail[i] == es[i + 1] && tail[j] == es[j + 1];
        }
      }
      ListTotalIsSetTotal(tail);
      var all := set e | e in es;
      assert es[0] !in tail by {
        forall j | 0 <= j < |tail| ensures tail[j] != es[0] {
          assert tail[j] == es[j + 1];
        }
      }
      assert all - {es[0]} == set e | e in tail;
      SetTotalRemove(all, es[0]);
    }
  }

  // ---------------------------------------------------------------------------
  // Entries

  /** GET /api/entries: the caller's entries, newest date first. */
  method GetEntries(db: DatabaseStorage, userId: string) returns (resp: Response<seq<Entry>>)
    requires db.Valid()
    ensures resp.Ok?
    ensures forall e :: e in resp.value <==> e in db.entries.Values && e.userId == userId
    ensures Ordering.SortedDesc(resp.value, EntryDate)
  {
    var es := db.GetEntries(userId);
    resp := Ok(es);
  }

  /** The row `createEntry` receives for an accepted body. */
  function EntryInsertOf(b: EntryCreateBody): (r: EntryInsert)
    requires EntryCreateValid(b)
    ensures r.amount == b.amount.cents && r.amount > 0
    ensures 1 <= |r.item| <= 120
  {
    EntryInsert(b.item.value, b.amount.cents, b.category, b.note, b.date)
  }

  /** POST /api/entries: a valid body becomes a new entry owned by the caller. */
  method PostEntry(limiter: RateLimiter, db: DatabaseStorage, clientKey: string, now: Timestamp,
                   userId: string, body: EntryCreateBody)
    returns (resp: Response<Entry>)
    requires db.Valid()
    modifies limiter, db
    ensures db.Valid()
    ensures limiter.store == Admit(old(limiter.store), clientKey, now.ms, WRITE_LIMIT).store
    ensures Throttles(old(limiter.store), clientKey, now) ==>
              resp == Fail(RateLimitExceeded, {}) && unchanged(db)
    ensures !Throttles(old(limiter.store), clientKey, now) && !EntryCreateValid(body) ==>
              resp == Fail(ValidationError, EntryCreateIssues(body)) && unchanged(db)
    ensures !Throttles(old(limiter.store), clientKey, now) && EntryCreateValid(body) &&
            !FitsDecimal(body.amount.cents) ==>
              resp == Fail(ServerError, {}) && unchanged(db)
    ensures !Throttles(old(limiter.store), clientKey, now) && EntryCreateValid(body) &&
            FitsDecimal(body.amount.cents) ==>
              resp.Created? && resp.value.userId == userId && resp.value.amount == body.amount.cents &&
              resp.value == Entry(resp.value.id, userId, body.item.value, body.amount.cents,
                                  body.category, body.note, Pick(body.date, now), now, None) &&
              resp.value.id !in old(db.entries) &&
              db.entries == old(db.entries)[resp.value.id := resp.value] &&
              db.transfers == old(db.transfers) && db.preferences == old(db.preferences)
  {
    var d := limiter.Handle(clientKey, now.ms, WRITE_LIMIT);
    if d == Rejected {
      return Fail(RateLimitExceeded, {});
    }
    if !EntryCreateValid(body) {
      return Fail(ValidationError, EntryCreateIssues(body));
    }
    if !FitsDecimal(body.amount.cents) {
      return Fail(ServerError, {});
    }
    var e := db.CreateEntry(userId, EntryInsertOf(body), now);
    resp := Created(e);
  }

  /** PATCH /api/entries/:id: no body validation; the given fields overwrite the caller's row.
      A body naming no column, or an amount too large for decimal(10,2), makes the query throw. */
  method PatchEntry(limiter: RateLimiter, db: DatabaseStorage, clientKey: string, now: Timestamp,
                    userId: string, id: string, patch: EntryPatch)
    returns (resp: Response<Entry>)
    requires db.Valid()
    modifies limiter, db
    ensures db.Valid()
    ensures limiter.store == Admit(old(limiter.store), clientKey, now.ms, WRITE_LIMIT).store
    ensures Throttles(old(limiter.store), clientKey, now) ==>
              resp == Fail(RateLimitExceeded, {}) && unchanged(db)
    ensures !Throttles(old(limiter.store), clientKey, now) &&
            (NoEntryColumns(patch) || (patch.amount.Some? && !FitsDecimal(patch.amount.value))) ==>
              resp == Fail(ServerError, {}) && unchanged(db)
    ensures !Throttles(old(limiter.store), clientKey, now) && !NoEntryColumns(patch) &&
            (patch.amount.None? || FitsDecimal(patch.amount.value)) &&
            (id !in old(db.entries) || old(db.entries)[id].userId != userId) ==>
              resp == Fail(NotFound, {}) && db.entries == old(db.entries) &&
              db.transfers == old(db.transfers) && db.preferences == old(db.preferences)
    ensures !Throttles(old(limiter.store), clientKey, now) && !NoEntryColumns(patch) &&
            (patch.amount.None? || FitsDecimal(patch.amount.value)) &&
            id in old(db.entries) && old(db.entries)[id].userId == userId ==>
              resp == Ok(ApplyEntryPatch(old(db.entries)[id], patch)) &&
              db.entries == old(db.entries)[id := resp.value] &&
              db.transfers == old(db.transfers) && db.preferences == old(db.preferences)
  {
    var d := limiter.Handle(clientKey, now.ms, WRITE_LIMIT);
    if d == Rejected {
      return Fail(RateLimitExceeded, {});
    }
    if patch.amount.Some? && !FitsDecimal(patch.amount.value) {
      return Fail(ServerError, {});
    }
    var updated := db.UpdateEntry(id, userId, patch);
    if updated.Threw? {
      return Fail(ServerError, {});
    }
    if updated.value.None? {
      return Fail(NotFound, {});
    }
    resp := Ok(updated.value.value);
  }

  /** DELETE /api/entries/:id: 204 whether or not a row of the caller's was removed. */
  method DeleteEntry(limiter: RateLimiter, db: DatabaseStorage, clientKey: string, now: Timestamp,
                     userId: string, id: string)
    returns (resp: Response<bool>)
    requires db.Valid()
    modifies limiter, db
    ensures db.Valid()
    ensures limiter.store == Admit(old(limiter.store), clientKey, now.ms, WRITE_LIMIT).store
    ensures Throttles(old(limiter.store), clientKey, now) ==>
              resp == Fail(RateLimitExceeded, {}) && unchanged(db)
    ensures !Throttles(old(limiter.store), clientKey, now) ==>
              resp == NoContent &&
              db.entries == (if id in old(db.entries) && old(db.entries)[id].userId == userId
                             then old(db.entries) - {id} else old(db.entries)) &&
              db.transfers == old(db.transfers) && db.preferences == old(db.preferences)
  {
    var d := limiter.Handle(clientKey, now.ms, WRITE_LIMIT);
    if d == Rejected {
      return Fail(RateLimitExceeded, {});
    }
    var _ := db.DeleteEntry(id, userId);
    resp := NoContent;
  }

  // ---------------------------------------------------------------------------
  // Transfers

  /** GET /api/transfers: the caller's transfers, newest first. */
  method GetTransfers(db: DatabaseStorage, userId: string) returns (resp: Response<seq<Transfer>>)
    requires db.Valid()
    ensures resp.Ok?
    ensures forall t :: t in resp.value <==> t in db.transfers.Values && t.userId == userId
    ensures Ordering.SortedDesc(resp.value, TransferCreated)
  {
    var ts := db.GetTransfers(userId);
    resp := Ok(ts);
  }

  /** POST /api/transfers: sums the caller's entries among `entryIds`, lets the caller's
      provider insert the transfer row, links the entries to it and answers the stored row.
      Ids that are unknown or belong to someone else are ignored. */
  method PostTransfer(limiter: RateLimiter, db: DatabaseStorage, clientKey: string, now: Timestamp,
                      userId: string, body: TransferCreateBody)
    returns (resp: Response<Transfer>)
    requires db.Valid()
    modifies limiter, db
    ensures db.Valid()
    ensures limiter.store == Admit(old(limiter.store), clientKey, now.ms, WRITE_LIMIT).store
    ensures Throttles(old(limiter.store), clientKey, now) ==>
              resp == Fail(RateLimitExceeded, {}) && unchanged(db)
    ensures !Throttles(old(limiter.store), clientKey, now) && !TransferCreateValid(body) ==>
              resp == Fail(ValidationError, TransferCreateIssues(body)) && unchanged(db)
    ensures !Throttles(old(limiter.store), clientKey, now) && TransferCreateValid(body) &&
            OwnedSelection(old(db.entries), userId, body.entryIds.value) == {} ==>
              resp == Fail(InvalidRequest, {}) && unchanged(db)
    ensures !Throttles(old(limiter.store), clientKey, now) && TransferCreateValid(body) &&
            OwnedSelection(old(db.entries), userId, body.entryIds.value) != {} &&
            !FitsDecimal(SetTotal(OwnedSelection(old(db.entries), userId, body.entryIds.value))) ==>
              resp == Fail(ServerError, {}) && unchanged(db)
    ensures !Throttles(old(limiter.store), clientKey, now) && TransferCreateValid(body) &&
            OwnedSelection(old(db.entries), userId, body.entryIds.value) != {} &&
            FitsDecimal(SetTotal(OwnedSelection(old(db.entries), userId, body.entryIds.value))) ==>
              resp.Created? &&
              var p := Bank.ProviderForUser(UserPreference(old(db.preferences), userId));
              resp.value == Transfer(resp.value.id, userId,
                                     SetTotal(OwnedSelection(old(db.entries), userId, body.entryIds.value)),
                                     Bank.Name(p), Bank.InitialStatus(p), now, None) &&
              resp.value.id !in old(db.transfers) &&
              db.transfers == old(db.transfers)[resp.value.id := resp.value] &&
              db.entries == Linked(old(db.entries), body.entryIds.value, resp.value.id, userId) &&
              db.preferences == old(db.preferences)
  {
    var d := limiter.Handle(clientKey, now.ms, WRITE_LIMIT);
    if d == Rejected {
      return Fail(RateLimitExceeded, {});
    }
    if !TransferCreateValid(body) {
      return Fail(ValidationError, TransferCreateIssues(body));
    }
    var entryIds := body.entryIds.value;
    var es := db.GetEntries(userId);
    var selected := SelectEntries(es, entryIds);
    ghost var chosen := OwnedSelection(db.entries, userId, entryIds);
    SelectionIsOwned(db.entries, userId, entryIds, es, selected);
    if |selected| == 0 {
      assert selected == [];
      assert chosen == {};
      return Fail(InvalidRequest, {});
    }
    assert selected[0] in chosen;
    var totalAmount := TotalAmount(selected);
    ListTotalIsSetTotal(selected);
    if !FitsDecimal(totalAmount) {
      return Fail(ServerError, {});
    }
    var pref := db.GetPreferences(userId);
    var provider := Bank.ProviderForUser(pref);
    var transferId, status := Bank.CreateTransfer(provider, db, userId, totalAmount, now);
    db.LinkEntriesToTransfer(entryIds, transferId, userId);
    var t := db.GetTransfer(transferId, userId);
    resp := Created(t.value);
  }

  /** POST /api/transfers/:id/complete: 404 unless the transfer is the caller's; otherwise the
      provider's hook runs (the manual provider only), then the row is stamped completed. This
      uses the id-scoped hook; `CompleteTransferAsWritten` keeps the hook's original filter. */
  method CompleteTransfer(limiter: RateLimiter, db: DatabaseStorage, clientKey: string, now: Timestamp,
                          userId: string, transferId: string)
    returns (resp: Response<Transfer>)
    requires db.Valid()
    modifies limiter, db
    ensures db.Valid()
    ensures limiter.store == Admit(old(limiter.store), clientKey, now.ms, WRITE_LIMIT).store
    ensures Throttles(old(limiter.store), clientKey, now) ==>
              resp == Fail(RateLimitExceeded, {}) && unchanged(db)
    ensures !Throttles(old(limiter.store), clientKey, now) &&
            (transferId !in old(db.transfers) || old(db.transfers)[transferId].userId != userId) ==>
              resp == Fail(NotFound, {}) && unchanged(db)
    ensures !Throttles(old(limiter.store), clientKey, now) &&
            transferId in old(db.transfers) && old(db.transfers)[transferId].userId == userId ==>
              resp == Ok(Completed(old(db.transfers)[transferId], now)) &&
              db.transfers == old(db.transfers)[transferId := resp.value] &&
              db.entries == old(db.entries) && db.preferences == old(db.preferences)
  {
    var d := limiter.Handle(clientKey, now.ms, WRITE_LIMIT);
    if d == Rejected {
      return Fail(RateLimitExceeded, {});
    }
    var t := db.GetTransfer(transferId, userId);
    if t.None? {
      return Fail(NotFound, {});
    }
    var pref := db.GetPreferences(userId);
    var provider := Bank.ProviderForUser(pref);
    if Bank.HasMarkCompleted(provider) {
      Bank.MarkCompleted(db, transferId, now);
      CompletionIdempotent(t.value, now, now);
    }
    var updated := db.CompleteTransfer(transferId, userId, now);
    resp := Ok(updated.value);
  }

  /** The completion route with the manual provider's hook as written: for a manual-provider
      user it completes every transfer in the table, of every user. */
  method CompleteTransferAsWritten(limiter: RateLimiter, db: DatabaseStorage, clientKey: string,
                                   now: Timestamp, userId: string, transferId: string)
    returns (resp: Response<Transfer>)
    requires db.Valid()
    modifies limiter, db
    ensures db.Valid()
    ensures limiter.store == Admit(old(limiter.store), clientKey, now.ms, WRITE_LIMIT).store
    ensures Throttles(old(limiter.store), clientKey, now) ==>
              resp == Fail(RateLimitExceeded, {}) && unchanged(db)
    ensures !Throttles(old(limiter.store), clientKey, now) &&
            (transferId !in old(db.transfers) || old(db.transfers)[transferId].userId != userId) ==>
              resp == Fail(NotFound, {}) && unchanged(db)
    ensures !Throttles(old(limiter.store), clientKey, now) &&
            transferId in old(db.transfers) && old(db.transfers)[transferId].userId == userId ==>
              resp == Ok(Completed(old(db.transfers)[transferId], now)) &&
              db.entries == old(db.entries) && db.preferences == old(db.preferences) &&
              if Bank.ProviderForUser(UserPreference(old(db.preferences), userId)).Manual?
              then db.transfers == Bank.CompleteAll(old(db.transfers), now)
              else db.transfers == old(db.transfers)[transferId := resp.value]
  {
    var d := limiter.Handle(clientKey, now.ms, WRITE_LIMIT);
    if d == Rejected {
      return Fail(RateLimitExceeded, {});
    }
    var t := db.GetTransfer(transferId, userId);
    if t.None? {
      return Fail(NotFound, {});
    }
    var pref := db.GetPreferences(userId);
    var provider := Bank.ProviderForUser(pref);
    if Bank.HasMarkCompleted(provider) {
      Bank.MarkCompletedAsWritten(db, transferId, now);
      CompletionIdempotent(t.value, now, now);
      ghost var all := db.transfers;
      var updated := db.CompleteTransfer(transferId, userId, now);
      assert db.transfers == all;
      resp := Ok(updated.value);
    } else {
      var updated := db.CompleteTransfer(transferId, userId, now);
      resp := Ok(updated.value);
    }
  }

  // ---------------------------------------------------------------------------
  // Preferences

  /** The columns GET /api/preferences writes when it creates the missing row. */
  const DEFAULT_PREFERENCES: PreferencePatch :=
    PreferencePatch(Some(MANUAL), None, None, None, None, None, Some(DEFAULT_GOAL), Some(DEFAULT_GOAL))

  /** GET /api/preferences: the caller's row, created with the defaults on first use. */
  method GetPreferences(db: DatabaseStorage, userId: string) returns (resp: Response<Preference>)
    requires db.Valid()
    modifies db
    ensures db.Valid()
    ensures resp.Ok? && UserPreference(db.preferences, userId) == Some(resp.value)
    ensures old(UserPreference(db.preferences, userId)).Some? ==>
              resp.value == old(UserPreference(db.preferences, userId)).value && unchanged(db)
    ensures old(UserPreference(db.preferences, userId)).None? ==>
              resp.value == DefaultPreference(resp.value.id, userId) &&
              resp.value.id !in old(db.preferences) &&
              db.preferences == old(db.preferences)[resp.value.id := resp.value] &&
              db.entries == old(db.entries) && db.transfers == old(db.transfers)
  {
    var prefs := db.GetPreferences(userId);
    if prefs.None? {
      var created := db.CreateOrUpdatePreferences(userId, DEFAULT_PREFERENCES);
      prefs := Some(created.value);
    }
    resp := Ok(prefs.value);
  }

  /** A goal the database can store: absent, or a finite amount that fits decimal(10,2). */
  predicate StorableGoal(g: Option<Num>) {
    g.Some? ==> g.value.Finite? && FitsDecimal(g.value.cents)
  }

  function GoalCents(g: Option<Num>): (r: Option<int>)
    requires StorableGoal(g)
    ensures r.Some? <==> g.Some?
    ensures r.Some? ==> g.value == Finite(r.value)
  {
    if g.Some? then Some(g.value.cents) else None
  }

  /** The columns an accepted preferences body sets; the plaid item id is not in the schema,
      so it is never set here. */
  function PreferencesPatchOf(b: PreferencesUpdateBody): (r: PreferencePatch)
    requires StorableGoal(b.monthlyGoal) && StorableGoal(b.yearlyGoal)
    ensures r.plaidItemId.None?
    ensures r.bankProvider == b.bankProvider
  {
    PreferencePatch(b.bankProvider, b.fromAccountLabel, b.toAccountLabel, None, b.plaidFromId, b.plaidToId,
                    GoalCents(b.monthlyGoal), GoalCents(b.yearlyGoal))
  }

  /** PATCH /api/preferences: validated upsert of the caller's row. An accepted goal of
      +Infinity, or one too large for decimal(10,2), is refused by the database; so is an
      update of an existing row by a body that, once unknown keys are stripped, is empty. */
  method PatchPreferences(limiter: RateLimiter, db: DatabaseStorage, clientKey: string, now: Timestamp,
                          userId: string, body: PreferencesUpdateBody)
    returns (resp: Response<Preference>)
    requires db.Valid()
    modifies limiter, db
    ensures db.Valid()
    ensures limiter.store == Admit(old(limiter.store), clientKey, now.ms, WRITE_LIMIT).store
    ensures Throttles(old(limiter.store), clientKey, now) ==>
              resp == Fail(RateLimitExceeded, {}) && unchanged(db)
    ensures !Throttles(old(limiter.store), clientKey, now) && !PreferencesUpdateValid(body) ==>
              resp == Fail(ValidationError, PreferencesUpdateIssues(body)) && unchanged(db)
    ensures !Throttles(old(limiter.store), clientKey, now) && PreferencesUpdateValid(body) &&
            !(StorableGoal(body.monthlyGoal) && StorableGoal(body.yearlyGoal)) ==>
              resp == Fail(ServerError, {}) && unchanged(db)
    ensures !Throttles(old(limiter.store), clientKey, now) && PreferencesUpdateValid(body) &&
            StorableGoal(body.monthlyGoal) && StorableGoal(body.yearlyGoal) &&
            old(UserPreference(db.preferences, userId)).Some? && NoPreferenceColumns(PreferencesPatchOf(body)) ==>
              resp == Fail(ServerError, {}) && unchanged(db)
    ensures !Throttles(old(limiter.store), clientKey, now) && PreferencesUpdateValid(body) &&
            StorableGoal(body.monthlyGoal) && StorableGoal(body.yearlyGoal) &&
            !(old(UserPreference(db.preferences, userId)).Some? && NoPreferenceColumns(PreferencesPatchOf(body))) ==>
              resp.Ok? && UserPreference(db.preferences, userId) == Some(resp.value) &&
              (body.bankProvider.Some? ==> resp.value.bankProvider == body.bankProvider.value) &&
              (body.monthlyGoal.Some? ==> body.monthlyGoal.value == Finite(resp.value.monthlyGoal)) &&
              (body.yearlyGoal.Some? ==> body.yearlyGoal.value == Finite(resp.value.yearlyGoal)) &&
              (old(UserPreference(db.preferences, userId)).Some? ==>
                 resp.value == ApplyPreferencePatch(old(UserPreference(db.preferences, userId)).value,
                                                    PreferencesPatchOf(body))) &&
              (old(UserPreference(db.preferences, userId)).None? ==>
                 resp.value.id !in old(db.preferences) &&
                 resp.value == ApplyPreferencePatch(DefaultPreference(resp.value.id, userId),
                                                    PreferencesPatchOf(body))) &&
              db.preferences == old(db.preferences)[resp.value.id := resp.value] &&
              db.entries == old(db.entries) && db.transfers == old(db.transfers)
  {
    var d := limiter.Handle(clientKey, now.ms, WRITE_LIMIT);
    if d == Rejected {
      return Fail(RateLimitExceeded, {});
    }
    if !PreferencesUpdateValid(body) {
      return Fail(ValidationError, PreferencesUpdateIssues(body));
    }
    if !(StorableGoal(body.monthlyGoal) && StorableGoal(body.yearlyGoal)) {
      return Fail(ServerError, {});
    }
    var p := db.CreateOrUpdatePreferences(userId, PreferencesPatchOf(body));
    if p.Threw? {
      return Fail(ServerError, {});
    }
    resp := Ok(p.value);
  }

  // ---------------------------------------------------------------------------
  // Provider settings. The body names the provider under the key `provider`, which is not a
  // column of the preferences table; the query builder keeps only column keys, so as written
  // the chosen provider is dropped.

  /** The columns the provider-settings body sets as written: no `bankProvider`. */
  function ProviderPatchAsWritten(b: ProviderUpdateBody): (r: PreferencePatch)
    ensures r.bankProvider.None?
  {
    PreferencePatch(None, b.fromAccountLabel, b.toAccountLabel, None, b.plaidFromId, b.plaidToId, None, None)
  }

  /** The columns as evidently intended: the chosen provider goes to `bankProvider`. */
  function ProviderPatch(b: ProviderUpdateBody): (r: PreferencePatch)
    ensures r.bankProvider == b.provider
    ensures r.(bankProvider := None) == ProviderPatchAsWritten(b)
  {
    PreferencePatch(b.provider, b.fromAccountLabel, b.toAccountLabel, None, b.plaidFromId, b.plaidToId, None, None)
  }

  /** As written, saving the provider settings never changes which provider the user gets:
      an existing row keeps its provider and a new row takes the default, manual. With the
      intended columns the user gets exactly the provider chosen. */
  lemma ProviderChoiceDropped(pr: Preference, b: ProviderUpdateBody, id: string, userId: string)
    requires ProviderUpdateValid(b)
    ensures Bank.ProviderForUser(Some(ApplyPreferencePatch(pr, ProviderPatchAsWritten(b)))) ==
            Bank.ProviderForUser(Some(pr))
    ensures Bank.ProviderForUser(Some(ApplyPreferencePatch(DefaultPreference(id, userId), ProviderPatchAsWritten(b)))) ==
            Bank.Manual
    ensures Bank.ProviderForUser(Some(ApplyPreferencePatch(pr, ProviderPatch(b)))) ==
            Bank.ProviderByName(b.provider.value)
  {
  }

  /** A concrete case: a manual user picks the sandbox and still gets the manual provider. */
  lemma ProviderChoiceCounterexample()
    ensures var pr := DefaultPreference("p1", "demo-user");
            var b := ProviderUpdateBody(Some(PLAID_SANDBOX), Some(""), Some(""), Some(""), Some(""));
            ProviderUpdateValid(b) &&
            Bank.ProviderForUser(Some(ApplyPreferencePatch(pr, ProviderPatchAsWritten(b)))) == Bank.Manual &&
            Bank.ProviderForUser(Some(ApplyPreferencePatch(pr, ProviderPatch(b)))) == Bank.PlaidSandbox
  {
  }

  /** POST /api/settings/provider as written: the labels and plaid ids are saved, the provider
      is not. A body carrying only `provider` leaves nothing to set, which throws when the
      caller already has a row. */
  method PostProviderSettingsAsWritten(limiter: RateLimiter, db: DatabaseStorage, clientKey: string,
                                       now: Timestamp, userId: string, body: ProviderUpdateBody)
    returns (resp: Response<Preference>)
    requires db.Valid()
    modifies limiter, db
    ensures db.Valid()
    ensures limiter.store == Admit(old(limiter.store), clientKey, now.ms, WRITE_LIMIT).store
    ensures Throttles(old(limiter.store), clientKey, now) ==>
              resp == Fail(RateLimitExceeded, {}) && unchanged(db)
    ensures !Throttles(old(limiter.store), clientKey, now) && !ProviderUpdateValid(body) ==>
              resp == Fail(ValidationError, ProviderUpdateIssues(body)) && unchanged(db)
    ensures !Throttles(old(limiter.store), clientKey, now) && ProviderUpdateValid(body) &&
            old(UserPreference(db.preferences, userId)).Some? && NoPreferenceColumns(ProviderPatchAsWritten(body)) ==>
              resp == Fail(ServerError, {}) && unchanged(db)
    ensures !Throttles(old(limiter.store), clientKey, now) && ProviderUpdateValid(body) &&
            !(old(UserPreference(db.preferences, userId)).Some? && NoPreferenceColumns(ProviderPatchAsWritten(body))) ==>
              resp.Ok? && UserPreference(db.preferences, userId) == Some(resp.value) &&
              resp.value.bankProvider ==
                (if old(UserPreference(db.preferences, userId)).Some?
                 then old(UserPreference(db.preferences, userId)).value.bankProvider else MANUAL) &&
              resp.value == ApplyPreferencePatch(
                (if old(UserPreference(db.preferences, userId)).Some?
                 then old(UserPreference(db.preferences, userId)).value
                 else DefaultPreference(resp.value.id, userId)),
                ProviderPatchAsWritten(body)) &&
              (old(UserPreference(db.preferences, userId)).None? ==> resp.value.id !in old(db.preferences)) &&
              db.preferences == old(db.preferences)[resp.value.id := resp.value] &&
              db.entries == old(db.entries) && db.transfers == old(db.transfers)
  {
    var d := limiter.Handle(clientKey, now.ms, WRITE_LIMIT);
    if d == Rejected {
      return Fail(RateLimitExceeded, {});
    }
    if !ProviderUpdateValid(body) {
      return Fail(ValidationError, ProviderUpdateIssues(body));
    }
    var p := db.CreateOrUpdatePreferences(userId, ProviderPatchAsWritten(body));
    if p.Threw? {
      return Fail(ServerError, {});
    }
    resp := Ok(p.value);
  }

  /** POST /api/settings/provider as evidently intended: the chosen provider is stored. */
  method PostProviderSettings(limiter: RateLimiter, db: DatabaseStorage, clientKey: string,
                              now: Timestamp, userId: string, body: ProviderUpdateBody)
    returns (resp: Response<Preference>)
    requires db.Valid()
    modifies limiter, db
    ensures db.Valid()
    ensures limiter.store == Admit(old(limiter.store), clientKey, now.ms, WRITE_LIMIT).store
    ensures Throttles(old(limiter.store), clientKey, now) ==>
              resp == Fail(RateLimitExceeded, {}) && unchanged(db)
    ensures !Throttles(old(limiter.store), clientKey, now) && !ProviderUpdateValid(body) ==>
              resp == Fail(ValidationError, ProviderUpdateIssues(body)) && unchanged(db)
    ensures !Throttles(old(limiter.store), clientKey, now) && ProviderUpdateValid(body) ==>
              resp.Ok? && UserPreference(db.preferences, userId) == Some(resp.value) &&
              resp.value.bankProvider == body.provider.value &&
              resp.value == ApplyPreferencePatch(
                (if old(UserPreference(db.preferences, userId)).Some?
                 then old(UserPreference(db.preferences, userId)).value
                 else DefaultPreference(resp.value.id, userId)),
                ProviderPatch(body)) &&
              (old(UserPreference(db.preferences, userId)).None? ==> resp.value.id !in old(db.preferences)) &&
              Bank.ProviderForUser(UserPreference(db.preferences, userId)) == Bank.ProviderByName(body.provider.value) &&
              db.preferences == old(db.preferences)[resp.value.id := resp.value] &&
              db.entries == old(db.entries) && db.transfers == old(db.transfers)
  {
    var d := limiter.Handle(clientKey, now.ms, WRITE_LIMIT);
    if d == Rejected {
      return Fail(RateLimitExceeded, {});
    }
    if !ProviderUpdateValid(body) {
      return Fail(ValidationError, ProviderUpdateIssues(body));
    }
    var p := db.CreateOrUpdatePreferences(userId, ProviderPatch(body));
    resp := Ok(p.value);
  }

  // ---------------------------------------------------------------------------
  // Bank

  /** The answer of POST /api/bank/link: a link token and when it expires, in milliseconds. */
  datatype LinkToken = LinkToken(linkToken: string, expirationMs: int)

  const MOCK_LINK_TOKEN: string := "link-sandbox-mock-token"
  const LINK_TOKEN_LIFETIME_MS: int := 3600000

  /** POST /api/bank/link: after the write limiter, the same mock token for every user
      whatever their provider, expiring one hour after the request. */
  method PostBankLink(limiter: RateLimiter, clientKey: string, now: Timestamp) returns (resp: Response<LinkToken>)
    modifies limiter
    ensures limiter.store == Admit(old(limiter.store), clientKey, now.ms, WRITE_LIMIT).store
    ensures resp == Fail(RateLimitExceeded, {}) <==> Throttles(old(limiter.store), clientKey, now)
    ensures !Throttles(old(limiter.store), clientKey, now) ==>
              resp == Ok(LinkToken(MOCK_LINK_TOKEN, now.ms + LINK_TOKEN_LIFETIME_MS)) &&
              resp.value.expirationMs > now.ms
  {
    var d := limiter.Handle(clientKey, now.ms, WRITE_LIMIT);
    if d == Rejected {
      return Fail(RateLimitExceeded, {});
    }
    resp := Ok(LinkToken(MOCK_LINK_TOKEN, now.ms + LINK_TOKEN_LIFETIME_MS));
  }

  /** GET /api/bank/accounts: the accounts of the caller's provider. */
  method GetBankAccounts(db: DatabaseStorage, userId: string) returns (resp: Response<seq<Bank.Account>>)
    requires db.Valid()
    ensures resp.Ok?
    ensures resp.value == Bank.ListAccounts(Bank.ProviderForUser(UserPreference(db.preferences, userId)), userId)
    ensures resp.value == [] <==> Bank.ProviderForUser(UserPreference(db.preferences, userId)).Manual?
  {
    var pref := db.GetPreferences(userId);
    resp := Ok(Bank.ListAccounts(Bank.ProviderForUser(pref), userId));
  }
}
