/**
 * The persistence layer (server/storage.ts, class DatabaseStorage): the
 * `entries`, `transfers` and `preferences` tables held as maps from row id to
 * row. Every read and write of an entry or a transfer is filtered by both the
 * row id and the owning user id; preferences are looked up by user id. Row ids
 * come from the database (`gen_random_uuid()`); here they are any id not yet
 * in the table.
 */
module Storage {
  import opened Schema
  import Ordering

  /** `InsertEntry & { userId }` as the create-entry route passes it. */
  datatype EntryInsert = EntryInsert(
    item: string,
    amount: int,
    category: Option<string>,
    note: Option<string>,
    date: Option<Timestamp>)

  /** `Partial<InsertEntry>`: an absent field is left alone; `Some(None)` sets a nullable column to null. */
  datatype EntryPatch = EntryPatch(
    item: Option<string>,
    amount: Option<int>,
    category: Option<Option<string>>,
    note: Option<Option<string>>,
    date: Option<Timestamp>,
    transferId: Option<Option<string>>)

  /** `Partial<InsertTransfer>`: the columns `method` and `status`. */
  datatype TransferPatch = TransferPatch(methodName: Option<string>, status: Option<string>)

  /** `Partial<InsertPreference>`. */
  datatype PreferencePatch = PreferencePatch(
    bankProvider: Option<string>,
    fromAccountLabel: Option<string>,
    toAccountLabel: Option<string>,
    plaidItemId: Option<string>,
    plaidFromId: Option<string>,
    plaidToId: Option<string>,
    monthlyGoal: Option<int>,
    yearlyGoal: Option<int>)

  /** How a query ends: with a value, or with an exception thrown by the query builder. */
  datatype Outcome<T> = Done(value: T) | Threw

  /** `.set(data)` names no column: the query builder refuses it ("No values to set"),
      and a SET clause with nothing in it is not valid SQL either. */
  predicate NoEntryColumns(p: EntryPatch) {
    p.item.None? && p.amount.None? && p.category.None? && p.note.None? &&
    p.date.None? && p.transferId.None?
  }

  predicate NoTransferColumns(p: TransferPatch) {
    p.methodName.None? && p.status.None?
  }

  predicate NoPreferenceColumns(p: PreferencePatch) {
    p.bankProvider.None? && p.fromAccountLabel.None? && p.toAccountLabel.None? &&
    p.plaidItemId.None? && p.plaidFromId.None? && p.plaidToId.None? &&
    p.monthlyGoal.None? && p.yearlyGoal.None?
  }

  function Pick<T>(given: Option<T>, current: T): T {
    if given.Some? then given.value else current
  }

  function EntryId(e: Entry): string { e.id }
  function EntryDate(e: Entry): int { e.date.ms }
  function TransferId(t: Transfer): string { t.id }
  function TransferCreated(t: Transfer): int { t.createdAt.ms }

  /** `.set(data)` on an entry row: only the given columns change. */
  function ApplyEntryPatch(e: Entry, p: EntryPatch): (r: Entry)
    ensures r.id == e.id && r.userId == e.userId && r.createdAt == e.createdAt
    ensures p == EntryPatch(None, None, None, None, None, None) ==> r == e
  {
    Entry(e.id, e.userId, Pick(p.item, e.item), Pick(p.amount, e.amount),
          Pick(p.category, e.category), Pick(p.note, e.note), Pick(p.date, e.date),
          e.createdAt, Pick(p.transferId, e.transferId))
  }

  /** `.set(data)` on a transfer row. */
  function ApplyTransferPatch(t: Transfer, p: TransferPatch): (r: Transfer)
    ensures r.id == t.id && r.userId == t.userId && r.totalAmount == t.totalAmount
    ensures r.createdAt == t.createdAt && r.completedAt == t.completedAt
  {
    t.(methodName := Pick(p.methodName, t.methodName), status := Pick(p.status, t.status))
  }

  /** `.set(prefs)` on a preferences row. */
  function ApplyPreferencePatch(pr: Preference, p: PreferencePatch): (r: Preference)
    ensures r.id == pr.id && r.userId == pr.userId
    ensures p.bankProvider.Some? ==> r.bankProvider == p.bankProvider.value
    ensures p.bankProvider.None? ==> r.bankProvider == pr.bankProvider
  {
    Preference(pr.id, pr.userId, Pick(p.bankProvider, pr.bankProvider),
               if p.fromAccountLabel.Some? then p.fromAccountLabel else pr.fromAccountLabel,
               if p.toAccountLabel.Some? then p.toAccountLabel else pr.toAccountLabel,
               if p.plaidItemId.Some? then p.plaidItemId else pr.plaidItemId,
               if p.plaidFromId.Some? then p.plaidFromId else pr.plaidFromId,
               if p.plaidToId.Some? then p.plaidToId else pr.plaidToId,
               Pick(p.monthlyGoal, pr.monthlyGoal), Pick(p.yearlyGoal, pr.yearlyGoal))
  }

  /** Writing the same fields twice is the same as writing them once. */
  lemma PatchesAreIdempotent(e: Entry, p: EntryPatch, pr: Preference, q: PreferencePatch)
    ensures ApplyEntryPatch(ApplyEntryPatch(e, p), p) == ApplyEntryPatch(e, p)
    ensures ApplyPreferencePatch(ApplyPreferencePatch(pr, q), q) == ApplyPreferencePatch(pr, q)
  {
  }

  /** `.set({ status: "completed", completedAt: new Date() })`, whatever the prior status. */
  function Completed(t: Transfer, now: Timestamp): (r: Transfer)
    ensures r.status == COMPLETED && r.completedAt == Some(now)
    ensures r.id == t.id && r.userId == t.userId && r.totalAmount == t.totalAmount
    ensures r.methodName == t.methodName && r.createdAt == t.createdAt
  {
    t.(status := COMPLETED, completedAt := Some(now))
  }

  /** Completing is idempotent in effect: a second completion only moves the completion time. */
  lemma CompletionIdempotent(t: Transfer, first: Timestamp, second: Timestamp)
    ensures Completed(Completed(t, first), second) == Completed(t, second)
    ensures Completed(Completed(t, first), second).status == COMPLETED
  {
  }

  /** The entries table after `linkEntriesToTransfer(ids, transferId, userId)`: linking stamps
      exactly the caller's rows named in `ids`, changes nothing else in them, and leaves every
      other row as it was. */
  function Linked(m: map<string, Entry>, ids: seq<string>, transferId: string, userId: string): (r: map<string, Entry>)
    ensures r.Keys == m.Keys
    ensures forall k :: k in m && k in ids && m[k].userId == userId ==>
              r[k] == m[k].(transferId := Some(transferId))
    ensures forall k :: k in m && (k !in ids || m[k].userId != userId) ==> r[k] == m[k]
  {
    map k | k in m :: if k in ids && m[k].userId == userId then m[k].(transferId := Some(transferId)) else m[k]
  }

  /** Linking one more id updates at most that id's row. */
  lemma LinkedStep(m: map<string, Entry>, ids: seq<string>, id: string, transferId: string, userId: string)
    ensures var l := Linked(m, ids, transferId, userId);
      Linked(m, ids + [id], transferId, userId) ==
        if id in l && l[id].userId == userId then l[id := l[id].(transferId := Some(transferId))] else l
  {
  }

  predicate EntriesKeyed(m: map<string, Entry>) {
    forall k :: k in m ==> m[k].id == k
  }

  predicate TransfersKeyed(m: map<string, Transfer>) {
    forall k :: k in m ==> m[k].id == k
  }

  predicate PreferencesKeyed(m: map<string, Preference>) {
    forall k :: k in m ==> m[k].id == k
  }

  /** The unique constraint on `preferences.user_id`. */
  predicate OnePreferencePerUser(m: map<string, Preference>) {
    forall a, b :: a in m && b in m && m[a].userId == m[b].userId ==> a == b
  }

  /** The preferences row of `userId`, if there is one. */
  ghost function UserPreference(m: map<string, Preference>, userId: string): (r: Option<Preference>)
    requires PreferencesKeyed(m)
    ensures r.Some? ==> r.value.id in m && m[r.value.id] == r.value && r.value.userId == userId
    ensures r.None? <==> forall k :: k in m ==> m[k].userId != userId
  {
    if exists k :: k in m && m[k].userId == userId then
      var k :| k in m && m[k].userId == userId; Some(m[k])
    else None
  }

  ghost function MaxLength(s: set<string>): (n: nat)
    ensures forall x :: x in s ==> |x| <= n
    decreases s
  {
    if s == {} then 0
    else
      var x :| x in s;
      var n := MaxLength(s - {x});
      if |x| > n then |x| else n
  }

  /** There is always an id that no row uses yet. */
  lemma UnusedIdExists(used: set<string>)
    ensures exists id: string :: id !in used
  {
    var id := seq(MaxLength(used) + 1, _ => 'x');
    assert id !in used;
  }

  /** Writing a user's row under the id of their existing row, or under a fresh id when they
      have none, keeps one row per user and makes it the row found for them. */
  lemma PreferenceUpsert(m: map<string, Preference>, p: Preference)
    requires PreferencesKeyed(m) && OnePreferencePerUser(m)
    requires UserPreference(m, p.userId).Some? ==> p.id == UserPreference(m, p.userId).value.id
    requires UserPreference(m, p.userId).None? ==> p.id !in m
    ensures PreferencesKeyed(m[p.id := p]) && OnePreferencePerUser(m[p.id := p])
    ensures UserPreference(m[p.id := p], p.userId) == Some(p)
  {
    var m' := m[p.id := p];
    // A row of the user under another id would be their existing row, whose id p.id is.
    assert forall k :: k in m && k != p.id ==> m[k].userId != p.userId;
    assert p.id in m' && m'[p.id].userId == p.userId;
    var r := UserPreference(m', p.userId);
    assert r.value.id == p.id;
  }

  class DatabaseStorage {
    var entries: map<string, Entry>
    var transfers: map<string, Transfer>
    var preferences: map<string, Preference>

    ghost predicate Valid()
      reads this
    {
      EntriesKeyed(entries) && TransfersKeyed(transfers) &&
      PreferencesKeyed(preferences) && OnePreferencePerUser(preferences)
    }

    constructor ()
      ensures Valid()
      ensures entries == map[] && transfers == map[] && preferences == map[]
    {
      entries, transfers, preferences := map[], map[], map[];
    }

    // ----- Entries

    /** The caller's entries, newest date first. The filters of the source are accepted but
        never applied, so they are not parameters here. */
    method GetEntries(userId: string) returns (r: seq<Entry>)
      requires Valid()
      ensures forall e :: e in r <==> e.id in entries && entries[e.id] == e && e.userId == userId
      ensures Ordering.DistinctIds(r, EntryId)
      ensures Ordering.SortedDesc(r, EntryDate)
    {
      var owned := (e: Entry) => e.userId == userId;
      r := Ordering.SelectSorted(entries, EntryId, owned, EntryDate);
    }

    /** The entry with this id, only if it belongs to `userId`. */
    method GetEntry(id: string, userId: string) returns (r: Option<Entry>)
      ensures r.Some? <==> id in entries && entries[id].userId == userId
      ensures r.Some? ==> r.value == entries[id]
    {
      if id in entries && entries[id].userId == userId {
        r := Some(entries[id]);
      } else {
        r := None;
      }
    }

    /** Inserts a row owned by `userId` under a new id; an absent date defaults to now. */
    method CreateEntry(userId: string, data: EntryInsert, now: Timestamp) returns (e: Entry)
      requires Valid()
      modifies this
      ensures Valid()
      ensures e.id !in old(entries) && entries == old(entries)[e.id := e]
      ensures e == Entry(e.id, userId, data.item, data.amount, data.category, data.note,
                         Pick(data.date, now), now, None)
      ensures transfers == old(transfers) && preferences == old(preferences)
    {
      UnusedIdExists(entries.Keys);
      var id: string :| id !in entries.Keys;
      e := Entry(id, userId, data.item, data.amount, data.category, data.note,
                 Pick(data.date, now), now, None);
      entries := entries[id := e];
    }

    /** Overwrites the given fields of the caller's row; nothing happens to a missing or
        foreign row. A patch naming no column throws before any row is looked at. */
    method UpdateEntry(id: string, userId: string, data: EntryPatch) returns (r: Outcome<Option<Entry>>)
      requires Valid()
      modifies this
      ensures Valid()
      ensures r.Threw? <==> NoEntryColumns(data)
      ensures r.Threw? ==> unchanged(this)
      ensures !NoEntryColumns(data) && old(id in entries && entries[id].userId == userId) ==>
                r == Done(Some(ApplyEntryPatch(old(entries)[id], data))) &&
                entries == old(entries)[id := r.value.value]
      ensures !NoEntryColumns(data) && old(id !in entries || entries[id].userId != userId) ==>
                r == Done(None) && entries == old(entries)
      ensures transfers == old(transfers) && preferences == old(preferences)
    {
      if NoEntryColumns(data) {
        r := Threw;
      } else if id in entries && entries[id].userId == userId {
        var updated := ApplyEntryPatch(entries[id], data);
        entries := entries[id := updated];
        r := Done(Some(updated));
      } else {
        r := Done(None);
      }
    }

    /** Removes the caller's row if present; answers true either way. */
    method DeleteEntry(id: string, userId: string) returns (b: bool)
      requires Valid()
      modifies this
      ensures Valid()
      ensures b
      ensures entries == if old(id in entries && entries[id].userId == userId)
                         then old(entries) - {id} else old(entries)
      ensures transfers == old(transfers) && preferences == old(preferences)
    {
      if id in entries && entries[id].userId == userId {
        entries := entries - {id};
      }
      b := true;
    }

    // ----- Transfers

    /** The caller's transfers, newest first. */
    method GetTransfers(userId: string) returns (r: seq<Transfer>)
      requires Valid()
      ensures forall t :: t in r <==> t.id in transfers && transfers[t.id] == t && t.userId == userId
      ensures Ordering.DistinctIds(r, TransferId)
      ensures Ordering.SortedDesc(r, TransferCreated)
    {
      var owned := (t: Transfer) => t.userId == userId;
      r := Ordering.SelectSorted(transfers, TransferId, owned, TransferCreated);
    }

    /** The transfer with this id, only if it belongs to `userId`. */
    method GetTransfer(id: string, userId: string) returns (r: Option<Transfer>)
      ensures r.Some? <==> id in transfers && transfers[id].userId == userId
      ensures r.Some? ==> r.value == transfers[id]
    {
      if id in transfers && transfers[id].userId == userId {
        r := Some(transfers[id]);
      } else {
        r := None;
      }
    }

    /** Inserts a transfer row under a new id, created now and not completed. */
    method CreateTransfer(userId: string, totalAmount: int, methodName: string, status: string, now: Timestamp)
      returns (t: Transfer)
      requires Valid()
      modifies this
      ensures Valid()
      ensures t.id !in old(transfers) && transfers == old(transfers)[t.id := t]
      ensures t == Transfer(t.id, userId, totalAmount, methodName, status, now, None)
      ensures entries == old(entries) && preferences == old(preferences)
    {
      UnusedIdExists(transfers.Keys);
      var id: string :| id !in transfers.Keys;
      t := Transfer(id, userId, totalAmount, methodName, status, now, None);
      transfers := transfers[id := t];
    }

    /** Overwrites method and/or status of the caller's transfer. A patch naming neither
        column throws before any row is looked at. */
    method UpdateTransfer(id: string, userId: string, data: TransferPatch) returns (r: Outcome<Option<Transfer>>)
      requires Valid()
      modifies this
      ensures Valid()
      ensures r.Threw? <==> NoTransferColumns(data)
      ensures r.Threw? ==> unchanged(this)
      ensures !NoTransferColumns(data) && old(id in transfers && transfers[id].userId == userId) ==>
                r == Done(Some(ApplyTransferPatch(old(transfers)[id], data))) &&
                transfers == old(transfers)[id := r.value.value]
      ensures !NoTransferColumns(data) && old(id !in transfers || transfers[id].userId != userId) ==>
                r == Done(None) && transfers == old(transfers)
      ensures entries == old(entries) && preferences == old(preferences)
    {
      if NoTransferColumns(data) {
        r := Threw;
      } else if id in transfers && transfers[id].userId == userId {
        var updated := ApplyTransferPatch(transfers[id], data);
        transfers := transfers[id := updated];
        r := Done(Some(updated));
      } else {
        r := Done(None);
      }
    }

    /** Marks the caller's transfer completed now, with no check of its prior status. */
    method CompleteTransfer(id: string, userId: string, now: Timestamp) returns (r: Option<Transfer>)
      requires Valid()
      modifies this
      ensures Valid()
      ensures old(id in transfers && transfers[id].userId == userId) ==>
                r == Some(Completed(old(transfers)[id], now)) && transfers == old(transfers)[id := r.value]
      ensures old(id !in transfers || transfers[id].userId != userId) ==>
                r == None && transfers == old(transfers)
      ensures entries == old(entries) && preferences == old(preferences)
    {
      if id in transfers && transfers[id].userId == userId {
        var updated := Completed(transfers[id], now);
        transfers := transfers[id := updated];
        r := Some(updated);
      } else {
        r := None;
      }
    }

    // ----- Preferences

    /** The caller's preferences row, if one exists. */
    method GetPreferences(userId: string) returns (r: Option<Preference>)
      requires Valid()
      ensures r == UserPreference(preferences, userId)
    {
      var mine := set k | k in preferences && preferences[k].userId == userId;
      if mine == {} {
        forall k | k in preferences ensures preferences[k].userId != userId {
          assert k !in mine;
        }
        r := None;
      } else {
        var k :| k in mine;
        r := Some(preferences[k]);
        var u := UserPreference(preferences, userId);
        assert u.Some?;
        assert preferences[u.value.id].userId == preferences[k].userId;
        assert u.value.id == k;
      }
    }

    /** Upsert: updates the caller's row when there is one, otherwise inserts a row whose
        absent columns take their defaults. Either way the user ends with exactly one row,
        and no other user's row changes. Updating an existing row with a patch that names
        no column throws and changes nothing; the insert always names `userId`. */
    method CreateOrUpdatePreferences(userId: string, prefs: PreferencePatch) returns (r: Outcome<Preference>)
      requires Valid()
      modifies this
      ensures Valid()
      ensures r.Threw? <==> old(UserPreference(preferences, userId)).Some? && NoPreferenceColumns(prefs)
      ensures r.Threw? ==> unchanged(this)
      ensures r.Done? ==> r.value.userId == userId && r.value.id in preferences && preferences[r.value.id] == r.value
      ensures r.Done? ==> UserPreference(preferences, userId) == Some(r.value)
      ensures old(UserPreference(preferences, userId)).Some? && r.Done? ==>
                r.value == ApplyPreferencePatch(old(UserPreference(preferences, userId)).value, prefs) &&
                preferences == old(preferences)[r.value.id := r.value]
      ensures old(UserPreference(preferences, userId)).None? ==>
                r.Done? && r.value.id !in old(preferences) &&
                r.value == ApplyPreferencePatch(DefaultPreference(r.value.id, userId), prefs) &&
                preferences == old(preferences)[r.value.id := r.value]
      ensures entries == old(entries) && transfers == old(transfers)
    {
      var existing := GetPreferences(userId);
      if existing.Some? {
        if NoPreferenceColumns(prefs) {
          r := Threw;
        } else {
          var p := ApplyPreferencePatch(existing.value, prefs);
          PreferenceUpsert(preferences, p);
          preferences := preferences[p.id := p];
          r := Done(p);
        }
      } else {
        UnusedIdExists(preferences.Keys);
        var id: string :| id !in preferences.Keys;
        var p := ApplyPreferencePatch(DefaultPreference(id, userId), prefs);
        PreferenceUpsert(preferences, p);
        preferences := preferences[id := p];
        r := Done(p);
      }
    }

    // ----- Linking

    /** Stamps `transferId` on each listed entry that belongs to `userId`, one row at a time;
        ids that are unknown or foreign are skipped, and an entry already linked elsewhere
        is overwritten. */
    method LinkEntriesToTransfer(entryIds: seq<string>, transferId: string, userId: string)
      requires Valid()
      modifies this
      ensures Valid()
      ensures entries == Linked(old(entries), entryIds, transferId, userId)
      ensures transfers == old(transfers) && preferences == old(preferences)
    {
      var i := 0;
      while i < |entryIds|
        invariant 0 <= i <= |entryIds|
        invariant entries == Linked(old(entries), entryIds[..i], transferId, userId)
        invariant transfers == old(transfers) && preferences == old(preferences)
      {
        var id := entryIds[i];
        assert entryIds[..i + 1] == entryIds[..i] + [id];
        LinkedStep(old(entries), entryIds[..i], id, transferId, userId);
        if id in entries && entries[id].userId == userId {
          entries := entries[id := entries[id].(transferId := Some(transferId))];
        }
        i := i + 1;
      }
      assert entryIds[..i] == entryIds;
    }
  }
}
