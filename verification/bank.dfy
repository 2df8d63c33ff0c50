/**
 * The bank-provider strategy (server/lib/bank): two providers behind one
 * interface. The manual provider records a transfer the user performs by hand
 * and offers a checklist; the sandbox provider simulates a scheduled transfer.
 * Which one a user gets depends on the `bankProvider` column of their
 * preferences row.
 */
module Bank {
  import opened Schema
  import opened Storage

  datatype Provider = Manual | PlaidSandbox

  datatype Capabilities = Capabilities(simulateTransfers: bool, manualChecklist: bool)

  /** A listed account; the mock balances are floating-point numbers and are not modelled. */
  datatype Account = Account(id: string, name: string)

  /** The identifier stored in `bank_provider` and in the transfer's `method` column. */
  function Name(p: Provider): (r: string)
    ensures IsProviderName(r)
    ensures p.Manual? <==> r == MANUAL
  {
    match p
    case Manual => MANUAL
    case PlaidSandbox => PLAID_SANDBOX
  }

  function DisplayName(p: Provider): (r: string)
    ensures p.Manual? ==> r == "Manual Transfer"
    ensures p.PlaidSandbox? ==> r == "Plaid Sandbox (Demo)"
  {
    match p
    case Manual => "Manual Transfer"
    case PlaidSandbox => "Plaid Sandbox (Demo)"
  }

  /** Exactly one of the two capabilities is on: the sandbox simulates, the manual provider
      offers the checklist. */
  function GetCapabilities(p: Provider): (c: Capabilities)
    ensures c.simulateTransfers != c.manualChecklist
    ensures c.manualChecklist <==> p.Manual?
  {
    match p
    case Manual => Capabilities(false, true)
    case PlaidSandbox => Capabilities(true, false)
  }

  /** The accounts a provider lists, whatever the user: none for the manual provider, three
      fixed mock accounts for the sandbox. */
  function ListAccounts(p: Provider, userId: string): (r: seq<Account>)
    ensures p.Manual? <==> r == []
    ensures p.PlaidSandbox? ==>
              |r| == 3 && r[0].id == "acc_checking_1234" &&
              r[1].id == "acc_savings_5678" && r[2].id == "acc_checking_9012"
    ensures forall i, j :: 0 <= i < j < |r| ==> r[i].id != r[j].id
  {
    match p
    case Manual => []
    case PlaidSandbox => [
      Account("acc_checking_1234", "Checking Account (****1234)"),
      Account("acc_savings_5678", "Savings Account (****5678)"),
      Account("acc_checking_9012", "Joint Checking (****9012)")]
  }

  /** The listing never depends on who asks. */
  lemma AccountsIndependentOfUser(p: Provider, u1: string, u2: string)
    ensures ListAccounts(p, u1) == ListAccounts(p, u2)
  {
  }

  /** The status a freshly created transfer gets: never completed or failed. */
  function InitialStatus(p: Provider): (s: string)
    ensures IsTransferStatus(s) && s != COMPLETED && s != FAILED
    ensures s == PENDING_MANUAL <==> p.Manual?
    ensures s == SCHEDULED <==> p.PlaidSandbox?
  {
    match p
    case Manual => PENDING_MANUAL
    case PlaidSandbox => SCHEDULED
  }

  /** Only the manual provider implements the optional `markCompleted` hook. */
  predicate HasMarkCompleted(p: Provider) {
    p.Manual?
  }

  /** The hook exists exactly for the provider that offers the manual checklist. */
  lemma HookFollowsChecklist(p: Provider)
    ensures HasMarkCompleted(p) <==> GetCapabilities(p).manualChecklist
    ensures HasMarkCompleted(p) <==> InitialStatus(p) == PENDING_MANUAL
  {
  }

  /** `getProviderByName`: the sandbox for exactly "plaid_sandbox", manual for any other string. */
  function ProviderByName(s: string): (p: Provider)
    ensures p.PlaidSandbox? <==> s == PLAID_SANDBOX
  {
    if s == PLAID_SANDBOX then PlaidSandbox else Manual
  }

  /** Looking up a provider by its own name gives it back. */
  lemma ProviderNameRoundTrip(p: Provider)
    ensures ProviderByName(Name(p)) == p
  {
  }

  /** `getProviderForUser`, given the user's preferences row (or none). */
  function ProviderForUser(pref: Option<Preference>): (p: Provider)
    ensures p.PlaidSandbox? <==> pref.Some? && pref.value.bankProvider == PLAID_SANDBOX
  {
    if pref.Some? && pref.value.bankProvider == PLAID_SANDBOX then PlaidSandbox else Manual
  }

  /** With a preferences row the choice is `getProviderByName(bankProvider)`; without one it
      is the manual provider, the same as for a fresh default row. */
  lemma ProviderForUserByName(pref: Option<Preference>, id: string, userId: string)
    ensures pref.Some? ==> ProviderForUser(pref) == ProviderByName(pref.value.bankProvider)
    ensures pref.None? ==> ProviderForUser(pref) == Manual
    ensures ProviderForUser(Some(DefaultPreference(id, userId))) == Manual
  {
  }

  /** `createTransfer`: inserts one transfer row with the given total, the provider's name in
      `method` and its initial status, and answers the new id with that status. The entry ids
      the interface passes are not used by either provider. */
  method CreateTransfer(p: Provider, db: DatabaseStorage, userId: string, totalAmount: int, now: Timestamp)
    returns (transferId: string, status: string)
    requires db.Valid()
    modifies db
    ensures db.Valid()
    ensures status == InitialStatus(p)
    ensures transferId !in old(db.transfers)
    ensures db.transfers == old(db.transfers)[transferId := Transfer(transferId, userId, totalAmount, Name(p), status, now, None)]
    ensures db.entries == old(db.entries) && db.preferences == old(db.preferences)
  {
    var t := db.CreateTransfer(userId, totalAmount, Name(p), InitialStatus(p), now);
    transferId, status := t.id, InitialStatus(p);
  }

  // ---------------------------------------------------------------------------
  // markCompleted. Its filter `transfers.id === transferId` compares a column object with a
  // string, which is always false; the query builder treats a false filter as no filter, so
  // the update reaches every row of the table, of every user.

  /** The table after an unfiltered `UPDATE transfers SET status = 'completed', completed_at = now`:
      every row of every user is completed now, and keeps its owner and amount. */
  function CompleteAll(m: map<string, Transfer>, now: Timestamp): (r: map<string, Transfer>)
    ensures r.Keys == m.Keys
    ensures forall k :: k in m ==> r[k].status == COMPLETED && r[k].completedAt == Some(now)
    ensures forall k :: k in m ==> r[k].userId == m[k].userId && r[k].totalAmount == m[k].totalAmount
  {
    map k | k in m :: Completed(m[k], now)
  }

  /** The table after the intended `UPDATE ... WHERE id = transferId`: the named row is
      completed and every other row is left as it was. */
  function CompleteById(m: map<string, Transfer>, transferId: string, now: Timestamp): (r: map<string, Transfer>)
    ensures r.Keys == m.Keys
    ensures transferId in m ==> r[transferId].status == COMPLETED && r[transferId].completedAt == Some(now)
    ensures forall k :: k in m && k != transferId ==> r[k] == m[k]
  {
    if transferId in m then m[transferId := Completed(m[transferId], now)] else m
  }

  /** The update as written completes every row, so unless the table holds nothing but the
      named transfer it also changes rows it was never asked to touch. */
  lemma CompleteAllReachesOthers(m: map<string, Transfer>, transferId: string, now: Timestamp)
    ensures (exists k :: k in m && k != transferId && m[k].status != COMPLETED) ==>
              CompleteAll(m, now) != CompleteById(m, transferId, now)
  {
    if exists k :: k in m && k != transferId && m[k].status != COMPLETED {
      var k :| k in m && k != transferId && m[k].status != COMPLETED;
      assert CompleteById(m, transferId, now)[k] == m[k];
    }
  }

  /** A concrete case: two users' pending transfers; completing user A's also completes B's. */
  lemma MarkCompletedCounterexample()
    ensures var t0 := Timestamp(0, 0, 0, 2025);
            var now := Timestamp(1000, 0, 0, 2025);
            var a := Transfer("a", "user-a", 500, MANUAL, PENDING_MANUAL, t0, None);
            var b := Transfer("b", "user-b", 700, MANUAL, PENDING_MANUAL, t0, None);
            var m := map["a" := a, "b" := b];
            CompleteAll(m, now)["b"].status == COMPLETED &&
            CompleteById(m, "a", now)["b"].status == PENDING_MANUAL
  {
  }

  /** `markCompleted` as written: every transfer row becomes completed. */
  method MarkCompletedAsWritten(db: DatabaseStorage, transferId: string, now: Timestamp)
    requires db.Valid()
    modifies db
    ensures db.Valid()
    ensures db.transfers == CompleteAll(old(db.transfers), now)
    ensures db.entries == old(db.entries) && db.preferences == old(db.preferences)
  {
    db.transfers := CompleteAll(db.transfers, now);
  }

  /** `markCompleted` as evidently intended: only the named transfer becomes completed. */
  method MarkCompleted(db: DatabaseStorage, transferId: string, now: Timestamp)
    requires db.Valid()
    modifies db
    ensures db.Valid()
    ensures db.transfers == CompleteById(old(db.transfers), transferId, now)
    ensures db.entries == old(db.entries) && db.preferences == old(db.preferences)
  {
    if transferId in db.transfers {
      db.transfers := db.transfers[transferId := Completed(db.transfers[transferId], now)];
    }
  }
}
