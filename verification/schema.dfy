/**
 * Table rows, request bodies and the validation schemas of the savings tracker
 * (shared/schema.ts). Money is held in integer cents: every amount column is
 * decimal(10,2), so a stored value is an exact number of cents.
 */
module Schema {

  datatype Option<T> = None | Some(value: T)

  /** An instant: milliseconds since the epoch, together with its local calendar
      reading (an absolute day number, the month 0..11 and the year). */
  datatype Timestamp = Timestamp(ms: int, day: int, month: int, year: int)

  // Values of the text columns `bank_provider` and `method`.
  const MANUAL: string := "manual"
  const PLAID_SANDBOX: string := "plaid_sandbox"

  // Values of the text column `status`.
  const PENDING_MANUAL: string := "pending_manual"
  const SCHEDULED: string := "scheduled"
  const COMPLETED: string := "completed"
  const FAILED: string := "failed"

  // Column default of `monthly_goal` and `yearly_goal` ("0.00").
  const DEFAULT_GOAL: int := 0

  /** What a decimal(10,2) column can hold: at most eight digits before the point. A larger
      value makes the database reject the whole statement. */
  predicate FitsDecimal(cents: int) {
    -10_000_000_000 < cents < 10_000_000_000
  }

  predicate IsProviderName(s: string) {
    s == MANUAL || s == PLAID_SANDBOX
  }

  predicate IsTransferStatus(s: string) {
    s == PENDING_MANUAL || s == SCHEDULED || s == COMPLETED || s == FAILED
  }

  /** A row of the `entries` table. */
  datatype Entry = Entry(
    id: string,
    userId: string,
    item: string,
    amount: int,
    category: Option<string>,
    note: Option<string>,
    date: Timestamp,
    createdAt: Timestamp,
    transferId: Option<string>)

  /** A row of the `transfers` table. */
  datatype Transfer = Transfer(
    id: string,
    userId: string,
    totalAmount: int,
    methodName: string,  // column `method`
    status: string,
    createdAt: Timestamp,
    completedAt: Option<Timestamp>)

  /** A row of the `preferences` table (at most one per user: `user_id` is unique). */
  datatype Preference = Preference(
    id: string,
    userId: string,
    bankProvider: string,
    fromAccountLabel: Option<string>,
    toAccountLabel: Option<string>,
    plaidItemId: Option<string>,
    plaidFromId: Option<string>,
    plaidToId: Option<string>,
    monthlyGoal: int,
    yearlyGoal: int)

  /** The row a fresh insert produces when no column is given: the column defaults. */
  function DefaultPreference(id: string, userId: string): (p: Preference)
    ensures p.id == id && p.userId == userId
    ensures p.bankProvider == MANUAL && p.monthlyGoal == 0 && p.yearlyGoal == 0
    ensures p.fromAccountLabel.None? && p.toAccountLabel.None?
  {
    Preference(id, userId, MANUAL, None, None, None, None, None, DEFAULT_GOAL, DEFAULT_GOAL)
  }

  /** Sum of the amounts of a list of entries, folded left to right as `reduce` does. */
  function TotalAmount(es: seq<Entry>): int
  {
    if es == [] then 0 else es[0].amount + TotalAmount(es[1..])
  }

  /** With no negative amount the total is never negative; with only positive amounts (as
      every accepted entry has) it is positive exactly when there is an entry. */
  lemma {:induction false} TotalAmountSign(es: seq<Entry>)
    ensures (forall e :: e in es ==> e.amount >= 0) ==> TotalAmount(es) >= 0
    ensures (forall e :: e in es ==> e.amount > 0) ==> (TotalAmount(es) > 0 <==> es != [])
  {
    if es != [] {
      assert forall e :: e in es[1..] ==> e in es;
      TotalAmountSign(es[1..]);
    }
  }

  lemma {:induction false} TotalAmountAppend(a: seq<Entry>, b: seq<Entry>)
    ensures TotalAmount(a + b) == TotalAmount(a) + TotalAmount(b)
  {
    if a == [] {
      assert a + b == b;
    } else {
      assert (a + b)[0] == a[0];
      assert (a + b)[1..] == a[1..] + b;
      TotalAmountAppend(a[1..], b);
    }
  }

  // ---------------------------------------------------------------------------
  // Request bodies as they arrive, and the zod schemas that accept them.

  /** A JSON value after `z.coerce.number()`: a finite number (in cents), NaN, or ±Infinity. */
  datatype Num = Finite(cents: int) | NotANumber | Infinite(positive: bool)

  datatype EntryCreateBody = EntryCreateBody(
    item: Option<string>,
    amount: Num,
    category: Option<string>,
    note: Option<string>,
    date: Option<Timestamp>)

  datatype TransferCreateBody = TransferCreateBody(entryIds: Option<seq<string>>)

  datatype ProviderUpdateBody = ProviderUpdateBody(
    provider: Option<string>,
    fromAccountLabel: Option<string>,
    toAccountLabel: Option<string>,
    plaidFromId: Option<string>,
    plaidToId: Option<string>)

  datatype PreferencesUpdateBody = PreferencesUpdateBody(
    monthlyGoal: Option<Num>,
    yearlyGoal: Option<Num>,
    bankProvider: Option<string>,
    fromAccountLabel: Option<string>,
    toAccountLabel: Option<string>,
    plaidFromId: Option<string>,
    plaidToId: Option<string>)

  /** `z.string().min(1).max(120)` */
  predicate ItemValid(item: Option<string>) {
    item.Some? && 1 <= |item.value| <= 120
  }

  /** `z.coerce.number().positive().finite()` */
  predicate AmountValid(amount: Num) {
    amount.Finite? && amount.cents > 0
  }

  /** `z.string().max(n).optional()` */
  predicate OptionalMaxLength(s: Option<string>, n: nat) {
    s.Some? ==> |s.value| <= n
  }

  /** `z.coerce.number().nonnegative().optional()`: NaN fails the number check,
      +Infinity passes (no `.finite()` here), -Infinity fails `nonnegative`. */
  predicate GoalValid(goal: Option<Num>) {
    goal.Some? ==> match goal.value
                   case Finite(c) => c >= 0
                   case NotANumber => false
                   case Infinite(positive) => positive
  }

  /** `z.enum(["manual", "plaid_sandbox"])`, optional or required. */
  predicate OptionalProviderValid(p: Option<string>) {
    p.Some? ==> IsProviderName(p.value)
  }

  /** entryCreateSchema: NaN and the infinities are refused as amounts, and so is an empty
      item; category and note may be left out. */
  predicate EntryCreateValid(b: EntryCreateBody)
    ensures b.amount.NotANumber? || b.amount.Infinite? || b.item == Some("") ==> !EntryCreateValid(b)
    ensures (b.item.Some? && 1 <= |b.item.value| <= 120 && b.amount.Finite? && b.amount.cents > 0 &&
             b.category.None? && b.note.None?) ==> EntryCreateValid(b)
  {
    ItemValid(b.item) && AmountValid(b.amount) &&
    OptionalMaxLength(b.category, 50) && OptionalMaxLength(b.note, 500)
  }

  /** transferCreateSchema: `z.array(z.string()).min(1)`. Any non-empty list is accepted,
      whatever ids it holds; a missing or empty list is refused. */
  predicate TransferCreateValid(b: TransferCreateBody)
    ensures b.entryIds.Some? && b.entryIds.value != [] ==> TransferCreateValid(b)
    ensures b.entryIds.None? || b.entryIds == Some([]) ==> !TransferCreateValid(b)
  {
    b.entryIds.Some? && |b.entryIds.value| >= 1
  }

  /** providerUpdateSchema: the provider is required, the labels and ids are free strings. */
  predicate ProviderUpdateValid(b: ProviderUpdateBody)
    ensures b.provider.None? ==> !ProviderUpdateValid(b)
    ensures ProviderUpdateValid(b) <==>
              b.provider == Some(MANUAL) || b.provider == Some(PLAID_SANDBOX)
  {
    b.provider.Some? && IsProviderName(b.provider.value)
  }

  /** preferencesUpdateSchema: every field is optional, so a body with none of them (or only
      unknown keys, which are stripped) is accepted; a NaN or negative goal is refused, while
      +Infinity passes. */
  predicate PreferencesUpdateValid(b: PreferencesUpdateBody)
    ensures b.monthlyGoal.None? && b.yearlyGoal.None? && b.bankProvider.None? ==> PreferencesUpdateValid(b)
    ensures b.monthlyGoal == Some(NotANumber) || b.monthlyGoal == Some(Infinite(false)) ||
            (b.monthlyGoal.Some? && b.monthlyGoal.value.Finite? && b.monthlyGoal.value.cents < 0) ==>
              !PreferencesUpdateValid(b)
    ensures b.monthlyGoal == Some(Infinite(true)) && b.yearlyGoal.None? && b.bankProvider.None? ==>
              PreferencesUpdateValid(b)
  {
    GoalValid(b.monthlyGoal) && GoalValid(b.yearlyGoal) && OptionalProviderValid(b.bankProvider)
  }

  /** The paths zod reports in `error.errors` for an entry body: one per failing field. */
  function EntryCreateIssues(b: EntryCreateBody): (r: set<string>)
    ensures r <= {"item", "amount", "category", "note"}
    ensures r == {} <==> EntryCreateValid(b)
    ensures "amount" in r <==> !(b.amount.Finite? && b.amount.cents > 0)
  {
    (if ItemValid(b.item) then {} else {"item"}) +
    (if AmountValid(b.amount) then {} else {"amount"}) +
    (if OptionalMaxLength(b.category, 50) then {} else {"category"}) +
    (if OptionalMaxLength(b.note, 500) then {} else {"note"})
  }

  /** The paths zod reports for a preferences body. */
  function PreferencesUpdateIssues(b: PreferencesUpdateBody): (r: set<string>)
    ensures r <= {"monthlyGoal", "yearlyGoal", "bankProvider"}
    ensures r == {} <==> PreferencesUpdateValid(b)
  {
    (if GoalValid(b.monthlyGoal) then {} else {"monthlyGoal"}) +
    (if GoalValid(b.yearlyGoal) then {} else {"yearlyGoal"}) +
    (if OptionalProviderValid(b.bankProvider) then {} else {"bankProvider"})
  }

  /** The path zod reports for a transfer body. */
  function TransferCreateIssues(b: TransferCreateBody): (r: set<string>)
    ensures r == {} <==> TransferCreateValid(b)
    ensures r <= {"entryIds"}
  {
    if TransferCreateValid(b) then {} else {"entryIds"}
  }

  /** The path zod reports for a provider-settings body. */
  function ProviderUpdateIssues(b: ProviderUpdateBody): (r: set<string>)
    ensures r == {} <==> ProviderUpdateValid(b)
    ensures r <= {"provider"}
  {
    if ProviderUpdateValid(b) then {} else {"provider"}
  }

  /** Every accepted entry body carries a usable row: an item of 1..120 characters and a
      strictly positive whole number of cents. */
  lemma AcceptedEntryIsWellFormed(b: EntryCreateBody)
    requires EntryCreateValid(b)
    ensures b.item.Some? && 0 < |b.item.value| <= 120
    ensures b.amount.Finite? && b.amount.cents >= 1
    ensures b.category.Some? ==> |b.category.value| <= 50
    ensures b.note.Some? ==> |b.note.value| <= 500
  {
  }

  /** The provider enum accepts exactly the two provider names. */
  lemma ProviderEnumExact(b: ProviderUpdateBody)
    ensures ProviderUpdateValid(b) <==> (b.provider == Some("manual") || b.provider == Some("plaid_sandbox"))
  {
  }

  /** An accepted goal is never negative and never NaN. */
  lemma AcceptedGoalNonNegative(goal: Option<Num>)
    requires GoalValid(goal)
    ensures goal.Some? && goal.value.Finite? ==> goal.value.cents >= 0
    ensures goal != Some(NotANumber) && goal != Some(Infinite(false))
  {
  }
}
