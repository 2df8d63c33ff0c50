/**
 * The transfer checklist dialog (client/src/components/TransferChecklistModal.tsx):
 * the memo the user types into their bank, the account texts with their
 * fallbacks, the copy buttons, and the id handed to the completion callback.
 */
module Checklist {
  import opened Schema
  import TransfersPage

  // ---------------------------------------------------------------------------
  // Decimal rendering of the entry count, as a template literal prints a whole number.

  predicate IsDigit(c: char) {
    '0' <= c <= '9'
  }

  predicate AllDigits(s: string) {
    forall i :: 0 <= i < |s| ==> IsDigit(s[i])
  }

  function DigitChar(d: nat): (c: char)
    requires d < 10
    ensures IsDigit(c) && c as int - '0' as int == d
  {
    (d + '0' as int) as char
  }

  /** Decimal digits of `n`, without leading zeros. */
  function NatToString(n: nat): (s: string)
    ensures |s| >= 1 && AllDigits(s)
    ensures s[0] == '0' ==> n == 0
    decreases n
  {
    if n < 10 then [DigitChar(n)] else NatToString(n / 10) + [DigitChar(n % 10)]
  }

  /** The value of a string of decimal digits. */
  function ParseNat(s: string): nat
    requires AllDigits(s)
  {
    if s == [] then 0 else 10 * ParseNat(s[..|s| - 1]) + (s[|s| - 1] as int - '0' as int)
  }

  /** Reading the printed count gives the count back. */
  lemma {:induction false} ParseNatToString(n: nat)
    ensures ParseNat(NatToString(n)) == n
    decreases n
  {
    if n >= 10 {
      var s := NatToString(n);
      assert s[..|s| - 1] == NatToString(n / 10);
      ParseNatToString(n / 10);
    }
  }

  /** Different counts print differently. */
  lemma NatToStringInjective(a: nat, b: nat)
    ensures NatToString(a) == NatToString(b) ==> a == b
  {
    ParseNatToString(a);
    ParseNatToString(b);
  }

  // ---------------------------------------------------------------------------
  // The memo

  const MEMO_PREFIX: string := "Sanki Yedim \U{2013} "
  const MEMO_SEPARATOR: string := " \U{2013} "

  /** `Sanki Yedim – <yyyy-MM-dd> – <count> item[s]`, with the date already formatted. */
  function MemoText(formattedDate: string, entryCount: nat): (r: string)
    ensures |r| > |MEMO_PREFIX| + |formattedDate| + |MEMO_SEPARATOR| + 5
    ensures r[..|MEMO_PREFIX|] == MEMO_PREFIX
    ensures r[|MEMO_PREFIX|..|MEMO_PREFIX| + |formattedDate|] == formattedDate
    ensures entryCount == 1 ==> r[|r| - 5..] == " item"
    ensures entryCount != 1 ==> r[|r| - 5..] == "items"
  {
    MemoHead(formattedDate) + MemoTail(entryCount)
  }

  /** The part of the memo before the count. */
  function MemoHead(formattedDate: string): string {
    MEMO_PREFIX + formattedDate + MEMO_SEPARATOR
  }

  /** The count and its noun. */
  function MemoTail(entryCount: nat): string {
    NatToString(entryCount) + (" item" + Plural(entryCount))
  }

  /** The "s" of "items": present exactly when the count is not 1. */
  function Plural(n: nat): (r: string)
    ensures r == "s" <==> n != 1
    ensures r == "" <==> n == 1
  {
    if n != 1 then "s" else ""
  }

  /** Digits followed by a space split the same way in two equal strings. */
  lemma DigitsBeforeSpace(x: string, y: string, u: string, v: string)
    requires AllDigits(x) && AllDigits(u)
    requires |y| >= 1 && y[0] == ' ' && |v| >= 1 && v[0] == ' '
    requires x + y == u + v
    ensures x == u
  {
    assert x == (x + y)[..|x|];
    assert u == (u + v)[..|u|];
  }

  /** For one date, the memo determines the entry count. */
  lemma MemoDeterminesCount(formattedDate: string, a: nat, b: nat)
    requires MemoText(formattedDate, a) == MemoText(formattedDate, b)
    ensures a == b
  {
    var head := MemoHead(formattedDate);
    assert MemoTail(a) == (head + MemoTail(a))[|head|..];
    assert MemoTail(b) == (head + MemoTail(b))[|head|..];
    DigitsBeforeSpace(NatToString(a), " item" + Plural(a), NatToString(b), " item" + Plural(b));
    NatToStringInjective(a, b);
  }

  // ---------------------------------------------------------------------------
  // Account texts and copy buttons. A label is absent, or a string that may be empty.

  /** A label that JavaScript treats as true: present and non-empty. */
  predicate Truthy(given: Option<string>) {
    given.Some? && given.value != ""
  }

  /** `accountLabels.from || "Your checking account"`. */
  function FromText(given: Option<string>): (r: string)
    ensures Truthy(given) ==> r == given.value
    ensures !Truthy(given) ==> r == "Your checking account"
  {
    if Truthy(given) then given.value else "Your checking account"
  }

  /** `accountLabels.to || "Your savings account"`. */
  function ToText(given: Option<string>): (r: string)
    ensures Truthy(given) ==> r == given.value
    ensures !Truthy(given) ==> r == "Your savings account"
  {
    if Truthy(given) then given.value else "Your savings account"
  }

  /** The copy button beside an account text, and what it copies. */
  function CopyButton(given: Option<string>): (r: Option<string>)
    ensures r.Some? <==> Truthy(given)
    ensures r.Some? ==> r == given
  {
    if Truthy(given) then given else None
  }

  /** A copy button exists exactly when the shown text is the user's own label, and it copies
      exactly what is shown; the shown text is never empty. */
  lemma CopyMatchesShownText(from: Option<string>, to: Option<string>)
    ensures CopyButton(from).Some? ==> CopyButton(from).value == FromText(from)
    ensures CopyButton(to).Some? ==> CopyButton(to).value == ToText(to)
    ensures CopyButton(from).None? ==> FromText(from) == "Your checking account"
    ensures CopyButton(to).None? ==> ToText(to) == "Your savings account"
    ensures FromText(from) != "" && ToText(to) != ""
  {
  }

  // ---------------------------------------------------------------------------
  // The dialog opened from a transfer card

  /** The props the transfers page passes: the transfer's id, amount and creation time, the
      number of entries linked to it, and the labels of the user's preferences row. */
  datatype Dialog = Dialog(
    transferId: string,
    totalAmount: int,
    entryCount: nat,
    createdAt: Timestamp,
    from: Option<string>,
    to: Option<string>)

  function OpenDialog(t: Transfer, entries: seq<Entry>, pref: Option<Preference>): (d: Dialog)
    ensures d.transferId == t.id && d.totalAmount == t.totalAmount && d.createdAt == t.createdAt
    ensures d.entryCount == |TransfersPage.TransferEntries(entries, t.id)|
    ensures pref.None? ==> d.from.None? && d.to.None?
    ensures pref.Some? ==> d.from == pref.value.fromAccountLabel && d.to == pref.value.toAccountLabel
  {
    Dialog(t.id, t.totalAmount, |TransfersPage.TransferEntries(entries, t.id)|, t.createdAt,
           if pref.Some? then pref.value.fromAccountLabel else None,
           if pref.Some? then pref.value.toAccountLabel else None)
  }

  /** "Mark as Completed" hands the callback the id of the transfer the dialog shows. */
  function MarkCompleteTarget(d: Dialog): string {
    d.transferId
  }

  /** Opening the dialog from a transfer and pressing "Mark as Completed" completes that
      transfer; the memo counts exactly its linked entries; a user without a preferences row
      sees both fallbacks. */
  lemma DialogForTransfer(t: Transfer, entries: seq<Entry>, pref: Option<Preference>, formattedDate: string)
    ensures MarkCompleteTarget(OpenDialog(t, entries, pref)) == t.id
    ensures MemoText(formattedDate, OpenDialog(t, entries, pref).entryCount)
         == MemoText(formattedDate, |TransfersPage.TransferEntries(entries, t.id)|)
    ensures pref.None? ==> FromText(OpenDialog(t, entries, pref).from) == "Your checking account"
    ensures pref.None? ==> ToText(OpenDialog(t, entries, pref).to) == "Your savings account"
  {
  }
}
