/**
 * The transfers page (client/src/pages/transfers.tsx): the status badge, the
 * entries linked to a transfer, and which action a transfer card offers.
 */
module TransfersPage {
  import opened Schema
  import EntriesPage
  import Bank

  datatype BadgeVariant = Default | Secondary | Outline | Destructive

  /** The badge variant of `getStatusBadge`: a lookup in the table of the four known statuses,
      falling back to the `pending_manual` row for any other status. */
  function StatusVariant(status: string): (v: BadgeVariant)
    ensures status == PENDING_MANUAL ==> v == Secondary
    ensures status == SCHEDULED ==> v == Default
    ensures status == COMPLETED ==> v == Outline
    ensures status == FAILED ==> v == Destructive
    ensures !IsTransferStatus(status) ==> v == Secondary
  {
    if status == SCHEDULED then Default
    else if status == COMPLETED then Outline
    else if status == FAILED then Destructive
    else Secondary
  }

  /** The known statuses get four different badges, and an unknown status looks exactly like
      `pending_manual`. */
  lemma VariantsSeparateKnownStatuses(s1: string, s2: string)
    requires IsTransferStatus(s1) && IsTransferStatus(s2)
    ensures StatusVariant(s1) == StatusVariant(s2) <==> s1 == s2
  {
  }

  /** Position of the first occurrence of `c` in `s`. */
  function IndexOf(s: string, c: char): (k: nat)
    requires c in s
    ensures k < |s| && s[k] == c && c !in s[..k]
  {
    if s[0] == c then 0
    else
      assert s == [s[0]] + s[1..];
      var k := IndexOf(s[1..], c);
      assert s[..k + 1] == [s[0]] + s[1..][..k];
      k + 1
  }

  /** `s.replace(from, to)` with a one-character string pattern: only the first occurrence
      is replaced. */
  function ReplaceFirst(s: string, from: char, to: char): (r: string)
    ensures |r| == |s|
    ensures from !in s ==> r == s
    ensures from in s ==> r[IndexOf(s, from)] == to
    ensures from in s ==> forall i :: 0 <= i < |s| && i != IndexOf(s, from) ==> r[i] == s[i]
  {
    if from in s then
      var k := IndexOf(s, from);
      s[..k] + [to] + s[k + 1..]
    else s
  }

  /** The badge text: as long as the status; a status without '_' is shown as it is;
      otherwise its first '_' reads as a space and every other character stays. */
  function StatusLabel(status: string): (r: string)
    ensures |r| == |status|
    ensures '_' !in status ==> r == status
    ensures '_' in status ==> r[IndexOf(status, '_')] == ' '
    ensures '_' in status ==> forall i :: 0 <= i < |status| && i != IndexOf(status, '_') ==> r[i] == status[i]
  {
    ReplaceFirst(status, '_', ' ')
  }

  /** The first occurrence is the only position holding `c` with no `c` before it. */
  lemma IndexOfUnique(s: string, c: char, k: nat)
    requires k < |s| && s[k] == c && c !in s[..k]
    ensures IndexOf(s, c) == k
  {
  }

  /** Where the first occurrence is known, the replacement is known. */
  lemma ReplaceFirstAt(s: string, from: char, to: char, k: nat)
    requires k < |s| && s[k] == from && from !in s[..k]
    ensures ReplaceFirst(s, from, to) == s[..k] + [to] + s[k + 1..]
  {
    IndexOfUnique(s, from, k);
  }

  lemma PendingHasNoEarlierUnderscore()
    ensures '_' !in PENDING_MANUAL[..7]
  {
    assert PENDING_MANUAL[..7] == "pending";
  }

  lemma PendingWithSpace()
    ensures PENDING_MANUAL[..7] + [' '] + PENDING_MANUAL[8..] == "pending manual"
  {
  }

  /** "pending_manual" reads "pending manual". */
  lemma PendingLabel()
    ensures StatusLabel(PENDING_MANUAL) == "pending manual"
  {
    PendingHasNoEarlierUnderscore();
    ReplaceFirstAt(PENDING_MANUAL, '_', ' ', 7);
    PendingWithSpace();
  }

  /** The other statuses have no '_' and are shown as they are. */
  lemma OtherStatusLabels()
    ensures StatusLabel(SCHEDULED) == SCHEDULED
    ensures StatusLabel(COMPLETED) == COMPLETED
    ensures StatusLabel(FAILED) == FAILED
  {
    assert forall i :: 0 <= i < |SCHEDULED| ==> SCHEDULED[i] != '_';
    assert forall i :: 0 <= i < |COMPLETED| ==> COMPLETED[i] != '_';
    assert forall i :: 0 <= i < |FAILED| ==> FAILED[i] != '_';
  }

  /** Only the first '_' is replaced; a second one stays. */
  lemma OnlyFirstUnderscore()
    ensures StatusLabel("a_b_c") == "a b_c"
  {
    ReplaceFirstAt("a_b_c", '_', ' ', 1);
  }

  /** `getTransferEntries`: the entries whose `transferId` is this transfer's id. */
  function TransferEntries(es: seq<Entry>, transferId: string): (r: seq<Entry>)
    ensures forall e :: e in r <==> e in es && e.transferId == Some(transferId)
    ensures EntriesPage.SubsequenceOf(r, es)
  {
    if es == [] then []
    else
      var rest := TransferEntries(es[1..], transferId);
      EntriesPage.SubsequenceSkip(rest, es);
      if es[0].transferId == Some(transferId) then [es[0]] + rest else rest
  }

  /** Entries of two different transfers never overlap. */
  lemma TransferEntriesDisjoint(es: seq<Entry>, t1: string, t2: string)
    requires t1 != t2
    ensures forall e :: e in TransferEntries(es, t1) ==> e !in TransferEntries(es, t2)
  {
  }

  /** `transferEntries.length === 1 ? 'entry' : 'entries'`. */
  function CountLabel(n: nat): (r: string)
    ensures r == "entry" <==> n == 1
    ensures r == "entries" <==> n != 1
  {
    if n == 1 then "entry" else "entries"
  }

  datatype CardAction = ViewChecklist | Processing | NoAction

  /** The button or badge a card shows beside the transfer. */
  function ActionFor(status: string): (a: CardAction)
    ensures a == ViewChecklist <==> status == PENDING_MANUAL
    ensures a == Processing <==> status == SCHEDULED
  {
    if status == PENDING_MANUAL then ViewChecklist
    else if status == SCHEDULED then Processing
    else NoAction
  }

  /** A fresh transfer offers the checklist exactly when the manual provider created it, and
      shows "Processing..." exactly when the sandbox did; completed and failed ones offer
      nothing. */
  lemma ActionFollowsProvider(p: Bank.Provider)
    ensures ActionFor(Bank.InitialStatus(p)) == ViewChecklist <==> p.Manual?
    ensures ActionFor(Bank.InitialStatus(p)) == Processing <==> p.PlaidSandbox?
    ensures ActionFor(COMPLETED) == NoAction && ActionFor(FAILED) == NoAction
  {
  }
}
