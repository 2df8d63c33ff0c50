/**
 * The entries page (client/src/pages/entries.tsx): search and category
 * filtering of the user's entries, ten entries per page, and the set of
 * entries selected for a bulk transfer. Case folding is ASCII only.
 */
module EntriesPage {
  import opened Schema

  const PAGE_SIZE: nat := 10

  // ---------------------------------------------------------------------------
  // Search

  function LowerChar(c: char): (r: char)
    ensures 'A' <= c <= 'Z' ==> r as int == c as int + 32
    ensures !('A' <= c <= 'Z') ==> r == c
    ensures !('A' <= r <= 'Z')
  {
    if 'A' <= c <= 'Z' then (c as int + 32) as char else c
  }

  /** `toLowerCase`, restricted to ASCII letters. */
  function Lower(s: string): (r: string)
    ensures |r| == |s|
    ensures forall i :: 0 <= i < |s| ==> r[i] == LowerChar(s[i])
  {
    if s == [] then [] else [LowerChar(s[0])] + Lower(s[1..])
  }

  /** Lowering twice is lowering once. */
  lemma LowerIdempotent(s: string)
    ensures Lower(Lower(s)) == Lower(s)
  {
    assert forall i :: 0 <= i < |s| ==> LowerChar(LowerChar(s[i])) == LowerChar(s[i]);
  }

  /** `String.prototype.includes`. */
  predicate Contains(s: string, sub: string) {
    exists i :: 0 <= i <= |s| && sub <= s[i..]
  }

  /** Every string contains the empty string. */
  lemma ContainsEmpty(s: string)
    ensures Contains(s, "")
  {
    assert "" <= s[0..];
  }

  /** `item.toLowerCase().includes(q) || (note && note.toLowerCase().includes(q))`: a missing or
      empty note never matches on its own. */
  predicate MatchesSearch(e: Entry, query: string)
    ensures query == "" ==> MatchesSearch(e, query)
    ensures (e.note.None? || e.note == Some("")) ==>
              (MatchesSearch(e, query) <==> Contains(Lower(e.item), Lower(query)))
  {
    ContainsEmpty(Lower(e.item));
    Contains(Lower(e.item), Lower(query)) ||
    (e.note.Some? && e.note.value != "" && Contains(Lower(e.note.value), Lower(query)))
  }

  /** `categoryFilter === "all" || entry.category === categoryFilter`: "all" takes every
      entry, and an entry without a category is taken by nothing else. */
  predicate MatchesCategory(e: Entry, category: string)
    ensures category == "all" ==> MatchesCategory(e, category)
    ensures e.category.None? ==> (MatchesCategory(e, category) <==> category == "all")
    ensures MatchesCategory(e, category) && category != "all" ==> e.category == Some(category)
  {
    category == "all" || e.category == Some(category)
  }

  /** `r` is `s` with some elements left out and the rest in their original order. */
  predicate SubsequenceOf<T(==)>(r: seq<T>, s: seq<T>) {
    if r == [] then true
    else if s == [] then false
    else if r[0] == s[0] then SubsequenceOf(r[1..], s[1..])
    else SubsequenceOf(r, s[1..])
  }

  /** `filteredEntries`. */
  function FilterEntries(es: seq<Entry>, query: string, category: string): (r: seq<Entry>)
    ensures forall e :: e in r <==> e in es && MatchesSearch(e, query) && MatchesCategory(e, category)
    ensures SubsequenceOf(r, es)
  {
    if es == [] then []
    else
      var rest := FilterEntries(es[1..], query, category);
      SubsequenceSkip(rest, es);
      if MatchesSearch(es[0], query) && MatchesCategory(es[0], category) then [es[0]] + rest else rest
  }

  lemma {:induction false} SubsequenceSkip<T>(r: seq<T>, s: seq<T>)
    requires s != [] && SubsequenceOf(r, s[1..])
    ensures SubsequenceOf(r, s)
    decreases |s|, 0
  {
    if r != [] && r[0] == s[0] {
      // r[0] is matched against s[0] instead of later; the rest of r still fits in s[1..].
      SubsequenceTail(r, s[1..]);
    }
  }

  /** Dropping the first element of a subsequence keeps it a subsequence. */
  lemma {:induction false} SubsequenceTail<T>(r: seq<T>, s: seq<T>)
    requires r != [] && SubsequenceOf(r, s)
    ensures SubsequenceOf(r[1..], s)
    decreases |s|, 1
  {
    if r[0] == s[0] {
      if r[1..] != [] {
        SubsequenceSkip(r[1..], s);
      }
    } else {
      SubsequenceTail(r, s[1..]);
      if r[1..] != [] {
        SubsequenceSkip(r[1..], s);
      }
    }
  }

  /** With an empty query and category "all" nothing is filtered out. */
  lemma {:induction false} NoFilterKeepsAll(es: seq<Entry>)
    ensures FilterEntries(es, "", "all") == es
  {
    if es != [] {
      ContainsEmpty(Lower(es[0].item));
      NoFilterKeepsAll(es[1..]);
    }
  }

  // ---------------------------------------------------------------------------
  // Pagination

  /** `Math.ceil(n / pageSize)`. */
  function TotalPages(n: nat): (t: nat)
    ensures t * PAGE_SIZE >= n
    ensures t > 0 ==> (t - 1) * PAGE_SIZE < n
  {
    (n + PAGE_SIZE - 1) / PAGE_SIZE
  }

  /** How `Array.prototype.slice` reads an index: negative counts from the end, and the
      result is clamped to [0, len]. */
  function SliceIndex(i: int, len: nat): (r: nat)
    ensures r <= len
    ensures 0 <= i <= len ==> r == i
  {
    if i < 0 then (if len + i < 0 then 0 else len + i)
    else if i > len then len
    else i
  }

  /** `s.slice(start, end)`. */
  function Slice<T>(s: seq<T>, start: int, end: int): (r: seq<T>)
    ensures |r| <= |s|
    ensures |r| == if SliceIndex(start, |s|) < SliceIndex(end, |s|)
                   then SliceIndex(end, |s|) - SliceIndex(start, |s|) else 0
    ensures forall i :: 0 <= i < |r| ==> r[i] == s[SliceIndex(start, |s|) + i]
  {
    var a := SliceIndex(start, |s|);
    var b := SliceIndex(end, |s|);
    if a < b then s[a..b] else []
  }

  /** `paginatedEntries` for a page number: never more than ten entries, whatever the page. */
  function PageOf<T>(s: seq<T>, page: int): (r: seq<T>)
    ensures |r| <= PAGE_SIZE
  {
    Slice(s, (page - 1) * PAGE_SIZE, page * PAGE_SIZE)
  }

  function Min(a: int, b: int): int { if a < b then a else b }

  /** Page p >= 1 is the contiguous run starting at (p - 1) * 10, at most ten long; past the
      end it is empty. */
  lemma PageIsContiguous<T>(s: seq<T>, page: int)
    requires page >= 1
    ensures |PageOf(s, page)| <= PAGE_SIZE
    ensures (page - 1) * PAGE_SIZE < |s| ==>
              PageOf(s, page) == s[(page - 1) * PAGE_SIZE .. Min(page * PAGE_SIZE, |s|)]
    ensures (page - 1) * PAGE_SIZE >= |s| ==> PageOf(s, page) == []
  {
  }

  /** Pages 1..n, one after the other. */
  function Pages<T>(s: seq<T>, n: nat): seq<T> {
    if n == 0 then [] else Pages(s, n - 1) + PageOf(s, n)
  }

  lemma {:induction false} PagesPrefix<T>(s: seq<T>, n: nat)
    ensures Pages(s, n) == s[..Min(n * PAGE_SIZE, |s|)]
  {
    if n > 0 {
      PagesPrefix(s, n - 1);
      PageIsContiguous(s, n);
      var lo := Min((n - 1) * PAGE_SIZE, |s|);
      if (n - 1) * PAGE_SIZE < |s| {
        assert s[..lo] + s[lo..Min(n * PAGE_SIZE, |s|)] == s[..Min(n * PAGE_SIZE, |s|)];
      }
    }
  }

  /** Reading all pages in order gives back the filtered list. */
  lemma AllPagesGiveList<T>(s: seq<T>)
    ensures Pages(s, TotalPages(|s|)) == s
  {
    PagesPrefix(s, TotalPages(|s|));
  }

  /** Previous: `Math.max(1, p - 1)`. */
  function PrevPage(page: int): (r: int)
    ensures r >= 1
    ensures page > 1 ==> r == page - 1
  {
    if page - 1 > 1 then page - 1 else 1
  }

  /** Next: `Math.min(totalPages, p + 1)`. */
  function NextPage(page: int, totalPages: int): (r: int)
    ensures r <= totalPages
    ensures page < totalPages ==> r == page + 1
  {
    if page + 1 < totalPages then page + 1 else totalPages
  }

  /** From any page in [1, totalPages], previous and next stay in [1, totalPages]. */
  lemma PageMovesStayInRange(page: int, totalPages: int)
    requires 1 <= page <= totalPages
    ensures 1 <= PrevPage(page) <= totalPages
    ensures 1 <= NextPage(page, totalPages) <= totalPages
  {
  }

  // ---------------------------------------------------------------------------
  // Selection

  /** The selection after `toggleEntry(id)`. */
  function Toggled(selected: set<string>, id: string): (r: set<string>)
    ensures id in r <==> id !in selected
    ensures forall x :: x != id ==> (x in r <==> x in selected)
  {
    if id in selected then selected - {id} else selected + {id}
  }

  /** Toggling the same id twice restores the selection. */
  lemma ToggleTwice(selected: set<string>, id: string)
    ensures Toggled(Toggled(selected, id), id) == selected
  {
  }

  function PageIds(page: seq<Entry>): set<string> {
    set e | e in page :: e.id
  }

  /** The selection after `toggleAll`: cleared when its size equals the page length (even if
      the ids differ), otherwise exactly the page's ids. */
  function ToggledAll(selected: set<string>, page: seq<Entry>): (r: set<string>)
    ensures r == {} || r == PageIds(page)
    ensures |selected| == |page| ==> r == {}
    ensures |selected| != |page| ==> forall x :: x in r <==> exists e :: e in page && e.id == x
  {
    if |selected| == |page| then {} else PageIds(page)
  }

  /** The view state the page keeps: the selected ids and the current page number. */
  class EntriesView {
    var selected: set<string>
    var page: int

    constructor ()
      ensures selected == {} && page == 1
    {
      selected, page := {}, 1;
    }

    method ToggleEntry(id: string)
      modifies this
      ensures selected == Toggled(old(selected), id)
      ensures page == old(page)
    {
      if id in selected {
        selected := selected - {id};
      } else {
        selected := selected + {id};
      }
    }

    method ToggleAll(paginated: seq<Entry>)
      modifies this
      ensures selected == ToggledAll(old(selected), paginated)
      ensures page == old(page)
    {
      if |selected| == |paginated| {
        selected := {};
      } else {
        selected := PageIds(paginated);
      }
    }

    method GoPrevious()
      modifies this
      ensures page == PrevPage(old(page))
      ensures selected == old(selected)
    {
      page := if 1 > page - 1 then 1 else page - 1;
    }

    method GoNext(totalPages: int)
      modifies this
      ensures page == NextPage(old(page), totalPages)
      ensures selected == old(selected)
    {
      page := if totalPages < page + 1 then totalPages else page + 1;
    }

    /** `handleCreateBulkTransfer`: nothing on an empty selection, otherwise the selected ids
        as a list (`Array.from`), each exactly once. */
    method BulkTransferIds() returns (ids: Option<seq<string>>)
      ensures ids.None? <==> selected == {}
      ensures ids.Some? ==> forall x :: x in ids.value <==> x in selected
      ensures ids.Some? ==> |ids.value| == |selected|
      ensures ids.Some? ==> forall i, j :: 0 <= i < j < |ids.value| ==> ids.value[i] != ids.value[j]
    {
      if |selected| == 0 {
        return None;
      }
      var rest := selected;
      var out: seq<string> := [];
      while rest != {}
        invariant rest <= selected
        invariant forall x :: x in out <==> x in selected && x !in rest
        invariant |out| + |rest| == |selected|
        invariant forall i, j :: 0 <= i < j < |out| ==> out[i] != out[j]
        decreases rest
      {
        var x :| x in rest;
        out := out + [x];
        rest := rest - {x};
      }
      ids := Some(out);
    }
  }
}
