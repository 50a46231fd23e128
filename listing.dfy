/** The listing query: the caller's tasks, optionally restricted to one
    completion flag, ordered by ascending id and cut into pages. */
module Listing {
  import opened Common
  import opened Models

  // ---------------------------------------------------------------------------
  // The `done` query parameter

  /** Lower-cases ASCII letters and keeps every other character. For the
      comparison below this agrees with Python's `str.lower`: no non-ASCII
      character lowers to a letter of "true" or "false", or to a digit. */
  function LowerChar(c: char): char {
    if 'A' <= c <= 'Z' then (c as int + 32) as char else c
  }

  function Lower(s: string): string {
    seq(|s|, i requires 0 <= i < |s| => LowerChar(s[i]))
  }

  /** `done` keeps only done tasks when it reads "true" or "1" in any case,
      only undone ones when it reads "false" or "0", and filters nothing when
      it is absent or reads anything else. */
  function DoneFilter(arg: Option<string>): Option<bool> {
    match arg
    case None => None
    case Some(s) =>
      var l := Lower(s);
      if l == "true" || l == "1" then Some(true)
      else if l == "false" || l == "0" then Some(false)
      else None
  }

  function UpperChar(c: char): char {
    if 'a' <= c <= 'z' then (c as int - 32) as char else c
  }

  /** s spells `word` (a lower-case word) with each letter in either case. */
  predicate SpellsIgnoringCase(s: string, word: string) {
    |s| == |word| && forall i :: 0 <= i < |s| ==> s[i] == word[i] || s[i] == UpperChar(word[i])
  }

  lemma {:induction false} LowerIsWord(s: string, word: string)
    requires word in {"true", "false"}
    ensures Lower(s) == word <==> SpellsIgnoringCase(s, word)
  {
    if SpellsIgnoringCase(s, word) {
      assert forall i :: 0 <= i < |s| ==> Lower(s)[i] == word[i];
    }
    if Lower(s) == word {
      assert forall i :: 0 <= i < |s| ==> LowerChar(s[i]) == word[i];
    }
  }

  lemma {:induction false} LowerIsDigit(s: string, digit: string)
    requires digit in {"0", "1"}
    ensures Lower(s) == digit <==> s == digit
  {
    if Lower(s) == digit {
      assert LowerChar(s[0]) == digit[0];
    }
  }

  /** The filter read from `done`, stated without lower-casing: "true" in
      any mix of cases or "1" selects done tasks, "false" in any mix of
      cases or "0" selects undone ones, anything else selects all. */
  lemma {:induction false} DoneFilterMeaning(s: string)
    ensures DoneFilter(Some(s)) == Some(true) <==> SpellsIgnoringCase(s, "true") || s == "1"
    ensures DoneFilter(Some(s)) == Some(false) <==> SpellsIgnoringCase(s, "false") || s == "0"
    ensures DoneFilter(Some(s)) == None <==>
      !SpellsIgnoringCase(s, "true") && s != "1" && !SpellsIgnoringCase(s, "false") && s != "0"
  {
    LowerIsWord(s, "true");
    LowerIsWord(s, "false");
    LowerIsDigit(s, "1");
    LowerIsDigit(s, "0");
  }

  // ---------------------------------------------------------------------------
  // Owner scoping, filtering and ordering

  predicate Matches(t: Task, owner: int, done: Option<bool>) {
    t.userId == owner && (done.None? || t.done == done.value)
  }

  /** The rows with a key below `bound` that the owner and filter select, in
      ascending key order. */
  function Select(tasks: map<int, Task>, owner: int, done: Option<bool>, bound: nat): seq<Task> {
    if bound == 0 then []
    else
      var rest := Select(tasks, owner, done, bound - 1);
      var k := bound - 1;
      if k in tasks && Matches(tasks[k], owner, done) then rest + [tasks[k]] else rest
  }

  /** Every row is stored under its own id. */
  predicate KeyedById(tasks: map<int, Task>) {
    forall k :: k in tasks ==> tasks[k].id == k
  }

  predicate StrictlyAscending(s: seq<Task>) {
    forall i, j :: 0 <= i < j < |s| ==> s[i].id < s[j].id
  }

  /** The keys of the rows a listing must show. */
  ghost function MatchingKeys(tasks: map<int, Task>, owner: int, done: Option<bool>, bound: nat): set<int> {
    set k | k in tasks && 0 <= k < bound && Matches(tasks[k], owner, done)
  }

  /** Select returns only stored rows that belong to the owner and pass the
      filter, in strictly ascending id order, and it misses none of them. */
  lemma {:induction false} SelectSpec(tasks: map<int, Task>, owner: int, done: Option<bool>, bound: nat)
    requires KeyedById(tasks)
    ensures forall t :: t in Select(tasks, owner, done, bound) ==>
      t.id in tasks && tasks[t.id] == t && 0 <= t.id < bound && Matches(t, owner, done)
    ensures forall k :: k in MatchingKeys(tasks, owner, done, bound) ==> tasks[k] in Select(tasks, owner, done, bound)
    ensures StrictlyAscending(Select(tasks, owner, done, bound))
  {
    if bound > 0 {
      SelectSpec(tasks, owner, done, bound - 1);
    }
  }

  lemma MatchingKeysStep(tasks: map<int, Task>, owner: int, done: Option<bool>, bound: nat)
    requires bound > 0
    ensures MatchingKeys(tasks, owner, done, bound) ==
      MatchingKeys(tasks, owner, done, bound - 1)
      + (if bound - 1 in tasks && Matches(tasks[bound - 1], owner, done) then {bound - 1} else {})
  {
  }

  /** Select holds one row per matching key, so its length counts them. */
  lemma {:induction false} SelectCounts(tasks: map<int, Task>, owner: int, done: Option<bool>, bound: nat)
    ensures |Select(tasks, owner, done, bound)| == |MatchingKeys(tasks, owner, done, bound)|
  {
    if bound > 0 {
      SelectCounts(tasks, owner, done, bound - 1);
      MatchingKeysStep(tasks, owner, done, bound);
      assert bound - 1 !in MatchingKeys(tasks, owner, done, bound - 1);
    } else {
      assert MatchingKeys(tasks, owner, done, bound) == {};
    }
  }

  /** Rows at or above `bound` do not affect Select below it. */
  lemma {:induction false} SelectIgnoresAbove(tasks: map<int, Task>, owner: int, done: Option<bool>, bound: nat, n: int, t: Task)
    requires n >= bound
    ensures Select(tasks[n := t], owner, done, bound) == Select(tasks, owner, done, bound)
  {
    if bound > 0 {
      SelectIgnoresAbove(tasks, owner, done, bound - 1, n, t);
    }
  }

  /** Cache coherence for a create: a row inserted under a fresh id n above
      every key appears at the end of its owner's listing, after exactly the
      rows listed before. */
  lemma NewRowListedLast(tasks: map<int, Task>, owner: int, done: Option<bool>, n: nat, t: Task)
    requires n !in tasks
    ensures Select(tasks[n := t], owner, done, n + 1) ==
      Select(tasks, owner, done, n) + (if Matches(t, owner, done) then [t] else [])
  {
    SelectIgnoresAbove(tasks, owner, done, n, n, t);
  }

  /** Cache coherence for a delete: the listing afterwards holds exactly the
      rows it held before except the deleted one. */
  lemma DeletedRowUnlisted(tasks: map<int, Task>, owner: int, done: Option<bool>, bound: nat, id: int)
    requires KeyedById(tasks)
    ensures forall t :: t in Select(tasks - {id}, owner, done, bound) <==>
      t in Select(tasks, owner, done, bound) && t.id != id
  {
    SelectSpec(tasks, owner, done, bound);
    SelectSpec(tasks - {id}, owner, done, bound);
    assert forall k :: k in MatchingKeys(tasks - {id}, owner, done, bound) <==>
      k in MatchingKeys(tasks, owner, done, bound) && k != id;
  }

  // ---------------------------------------------------------------------------
  // Pages

  /** ceil(total / perPage), as the paginator reports it. */
  function Pages(total: nat, perPage: int): nat
    requires perPage >= 1
  {
    if total == 0 then 0 else (total - 1) / perPage + 1
  }

  lemma PagesIsCeiling(total: nat, perPage: int)
    requires perPage >= 1
    ensures (Pages(total, perPage) - 1) * perPage < total <= Pages(total, perPage) * perPage || total == Pages(total, perPage) == 0
  {
    if total > 0 {
      var q := (total - 1) / perPage;
      assert q * perPage <= total - 1 < (q + 1) * perPage;
    }
  }

  /** Page `page` of `items`: the slice starting at (page - 1) * perPage, at
      most perPage long, empty when it starts past the end. */
  function Paginate(items: seq<Task>, page: int, perPage: int): seq<Task>
    requires page >= 1 && perPage >= 1
  {
    var start := (page - 1) * perPage;
    if start >= |items| then []
    else if start + perPage <= |items| then items[start..start + perPage]
    else items[start..]
  }

  lemma MulMonotone(a: int, b: int, c: int)
    requires a <= b && c >= 0
    ensures a * c <= b * c
  {
  }

  /** The first offset of a page is past the end exactly when the page number
      is past the last page. */
  lemma {:induction false} OffsetPastEnd(n: nat, page: int, perPage: int)
    requires page >= 1 && perPage >= 1
    ensures (page - 1) * perPage >= n <==> page > Pages(n, perPage)
  {
    MulMonotone(0, page - 1, perPage);
    if n > 0 {
      var q := (n - 1) / perPage;
      assert q * perPage <= n - 1 < (q + 1) * perPage;
      if page - 1 <= q {
        MulMonotone(page - 1, q, perPage);
      } else {
        MulMonotone(q + 1, page - 1, perPage);
      }
    }
  }

  /** A page holds at most perPage items, each the item at its offset in the
      whole listing, and it is empty exactly when the page number is past
      the last page. */
  lemma {:induction false} PaginateSpec(items: seq<Task>, page: int, perPage: int)
    requires page >= 1 && perPage >= 1
    ensures |Paginate(items, page, perPage)| <= perPage
    ensures forall i :: 0 <= i < |Paginate(items, page, perPage)| ==>
      0 <= (page - 1) * perPage + i < |items| && Paginate(items, page, perPage)[i] == items[(page - 1) * perPage + i]
    ensures Paginate(items, page, perPage) == [] <==> page > Pages(|items|, perPage)
  {
    OffsetPastEnd(|items|, page, perPage);
  }

  /** Every item appears on page i / perPage + 1, at position i % perPage. */
  lemma {:induction false} ItemOnItsPage(items: seq<Task>, perPage: int, i: int)
    requires perPage >= 1 && 0 <= i < |items|
    ensures i % perPage < |Paginate(items, i / perPage + 1, perPage)|
    ensures Paginate(items, i / perPage + 1, perPage)[i % perPage] == items[i]
  {
    var page := i / perPage + 1;
    assert (page - 1) * perPage + i % perPage == i;
    PaginateSpec(items, page, perPage);
    assert (page - 1) * perPage <= i;
  }

  // ---------------------------------------------------------------------------
  // The listing

  /** The listing body: one page of items plus the paginator's metadata. */
  datatype Page = Page(items: seq<Task>, total: nat, page: int, pages: nat, perPage: int)

  function ListPage(tasks: map<int, Task>, bound: nat, owner: int, done: Option<bool>, page: int, perPage: int): Page
    requires page >= 1 && perPage >= 1
  {
    var all := Select(tasks, owner, done, bound);
    Page(Paginate(all, page, perPage), |all|, page, Pages(|all|, perPage), perPage)
  }

  /** A listing shows only the owner's rows that pass the filter, in strictly
      ascending id order, at most perPage of them; `total` counts every such
      row whatever the page; a page past the last is empty with the same
      total. */
  lemma {:induction false} ListPageSpec(tasks: map<int, Task>, bound: nat, owner: int, done: Option<bool>, page: int, perPage: int)
    requires KeyedById(tasks) && page >= 1 && perPage >= 1
    ensures forall t :: t in ListPage(tasks, bound, owner, done, page, perPage).items ==>
      t.id in tasks && tasks[t.id] == t && t.userId == owner && (done.Some? ==> t.done == done.value)
    ensures StrictlyAscending(ListPage(tasks, bound, owner, done, page, perPage).items)
    ensures |ListPage(tasks, bound, owner, done, page, perPage).items| <= perPage
    ensures ListPage(tasks, bound, owner, done, page, perPage).total == |MatchingKeys(tasks, owner, done, bound)|
    ensures ListPage(tasks, bound, owner, done, page, perPage).pages == Pages(|MatchingKeys(tasks, owner, done, bound)|, perPage)
    ensures page > ListPage(tasks, bound, owner, done, page, perPage).pages ==>
      ListPage(tasks, bound, owner, done, page, perPage).items == []
  {
    var all := Select(tasks, owner, done, bound);
    SelectSpec(tasks, owner, done, bound);
    SelectCounts(tasks, owner, done, bound);
    PaginateSpec(all, page, perPage);
    PageIsSublisting(all, page, perPage);
  }

  /** A page draws its items from the listing and keeps its order. */
  lemma {:induction false} PageIsSublisting(all: seq<Task>, page: int, perPage: int)
    requires page >= 1 && perPage >= 1
    ensures forall t :: t in Paginate(all, page, perPage) ==> t in all
    ensures StrictlyAscending(all) ==> StrictlyAscending(Paginate(all, page, perPage))
  {
    PaginateSpec(all, page, perPage);
    var items := Paginate(all, page, perPage);
    var start := (page - 1) * perPage;
    forall t | t in items ensures t in all {
      var i :| 0 <= i < |items| && items[i] == t;
      assert items[i] == all[start + i];
    }
    if StrictlyAscending(all) {
      forall i, j | 0 <= i < j < |items| ensures items[i].id < items[j].id {
        assert items[i] == all[start + i];
        assert items[j] == all[start + j];
      }
    }
  }
}
