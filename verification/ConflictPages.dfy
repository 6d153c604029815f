/** Keyset pagination of the conflict list (app/console/queries.py:610-637, 818-861, 897-902). */
module ConflictPages {
  import opened Common

  datatype Conflict = Conflict(updatedAt: int, id: string, source: string)

  datatype Key = Key(updatedAt: int, id: string)

  /** The cursor argument: none, a text that does not decode, or the sort key it decodes to. */
  datatype Cursor = First | Malformed | After(key: Key)

  datatype Page = Page(items: seq<Conflict>, next: Option<Key>)

  datatype Reply = Ok(page: Page) | InvalidCursor | InvalidLimit

  const MAX_PAGE_SIZE: nat := 100

  // ---------- the sort order ----------

  /** Python's order on strings. */
  predicate TextLess(a: string, b: string) {
    b != "" && (a == "" || a[0] < b[0] || (a[0] == b[0] && TextLess(a[1..], b[1..])))
  }

  lemma {:induction false} TextTotal(a: string, b: string)
    ensures a == b || TextLess(a, b) || TextLess(b, a)
    ensures !(TextLess(a, b) && TextLess(b, a)) && !TextLess(a, a)
  {
    if a != "" { TextTotal(a[1..], a[1..]); }
    if a != "" && b != "" {
      TextTotal(a[1..], b[1..]);
      assert a == [a[0]] + a[1..] && b == [b[0]] + b[1..];
    }
  }

  lemma {:induction false} TextTransitive(a: string, b: string, c: string)
    requires TextLess(a, b) && TextLess(b, c)
    ensures TextLess(a, c)
  {
    if a != "" && a[0] == b[0] == c[0] {
      TextTransitive(a[1..], b[1..], c[1..]);
    }
  }

  function KeyOf(c: Conflict): Key {
    Key(c.updatedAt, c.id)
  }

  predicate Less(a: Key, b: Key) {
    a.updatedAt < b.updatedAt || (a.updatedAt == b.updatedAt && TextLess(a.id, b.id))
  }

  lemma Total(a: Key, b: Key)
    ensures a == b || Less(a, b) || Less(b, a)
    ensures !(Less(a, b) && Less(b, a)) && !Less(a, a)
  {
    TextTotal(a.id, b.id);
  }

  lemma Transitive(a: Key, b: Key, c: Key)
    requires Less(a, b) && Less(b, c)
    ensures Less(a, c)
  {
    if a.updatedAt == b.updatedAt == c.updatedAt {
      TextTransitive(a.id, b.id, c.id);
    }
  }

  // ---------- one page ----------

  predicate IsAbove(items: seq<Conflict>, i: nat, j: nat) {
    i < |items| && j < |items| && Less(KeyOf(items[j]), KeyOf(items[i]))
  }

  ghost predicate Descending(items: seq<Conflict>) {
    forall i: nat, j: nat :: i < j < |items| ==> IsAbove(items, i, j)
  }

  lemma DescendingLess(items: seq<Conflict>)
    requires Descending(items)
    ensures forall i, j :: 0 <= i < j < |items| ==> Less(KeyOf(items[j]), KeyOf(items[i]))
  {
    forall i: nat, j: nat | i < j < |items|
      ensures Less(KeyOf(items[j]), KeyOf(items[i]))
    {
      assert IsAbove(items, i, j);
    }
  }

  lemma LessDescends(items: seq<Conflict>)
    requires forall i, j :: 0 <= i < j < |items| ==> Less(KeyOf(items[j]), KeyOf(items[i]))
    ensures Descending(items)
  {
  }

  /** Distinct conflicts have distinct (updated_at, conflict_id) keys, and none is listed twice. */
  ghost predicate UniqueKeys(conflicts: seq<Conflict>) {
    forall i, j :: 0 <= i < j < |conflicts| ==> KeyOf(conflicts[i]) != KeyOf(conflicts[j])
  }

  predicate IsBelow(c: Conflict, cursor: Option<Key>) {
    cursor.None? || Less(KeyOf(c), cursor.value)
  }

  /** The conflicts a request asks about. */
  predicate IsWanted(c: Conflict, source: Option<string>, cursor: Option<Key>) {
    (source.None? || c.source == source.value) && IsBelow(c, cursor)
  }

  function Bounded(limit: int): (b: nat)
    requires limit >= 1
    ensures 1 <= b <= 100 && b <= limit && (b == limit || b == 100)
  {
    if limit <= MAX_PAGE_SIZE then limit else MAX_PAGE_SIZE
  }

  /** Everything wanted below the page: absent from it although in the snapshot. */
  ghost predicate IsLeftOver(
    c: Conflict, snapshot: seq<Conflict>, source: Option<string>, cursor: Option<Key>, items: seq<Conflict>) {
    c in snapshot && IsWanted(c, source, cursor) && c !in items
  }

  /**
    What a page promises: wanted conflicts in strictly descending order, at most the bounded limit, cut only when
    full and only at the low end, with a next cursor exactly when something wanted is left over.
  */
  ghost predicate IsPage(
    snapshot: seq<Conflict>, source: Option<string>, cursor: Option<Key>, limit: int, page: Page)
    requires limit >= 1
  {
    && Descending(page.items) && |page.items| <= Bounded(limit)
    && (forall c :: c in page.items ==> c in snapshot && IsWanted(c, source, cursor))
    && (forall c :: IsLeftOver(c, snapshot, source, cursor, page.items) ==>
          |page.items| == Bounded(limit) && Less(KeyOf(c), KeyOf(page.items[|page.items| - 1])))
    && (page.next.Some? <==> exists c :: IsLeftOver(c, snapshot, source, cursor, page.items))
    && (page.next.Some? ==> page.items != [] && page.next.value == KeyOf(page.items[|page.items| - 1]))
  }

  function Filtered(conflicts: seq<Conflict>, keep: Conflict -> bool): (r: seq<Conflict>)
    ensures forall c :: c in r <==> c in conflicts && keep(c)
    ensures |r| <= |conflicts|
  {
    if conflicts == [] then []
    else
      var rest := Filtered(conflicts[1..], keep);
      assert conflicts == [conflicts[0]] + conflicts[1..];
      if keep(conflicts[0]) then [conflicts[0]] + rest else rest
  }

  lemma {:induction false} FilteredKeepsDistinct(conflicts: seq<Conflict>, keep: Conflict -> bool)
    requires UniqueKeys(conflicts)
    ensures UniqueKeys(Filtered(conflicts, keep))
  {
    if conflicts != [] {
      FilteredKeepsDistinct(conflicts[1..], keep);
      var rest := Filtered(conflicts[1..], keep);
      forall j | 0 <= j < |rest|
        ensures KeyOf(conflicts[0]) != KeyOf(rest[j])
      {
        assert rest[j] in conflicts[1..];
      }
    }
  }

  lemma {:induction false} FilteredKeepsOrder(conflicts: seq<Conflict>, keep: Conflict -> bool)
    requires Descending(conflicts)
    ensures Descending(Filtered(conflicts, keep))
  {
    if conflicts != [] {
      DescendingLess(conflicts);
      LessDescends(conflicts[1..]);
      FilteredKeepsOrder(conflicts[1..], keep);
      DescendingLess(Filtered(conflicts[1..], keep));
      var rest := Filtered(conflicts[1..], keep);
      forall j | 0 <= j < |rest|
        ensures Less(KeyOf(rest[j]), KeyOf(conflicts[0]))
      {
        assert rest[j] in conflicts[1..];
      }
      LessDescends(Filtered(conflicts, keep));
    }
  }

  /** Insertion into a descending list, behind equal keys: the step of a stable descending sort. */
  function Inserted(sorted: seq<Conflict>, c: Conflict): (r: seq<Conflict>)
    ensures multiset(r) == multiset(sorted) + multiset{c}
  {
    if sorted == [] then [c]
    else if Less(KeyOf(sorted[0]), KeyOf(c)) then [c] + sorted
    else
      assert sorted == [sorted[0]] + sorted[1..];
      [sorted[0]] + Inserted(sorted[1..], c)
  }

  lemma {:induction false} InsertedKeepsOrder(sorted: seq<Conflict>, c: Conflict)
    requires Descending(sorted) && forall i :: 0 <= i < |sorted| ==> KeyOf(sorted[i]) != KeyOf(c)
    ensures Descending(Inserted(sorted, c))
  {
    DescendingLess(sorted);
    if sorted != [] {
      if Less(KeyOf(sorted[0]), KeyOf(c)) {
        forall i | 0 <= i < |sorted|
          ensures Less(KeyOf(sorted[i]), KeyOf(c))
        {
          if 0 < i { Transitive(KeyOf(sorted[i]), KeyOf(sorted[0]), KeyOf(c)); }
        }
        LessDescends([c] + sorted);
      } else {
        LessDescends(sorted[1..]);
        InsertedKeepsOrder(sorted[1..], c);
        DescendingLess(Inserted(sorted[1..], c));
        Total(KeyOf(sorted[0]), KeyOf(c));
        var rest := Inserted(sorted[1..], c);
        forall j | 0 <= j < |rest|
          ensures Less(KeyOf(rest[j]), KeyOf(sorted[0]))
        {
          assert rest[j] in multiset(rest);
          assert rest[j] == c || rest[j] in sorted[1..];
        }
        LessDescends([sorted[0]] + rest);
      }
    }
  }

  /** `list.sort(reverse=True)` on the key. */
  function Sorted(conflicts: seq<Conflict>): (r: seq<Conflict>)
    ensures multiset(r) == multiset(conflicts)
  {
    if conflicts == [] then []
    else
      assert conflicts == conflicts[..|conflicts| - 1] + [conflicts[|conflicts| - 1]];
      Inserted(Sorted(conflicts[..|conflicts| - 1]), conflicts[|conflicts| - 1])
  }

  lemma SameElements(a: seq<Conflict>, b: seq<Conflict>)
    requires multiset(a) == multiset(b)
    ensures |a| == |b| && forall c :: c in a <==> c in b
  {
    assert |a| == |multiset(a)| && |b| == |multiset(b)|;
    assert forall c :: c in a <==> c in multiset(a);
    assert forall c :: c in b <==> c in multiset(b);
  }

  lemma {:induction false} SortedIsDescending(conflicts: seq<Conflict>)
    requires UniqueKeys(conflicts)
    ensures Descending(Sorted(conflicts))
  {
    if conflicts != [] {
      var front, last := conflicts[..|conflicts| - 1], conflicts[|conflicts| - 1];
      SortedIsDescending(front);
      SameElements(Sorted(front), front);
      forall i | 0 <= i < |Sorted(front)|
        ensures KeyOf(Sorted(front)[i]) != KeyOf(last)
      {
        assert Sorted(front)[i] in front;
      }
      InsertedKeepsOrder(Sorted(front), last);
    }
  }

  /** The conflicts of one source. */
  function OfSource(conflicts: seq<Conflict>, source: string): (r: seq<Conflict>)
    ensures forall c :: c in r <==> c in conflicts && c.source == source
  {
    Filtered(conflicts, (c: Conflict) => c.source == source)
  }

  /** What is left of a list behind a cursor. */
  function Continued(all: seq<Conflict>, cursor: Key): (r: seq<Conflict>)
    ensures forall c :: c in r <==> c in all && IsBelow(c, Some(cursor))
  {
    Filtered(all, (c: Conflict) => IsBelow(c, Some(cursor)))
  }

  /** The conflicts a reader asks about, newest first. */
  method SortedBySource(snapshot: seq<Conflict>, source: Option<string>) returns (conflicts: seq<Conflict>)
    requires UniqueKeys(snapshot)
    ensures Descending(conflicts)
    ensures forall c :: c in conflicts <==> c in snapshot && IsWanted(c, source, None)
  {
    conflicts := snapshot;
    if source.Some? {
      FilteredKeepsDistinct(conflicts, (c: Conflict) => c.source == source.value);
      conflicts := OfSource(conflicts, source.value);
    }
    SortedIsDescending(conflicts);
    SameElements(Sorted(conflicts), conflicts);
    conflicts := Sorted(conflicts);
  }

  /** The tail of `list_conflicts`: filter by source, sort, continue behind the cursor, cut. */
  method ListConflicts(snapshot: seq<Conflict>, source: Option<string>, cursor: Cursor, limit: int)
    returns (reply: Reply)
    requires UniqueKeys(snapshot)
    ensures reply.InvalidCursor? <==> cursor.Malformed?
    ensures reply.InvalidLimit? <==> !cursor.Malformed? && limit < 1
    ensures reply.Ok? ==> IsPage(snapshot, source, if cursor.After? then Some(cursor.key) else None, limit, reply.page)
  {
    var conflicts := SortedBySource(snapshot, source);
    if cursor.Malformed? {
      return InvalidCursor;
    }
    if cursor.After? {
      FilteredKeepsOrder(conflicts, (c: Conflict) => IsBelow(c, Some(cursor.key)));
      conflicts := Continued(conflicts, cursor.key);
    }
    if limit < 1 {
      return InvalidLimit;
    }
    var boundedLimit := Bounded(limit);
    var pageItems := if boundedLimit < |conflicts| then conflicts[..boundedLimit] else conflicts;
    var nextCursor :=
      if |conflicts| > boundedLimit && pageItems != [] then Some(KeyOf(pageItems[|pageItems| - 1])) else None;
    CutIsPage(snapshot, source, if cursor.After? then Some(cursor.key) else None, limit, conflicts);
    reply := Ok(Page(pageItems, nextCursor));
  }

  function Cut(conflicts: seq<Conflict>, limit: int): Page
    requires limit >= 1
  {
    if Bounded(limit) < |conflicts|
    then Page(conflicts[..Bounded(limit)], Some(KeyOf(conflicts[Bounded(limit) - 1])))
    else Page(conflicts, None)
  }

  /** Cutting the descending list of everything wanted gives a page. */
  lemma CutIsPage(
    snapshot: seq<Conflict>, source: Option<string>, cursor: Option<Key>, limit: int, wanted: seq<Conflict>)
    requires limit >= 1 && Descending(wanted)
    requires forall c :: c in wanted <==> c in snapshot && IsWanted(c, source, cursor)
    ensures IsPage(snapshot, source, cursor, limit, Cut(wanted, limit))
  {
    DescendingLess(wanted);
    LessDescends(Cut(wanted, limit).items);
    var page := Cut(wanted, limit);
    forall c | IsLeftOver(c, snapshot, source, cursor, page.items)
      ensures |page.items| == Bounded(limit) && Less(KeyOf(c), KeyOf(page.items[|page.items| - 1]))
    {
      var k :| 0 <= k < |wanted| && wanted[k] == c;
      assert forall i :: 0 <= i < |page.items| ==> page.items[i] == wanted[i];
    }
    if page.next.Some? {
      var c := wanted[Bounded(limit)];
      assert forall i :: 0 <= i < Bounded(limit) ==> Less(KeyOf(c), KeyOf(wanted[i]));
      Total(KeyOf(c), KeyOf(c));
      assert IsLeftOver(c, snapshot, source, cursor, page.items);
    }
  }

  /** A page is determined by its request: two descriptions of the same request list the same items. */
  lemma PageIsCut(
    snapshot: seq<Conflict>, source: Option<string>, cursor: Option<Key>, limit: int, page: Page, wanted: seq<Conflict>)
    requires limit >= 1 && Descending(wanted) && IsPage(snapshot, source, cursor, limit, page)
    requires forall c :: c in wanted <==> c in snapshot && IsWanted(c, source, cursor)
    ensures page == Cut(wanted, limit)
  {
    DescendingLess(wanted);
    var items := page.items;
    SubsetByPrefix(items, wanted);
    if |items| < |wanted| {
      var c := wanted[|items|];
      forall i | 0 <= i < |items|
        ensures items[i] != c
      {
        Total(KeyOf(c), KeyOf(c));
        assert Less(KeyOf(c), KeyOf(wanted[i]));
      }
      assert IsLeftOver(c, snapshot, source, cursor, items);
    } else {
      assert items == wanted;
    }
  }

  /** Descending items that skip nothing above the last of them are the top of the wanted list. */
  lemma {:induction false} SubsetByPrefix(items: seq<Conflict>, wanted: seq<Conflict>)
    requires Descending(items) && Descending(wanted)
    requires forall c :: c in items ==> c in wanted
    requires forall c :: c in wanted && c !in items && items != [] ==> Less(KeyOf(c), KeyOf(items[|items| - 1]))
    ensures |items| <= |wanted| && items == wanted[..|items|]
  {
    DescendingLess(items);
    if items != [] { LessDescends(items[..|items| - 1]); }
    if items != [] {
      var front, last := items[..|items| - 1], items[|items| - 1];
      forall c | c in wanted && c !in front && front != []
        ensures Less(KeyOf(c), KeyOf(front[|front| - 1]))
      {
        if c != last {
          Transitive(KeyOf(c), KeyOf(last), KeyOf(front[|front| - 1]));
        }
      }
      SubsetByPrefix(front, wanted);
      NextInPrefix(items, wanted);
    }
  }

  lemma NextInPrefix(items: seq<Conflict>, wanted: seq<Conflict>)
    requires items != [] && Descending(items) && Descending(wanted) && |items| - 1 <= |wanted|
    requires items[..|items| - 1] == wanted[..|items| - 1] && items[|items| - 1] in wanted
    requires forall c :: c in wanted && c !in items ==> Less(KeyOf(c), KeyOf(items[|items| - 1]))
    ensures |items| <= |wanted| && wanted[|items| - 1] == items[|items| - 1]
  {
    var n, last := |items| - 1, items[|items| - 1];
    DescendingIsDistinct(items);
    DescendingIsDistinct(wanted);
    assert forall i :: 0 <= i < n ==> items[i] == items[..n][i] == wanted[..n][i] == wanted[i];
    var k :| 0 <= k < |wanted| && wanted[k] == last;
    assert n <= k;
    Total(KeyOf(wanted[n]), KeyOf(last));
    assert forall i :: 0 <= i < n ==> items[i] != wanted[n];
  }

  lemma DescendingIsDistinct(items: seq<Conflict>)
    requires Descending(items)
    ensures UniqueKeys(items)
    ensures forall i, j :: 0 <= i <= j < |items| ==> !Less(KeyOf(items[i]), KeyOf(items[j]))
  {
    DescendingLess(items);
    forall i, j | 0 <= i <= j < |items|
      ensures i == j || KeyOf(items[i]) != KeyOf(items[j])
      ensures !Less(KeyOf(items[i]), KeyOf(items[j]))
    {
      Total(KeyOf(items[i]), KeyOf(items[j]));
    }
  }

  // ---------- a traversal under changing data ----------

  /** The requests of one reader: each continues at the next cursor of the page before, on whatever the data is then. */
  ghost predicate IsTraversal(snapshots: seq<seq<Conflict>>, source: Option<string>, limit: int, pages: seq<Page>)
    requires limit >= 1
  {
    && |pages| == |snapshots| && |pages| > 0
    && (forall i :: 0 <= i < |pages| ==> UniqueKeys(snapshots[i]))
    && (forall i :: 0 <= i < |pages| ==> IsPageAt(snapshots[i], source, limit, pages, i))
    && (forall i :: 0 <= i < |pages| - 1 ==> pages[i].next.Some?)
  }

  /** The i-th page answers the request that continues where the page before stopped. */
  ghost predicate IsPageAt(snapshot: seq<Conflict>, source: Option<string>, limit: int, pages: seq<Page>, i: nat)
    requires limit >= 1 && i < |pages|
  {
    IsPage(snapshot, source, CursorOf(pages, i), limit, pages[i])
  }

  function CursorOf(pages: seq<Page>, i: nat): Option<Key>
    requires i <= |pages|
  {
    if i == 0 then None else pages[i - 1].next
  }

  ghost predicate IsComplete(pages: seq<Page>) {
    pages != [] && pages[|pages| - 1].next.None?
  }

  function AllItems(pages: seq<Page>): seq<Conflict> {
    if pages == [] then [] else AllItems(pages[..|pages| - 1]) + pages[|pages| - 1].items
  }

  lemma PrefixIsTraversal(snapshots: seq<seq<Conflict>>, source: Option<string>, limit: int, pages: seq<Page>)
    requires limit >= 1 && IsTraversal(snapshots, source, limit, pages) && |pages| > 1
    ensures IsTraversal(snapshots[..|pages| - 1], source, limit, pages[..|pages| - 1])
  {
    var front := pages[..|pages| - 1];
    forall i | 0 <= i < |front|
      ensures IsPageAt(snapshots[i], source, limit, front, i)
    {
      assert IsPageAt(snapshots[i], source, limit, pages, i);
      assert CursorOf(front, i) == CursorOf(pages, i);
    }
  }

  lemma ConcatDescends(before: seq<Conflict>, after: seq<Conflict>)
    requires Descending(before) && Descending(after) && before != []
    requires forall c :: c in after ==> Less(KeyOf(c), KeyOf(before[|before| - 1]))
    ensures Descending(before + after)
  {
    DescendingLess(before);
    DescendingLess(after);
    forall i, j | 0 <= i < |before| && 0 <= j < |after|
      ensures Less(KeyOf(after[j]), KeyOf(before[i]))
    {
      assert after[j] in after;
      if i < |before| - 1 {
        Transitive(KeyOf(after[j]), KeyOf(before[|before| - 1]), KeyOf(before[i]));
      }
    }
    LessDescends(before + after);
  }

  /** What the i-th page of a traversal says about its items, its next cursor and the cursor before it. */
  lemma PageFacts(snapshots: seq<seq<Conflict>>, source: Option<string>, limit: int, pages: seq<Page>, i: nat)
    requires limit >= 1 && IsTraversal(snapshots, source, limit, pages) && i < |pages|
    ensures Descending(pages[i].items)
    ensures pages[i].next.Some? ==>
              pages[i].items != [] && pages[i].next.value == KeyOf(pages[i].items[|pages[i].items| - 1])
    ensures i > 0 ==> pages[i - 1].next.Some?
    ensures i > 0 ==> forall c :: c in pages[i].items ==> Less(KeyOf(c), pages[i - 1].next.value)
  {
    assert IsPageAt(snapshots[i], source, limit, pages, i);
    if i > 0 { assert pages[i - 1].next.Some?; }
  }

  /** A traversal lists strictly descending keys, so no conflict is ever shown twice. */
  lemma {:induction false} TraversalDescends(
    snapshots: seq<seq<Conflict>>, source: Option<string>, limit: int, pages: seq<Page>)
    requires limit >= 1 && IsTraversal(snapshots, source, limit, pages)
    ensures Descending(AllItems(pages))
    ensures pages[|pages| - 1].next.Some? ==>
              AllItems(pages) != [] && pages[|pages| - 1].next.value == KeyOf(AllItems(pages)[|AllItems(pages)| - 1])
    decreases |pages|
  {
    var front, last := pages[..|pages| - 1], pages[|pages| - 1];
    PageFacts(snapshots, source, limit, pages, |front|);
    if front == [] {
      assert AllItems(pages) == last.items;
    } else {
      PrefixIsTraversal(snapshots, source, limit, pages);
      TraversalDescends(snapshots[..|front|], source, limit, front);
      ConcatDescends(AllItems(front), last.items);
    }
  }

  /** What was there all along is either listed already or still below the cursor. */
  lemma {:induction false} NothingStableIsSkipped(
    snapshots: seq<seq<Conflict>>, source: Option<string>, limit: int, pages: seq<Page>, c: Conflict)
    requires limit >= 1 && IsTraversal(snapshots, source, limit, pages)
    requires IsWanted(c, source, None) && forall i :: 0 <= i < |snapshots| ==> c in snapshots[i]
    ensures c in AllItems(pages) || (pages[|pages| - 1].next.Some? && Less(KeyOf(c), pages[|pages| - 1].next.value))
    decreases |pages|
  {
    var front, last := pages[..|pages| - 1], pages[|pages| - 1];
    assert IsPageAt(snapshots[|front|], source, limit, pages, |front|);
    if front != [] {
      PrefixIsTraversal(snapshots, source, limit, pages);
      NothingStableIsSkipped(snapshots[..|front|], source, limit, front, c);
    }
    if c !in AllItems(pages) {
      assert IsLeftOver(c, snapshots[|front|], source, CursorOf(pages, |front|), last.items);
    }
  }

  /** A completed traversal shows every conflict that was there all along, exactly once. */
  lemma StableConflictsShownOnce(
    snapshots: seq<seq<Conflict>>, source: Option<string>, limit: int, pages: seq<Page>, c: Conflict)
    requires limit >= 1 && IsTraversal(snapshots, source, limit, pages) && IsComplete(pages)
    requires IsWanted(c, source, None) && forall i :: 0 <= i < |snapshots| ==> c in snapshots[i]
    ensures exists k :: 0 <= k < |AllItems(pages)| && AllItems(pages)[k] == c
    ensures forall j, k :: 0 <= j < k < |AllItems(pages)| ==> KeyOf(AllItems(pages)[j]) != KeyOf(AllItems(pages)[k])
  {
    NothingStableIsSkipped(snapshots, source, limit, pages, c);
    TraversalDescends(snapshots, source, limit, pages);
    DescendingLess(AllItems(pages));
    forall j, k | 0 <= j < k < |AllItems(pages)|
      ensures KeyOf(AllItems(pages)[j]) != KeyOf(AllItems(pages)[k])
    {
      Total(KeyOf(AllItems(pages)[j]), KeyOf(AllItems(pages)[k]));
    }
  }

  // ---------- a traversal of a fixed set ----------

  ghost predicate IsFixed(snapshots: seq<seq<Conflict>>, snapshot: seq<Conflict>) {
    forall i :: 0 <= i < |snapshots| ==> snapshots[i] == snapshot
  }

  /** Everything the reader wants, in order. */
  function WantedList(snapshot: seq<Conflict>, source: Option<string>): seq<Conflict> {
    Sorted(Filtered(snapshot, (c: Conflict) => source.None? || c.source == source.value))
  }

  /** `all` lists what the reader wants of a snapshot, newest first. */
  ghost predicate IsListOf(all: seq<Conflict>, snapshot: seq<Conflict>, source: Option<string>) {
    Descending(all) && forall c :: c in all <==> c in snapshot && IsWanted(c, source, None)
  }

  lemma WantedListIsExact(snapshot: seq<Conflict>, source: Option<string>)
    requires UniqueKeys(snapshot)
    ensures IsListOf(WantedList(snapshot, source), snapshot, source)
  {
    var keep := (c: Conflict) => source.None? || c.source == source.value;
    FilteredKeepsDistinct(snapshot, keep);
    SortedIsDescending(Filtered(snapshot, keep));
    SameElements(Sorted(Filtered(snapshot, keep)), Filtered(snapshot, keep));
  }

  /** The cursor that points behind the first m items of the list. */
  predicate PointsBehind(cursor: Option<Key>, all: seq<Conflict>, m: nat) {
    m <= |all| && (if m == 0 then cursor.None? else cursor == Some(KeyOf(all[m - 1])))
  }

  /** Behind the m-th item, what is wanted is the rest of the list. */
  lemma RestIsWanted(snapshot: seq<Conflict>, source: Option<string>, all: seq<Conflict>, m: nat, cursor: Option<Key>)
    requires IsListOf(all, snapshot, source) && PointsBehind(cursor, all, m)
    ensures Descending(all[m..])
    ensures forall c :: c in all[m..] <==> c in snapshot && IsWanted(c, source, cursor)
  {
    DescendingLess(all);
    LessDescends(all[m..]);
    DescendingIsDistinct(all);
    forall c | c in all && IsBelow(c, cursor)
      ensures c in all[m..]
    {
      var k :| 0 <= k < |all| && all[k] == c;
      assert m <= k;
      assert all[m..][k - m] == c;
    }
    forall c | c in all[m..]
      ensures c in all && IsBelow(c, cursor)
    {
      var k :| 0 <= k < |all[m..]| && all[m..][k] == c;
      assert all[m + k] == c;
    }
  }

  /** Where a traversal of a list stands after `pages` pages. */
  ghost predicate HasListed(all: seq<Conflict>, items: seq<Conflict>, next: Option<Key>, pages: nat, limit: int)
    requires limit >= 1
  {
    if 0 < pages * Bounded(limit) < |all|
    then items == all[..pages * Bounded(limit)] && next == Some(KeyOf(all[pages * Bounded(limit) - 1]))
    else items == all && next.None?
  }

  /** One page of a fixed set: the next `Bounded(limit)` items of the list. */
  lemma OnePageMore(
    snapshot: seq<Conflict>, source: Option<string>, limit: int, all: seq<Conflict>,
    cursor: Option<Key>, page: Page, before: seq<Conflict>, k: nat)
    requires limit >= 1 && IsListOf(all, snapshot, source) && PointsBehind(cursor, all, k * Bounded(limit))
    requires IsPage(snapshot, source, cursor, limit, page) && before == all[..k * Bounded(limit)]
    ensures HasListed(all, before + page.items, page.next, k + 1, limit)
  {
    var m, b := k * Bounded(limit), Bounded(limit);
    assert (k + 1) * b == m + b;
    RestIsWanted(snapshot, source, all, m, cursor);
    PageIsCut(snapshot, source, cursor, limit, page, all[m..]);
    CutExtends(all, m, limit);
  }

  lemma CutExtends(all: seq<Conflict>, m: nat, limit: int)
    requires limit >= 1 && m <= |all|
    ensures var b := Bounded(limit); var page := Cut(all[m..], limit);
            if m + b < |all|
            then all[..m] + page.items == all[..m + b] && page.next == Some(KeyOf(all[m + b - 1]))
            else all[..m] + page.items == all && page.next.None?
  {
  }

  /** The requests of a traversal when the data does not change. */
  ghost predicate IsFixedTraversal(snapshot: seq<Conflict>, source: Option<string>, limit: int, pages: seq<Page>)
    requires limit >= 1
  {
    && (forall k :: 0 <= k < |pages| ==> IsPageAt(snapshot, source, limit, pages, k))
    && forall k :: 0 <= k < |pages| - 1 ==> pages[k].next.Some?
  }

  lemma {:induction false} FixedTraversalSoFar(
    snapshot: seq<Conflict>, source: Option<string>, limit: int, pages: seq<Page>, all: seq<Conflict>, k: nat)
    requires limit >= 1 && IsFixedTraversal(snapshot, source, limit, pages) && IsListOf(all, snapshot, source)
    requires 0 < k <= |pages|
    ensures HasListed(all, AllItems(pages[..k]), pages[k - 1].next, k, limit)
    ensures k > 1 ==> (k - 1) * Bounded(limit) < |all|
  {
    assert IsPageAt(snapshot, source, limit, pages, k - 1);
    assert pages[..k][..k - 1] == pages[..k - 1];
    if k == 1 {
      assert AllItems(pages[..0]) == all[..0];
      assert (k - 1) * Bounded(limit) == 0;
    } else {
      FixedTraversalSoFar(snapshot, source, limit, pages, all, k - 1);
      assert pages[k - 2].next.Some?;
    }
    OnePageMore(
      snapshot, source, limit, all, CursorOf(pages, k - 1), pages[k - 1], AllItems(pages[..k - 1]), k - 1);
  }

  /** ceil(n / b), and one page for an empty list. */
  function PageCount(n: nat, b: nat): nat
    requires b > 0
  {
    if n == 0 then 1 else (n + b - 1) / b
  }

  /** On a fixed set a completed traversal is the sorted list cut into max(1, ceil(n / limit)) pages. */
  lemma FixedSetIsListedOnce(
    snapshots: seq<seq<Conflict>>, source: Option<string>, limit: int, pages: seq<Page>, snapshot: seq<Conflict>)
    requires limit >= 1 && IsTraversal(snapshots, source, limit, pages) && IsFixed(snapshots, snapshot)
    ensures IsComplete(pages) <==> |pages| == PageCount(|WantedList(snapshot, source)|, Bounded(limit))
    ensures |pages| <= PageCount(|WantedList(snapshot, source)|, Bounded(limit))
    ensures IsComplete(pages) ==> AllItems(pages) == WantedList(snapshot, source)
  {
    assert snapshots[0] == snapshot && UniqueKeys(snapshots[0]);
    WantedListIsExact(snapshot, source);
    FixedMeansFixed(snapshots, source, limit, pages, snapshot);
    FixedTraversalOfList(snapshot, source, limit, pages, WantedList(snapshot, source));
  }

  lemma FixedTraversalOfList(
    snapshot: seq<Conflict>, source: Option<string>, limit: int, pages: seq<Page>, all: seq<Conflict>)
    requires limit >= 1 && pages != []
    requires IsFixedTraversal(snapshot, source, limit, pages) && IsListOf(all, snapshot, source)
    ensures IsComplete(pages) <==> |pages| == PageCount(|all|, Bounded(limit))
    ensures |pages| <= PageCount(|all|, Bounded(limit))
    ensures IsComplete(pages) ==> AllItems(pages) == all
  {
    FixedTraversalSoFar(snapshot, source, limit, pages, all, |pages|);
    assert pages[..|pages|] == pages;
    Concluded(all, AllItems(pages), pages[|pages| - 1].next, |pages|, limit);
  }

  lemma Concluded(all: seq<Conflict>, items: seq<Conflict>, next: Option<Key>, k: nat, limit: int)
    requires limit >= 1 && k > 0 && HasListed(all, items, next, k, limit)
    requires k > 1 ==> (k - 1) * Bounded(limit) < |all|
    ensures next.None? <==> k == PageCount(|all|, Bounded(limit))
    ensures k <= PageCount(|all|, Bounded(limit))
    ensures next.None? ==> items == all
  {
    Monotone(1, k, Bounded(limit));
    PageCountIs(k, |all|, Bounded(limit), next.None?);
  }

  lemma FixedMeansFixed(
    snapshots: seq<seq<Conflict>>, source: Option<string>, limit: int, pages: seq<Page>, snapshot: seq<Conflict>)
    requires limit >= 1 && IsTraversal(snapshots, source, limit, pages) && IsFixed(snapshots, snapshot)
    ensures IsFixedTraversal(snapshot, source, limit, pages)
  {
    forall k | 0 <= k < |pages|
      ensures IsPageAt(snapshot, source, limit, pages, k)
    {
      assert snapshots[k] == snapshot;
      assert IsPageAt(snapshots[k], source, limit, pages, k);
    }
  }

  lemma PageCountIs(k: nat, n: nat, b: nat, complete: bool)
    requires k > 0 && b > 0 && (k > 1 ==> (k - 1) * b < n) && (complete <==> n <= k * b)
    ensures complete <==> k == PageCount(n, b)
    ensures k <= PageCount(n, b)
  {
    if n > 0 && complete {
      assert k == 1 ==> (k - 1) * b == 0;
      assert (k - 1) * b == k * b - b;
      QuotientIs(n + b - 1, b, k);
    } else if n > 0 {
      QuotientAtLeast(n + b - 1, b, k + 1);
    }
  }

  lemma QuotientIs(x: nat, b: nat, k: nat)
    requires b > 0 && k * b <= x < k * b + b
    ensures x / b == k
  {
    var q := x / b;
    assert x == q * b + x % b;
    if q < k { Monotone(q + 1, k, b); }
    if k < q { Monotone(k + 1, q, b); }
  }

  lemma QuotientAtLeast(x: nat, b: nat, k: nat)
    requires b > 0 && k * b <= x
    ensures k <= x / b
  {
    var q := x / b;
    assert x == q * b + x % b;
    if q < k { Monotone(q + 1, k, b); }
  }

  lemma Monotone(x: int, y: int, b: nat)
    requires x <= y
    ensures x * b <= y * b
  {
  }

  // ---------- why keys must be unique ----------

  /** A list sorted by key in which keys may repeat. */
  ghost predicate NeverRises(items: seq<Conflict>) {
    forall i, j :: 0 <= i < j < |items| ==> !Less(KeyOf(items[i]), KeyOf(items[j]))
  }

  lemma {:induction false} FilteredAll(items: seq<Conflict>, keep: Conflict -> bool)
    requires forall i :: 0 <= i < |items| ==> keep(items[i])
    ensures Filtered(items, keep) == items
  {
    if items != [] {
      FilteredAll(items[1..], keep);
    }
  }

  lemma {:induction false} FilteredSuffix(items: seq<Conflict>, keep: Conflict -> bool, m: nat)
    requires m <= |items| && forall j :: 0 <= j < |items| ==> (keep(items[j]) <==> m <= j)
    ensures Filtered(items, keep) == items[m..]
  {
    if m == 0 {
      FilteredAll(items, keep);
    } else {
      FilteredSuffix(items[1..], keep, m - 1);
    }
  }

  /** Behind a page that ends at item m - 1, a later item is shown exactly when its key is not that item's key. */
  lemma BelowBoundary(all: seq<Conflict>, m: nat, j: nat)
    requires NeverRises(all) && 0 < m <= |all| && j < |all|
    ensures j < m ==> !IsBelow(all[j], Some(KeyOf(all[m - 1])))
    ensures m <= j ==> (IsBelow(all[j], Some(KeyOf(all[m - 1]))) <==> KeyOf(all[j]) != KeyOf(all[m - 1]))
  {
    Total(KeyOf(all[j]), KeyOf(all[m - 1]));
  }

  /** The item behind the boundary has the boundary's key whenever any later item has it. */
  lemma SharedKeysAreAdjacent(all: seq<Conflict>, m: nat, j: nat)
    requires NeverRises(all) && 0 < m <= j < |all| && KeyOf(all[j]) == KeyOf(all[m - 1])
    ensures KeyOf(all[m]) == KeyOf(all[m - 1])
  {
    Total(KeyOf(all[m]), KeyOf(all[m - 1]));
  }

  lemma ContinuedHas(all: seq<Conflict>, m: nat, j: nat)
    requires NeverRises(all) && 0 < m <= j < |all|
    ensures all[j] in Continued(all, KeyOf(all[m - 1])) <==> KeyOf(all[j]) != KeyOf(all[m - 1])
  {
    BelowBoundary(all, m, j);
  }

  lemma ContinuedIsRest(all: seq<Conflict>, m: nat)
    requires NeverRises(all) && 0 < m <= |all| && (m == |all| || KeyOf(all[m]) != KeyOf(all[m - 1]))
    ensures Continued(all, KeyOf(all[m - 1])) == all[m..]
  {
    var keep := (c: Conflict) => IsBelow(c, Some(KeyOf(all[m - 1])));
    forall j | 0 <= j < |all|
      ensures keep(all[j]) <==> m <= j
    {
      BelowBoundary(all, m, j);
      if m <= j && KeyOf(all[j]) == KeyOf(all[m - 1]) { SharedKeysAreAdjacent(all, m, j); }
    }
    FilteredSuffix(all, keep, m);
  }

  /**
    The next page continues with exactly the rest of the list if and only if the page does not end between two
    conflicts of one key. Otherwise exactly the remaining conflicts of that key are lost.
  */
  lemma BoundaryLosesNothingIff(all: seq<Conflict>, m: nat)
    requires NeverRises(all) && 0 < m <= |all|
    ensures Continued(all, KeyOf(all[m - 1])) == all[m..] <==> m == |all| || KeyOf(all[m]) != KeyOf(all[m - 1])
    ensures forall j :: m <= j < |all| ==>
              (all[j] in Continued(all, KeyOf(all[m - 1])) <==> KeyOf(all[j]) != KeyOf(all[m - 1]))
  {
    forall j | m <= j < |all|
      ensures all[j] in Continued(all, KeyOf(all[m - 1])) <==> KeyOf(all[j]) != KeyOf(all[m - 1])
    {
      ContinuedHas(all, m, j);
    }
    if m == |all| || KeyOf(all[m]) != KeyOf(all[m - 1]) {
      ContinuedIsRest(all, m);
    } else {
      assert all[m] in all[m..];
    }
  }

  /** Two conflicts with one key on a page of one: the second is lost. */
  lemma SharedKeyLosesConflict()
    ensures var a, b := Conflict(5, "c", "x"), Conflict(5, "c", "y");
            var first := Cut(Sorted([a, b]), 1);
            && first.items == [a] && first.next == Some(KeyOf(b))
            && b !in Continued(Sorted([a, b]), first.next.value)
  {
    var a, b := Conflict(5, "c", "x"), Conflict(5, "c", "y");
    Total(KeyOf(a), KeyOf(b));
    assert Sorted([a]) == [a] by { assert [a][..0] == []; }
    assert Sorted([a, b]) == [a, b] by {
      assert [a, b][..1] == [a];
      assert Inserted([a], b) == [a] + Inserted([], b);
    }
    ContinuedHas([a, b], 1, 1);
  }

  // ---------- newest first ----------

  /** The order of strings: at the first difference the smaller character decides, and a proper prefix comes first. */
  predicate DiffersAt(a: string, b: string, n: nat) {
    n <= |a| && n < |b| && a[..n] == b[..n] && (n == |a| || a[n] < b[n])
  }

  lemma {:induction false} TextLessIff(a: string, b: string)
    ensures TextLess(a, b) <==> exists n: nat :: DiffersAt(a, b, n)
  {
    if b != "" && a != "" && a[0] == b[0] {
      TextLessIff(a[1..], b[1..]);
      if n: nat :| DiffersAt(a[1..], b[1..], n) {
        assert a[..n + 1] == [a[0]] + a[1..][..n] && b[..n + 1] == [b[0]] + b[1..][..n];
        assert DiffersAt(a, b, n + 1);
      }
      if n: nat :| DiffersAt(a, b, n) {
        assert n > 0 && a[1..][..n - 1] == a[..n][1..] && b[1..][..n - 1] == b[..n][1..];
        assert DiffersAt(a[1..], b[1..], n - 1);
      }
    } else if TextLess(a, b) {
      assert DiffersAt(a, b, 0);
    } else if n: nat :| DiffersAt(a, b, n) {
      CommonHead(a, b, n);
    }
  }

  lemma CommonHead(a: string, b: string, n: nat)
    requires DiffersAt(a, b, n)
    ensures n > 0 ==> a != "" && b != "" && a[0] == b[0]
  {
    if n > 0 {
      assert a[..n][0] == a[0] && b[..n][0] == b[0];
    }
  }

  /** A page runs from the newest conflict to the oldest, and by falling identifier among those of one time. */
  lemma PagesRunNewestFirst(
    snapshot: seq<Conflict>, source: Option<string>, cursor: Option<Key>, limit: int, page: Page, i: nat, j: nat)
    requires limit >= 1 && IsPage(snapshot, source, cursor, limit, page) && i < j < |page.items|
    ensures page.items[i].updatedAt >= page.items[j].updatedAt
    ensures page.items[i].updatedAt == page.items[j].updatedAt ==> TextLess(page.items[j].id, page.items[i].id)
  {
    assert IsAbove(page.items, i, j);
  }
}
