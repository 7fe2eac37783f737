/** A query over all sources at once (splunklite/service.go, queryAll): each source gives its
    newest rows, the four lists arrive in any order, are put together, sorted and cut. */
module QueryMerge {
  import opened Text
  import Search

  datatype Event = Event(ts: int, id: nat)

  function Times(events: seq<Event>): (r: seq<int>)
    ensures |r| == |events|
  {
    if events == [] then [] else [events[0].ts] + Times(events[1..])
  }

  lemma {:induction false} TimeAt(events: seq<Event>, i: nat)
    requires i < |events|
    ensures Times(events)[i] == events[i].ts
  {
    if i > 0 { TimeAt(events[1..], i - 1); }
  }

  lemma {:induction false} TimesConcat(a: seq<Event>, b: seq<Event>)
    ensures Times(a + b) == Times(a) + Times(b)
    decreases |a|
  {
    if a == [] {
      assert a + b == b;
    } else {
      assert (a + b)[1..] == a[1..] + b;
      TimesConcat(a[1..], b);
    }
  }

  /** Newest first. */
  predicate Desc(s: seq<int>) {
    forall i, j :: 0 <= i < j < |s| ==> s[i] >= s[j]
  }

  function Take(s: seq<int>, n: nat): seq<int> {
    if n <= |s| then s[..n] else s
  }

  // ---------- sorting ----------

  /** Both lists in one, newest first. */
  function Merge(a: seq<int>, b: seq<int>): seq<int>
    decreases |a| + |b|
  {
    if a == [] then b
    else if b == [] then a
    else if a[0] >= b[0] then [a[0]] + Merge(a[1..], b)
    else [b[0]] + Merge(a, b[1..])
  }

  function Sort(s: seq<int>): seq<int> {
    if s == [] then [] else Merge([s[0]], Sort(s[1..]))
  }

  lemma BagInFront<T>(x: T, s: seq<T>)
    ensures multiset([x] + s) == multiset{x} + multiset(s)
  {
  }

  lemma MergeStep(a: seq<int>, b: seq<int>)
    requires a != [] && b != []
    ensures Merge(a, b) == if a[0] >= b[0] then [a[0]] + Merge(a[1..], b) else [b[0]] + Merge(a, b[1..])
  {
  }

  lemma {:induction false} MergeKeepsBag(a: seq<int>, b: seq<int>)
    ensures multiset(Merge(a, b)) == multiset(a) + multiset(b)
    decreases |a| + |b|
  {
    if a != [] && b != [] {
      hide Merge;
      MergeStep(a, b);
      BagOfTail(a);
      BagOfTail(b);
      if a[0] >= b[0] {
        MergeKeepsBag(a[1..], b);
        BagInFront(a[0], Merge(a[1..], b));
      } else {
        MergeKeepsBag(a, b[1..]);
        BagInFront(b[0], Merge(a, b[1..]));
      }
    }
  }

  lemma {:induction false} MergeSorts(a: seq<int>, b: seq<int>)
    requires Desc(a) && Desc(b)
    ensures Desc(Merge(a, b)) && multiset(Merge(a, b)) == multiset(a) + multiset(b)
    decreases |a| + |b|
  {
    MergeKeepsBag(a, b);
    if a != [] && b != [] {
      hide Merge, Desc;
      MergeStep(a, b);
      HeadIsFirst(a);
      HeadIsFirst(b);
      if a[0] >= b[0] {
        MergeSorts(a[1..], b);
        InFront(a[0], Merge(a[1..], b), a[1..], b);
      } else {
        MergeSorts(a, b[1..]);
        InFront(b[0], Merge(a, b[1..]), a, b[1..]);
      }
    }
  }

  lemma HeadIsFirst(s: seq<int>)
    requires Desc(s) && s != []
    ensures Desc(s[1..]) && (forall y <- s :: s[0] >= y) && (forall y <- s[1..] :: s[0] >= y)
  {
  }

  lemma InFront(x: int, s: seq<int>, a: seq<int>, b: seq<int>)
    requires Desc(s) && multiset(s) == multiset(a) + multiset(b)
    requires (forall y <- a :: x >= y) && (forall y <- b :: x >= y)
    ensures Desc([x] + s)
  {
    forall i | 0 <= i < |s| ensures x >= s[i] {
      assert s[i] in multiset(s);
      assert s[i] in multiset(a) + multiset(b);
      assert s[i] in a || s[i] in b;
    }
  }

  lemma {:induction false} SortSorts(s: seq<int>)
    ensures Desc(Sort(s)) && multiset(Sort(s)) == multiset(s)
  {
    if s != [] {
      SortSorts(s[1..]);
      MergeSorts([s[0]], Sort(s[1..]));
      assert s == [s[0]] + s[1..];
    }
  }

  lemma BagOfTail<T>(s: seq<T>)
    requires s != []
    ensures multiset(s[1..]) == multiset(s) - multiset{s[0]}
  {
    assert s == [s[0]] + s[1..];
  }

  lemma BagWithout<T>(s: seq<T>, x: T) returns (j: nat)
    requires x in multiset(s)
    ensures j < |s| && s[j] == x && multiset(s[..j] + s[j + 1..]) == multiset(s) - multiset{x}
  {
    j :| 0 <= j < |s| && s[j] == x;
    assert s == s[..j] + [s[j]] + s[j + 1..];
  }

  lemma BagSize<T>(a: seq<T>, b: seq<T>)
    requires multiset(a) == multiset(b)
    ensures |a| == |b|
  {
    assert |a| == |multiset(a)| && |b| == |multiset(b)|;
  }

  lemma HeadIsNewest(s: seq<int>, x: int)
    requires Desc(s) && x in multiset(s)
    ensures s != [] && s[0] >= x
  {
    var k :| 0 <= k < |s| && s[k] == x;
  }

  lemma TailIsDesc(s: seq<int>)
    requires Desc(s) && s != []
    ensures Desc(s[1..])
  {
  }

  /** There is one way to write down a bag of times, newest first. */
  lemma {:induction false} DescIsUnique(a: seq<int>, b: seq<int>)
    requires Desc(a) && Desc(b) && multiset(a) == multiset(b)
    ensures a == b
    decreases |a|
  {
    hide Desc;
    BagSize(a, b);
    if a != [] {
      SameHead(a, b);
      BagOfTail(a);
      BagOfTail(b);
      TailIsDesc(a);
      TailIsDesc(b);
      DescIsUnique(a[1..], b[1..]);
      assert a == [a[0]] + a[1..] && b == [b[0]] + b[1..];
    }
  }

  lemma SameHead(a: seq<int>, b: seq<int>)
    requires Desc(a) && Desc(b) && multiset(a) == multiset(b) && a != [] && b != []
    ensures a[0] == b[0]
  {
    hide Desc;
    assert a[0] in multiset(a) && b[0] in multiset(b);
    HeadIsNewest(a, b[0]);
    HeadIsNewest(b, a[0]);
  }

  lemma SortIsSort(s: seq<int>, a: seq<int>)
    requires Desc(a) && multiset(a) == multiset(s)
    ensures Sort(s) == a
  {
    SortSorts(s);
    DescIsUnique(Sort(s), a);
  }

  lemma SortOfParts(a: seq<int>, b: seq<int>)
    ensures Sort(a + b) == Merge(Sort(a), Sort(b))
  {
    SortSorts(a);
    SortSorts(b);
    MergeSorts(Sort(a), Sort(b));
    SortIsSort(a + b, Merge(Sort(a), Sort(b)));
  }

  /** The newest k of two lists are among the newest k of each. */
  lemma {:induction false} NewestOfMerge(a: seq<int>, b: seq<int>, k: nat, m: nat, n: nat)
    requires k <= m && k <= n
    ensures Take(Merge(a, b), k) == Take(Merge(Take(a, m), Take(b, n)), k)
    decreases |a| + |b|
  {
    if k == 0 || a == [] || b == [] {
    } else {
      TakeHead(a, m);
      TakeHead(b, n);
      if a[0] >= b[0] {
        NewestOfMerge(a[1..], b, k - 1, m - 1, n);
        TakeMore(a[0], Merge(a[1..], b), k);
        TakeMore(a[0], Merge(Take(a[1..], m - 1), Take(b, n)), k);
      } else {
        NewestOfMerge(a, b[1..], k - 1, m, n - 1);
        TakeMore(b[0], Merge(a, b[1..]), k);
        TakeMore(b[0], Merge(Take(a, m), Take(b[1..], n - 1)), k);
      }
    }
  }

  lemma TakeHead(s: seq<int>, m: nat)
    requires s != [] && m > 0
    ensures Take(s, m) != [] && Take(s, m)[0] == s[0] && Take(s, m)[1..] == Take(s[1..], m - 1)
  {
  }

  lemma TakeMore(x: int, s: seq<int>, k: nat)
    requires k > 0
    ensures Take([x] + s, k) == [x] + Take(s, k - 1)
  {
  }

  // ---------- the query ----------

  function Concat(lists: seq<seq<Event>>): seq<Event> {
    if lists == [] then [] else lists[0] + Concat(lists[1..])
  }

  /** How many rows each source is asked for. */
  function Fetch(offset: nat, limit: nat): nat {
    var fetch := limit + offset;
    if fetch <= 0 then 100 else if fetch > 2000 then 2000 else fetch
  }

  /** What a source returns for ORDER BY ts DESC LIMIT n: some choice of its n newest rows. */
  ghost predicate IsNewest(page: seq<Event>, table: seq<Event>, n: nat) {
    && Desc(Times(page)) && |page| == (if n <= |table| then n else |table|)
    && exists rest: seq<Event> :: NotNewer(rest, page) && multiset(page + rest) == multiset(table)
  }

  predicate NotNewer(rest: seq<Event>, page: seq<Event>) {
    forall i, j :: 0 <= i < |page| && 0 <= j < |rest| ==> page[i].ts >= rest[j].ts
  }

  ghost predicate ArePages(pages: seq<seq<Event>>, tables: seq<seq<Event>>, n: nat) {
    |pages| == |tables| && forall i :: 0 <= i < |pages| ==> IsNewest(pages[i], tables[i], n)
  }

  /** The lists arrive in some order. */
  ghost predicate Arrive(arrivals: seq<seq<Event>>, tables: seq<seq<Event>>, n: nat) {
    exists pages :: ArePages(pages, tables, n) && multiset(pages) == multiset(arrivals)
  }

  /** From position offset, at most limit of them. */
  function Slice(s: seq<int>, offset: nat, limit: nat): seq<int> {
    var start := if offset > |s| then |s| else offset;
    var end := if start + limit > |s| then |s| else start + limit;
    s[start..end]
  }

  lemma {:induction false} TimesOfSameBag(a: seq<Event>, b: seq<Event>)
    requires multiset(a) == multiset(b)
    ensures multiset(Times(a)) == multiset(Times(b))
    decreases |a|
  {
    BagSize(a, b);
    if a != [] {
      assert a[0] in multiset(a);
      var j := BagWithout(b, a[0]);
      BagOfTail(a);
      TimesOfSameBag(a[1..], b[..j] + b[j + 1..]);
      TimesOfTail(a);
      TimesWithout(b, j);
    }
  }

  lemma TimesOfTail(a: seq<Event>)
    requires a != []
    ensures multiset(Times(a)) == multiset(Times(a[1..])) + multiset{a[0].ts}
  {
  }

  lemma AroundIndex<T>(a: seq<T>, j: nat)
    requires j < |a|
    ensures a == a[..j] + ([a[j]] + a[j + 1..])
  {
  }

  lemma TimesAround(before: seq<Event>, e: Event, after: seq<Event>)
    ensures multiset(Times(before + ([e] + after))) == multiset(Times(before + after)) + multiset{e.ts}
  {
    hide Times;
    TimesConcat(before, [e] + after);
    TimesConcat(before, after);
    TimesInFront(e, after);
    BagInMiddle(Times(before), e.ts, Times(after));
  }

  lemma TimesWithout(a: seq<Event>, j: nat)
    requires j < |a|
    ensures multiset(Times(a)) == multiset(Times(a[..j] + a[j + 1..])) + multiset{a[j].ts}
  {
    hide Times;
    AroundIndex(a, j);
    TimesAround(a[..j], a[j], a[j + 1..]);
  }

  lemma BagInMiddle<T>(a: seq<T>, x: T, b: seq<T>)
    ensures multiset(a + ([x] + b)) == multiset(a + b) + multiset{x}
  {
  }

  lemma {:induction false} ConcatWithout(b: seq<seq<Event>>, j: nat)
    requires j < |b|
    ensures multiset(Concat(b)) == multiset(b[j]) + multiset(Concat(b[..j] + b[j + 1..]))
  {
    var rest := b[..j] + b[j + 1..];
    if j == 0 {
      assert rest == b[1..];
    } else {
      ConcatWithout(b[1..], j - 1);
      assert rest[1..] == b[1..][..j - 1] + b[1..][j..];
    }
  }

  lemma {:induction false} ConcatOfSameBag(a: seq<seq<Event>>, b: seq<seq<Event>>)
    requires multiset(a) == multiset(b)
    ensures multiset(Concat(a)) == multiset(Concat(b))
    decreases |a|
  {
    BagSize(a, b);
    if a != [] {
      assert a[0] in multiset(a);
      var j := BagWithout(b, a[0]);
      BagOfTail(a);
      ConcatOfSameBag(a[1..], b[..j] + b[j + 1..]);
      ConcatWithout(b, j);
    }
  }

  lemma PageTimes(page: seq<Event>, table: seq<Event>, n: nat)
    requires IsNewest(page, table, n)
    ensures Times(page) == Take(Sort(Times(table)), n)
  {
    hide Sort, Desc;
    var rest: seq<Event> :| NotNewer(rest, page) && multiset(page + rest) == multiset(table);
    var older := Sort(Times(rest));
    SortSorts(Times(rest));
    PageThenRest(page, rest, older);
    TimesOfSameBag(page + rest, table);
    TimesConcat(page, rest);
    SortIsSort(Times(table), Times(page) + older);
    BagSize(page + rest, table);
  }

  lemma PageThenRest(page: seq<Event>, rest: seq<Event>, older: seq<int>)
    requires Desc(Times(page)) && Desc(older) && NotNewer(rest, page) && multiset(older) == multiset(Times(rest))
    ensures Desc(Times(page) + older)
  {
    forall i, j | 0 <= i < |page| && 0 <= j < |older| ensures Times(page)[i] >= older[j] {
      assert older[j] in multiset(older);
      var k :| 0 <= k < |rest| && Times(rest)[k] == older[j];
      TimeAt(page, i);
      TimeAt(rest, k);
    }
  }

  lemma TakeTake(s: seq<int>, k: nat, n: nat)
    requires k <= n
    ensures Take(Take(s, n), k) == Take(s, k)
  {
  }

  /** The newest k rows of all tables can be found in the pages. */
  lemma {:induction false} NewestInPages(pages: seq<seq<Event>>, tables: seq<seq<Event>>, n: nat, k: nat)
    requires ArePages(pages, tables, n) && k <= n
    ensures Take(Sort(Times(Concat(pages))), k) == Take(Sort(Times(Concat(tables))), k)
    decreases |pages|
  {
    hide Sort, Merge, Desc, Times;
    if pages != [] {
      var p, t := Times(pages[0]), Times(tables[0]);
      var ps, ts := Times(Concat(pages[1..])), Times(Concat(tables[1..]));
      NewestInPages(pages[1..], tables[1..], n, k);
      PageTimes(pages[0], tables[0], n);
      TimesConcat(pages[0], Concat(pages[1..]));
      TimesConcat(tables[0], Concat(tables[1..]));
      SortOfParts(p, ps);
      SortOfParts(t, ts);
      assert Desc(p) by { assert IsNewest(pages[0], tables[0], n); }
      SortIsSort(p, p);
      NewestOfMerge(p, Sort(ps), k, k, k);
      NewestOfMerge(Sort(t), Sort(ts), k, k, k);
      TakeTake(Sort(t), k, n);
    }
  }

  lemma SliceOfTake(s: seq<int>, t: seq<int>, k: nat, offset: nat, limit: nat)
    requires Take(s, k) == Take(t, k) && offset + limit <= k
    ensures Slice(s, offset, limit) == Slice(t, offset, limit)
  {
    var a, b := Slice(s, offset, limit), Slice(t, offset, limit);
    assert |Take(s, k)| == |Take(t, k)|;
    assert |a| == |b|;
    forall i | 0 <= i < |a| ensures a[i] == b[i] {
      assert a[i] == s[offset + i] == Take(s, k)[offset + i];
      assert b[i] == t[offset + i] == Take(t, k)[offset + i];
    }
  }

  /** Whatever the order of arrival, and however ties are broken, the page shows the times
      that a page of the one big sorted table would show. */
  lemma PageIsRight(tables: seq<seq<Event>>, arrivals: seq<seq<Event>>, offset: nat, limit: nat)
    requires limit >= 1 && offset + limit <= 2000 && Arrive(arrivals, tables, Fetch(offset, limit))
    ensures Slice(Sort(Times(Concat(arrivals))), offset, limit) == Slice(Sort(Times(Concat(tables))), offset, limit)
  {
    var n := Fetch(offset, limit);
    var pages :| ArePages(pages, tables, n) && multiset(pages) == multiset(arrivals);
    ConcatOfSameBag(pages, arrivals);
    TimesOfSameBag(Concat(pages), Concat(arrivals));
    SortSorts(Times(Concat(arrivals)));
    SortIsSort(Times(Concat(pages)), Sort(Times(Concat(arrivals))));
    NewestInPages(pages, tables, n, offset + limit);
    SliceOfTake(Sort(Times(Concat(pages))), Sort(Times(Concat(tables))), offset + limit, offset, limit);
  }

  /** For all contents of the four tables, and all orders of arrival. */
  ghost predicate AlwaysRight(offset: nat, limit: nat) {
    forall tables, arrivals :: |tables| == 4 && Arrive(arrivals, tables, Fetch(offset, limit)) ==>
      Slice(Sort(Times(Concat(arrivals))), offset, limit) == Slice(Sort(Times(Concat(tables))), offset, limit)
  }

  /** The page is always right exactly when it ends within the first 2000 rows. */
  lemma PageIsRightIff(offset: nat, limit: nat)
    requires limit >= 1
    ensures AlwaysRight(offset, limit) <==> offset + limit <= 2000
  {
    hide Arrive, Sort, Concat, Times, Slice;
    if offset + limit <= 2000 {
      forall tables, arrivals | |tables| == 4 && Arrive(arrivals, tables, Fetch(offset, limit))
        ensures Slice(Sort(Times(Concat(arrivals))), offset, limit) == Slice(Sort(Times(Concat(tables))), offset, limit)
      {
        PageIsRight(tables, arrivals, offset, limit);
      }
    } else {
      var page, table := TooFar(offset, limit);
      assert |BesideEmpty(table)| == 4;
    }
  }

  /** One list, and three empty ones. */
  function BesideEmpty(events: seq<Event>): seq<seq<Event>> {
    [events, [], [], []]
  }

  lemma ConcatBesideEmpty(events: seq<Event>)
    ensures Concat(BesideEmpty(events)) == events
  {
    var lists := BesideEmpty(events);
    assert lists[1..] == [[], [], []] && lists[1..][1..] == [[], []] && lists[1..][1..][1..] == [[]] &&
           lists[1..][1..][1..][1..] == [];
    assert Concat([[], [], []]) == [];
  }

  lemma NothingIsNewest(n: nat)
    ensures IsNewest([], [], n)
  {
    assert NotNewer([], []);
    NoTimes();
  }

  lemma ArriveBesideEmpty(page: seq<Event>, table: seq<Event>, n: nat)
    requires IsNewest(page, table, n)
    ensures Arrive(BesideEmpty(page), BesideEmpty(table), n)
  {
    hide IsNewest;
    NothingIsNewest(n);
    assert ArePages(BesideEmpty(page), BesideEmpty(table), n);
  }

  /** If one of the four tables has offset + limit rows, the page comes out too short. */
  lemma TooFar(offset: nat, limit: nat) returns (page: seq<Event>, table: seq<Event>)
    requires limit >= 1 && offset + limit > 2000
    ensures Arrive(BesideEmpty(page), BesideEmpty(table), Fetch(offset, limit))
    ensures Slice(Sort(Times(Concat(BesideEmpty(page)))), offset, limit) !=
            Slice(Sort(Times(Concat(BesideEmpty(table)))), offset, limit)
  {
    hide Sort, Desc, Slice, Concat, Arrive, IsNewest, BesideEmpty;
    table := seq(offset + limit, i => Event(0, 0));
    page := table[..2000];
    PrefixOfSame(page, table[2000..], table);
    ArriveBesideEmpty(page, table, 2000);
    ConcatBesideEmpty(page);
    ConcatBesideEmpty(table);
    SortLength(Times(page));
    SortLength(Times(table));
    SliceLength(Sort(Times(page)), offset, limit);
    SliceLength(Sort(Times(table)), offset, limit);
  }

  lemma PrefixOfSame(page: seq<Event>, rest: seq<Event>, table: seq<Event>)
    requires table == page + rest && forall e <- table :: e == Event(0, 0)
    ensures IsNewest(page, table, |page|)
  {
    assert forall i :: 0 <= i < |table| ==> table[i] in table;
    assert forall i :: 0 <= i < |page| ==> table[i] == page[i];
    assert forall i :: 0 <= i < |rest| ==> table[|page| + i] == rest[i];
    assert NotNewer(rest, page);
    forall i | 0 <= i < |page| ensures Times(page)[i] == 0 { TimeAt(page, i); }
  }

  /** A slice begins at the offset and is as long as the limit, if the list is long enough. */
  lemma SliceMeans(s: seq<int>, offset: nat, limit: nat)
    ensures |Slice(s, offset, limit)| == if offset >= |s| then 0 else if offset + limit <= |s| then limit
            else |s| - offset
    ensures forall i :: 0 <= i < |Slice(s, offset, limit)| ==> Slice(s, offset, limit)[i] == s[offset + i]
  {
  }

  lemma SliceLength(s: seq<int>, offset: nat, limit: nat)
    ensures |Slice(s, offset, limit)| ==
            if offset + limit <= |s| then limit else if offset <= |s| then |s| - offset else 0
  {
  }

  lemma SortLength(s: seq<int>)
    ensures |Sort(s)| == |s|
  {
    SortSorts(s);
    assert |Sort(s)| == |multiset(Sort(s))| == |multiset(s)| == |s|;
  }

  // ---------- the code ----------

  function Insert(e: Event, sorted: seq<Event>): seq<Event> {
    if sorted == [] || e.ts >= sorted[0].ts then [e] + sorted else [sorted[0]] + Insert(e, sorted[1..])
  }

  lemma {:induction false} InsertInserts(e: Event, sorted: seq<Event>)
    ensures multiset(Insert(e, sorted)) == multiset(sorted) + multiset{e}
    ensures Times(Insert(e, sorted)) == Merge([e.ts], Times(sorted))
  {
    hide Times, Merge;
    if sorted == [] || e.ts >= sorted[0].ts {
      TimesInFront(e, sorted);
      TimesHead(sorted);
      MergeOne(e.ts, Times(sorted));
    } else {
      var rest := Insert(e, sorted[1..]);
      InsertInserts(e, sorted[1..]);
      BagOfTail(sorted);
      TimesInFront(sorted[0], rest);
      TimesHead(sorted);
      MergeOne(e.ts, Times(sorted));
    }
  }

  lemma TimesInFront(e: Event, s: seq<Event>)
    ensures Times([e] + s) == [e.ts] + Times(s)
  {
    assert ([e] + s)[1..] == s;
  }

  lemma TimesHead(s: seq<Event>)
    ensures s != [] ==> Times(s)[0] == s[0].ts && Times(s)[1..] == Times(s[1..])
  {
  }

  lemma MergeOne(x: int, s: seq<int>)
    ensures Merge([x], s) == if s == [] || x >= s[0] then [x] + s else [s[0]] + Merge([x], s[1..])
  {
    assert [x][1..] == [];
  }

  /** sort.Slice by time, newest first: rows of equal time may come in any order. */
  method SortNewest(events: seq<Event>) returns (sorted: seq<Event>)
    ensures multiset(sorted) == multiset(events) && Desc(Times(sorted))
  {
    hide Desc, Times, Merge;
    sorted := [];
    assert Desc(Times([])) by { NoTimes(); }
    for i := 0 to |events|
      invariant multiset(sorted) == multiset(events[..i]) && Desc(Times(sorted))
    {
      InsertInserts(events[i], sorted);
      OneIsDesc(events[i].ts);
      MergeSorts([events[i].ts], Times(sorted));
      OneMore(events, i);
      sorted := Insert(events[i], sorted);
    }
    assert events[..|events|] == events;
  }

  lemma OneIsDesc(x: int)
    ensures Desc([x])
  {
  }

  lemma OneMore(events: seq<Event>, i: nat)
    requires i < |events|
    ensures multiset(events[..i + 1]) == multiset(events[..i]) + multiset{events[i]}
  {
    assert events[..i + 1] == events[..i] + [events[i]];
  }

  lemma NoTimes()
    ensures Desc(Times([]))
  {
  }

  /** The lists that arrived, without the errors. */
  function Received(arrivals: seq<Option<seq<Event>>>): seq<seq<Event>> {
    if arrivals == [] then []
    else
      var last := arrivals[|arrivals| - 1];
      Received(arrivals[..|arrivals| - 1]) + if last.Some? then [last.value] else []
  }

  /** sortEvents: some order of the events, by field and direction. */
  type Sorter = (string, bool, seq<Event>) -> seq<Event>

  ghost predicate Permutes(sorter: Sorter) {
    forall field, desc, events :: multiset(sorter(field, desc, events)) == multiset(events)
  }

  function Piped(events: seq<Event>, pipe: Search.PipeCmd, sorter: Sorter): seq<Event> {
    match pipe
    case Head(limit, _) => if 0 < limit < |events| then events[..limit] else events
    case Sort(field, desc, _) => sorter(field, desc, events)
  }

  function PipedAll(events: seq<Event>, pipes: seq<Search.PipeCmd>, sorter: Sorter): seq<Event>
    decreases |pipes|
  {
    if pipes == [] then events else PipedAll(Piped(events, pipes[0], sorter), pipes[1..], sorter)
  }

  /** Pipes are applied in their order, each to what the one before it leaves. */
  lemma {:induction false} PipesInOrder(events: seq<Event>, before: seq<Search.PipeCmd>, pipe: Search.PipeCmd,
                                        sorter: Sorter)
    ensures PipedAll(events, before + [pipe], sorter) == Piped(PipedAll(events, before, sorter), pipe, sorter)
    decreases |before|
  {
    hide Piped;
    var all := before + [pipe];
    if before == [] {
      assert all[0] == pipe && all[1..] == [];
    } else {
      assert all[0] == before[0] && all[1..] == before[1..] + [pipe];
      PipesInOrder(Piped(events, before[0], sorter), before[1..], pipe, sorter);
    }
  }

  /** How many events the heads leave. */
  function Left(n: nat, pipes: seq<Search.PipeCmd>): nat {
    if pipes == [] then n
    else Left(if pipes[0].Head? && 0 < pipes[0].limit < n then pipes[0].limit else n, pipes[1..])
  }

  /** Pipes only choose from the page, as many events as the smallest head allows; without a
      sort these are its first ones. */
  lemma {:induction false} PipesChoose(events: seq<Event>, pipes: seq<Search.PipeCmd>, sorter: Sorter)
    requires Permutes(sorter)
    ensures var r := PipedAll(events, pipes, sorter);
            multiset(r) <= multiset(events) && |r| == Left(|events|, pipes) <= |events| &&
            ((forall pipe <- pipes :: pipe.Head?) ==> r == events[..|r|])
    decreases |pipes|
  {
    if pipes != [] {
      var more := Piped(events, pipes[0], sorter);
      if pipes[0].Head? {
        PrefixBag(events, |more|);
      } else {
        BagSize(more, events);
      }
      PipesChoose(more, pipes[1..], sorter);
      if forall pipe <- pipes :: pipe.Head? {
        assert pipes[0] in pipes && forall pipe <- pipes[1..] :: pipe in pipes;
      }
    }
  }

  lemma PrefixBag<T>(s: seq<T>, n: nat)
    requires n <= |s|
    ensures multiset(s[..n]) <= multiset(s)
  {
    assert s == s[..n] + s[n..];
  }

  method ApplyPipes(events: seq<Event>, pipes: seq<Search.PipeCmd>, sorter: Sorter) returns (out: seq<Event>)
    ensures out == PipedAll(events, pipes, sorter)
  {
    out := events;
    assert pipes[0..] == pipes;
    for i := 0 to |pipes|
      invariant PipedAll(out, pipes[i..], sorter) == PipedAll(events, pipes, sorter)
    {
      assert pipes[i..][0] == pipes[i] && pipes[i..][1..] == pipes[i + 1..];
      match pipes[i]
      case Head(limit, _) => if limit > 0 && |out| > limit { out := out[..limit]; }
      case Sort(field, desc, _) => out := sorter(field, desc, out);
    }
    assert pipes[|pipes|..] == [];
  }

  /** Each arrival is a list of rows or an error; any error is the result. The pipes work on
      the page. */
  method QueryAll(arrivals: seq<Option<seq<Event>>>, offset: nat, limit: nat, pipes: seq<Search.PipeCmd>,
                  sorter: Sorter)
    returns (r: Option<seq<Event>>, ghost page: seq<Event>)
    ensures r.None? <==> None in arrivals
    ensures r.Some? ==> Times(page) == Slice(Sort(Times(Concat(Received(arrivals)))), offset, limit)
    ensures r.Some? ==> multiset(page) <= multiset(Concat(Received(arrivals)))
    ensures r.Some? ==> r.value == PipedAll(page, pipes, sorter)
  {
    hide Sort, Desc, Concat, Times, PipedAll;
    page := [];
    var merged: seq<Event> := [];
    assert merged == Concat([]) by { NoLists(); }
    for i := 0 to |arrivals|
      invariant forall j :: 0 <= j < i ==> arrivals[j].Some?
      invariant merged == Concat(Received(arrivals[..i]))
    {
      if arrivals[i] == None { return None, page; }
      ConcatMore(Received(arrivals[..i]), arrivals[i].value);
      assert arrivals[..i + 1][..i] == arrivals[..i];
      merged := merged + arrivals[i].value;
    }
    assert arrivals[..|arrivals|] == arrivals;
    var sorted := SortNewest(merged);
    BagSize(sorted, merged);
    var start := if offset > |merged| then |merged| else offset;
    var end := if start + limit > |merged| then |merged| else start + limit;
    var sliced := sorted[start..end];
    page := sliced;
    SliceTimes(sorted, start, end);
    SortedTimes(sorted, merged);
    sliced := ApplyPipes(sliced, pipes, sorter);
    return Some(sliced), page;
  }

  lemma SortedTimes(sorted: seq<Event>, merged: seq<Event>)
    requires multiset(sorted) == multiset(merged) && Desc(Times(sorted))
    ensures Times(sorted) == Sort(Times(merged))
  {
    hide Desc, Sort, Times;
    TimesOfSameBag(sorted, merged);
    SortIsSort(Times(merged), Times(sorted));
  }

  lemma NoLists()
    ensures Concat([]) == []
  {
  }

  lemma SliceTimes(events: seq<Event>, start: nat, end: nat)
    requires start <= end <= |events|
    ensures Times(events[start..end]) == Times(events)[start..end]
    ensures multiset(events[start..end]) <= multiset(events)
  {
    hide Times;
    var a, b, c := events[..start], events[start..end], events[end..];
    InThree(events, start, end);
    TimesConcat(a, b + c);
    TimesConcat(b, c);
    MiddleOf(Times(a), Times(b), Times(c));
    MiddleBag(a, b, c);
  }

  lemma InThree<T>(s: seq<T>, start: nat, end: nat)
    requires start <= end <= |s|
    ensures s == s[..start] + (s[start..end] + s[end..])
  {
  }

  lemma MiddleOf<T>(a: seq<T>, b: seq<T>, c: seq<T>)
    ensures (a + (b + c))[|a|..|a| + |b|] == b
  {
  }

  lemma MiddleBag<T>(a: seq<T>, b: seq<T>, c: seq<T>)
    ensures multiset(b) <= multiset(a + (b + c))
  {
  }

  lemma {:induction false} ConcatMore(lists: seq<seq<Event>>, more: seq<Event>)
    ensures Concat(lists + [more]) == Concat(lists) + more
    decreases |lists|
  {
    if lists == [] {
      assert lists + [more] == [more];
    } else {
      assert (lists + [more])[1..] == lists[1..] + [more];
      ConcatMore(lists[1..], more);
    }
  }
}
