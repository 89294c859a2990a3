/**
 `ai.list_sources_excluding_kb` (migration 0023) and the route that wraps it: the
 filter, the order, the page and the total count.
 */
module SourceListing {
  import opened Options
  import opened LikeSearch

  datatype Source = Source(id: nat, name: string, status: string)

  datatype Listed = Listed(source: Source, totalCount: nat)

  /** What a call depends on besides its arguments: the links of the KB, case folding, and name order. */
  datatype Env = Env(linked: set<(nat, nat)>, fold: char -> char, rank: string -> int)

  predicate Eligible(env: Env, kb: nat, search: Option<string>, s: Source) {
    && s.status == "extracted"
    && (kb, s.id) !in env.linked
    && (search.None? || search.value == "" ||
        ILike(env.fold, s.name, "%" + Escape(search.value) + "%") == Some(true))
  }

  /** ORDER BY name ASC, id ASC; `rank` is the collation of the database. */
  predicate Before(env: Env, a: Source, b: Source) {
    env.rank(a.name) < env.rank(b.name) || (env.rank(a.name) == env.rank(b.name) && a.id <= b.id)
  }

  function Filter(env: Env, kb: nat, search: Option<string>, sources: seq<Source>): seq<Source> {
    if sources == [] then [] else
      (if Eligible(env, kb, search, sources[0]) then [sources[0]] else []) + Filter(env, kb, search, sources[1..])
  }

  function Insert(env: Env, s: Source, sorted: seq<Source>): seq<Source> {
    if sorted == [] || Before(env, s, sorted[0]) then [s] + sorted
    else [sorted[0]] + Insert(env, s, sorted[1..])
  }

  function Sort(env: Env, sources: seq<Source>): seq<Source> {
    if sources == [] then [] else Insert(env, sources[0], Sort(env, sources[1..]))
  }

  function Min(a: int, b: int): int {
    if a <= b then a else b
  }

  function Max(a: int, b: int): int {
    if a <= b then b else a
  }

  /** LIMIT and OFFSET */
  function Page<T>(rows: seq<T>, limit: nat, offset: nat): seq<T> {
    rows[Min(offset, |rows|)..Min(offset + limit, |rows|)]
  }

  function WithTotal(rows: seq<Source>, total: nat): seq<Listed> {
    seq(|rows|, k requires 0 <= k < |rows| => Listed(rows[k], total))
  }

  /** Every eligible source in its place, before LIMIT and OFFSET. */
  function Ordered(env: Env, kb: nat, search: Option<string>, sources: seq<Source>): seq<Source> {
    Sort(env, Filter(env, kb, search, sources))
  }

  function ListSources(env: Env, sources: seq<Source>, kb: nat, search: Option<string>,
                       limit: int, offset: int): seq<Listed> {
    var rows := Ordered(env, kb, search, sources);
    Page(WithTotal(rows, |rows|), Max(limit, 0), Max(offset, 0))
  }

  /** `list_available_sources`: clamped arguments, and the total read off the first row. */
  function ListAvailable(env: Env, sources: seq<Source>, kb: nat, search: Option<string>,
                         limit: int, offset: int): (seq<Listed>, nat) {
    var rows := ListSources(env, sources, kb, search, Min(Max(limit, 1), 200), Max(offset, 0));
    (rows, if rows == [] then 0 else rows[0].totalCount)
  }

  // ---- filter and order ---------------------------------------------------------------

  lemma {:induction false} FilterExact(env: Env, kb: nat, search: Option<string>, sources: seq<Source>, s: Source)
    ensures multiset(Filter(env, kb, search, sources))[s] ==
            if Eligible(env, kb, search, s) then multiset(sources)[s] else 0
  {
    if sources != [] {
      FilterExact(env, kb, search, sources[1..], s);
      assert sources == [sources[0]] + sources[1..];
    }
  }

  ghost predicate SortedBy(env: Env, rows: seq<Source>) {
    forall j, k :: 0 <= j < k < |rows| ==> Before(env, rows[j], rows[k])
  }

  lemma {:induction false} InsertKeeps(env: Env, s: Source, sorted: seq<Source>)
    ensures multiset(Insert(env, s, sorted)) == multiset(sorted) + multiset{s}
  {
    if sorted != [] && !Before(env, s, sorted[0]) {
      InsertKeeps(env, s, sorted[1..]);
      assert sorted == [sorted[0]] + sorted[1..];
    }
  }

  lemma {:induction false} InsertMember(env: Env, s: Source, sorted: seq<Source>, k: nat)
    requires k < |Insert(env, s, sorted)|
    ensures Insert(env, s, sorted)[k] == s || Insert(env, s, sorted)[k] in sorted
  {
    if sorted != [] && !Before(env, s, sorted[0]) && k > 0 {
      InsertMember(env, s, sorted[1..], k - 1);
    }
  }

  lemma {:induction false} InsertSorted(env: Env, s: Source, sorted: seq<Source>)
    requires SortedBy(env, sorted)
    ensures SortedBy(env, Insert(env, s, sorted))
  {
    if sorted != [] && !Before(env, s, sorted[0]) {
      InsertSorted(env, s, sorted[1..]);
      var rest := Insert(env, s, sorted[1..]);
      forall k | 0 <= k < |rest| ensures Before(env, sorted[0], rest[k]) {
        InsertMember(env, s, sorted[1..], k);
      }
    }
  }

  lemma {:induction false} SortCorrect(env: Env, sources: seq<Source>)
    ensures SortedBy(env, Sort(env, sources))
    ensures multiset(Sort(env, sources)) == multiset(sources)
  {
    if sources != [] {
      SortCorrect(env, sources[1..]);
      InsertSorted(env, sources[0], Sort(env, sources[1..]));
      InsertKeeps(env, sources[0], Sort(env, sources[1..]));
      assert sources == [sources[0]] + sources[1..];
    }
  }

  /**
   The ordered list holds every eligible source exactly as often as the table does, and
   eligibility is the literal substring test.
   */
  lemma OrderedExact(env: Env, kb: nat, search: Option<string>, sources: seq<Source>, s: Source)
    requires IsCaseFolding(env.fold)
    ensures
      var rows := Ordered(env, kb, search, sources);
      forall j, k :: 0 <= j < k < |rows| ==>
        || env.rank(rows[j].name) < env.rank(rows[k].name)
        || (env.rank(rows[j].name) == env.rank(rows[k].name) && rows[j].id <= rows[k].id)
    ensures
      multiset(Ordered(env, kb, search, sources))[s] ==
        if s.status == "extracted" && (kb, s.id) !in env.linked &&
           (search.None? || Contains(Fold(env.fold, s.name), Fold(env.fold, search.value)))
        then multiset(sources)[s] else 0
  {
    SortCorrect(env, Filter(env, kb, search, sources));
    FilterExact(env, kb, search, sources, s);
    if search.Some? {
      SearchIsLiteral(env.fold, s.name, search.value);
      if search.value == "" {
        assert OccursAt(Fold(env.fold, s.name), Fold(env.fold, search.value), 0);
      }
    }
  }

  // ---- pages --------------------------------------------------------------------------

  /** The first `n` pages, one behind the other. */
  function Pages<T>(rows: seq<T>, limit: nat, n: nat): seq<T> {
    if n == 0 then [] else Pages(rows, limit, n - 1) + Page(rows, limit, (n - 1) * limit)
  }

  lemma PageFollows<T>(rows: seq<T>, limit: nat, offset: nat)
    ensures rows[..Min(offset, |rows|)] + Page(rows, limit, offset) == rows[..Min(offset + limit, |rows|)]
  {
  }

  /** Paging loses nothing and repeats nothing. */
  lemma {:induction false} PagesCover<T>(rows: seq<T>, limit: nat, n: nat)
    ensures Pages(rows, limit, n) == rows[..Min(n * limit, |rows|)]
  {
    if n > 0 {
      var offset := (n - 1) * limit;
      PagesCover(rows, limit, n - 1);
      PageFollows(rows, limit, offset);
      assert n * limit == offset + limit;
    }
  }

  /** Every row of a page carries the number of all eligible sources, not of the page. */
  lemma EveryRowCarriesTotal(env: Env, sources: seq<Source>, kb: nat, search: Option<string>,
                             limit: int, offset: int, k: nat)
    requires k < |ListSources(env, sources, kb, search, limit, offset)|
    ensures
      var rows := Ordered(env, kb, search, sources);
      Max(offset, 0) + k < |rows| &&
      ListSources(env, sources, kb, search, limit, offset)[k] == Listed(rows[Max(offset, 0) + k], |rows|)
  {
  }

  function Names(rows: seq<Listed>): seq<Source> {
    seq(|rows|, k requires 0 <= k < |rows| => rows[k].source)
  }

  /**
   What a page of the route is: a limit from 1 to 200 is taken as it is, any other is the nearest
   of the two, a negative offset is 0, and the page is that stretch of the list, as far as it goes.
   */
  lemma RoutePage(env: Env, sources: seq<Source>, kb: nat, search: Option<string>, limit: int, offset: int)
    ensures
      var rows, page := Ordered(env, kb, search, sources), ListAvailable(env, sources, kb, search, limit, offset).0;
      var size := if limit < 1 then 1 else if limit > 200 then 200 else limit;
      var start := if offset < 0 then 0 else offset;
      && |page| == (if start >= |rows| then 0 else if |rows| - start < size then |rows| - start else size)
      && (forall k :: 0 <= k < |page| ==> page[k].source == rows[start + k])
  {
  }

  /** The pages the route gives for offsets 0, limit, 2 * limit and so on. */
  function RoutePages(env: Env, sources: seq<Source>, kb: nat, search: Option<string>, limit: nat, n: nat): seq<Source>
  {
    if n == 0 then []
    else
      RoutePages(env, sources, kb, search, limit, n - 1) +
      Names(ListAvailable(env, sources, kb, search, limit, (n - 1) * limit).0)
  }

  lemma RoutePageIsPage(env: Env, sources: seq<Source>, kb: nat, search: Option<string>, limit: nat, offset: nat)
    requires 1 <= limit <= 200
    ensures Names(ListAvailable(env, sources, kb, search, limit, offset).0) ==
            Page(Ordered(env, kb, search, sources), limit, offset)
  {
    RoutePage(env, sources, kb, search, limit, offset);
  }

  lemma {:induction false} RoutePagesArePages(env: Env, sources: seq<Source>, kb: nat, search: Option<string>,
                                              limit: nat, n: nat)
    requires 1 <= limit <= 200
    ensures RoutePages(env, sources, kb, search, limit, n) == Pages(Ordered(env, kb, search, sources), limit, n)
  {
    if n > 0 {
      var before := n - 1;
      RoutePagesArePages(env, sources, kb, search, limit, before);
      assert RoutePages(env, sources, kb, search, limit, n) == Pages(Ordered(env, kb, search, sources), limit, n) by {
        RoutePageIsPage(env, sources, kb, search, limit, before * limit);
      }
    }
  }

  /** Asked page by page, the route gives every eligible source once and in order. */
  lemma RoutePagesCover(env: Env, sources: seq<Source>, kb: nat, search: Option<string>, limit: nat, n: nat)
    requires 1 <= limit <= 200 && n * limit >= |Ordered(env, kb, search, sources)|
    ensures RoutePages(env, sources, kb, search, limit, n) == Ordered(env, kb, search, sources)
  {
    RoutePagesArePages(env, sources, kb, search, limit, n);
    PagesCover(Ordered(env, kb, search, sources), limit, n);
  }

  /** The route's total is right exactly when the page is not past the end of a non-empty list. */
  lemma RouteTotalExactly(env: Env, sources: seq<Source>, kb: nat, search: Option<string>, limit: int, offset: int)
    ensures
      var n := |Ordered(env, kb, search, sources)|;
      ListAvailable(env, sources, kb, search, limit, offset).1 == n <==> n == 0 || offset < n
    ensures
      ListAvailable(env, sources, kb, search, limit, offset).1 in {0, |Ordered(env, kb, search, sources)|}
  {
  }
}
