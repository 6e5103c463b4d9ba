/** The query engine shared by the three repositories: a WHERE clause given as
    a predicate, ORDER BY createdAt DESC, OFFSET/LIMIT from the page request,
    and a COUNT over the same WHERE clause. */
module Paging {
  import opened Wrappers

  datatype Direction = ASC | DESC

  /** The paging part every filter carries. */
  datatype PmsFilter = PmsFilter(pageNumber: int, pageSize: int, sortDirection: Direction, sortBy: string)

  /** A filter built without query parameters: page 0 of 10, sorted by "name" ascending. */
  const DefaultPaging: PmsFilter := PmsFilter(0, 10, ASC, "name")

  /** `Character.isWhitespace` on the ASCII range. */
  predicate IsWhitespace(c: char) {
    c == ' ' || '\t' <= c <= '\r' || '\U{1C}' <= c <= '\U{1F}'
  }

  /** Spring's `StringUtils.hasText`: some character is not whitespace. */
  predicate HasText(s: string) {
    exists i :: 0 <= i < |s| && !IsWhitespace(s[i])
  }

  /** What `Sort.by` and `PageRequest.of` accept: a sort property with text,
      a page index of at least zero and a page size of at least one. */
  predicate ValidPaging(f: PmsFilter) {
    HasText(f.sortBy) && f.pageNumber >= 0 && f.pageSize > 0
  }

  const EmptyPropertyMessage := "Property must not be null or empty"
  const NegativePageMessage := "Page index must not be less than zero"
  const EmptyPageMessage := "Page size must not be less than one"

  /** `getPageable`: builds the sort first, then the page request; each
      rejects bad settings with an IllegalArgumentException. */
  function GetPageable(f: PmsFilter): (r: Result<()>)
    ensures r.Ok? <==> ValidPaging(f)
    ensures !r.Ok? ==> r.InternalError?
    ensures !HasText(f.sortBy) ==> r == InternalError(EmptyPropertyMessage)
    ensures HasText(f.sortBy) && f.pageNumber < 0 ==> r == InternalError(NegativePageMessage)
    ensures HasText(f.sortBy) && f.pageNumber >= 0 && f.pageSize <= 0 ==> r == InternalError(EmptyPageMessage)
  {
    if !HasText(f.sortBy) then InternalError(EmptyPropertyMessage)
    else if f.pageNumber < 0 then InternalError(NegativePageMessage)
    else if f.pageSize < 1 then InternalError(EmptyPageMessage)
    else Ok(())
  }

  /** The exception `getPageable` raises, passed on as the repository's result. */
  function PageableError<T>(f: PmsFilter): (r: Result<T>)
    requires !ValidPaging(f)
    ensures r.InternalError? && r.msg == GetPageable(f).msg
  {
    GetPageable(f).PropagateFailure()
  }

  /** The settings a filter starts with are accepted. */
  lemma DefaultPagingValid()
    ensures ValidPaging(DefaultPaging)
  {
    assert !IsWhitespace(DefaultPaging.sortBy[0]);
  }

  /** `a * b` for naturals, by repeated addition; stating it recursively keeps
      the solver away from nonlinear arithmetic in every proof about pages. */
  function Times(a: nat, b: nat): nat {
    if a == 0 then 0 else b + Times(a - 1, b)
  }

  lemma {:induction false} TimesIsProduct(a: nat, b: nat)
    ensures Times(a, b) == a * b
  {
    if a > 0 {
      TimesIsProduct(a - 1, b);
    }
  }

  /** `Pageable.getOffset()`: the index of the first row of the page. */
  function Offset(f: PmsFilter): nat
    requires ValidPaging(f)
  {
    Times(f.pageNumber, f.pageSize)
  }

  lemma OffsetIsProduct(f: PmsFilter)
    requires ValidPaging(f)
    ensures Offset(f) == f.pageNumber * f.pageSize
  {
    TimesIsProduct(f.pageNumber, f.pageSize);
  }

  /** The page handed back: the rows of this page and the count of all matches. */
  datatype Page<T> = Page(content: seq<T>, pageNumber: int, pageSize: int, totalElements: int)

  /** WHERE: the rows satisfying `p`, in their original order. */
  function Select<T(==)>(rows: seq<T>, p: T -> bool): (r: seq<T>)
    ensures |r| <= |rows|
    ensures forall i :: 0 <= i < |r| ==> r[i] in rows && p(r[i])
    ensures forall i :: 0 <= i < |rows| && p(rows[i]) ==> rows[i] in r
  {
    if rows == [] then []
    else (if p(rows[0]) then [rows[0]] else []) + Select(rows[1..], p)
  }

  /** WHERE neither drops nor duplicates a row: a matching value occurs in the
      result exactly as often as in the rows, any other value not at all. */
  lemma {:induction false} SelectCounts<T>(rows: seq<T>, p: T -> bool, x: T)
    ensures multiset(Select(rows, p))[x] == if p(x) then multiset(rows)[x] else 0
  {
    if rows != [] {
      assert rows == [rows[0]] + rows[1..];
      SelectCounts(rows[1..], p, x);
    }
  }

  /** WHERE keeps the order of the rows: filtering a concatenation is
      concatenating the filtered parts. */
  lemma {:induction false} SelectAppend<T>(a: seq<T>, b: seq<T>, p: T -> bool)
    ensures Select(a + b, p) == Select(a, p) + Select(b, p)
  {
    if a != [] {
      assert (a + b)[1..] == a[1..] + b;
      SelectAppend(a[1..], b, p);
    } else {
      assert a + b == b;
    }
  }

  /** Selecting with a predicate every row satisfies keeps every row. */
  lemma {:induction false} SelectAll<T>(rows: seq<T>, p: T -> bool)
    requires forall i :: 0 <= i < |rows| ==> p(rows[i])
    ensures Select(rows, p) == rows
  {
    if rows != [] {
      assert p(rows[0]);
      SelectAll(rows[1..], p);
    }
  }

  /** Two predicates that agree on every row select the same rows. */
  lemma {:induction false} SelectAgree<T>(rows: seq<T>, p: T -> bool, q: T -> bool)
    requires forall i :: 0 <= i < |rows| ==> p(rows[i]) == q(rows[i])
    ensures Select(rows, p) == Select(rows, q)
  {
    if rows != [] {
      assert p(rows[0]) == q(rows[0]);
      SelectAgree(rows[1..], p, q);
    }
  }

  /** A stronger predicate never selects more rows. */
  lemma {:induction false} StrongerSelectsFewer<T>(rows: seq<T>, p: T -> bool, q: T -> bool)
    requires forall x :: q(x) ==> p(x)
    ensures |Select(rows, q)| <= |Select(rows, p)|
  {
    if rows != [] {
      StrongerSelectsFewer(rows[1..], p, q);
    }
  }

  /** ORDER BY ... DESC on a nullable timestamp: a present value ranks above
      every smaller one, and a null ranks below everything. */
  predicate AtLeastAsNew(a: Option<int>, b: Option<int>) {
    match b
    case None => true
    case Some(y) => a.Some? && a.value >= y
  }

  ghost predicate NewestFirst<T>(s: seq<T>, key: T -> Option<int>) {
    forall i, j :: 0 <= i < j < |s| ==> AtLeastAsNew(key(s[i]), key(s[j]))
  }

  function InsertByAge<T>(x: T, s: seq<T>, key: T -> Option<int>): seq<T> {
    if s == [] || AtLeastAsNew(key(x), key(s[0])) then [x] + s
    else [s[0]] + InsertByAge(x, s[1..], key)
  }

  /** A stable insertion sort, newest first. */
  function OrderByNewest<T>(s: seq<T>, key: T -> Option<int>): seq<T> {
    if s == [] then [] else InsertByAge(s[0], OrderByNewest(s[1..], key), key)
  }

  lemma {:induction false} InsertByAgePermutes<T>(x: T, s: seq<T>, key: T -> Option<int>)
    ensures multiset(InsertByAge(x, s, key)) == multiset(s) + multiset{x}
  {
    if s != [] && !AtLeastAsNew(key(x), key(s[0])) {
      InsertByAgePermutes(x, s[1..], key);
      assert s == [s[0]] + s[1..];
    }
  }

  lemma {:induction false} InsertByAgeSorted<T>(x: T, s: seq<T>, key: T -> Option<int>)
    requires NewestFirst(s, key)
    ensures NewestFirst(InsertByAge(x, s, key), key)
  {
    var r := InsertByAge(x, s, key);
    if s == [] {
    } else if AtLeastAsNew(key(x), key(s[0])) {
      forall i, j | 0 <= i < j < |r| ensures AtLeastAsNew(key(r[i]), key(r[j])) {
        if i == 0 {
          assert r[j] == s[j - 1];
          assert AtLeastAsNew(key(s[0]), key(s[j - 1])) || j - 1 == 0;
        } else {
          assert r[i] == s[i - 1] && r[j] == s[j - 1];
        }
      }
    } else {
      var t := InsertByAge(x, s[1..], key);
      assert NewestFirst(s[1..], key) by {
        forall i, j | 0 <= i < j < |s[1..]| ensures AtLeastAsNew(key(s[1..][i]), key(s[1..][j])) {
          assert s[1..][i] == s[i + 1] && s[1..][j] == s[j + 1];
        }
      }
      InsertByAgeSorted(x, s[1..], key);
      InsertByAgePermutes(x, s[1..], key);
      assert r == [s[0]] + t;
      forall i, j | 0 <= i < j < |r| ensures AtLeastAsNew(key(r[i]), key(r[j])) {
        if i == 0 {
          var y := r[j];
          assert y == t[j - 1];
          assert y in multiset(t);
          assert y == x || y in multiset(s[1..]);
          if y != x {
            var k :| 1 <= k < |s| && s[k] == y by {
              assert y in s[1..];
              var m :| 0 <= m < |s[1..]| && s[1..][m] == y;
              assert s[m + 1] == y;
            }
          }
        } else {
          assert r[i] == t[i - 1] && r[j] == t[j - 1];
        }
      }
    }
  }

  /** The ordering is sorted newest first and is a permutation of its input. */
  lemma {:induction false} OrderByNewestCorrect<T>(s: seq<T>, key: T -> Option<int>)
    ensures NewestFirst(OrderByNewest(s, key), key)
    ensures multiset(OrderByNewest(s, key)) == multiset(s)
  {
    if s != [] {
      OrderByNewestCorrect(s[1..], key);
      InsertByAgeSorted(s[0], OrderByNewest(s[1..], key), key);
      InsertByAgePermutes(s[0], OrderByNewest(s[1..], key), key);
      assert s == [s[0]] + s[1..];
    }
  }

  function Min(a: int, b: int): int {
    if a <= b then a else b
  }

  /** `setFirstResult(offset).setMaxResults(limit)`. */
  function Slice<T>(s: seq<T>, offset: nat, limit: nat): (r: seq<T>)
    ensures |r| == if offset >= |s| then 0 else Min(limit, |s| - offset)
    ensures forall i :: 0 <= i < |r| ==> r[i] == s[offset + i]
  {
    if offset >= |s| then [] else s[offset..Min(|s|, offset + limit)]
  }

  /** The count query: the number of rows the WHERE clause admits. */
  function Count<T(==)>(rows: seq<T>, p: T -> bool): nat {
    |Select(rows, p)|
  }

  /** One paged query: filter, order newest first, cut out the requested page,
      count the matches with the same predicate. */
  function Query<T(==)>(rows: seq<T>, p: T -> bool, key: T -> Option<int>, paging: PmsFilter): Page<T>
    requires ValidPaging(paging)
  {
    var ordered := OrderByNewest(Select(rows, p), key);
    Page(Slice(ordered, Offset(paging), paging.pageSize), paging.pageNumber, paging.pageSize, Count(rows, p))
  }

  lemma OrderedMatchesLength<T>(rows: seq<T>, p: T -> bool, key: T -> Option<int>)
    ensures |OrderByNewest(Select(rows, p), key)| == |Select(rows, p)|
  {
    var matches := Select(rows, p);
    OrderByNewestCorrect(matches, key);
    assert |multiset(OrderByNewest(matches, key))| == |multiset(matches)|;
  }

  /** A page holds at most pageSize rows, and its total counts every match,
      so it is never below the number of rows on the page. */
  lemma QueryBounds<T>(rows: seq<T>, p: T -> bool, key: T -> Option<int>, paging: PmsFilter)
    requires ValidPaging(paging)
    ensures |Query(rows, p, key, paging).content| <= paging.pageSize
    ensures Query(rows, p, key, paging).totalElements == |Select(rows, p)|
    ensures |Query(rows, p, key, paging).content| <= Query(rows, p, key, paging).totalElements
  {
    OrderedMatchesLength(rows, p, key);
  }

  /** Every row on a page is a stored row that satisfies the predicate. */
  lemma QueryMembers<T>(rows: seq<T>, p: T -> bool, key: T -> Option<int>, paging: PmsFilter)
    requires ValidPaging(paging)
    ensures var q := Query(rows, p, key, paging);
      forall i :: 0 <= i < |q.content| ==> q.content[i] in rows && p(q.content[i])
  {
    var matches := Select(rows, p);
    var ordered := OrderByNewest(matches, key);
    OrderByNewestCorrect(matches, key);
    var content := Query(rows, p, key, paging).content;
    forall i | 0 <= i < |content| ensures content[i] in rows && p(content[i]) {
      var x := content[i];
      assert x == ordered[Offset(paging) + i];
      assert x in multiset(ordered);
      assert x in matches;
      var k :| 0 <= k < |matches| && matches[k] == x;
    }
  }

  /** The rows of a page are newest first, and they are the requested window
      of all matches ordered newest first. */
  lemma QueryOrdered<T>(rows: seq<T>, p: T -> bool, key: T -> Option<int>, paging: PmsFilter)
    requires ValidPaging(paging)
    ensures var q := Query(rows, p, key, paging);
      && NewestFirst(q.content, key)
      && (forall i :: 0 <= i < |q.content| ==>
            q.content[i] == OrderByNewest(Select(rows, p), key)[Offset(paging) + i])
  {
    var ordered := OrderByNewest(Select(rows, p), key);
    OrderByNewestCorrect(Select(rows, p), key);
    var content := Query(rows, p, key, paging).content;
    forall i, j | 0 <= i < j < |content| ensures AtLeastAsNew(key(content[i]), key(content[j])) {
      assert content[i] == ordered[Offset(paging) + i] && content[j] == ordered[Offset(paging) + j];
    }
  }

  /** Asking for page 0 with a page size of at least the total returns every
      match, newest first. */
  lemma WholeResultInOnePage<T>(rows: seq<T>, p: T -> bool, key: T -> Option<int>, paging: PmsFilter)
    requires ValidPaging(paging)
    requires paging.pageNumber == 0 && paging.pageSize >= Count(rows, p)
    ensures multiset(Query(rows, p, key, paging).content) == multiset(Select(rows, p))
    ensures |Query(rows, p, key, paging).content| == Query(rows, p, key, paging).totalElements
  {
    var matches := Select(rows, p);
    var ordered := OrderByNewest(matches, key);
    OrderByNewestCorrect(matches, key);
    assert |ordered| == |matches| by {
      assert |multiset(ordered)| == |multiset(matches)|;
    }
    var content := Query(rows, p, key, paging).content;
    assert content == ordered by {
      if |ordered| > 0 {
        assert ordered[0..|ordered|] == ordered;
      }
    }
  }

  /** Two predicates that agree on every row give the same page. */
  lemma QueryAgree<T>(rows: seq<T>, p: T -> bool, q: T -> bool, key: T -> Option<int>, paging: PmsFilter)
    requires ValidPaging(paging)
    requires forall i :: 0 <= i < |rows| ==> p(rows[i]) == q(rows[i])
    ensures Query(rows, p, key, paging) == Query(rows, q, key, paging)
  {
    SelectAgree(rows, p, q);
  }

  /** Once `Sort.by` accepts them, the sort field and direction a filter
      carries never change the result. */
  lemma SortSettingsIgnored<T>(rows: seq<T>, p: T -> bool, key: T -> Option<int>, paging: PmsFilter,
                               direction: Direction, sortBy: string)
    requires ValidPaging(paging) && HasText(sortBy)
    ensures Query(rows, p, key, paging) ==
            Query(rows, p, key, paging.(sortDirection := direction, sortBy := sortBy))
  {
  }
}
