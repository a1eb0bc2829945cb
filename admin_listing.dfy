/**
 * The admin résumé listing: the page and offset arithmetic, the filtered
 * count and page queries built with positional `?` placeholders and their
 * parameter list, the page count and the pager's state.
 *
 * A query is kept as a sequence of fragments, literal SQL text and
 * placeholders, so the number of placeholders can be compared with the
 * number of parameters; `Render` gives the text the database receives.
 */
module AdminListing {
  import opened Strings
  import opened PhpRuntime

  datatype Fragment = Sql(text: string) | Hole

  type Query = seq<Fragment>

  /** A bound parameter: `execute` gets strings and the two pagination integers. */
  datatype Param = Text(value: string) | Number(n: int)

  /** The `search`, `date_from` and `date_to` query string parameters, '' when absent. */
  datatype Filters = Filters(search: string, dateFrom: string, dateTo: string)

  const PerPage := 15

  const SelectBase: Query := [Sql("SELECT * FROM resume_history WHERE 1=1")]
  const CountBase: Query := [Sql("SELECT COUNT(*) FROM resume_history WHERE 1=1")]
  const SearchClause: Query := [Sql(" AND (user_name LIKE "), Hole, Sql(" OR user_email LIKE "), Hole,
                                Sql(" OR job_role LIKE "), Hole, Sql(")")]
  const FromClause: Query := [Sql(" AND created_at >= "), Hole]
  const ToClause: Query := [Sql(" AND created_at <= "), Hole]
  const OrderLimit: Query := [Sql(" ORDER BY created_at DESC LIMIT "), Hole, Sql(", "), Hole]

  /** The number of placeholders in a query. */
  function Holes(q: Query): nat
    decreases |q|
  {
    if |q| == 0 then 0 else (if q[0].Hole? then 1 else 0) + Holes(q[1..])
  }

  /** The SQL text: fragments in order, each placeholder written `?`. */
  function Render(q: Query): string
    decreases |q|
  {
    if |q| == 0 then "" else (if q[0].Hole? then "?" else q[0].text) + Render(q[1..])
  }

  lemma {:induction false} HolesAppend(a: Query, b: Query)
    ensures Holes(a + b) == Holes(a) + Holes(b)
    decreases |a|
  {
    if |a| == 0 {
      assert a + b == b;
    } else {
      assert (a + b)[1..] == a[1..] + b;
      HolesAppend(a[1..], b);
    }
  }

  /** `($page - 1) * $perPage`. */
  function Offset(page: int): int {
    (page - 1) * PerPage
  }

  /** The clauses the filters add, the same for both queries. */
  function FilterClauses(f: Filters): Query {
    (if !IsEmptyString(f.search) then SearchClause else [])
    + (if !IsEmptyString(f.dateFrom) then FromClause else [])
    + (if !IsEmptyString(f.dateTo) then ToClause else [])
  }

  /** The parameters the filters add, in clause order. */
  function FilterParams(f: Filters): seq<Param> {
    (if !IsEmptyString(f.search) then
       var like := Text("%" + f.search + "%"); [like, like, like]
     else [])
    + (if !IsEmptyString(f.dateFrom) then [Text(f.dateFrom + " 00:00:00")] else [])
    + (if !IsEmptyString(f.dateTo) then [Text(f.dateTo + " 23:59:59")] else [])
  }

  function CountQuery(f: Filters): Query {
    CountBase + FilterClauses(f)
  }

  function PageQuery(f: Filters): Query {
    SelectBase + FilterClauses(f) + OrderLimit
  }

  function PageParams(f: Filters, page: int): seq<Param> {
    FilterParams(f) + [Number(Offset(page)), Number(PerPage)]
  }

  /** The statements as executed: the count query with its parameters, then the page query with its own. */
  datatype Statements = Statements(countQuery: Query, countParams: seq<Param>, pageQuery: Query, pageParams: seq<Param>)

  /** The query building as written: both queries and `$params` grow clause by clause. */
  method BuildStatements(f: Filters, page: int) returns (st: Statements)
    ensures st == Statements(CountQuery(f), FilterParams(f), PageQuery(f), PageParams(f, page))
  {
    var offset := (page - 1) * PerPage;
    var query := SelectBase;
    var countQuery := CountBase;
    var params: seq<Param> := [];
    ghost var q0, c0, p0 := query, countQuery, params;
    if !IsEmptyString(f.search) {
      query := query + SearchClause;
      countQuery := countQuery + SearchClause;
      params := params + [Text("%" + f.search + "%")];
      params := params + [Text("%" + f.search + "%")];
      params := params + [Text("%" + f.search + "%")];
    }
    ghost var like := Text("%" + f.search + "%");
    AppendIf(q0, !IsEmptyString(f.search), SearchClause, query);
    AppendIf(c0, !IsEmptyString(f.search), SearchClause, countQuery);
    AppendIf(p0, !IsEmptyString(f.search), [like, like, like], params);
    ghost var q1, c1, p1 := query, countQuery, params;
    if !IsEmptyString(f.dateFrom) {
      query := query + FromClause;
      countQuery := countQuery + FromClause;
      params := params + [Text(f.dateFrom + " 00:00:00")];
    }
    AppendIf(q1, !IsEmptyString(f.dateFrom), FromClause, query);
    AppendIf(c1, !IsEmptyString(f.dateFrom), FromClause, countQuery);
    AppendIf(p1, !IsEmptyString(f.dateFrom), [Text(f.dateFrom + " 00:00:00")], params);
    ghost var q2, c2, p2 := query, countQuery, params;
    if !IsEmptyString(f.dateTo) {
      query := query + ToClause;
      countQuery := countQuery + ToClause;
      params := params + [Text(f.dateTo + " 23:59:59")];
    }
    AppendIf(q2, !IsEmptyString(f.dateTo), ToClause, query);
    AppendIf(c2, !IsEmptyString(f.dateTo), ToClause, countQuery);
    AppendIf(p2, !IsEmptyString(f.dateTo), [Text(f.dateTo + " 23:59:59")], params);
    ghost var sc: Query, fc: Query, tc: Query := if !IsEmptyString(f.search) then SearchClause else [],
      if !IsEmptyString(f.dateFrom) then FromClause else [], if !IsEmptyString(f.dateTo) then ToClause else [];
    AppendRegroup3(SelectBase, sc, fc, tc);
    AppendRegroup3(CountBase, sc, fc, tc);
    EmptyPrefix(params);
    assert query == SelectBase + FilterClauses(f);
    assert countQuery == CountBase + FilterClauses(f);
    assert params == FilterParams(f);
    var countParams := params;
    query := query + OrderLimit;
    params := params + [Number(offset)];
    params := params + [Number(PerPage)];
    st := Statements(countQuery, countParams, query, params);
  }

  lemma ClauseHoles()
    ensures Holes(SearchClause) == 3 && Holes(FromClause) == 1 && Holes(ToClause) == 1
    ensures Holes(SelectBase) == 0 && Holes(CountBase) == 0 && Holes(OrderLimit) == 2
  {
    SearchClauseHoles();
    assert FromClause[1..][1..] == [] && ToClause[1..][1..] == [];
    assert SelectBase[1..] == [] && CountBase[1..] == [] && OrderLimit[1..][1..][1..][1..] == [];
  }

  lemma SearchClauseHoles()
    ensures Holes(SearchClause) == 3
  {
    var q := SearchClause;
    assert Holes(q[6..]) == 0 by { assert q[6..][1..] == []; }
    assert Holes(q[4..]) == 1 by { assert q[4..][1..] == q[5..] && q[5..][1..] == q[6..]; }
    assert Holes(q[2..]) == 2 by { assert q[2..][1..] == q[3..] && q[3..][1..] == q[4..]; }
    assert q[1..] == q[1..][..] && q[1..][1..] == q[2..];
  }

  /** Each filter clause brings as many placeholders as parameters. */
  lemma FilterHoles(f: Filters)
    ensures Holes(FilterClauses(f)) == |FilterParams(f)|
  {
    var s: Query := if !IsEmptyString(f.search) then SearchClause else [];
    var a: Query := if !IsEmptyString(f.dateFrom) then FromClause else [];
    var b: Query := if !IsEmptyString(f.dateTo) then ToClause else [];
    var hs, ha, hb := if !IsEmptyString(f.search) then 3 else 0, if !IsEmptyString(f.dateFrom) then 1 else 0,
                      if !IsEmptyString(f.dateTo) then 1 else 0;
    assert Holes(s) == hs && Holes(a) == ha && Holes(b) == hb by {
      ClauseHoles();
      assert Holes([]) == 0;
    }
    assert |FilterParams(f)| == hs + ha + hb;
    HolesAppend(s, a);
    HolesAppend(s + a, b);
  }

  /** At both `execute` calls, the query has exactly as many placeholders as there are parameters. */
  lemma PlaceholdersMatchParams(f: Filters, page: int)
    ensures Holes(CountQuery(f)) == |FilterParams(f)|
    ensures Holes(PageQuery(f)) == |PageParams(f, page)|
  {
    ClauseHoles();
    FilterHoles(f);
    HolesAppend(CountBase, FilterClauses(f));
    HolesAppend(SelectBase, FilterClauses(f));
    HolesAppend(SelectBase + FilterClauses(f), OrderLimit);
  }

  /**
   * A search adds three identical `%search%` parameters; the two dates add
   * one each, with the start and end of day; the pagination values come
   * last, offset before page size.
   */
  lemma ParamLayout(f: Filters, page: int)
    ensures var p := FilterParams(f);
      && (!IsEmptyString(f.search) ==> |p| >= 3 && p[0] == p[1] == p[2] == Text("%" + f.search + "%"))
      && (IsEmptyString(f.search) && !IsEmptyString(f.dateFrom) ==> p[0] == Text(f.dateFrom + " 00:00:00"))
      && (!IsEmptyString(f.dateTo) ==> p[|p| - 1] == Text(f.dateTo + " 23:59:59"))
    ensures var q := PageParams(f, page);
      q[|q| - 2] == Number(Offset(page)) && q[|q| - 1] == Number(PerPage)
  {
  }

  /** The offset is non-negative exactly from page 1 on, and each page starts one page size after the previous one. */
  lemma OffsetOfPage(page: int)
    ensures Offset(page) >= 0 <==> page >= 1
    ensures Offset(page + 1) == Offset(page) + PerPage
  {
  }

  /** `ceil($totalResumes / $perPage)`. */
  function TotalPages(total: nat): (n: nat)
    ensures n * PerPage >= total
    ensures total > 0 ==> (n - 1) * PerPage < total
    ensures total == 0 ==> n == 0
  {
    (total + PerPage - 1) / PerPage
  }

  /** Every page the pager links to starts before the last row, so none of them is empty. */
  lemma TotalPagesCovers(total: nat, page: int)
    requires 1 <= page <= TotalPages(total)
    ensures Offset(page) < total
  {
  }

  /** One numbered pager link. */
  datatype PageLink = PageLink(number: int, active: bool)

  datatype Pager = Hidden | Shown(prevDisabled: bool, links: seq<PageLink>, nextDisabled: bool)

  /** The pager as written: shown for more than one page, one link per page in order. */
  method BuildPager(page: int, totalPages: nat) returns (pager: Pager)
    ensures pager == PagerFor(page, totalPages)
  {
    if totalPages <= 1 {
      return Hidden;
    }
    var links: seq<PageLink> := [];
    var i := 1;
    while i <= totalPages
      invariant 1 <= i <= totalPages + 1
      invariant links == PageLinks(page, i - 1)
    {
      links := links + [PageLink(i, page == i)];
      i := i + 1;
    }
    pager := Shown(page <= 1, links, page >= totalPages);
  }

  /** The links to pages 1 to `n`. */
  function PageLinks(page: int, n: nat): (r: seq<PageLink>)
    ensures |r| == n
    decreases n
  {
    if n == 0 then [] else PageLinks(page, n - 1) + [PageLink(n, page == n)]
  }

  function PagerFor(page: int, totalPages: nat): Pager {
    if totalPages > 1 then Shown(page <= 1, PageLinks(page, totalPages), page >= totalPages) else Hidden
  }

  /**
   * The pager shows iff there is more than one page; Previous is disabled
   * iff the page is at most 1, Next iff it is at least the last; link `k`
   * goes to page `k + 1` and is active iff that is the current page.
   */
  lemma {:induction false} PagerStates(page: int, totalPages: nat)
    ensures PagerFor(page, totalPages).Shown? <==> totalPages > 1
    ensures PagerFor(page, totalPages).Shown? ==>
      var p := PagerFor(page, totalPages);
      && (p.prevDisabled <==> page <= 1)
      && (p.nextDisabled <==> page >= totalPages)
      && forall k :: 0 <= k < |p.links| ==> p.links[k] == PageLink(k + 1, page == k + 1)
  {
    if totalPages > 1 {
      PageLinksNumbered(page, totalPages);
    }
  }

  lemma {:induction false} PageLinksNumbered(page: int, n: nat)
    ensures forall k :: 0 <= k < n ==> PageLinks(page, n)[k] == PageLink(k + 1, page == k + 1)
    decreases n
  {
    if n > 0 {
      PageLinksNumbered(page, n - 1);
    }
  }
}
