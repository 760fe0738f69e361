/**
 * The page arithmetic that getAllWalks, getWalkComments and getWalkReviews of
 * src/controllers/walksController.ts share: page and limit from the query string, the offset
 * of the page, the number of pages, and the flags (and, for walks, the links) to neighbouring pages.
 */
module Pagination {
  import opened Wrappers

  /** A query-string parameter as `Number(...)` and a truthiness test see it. */
  datatype QueryParam =
    | Missing              // undefined: Number gives NaN, the test fails
    | Empty                // "": Number gives 0, the test fails
    | Numeric(n: int)      // a numeral: Number gives n, the test passes
    | NonNumeric           // any other text: Number gives NaN, the test passes

  /** `Number(p) || d`: NaN and 0 fall back to `d`. */
  function NumberOr(p: QueryParam, d: int): int {
    if p.Numeric? && p.n != 0 then p.n else d
  }

  /** The raw parameter is a non-empty string (`if (limitParam)`). */
  predicate Supplied(p: QueryParam) {
    p.Numeric? || p.NonNumeric?
  }

  function Max(a: int, b: int): int { if a >= b then a else b }
  function Min(a: int, b: int): int { if a <= b then a else b }

  /** `Math.max(1, Number(pageParam) || 1)`. */
  function PageOf(p: QueryParam): (page: int)
    ensures page >= 1
    ensures p.Numeric? && p.n >= 1 ==> page == p.n
    ensures !(p.Numeric? && p.n >= 1) ==> page == 1
  {
    Max(1, NumberOr(p, 1))
  }

  /** `Math.max(1, Math.min(100, Number(limitParam) || 10))`. */
  function LimitOf(p: QueryParam): (limit: int)
    ensures 1 <= limit <= 100
    ensures p.Numeric? && 1 <= p.n <= 100 ==> limit == p.n
    ensures p.Numeric? && p.n > 100 ==> limit == 100
    ensures p.Numeric? && p.n < 0 ==> limit == 1
    ensures !p.Numeric? || p.n == 0 ==> limit == 10
  {
    Max(1, Min(100, NumberOr(p, 10)))
  }

  /** `Math.ceil(total / limit)`: the least number of pages of `limit` rows that hold `total` rows. */
  function CeilDiv(total: nat, limit: int): (pages: nat)
    requires limit >= 1
    ensures pages * limit >= total
    ensures pages == 0 || (pages - 1) * limit < total
  {
    (total + limit - 1) / limit
  }

  /** The pagination block of the response body. */
  datatype Info = Info(page: int, limit: int, offset: int, total: nat, totalPages: nat,
                       hasNext: bool, hasPrevious: bool)

  function Paginate(pageParam: QueryParam, limitParam: QueryParam, total: nat): Info {
    var page := PageOf(pageParam);
    var limit := LimitOf(limitParam);
    var totalPages := CeilDiv(total, limit);
    Info(page, limit, (page - 1) * limit, total, totalPages, page < totalPages, page > 1)
  }

  /** A link to a neighbouring page: its page number, and the limit when one was supplied. */
  datatype Link = Link(page: int, limit: Option<int>)

  datatype Links = Links(next: Option<Link>, previous: Option<Link>)

  /** `next` / `previous` of getAllWalks, without the scheme, host and path of the URL. */
  function LinksOf(info: Info, limitParam: QueryParam): (links: Links)
    ensures links.next.None? <==> !info.hasNext
    ensures links.previous.None? <==> !info.hasPrevious
    ensures links.next.Some? ==> links.next.value.page == info.page + 1
    ensures links.previous.Some? ==> links.previous.value.page == info.page - 1
    ensures forall l :: l in [links.next, links.previous] && l.Some? ==>
              l.value.limit == (if Supplied(limitParam) then Some(info.limit) else None)
  {
    var limit := if Supplied(limitParam) then Some(info.limit) else None;
    Links(if info.hasNext then Some(Link(info.page + 1, limit)) else None,
          if info.hasPrevious then Some(Link(info.page - 1, limit)) else None)
  }

  /** The page starts after the rows of all earlier pages, never before the first row. */
  lemma OffsetOfPage(pageParam: QueryParam, limitParam: QueryParam, total: nat)
    ensures var info := Paginate(pageParam, limitParam, total);
            info.offset >= 0 && info.offset == (info.page - 1) * info.limit
  {
    var info := Paginate(pageParam, limitParam, total);
    MulNonNegative(info.page - 1, info.limit);
  }

  lemma MulNonNegative(a: int, b: int)
    requires a >= 0 && b >= 0
    ensures a * b >= 0
  {
  }

  /** There is a next page exactly when rows remain after the current page. */
  lemma HasNextIffRowsRemain(pageParam: QueryParam, limitParam: QueryParam, total: nat)
    ensures var info := Paginate(pageParam, limitParam, total);
            info.hasNext <==> info.offset + info.limit < total
  {
    var info := Paginate(pageParam, limitParam, total);
    NextPageIff(info.page, info.limit, total, info.totalPages);
  }

  /** With `pages` the least number of pages of `limit` rows holding `total`, page `page` is not the last exactly when rows remain after it. */
  lemma NextPageIff(page: int, limit: int, total: nat, pages: nat)
    requires page >= 1 && limit >= 1
    requires pages * limit >= total && (pages == 0 || (pages - 1) * limit < total)
    ensures page < pages <==> (page - 1) * limit + limit < total
  {
    assert (page - 1) * limit + limit == page * limit;
    if page < pages {
      MulLe(page, pages - 1, limit);
    } else {
      MulLe(pages, page, limit);
    }
  }

  lemma MulLe(a: int, b: int, c: int)
    requires 0 <= a <= b && c >= 0
    ensures a * c <= b * c
  {
  }

  /** The current page holds at least one row exactly when its number is at most the number of pages. */
  lemma PageNonEmptyIff(pageParam: QueryParam, limitParam: QueryParam, total: nat)
    ensures var info := Paginate(pageParam, limitParam, total);
            info.offset < total <==> info.page <= info.totalPages
  {
    var info := Paginate(pageParam, limitParam, total);
    var p, l, t := info.page, info.limit, info.totalPages;
    if p <= t {
      MulLe(p - 1, t - 1, l);
    } else {
      MulLe(t, p - 1, l);
    }
  }

  /** Five rows, page 1, limit 2: three pages, a next page and no previous one. */
  lemma WorkedExample()
    ensures Paginate(Numeric(1), Numeric(2), 5) == Info(1, 2, 0, 5, 3, true, false)
  {
  }

  /** A missing, empty, zero or non-numeric page is page 1; a missing or zero limit is 10. */
  lemma Defaults(p: QueryParam, l: QueryParam, total: nat)
    requires p in {Missing, Empty, NonNumeric, Numeric(0)}
    requires l in {Missing, Empty, NonNumeric, Numeric(0)}
    ensures Paginate(p, l, total).page == 1 && Paginate(p, l, total).limit == 10
    ensures !Paginate(p, l, total).hasPrevious
  {
  }
}
