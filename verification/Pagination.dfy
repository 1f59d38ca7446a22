/** pkg/pagination, and the pages that LIMIT and OFFSET cut with it. */
module Pagination {
  import opened Common

  const MAX_PER_PAGE := 100

  /** Go's / and %, which truncate toward zero. */
  function Quotient(a: int, b: int): int
    requires b != 0
  {
    if a >= 0 then a / b else -(-a / b)
  }

  function Remainder(a: int, b: int): int
    requires b != 0
  {
    a - Quotient(a, b) * b
  }

  /** The quotient is cut toward zero: what remains is smaller than the divisor and on the dividend's side. */
  lemma QuotientTruncates(a: int, b: int)
    requires b > 0
    ensures var q, r := Quotient(a, b), Remainder(a, b);
      a == q * b + r && -b < r < b && (a >= 0 ==> r >= 0) && (a <= 0 ==> r <= 0)
  {
    if a >= 0 {
      assert a == a / b * b + a % b;
    } else {
      assert -a == -a / b * b + -a % b;
      assert Quotient(a, b) * b == -(-a / b * b);
    }
  }

  datatype Params = Params(page: int, perPage: int)
  {
    function Offset(): int { (page - 1) * perPage }

    function Limit(): int { perPage }
  }

  /** The two query parameters as numbers, if they are any; what is missing counts as its default. */
  function Parse(page: Option<int>, perPage: Option<int>): Option<Params>
  {
    if page.None? || perPage.None? || page.value < 1 || perPage.value < 1 || perPage.value > MAX_PER_PAGE then None
    else Some(Params(page.value, perPage.value))
  }

  /** What is accepted are numbers from one, no more than a hundred rows a page, and they are taken as they are. */
  lemma ParseIff(page: Option<int>, perPage: Option<int>, p: Params)
    ensures Parse(page, perPage) == Some(p) <==>
      page == Some(p.page) && perPage == Some(p.perPage) && 1 <= p.page && 1 <= p.perPage <= 100
  {
  }

  function TotalPages(total: int, perPage: int): int
  {
    if perPage <= 0 then 0
    else Quotient(total, perPage) + if Remainder(total, perPage) != 0 then 1 else 0
  }

  /** The least number of pages that holds them all. */
  lemma TotalPagesIs(total: nat, perPage: int, pages: int)
    requires perPage >= 1
    ensures pages == TotalPages(total, perPage) <==> (pages - 1) * perPage < total <= pages * perPage
  {
    var t := TotalPages(total, perPage);
    assert t * perPage == total / perPage * perPage + if total % perPage != 0 then perPage else 0;
    if (pages - 1) * perPage < total <= pages * perPage {
      Between(t, pages, perPage);
      Between(pages, t, perPage);
    }
  }

  lemma NoPages(total: int, perPage: int)
    requires perPage <= 0
    ensures TotalPages(total, perPage) == 0
  {
  }

  lemma TimesMonotone(a: int, b: int, n: int)
    requires a <= b && n >= 0
    ensures a * n <= b * n
  {
    assert (b - a) * n >= 0;
  }

  lemma Between(a: int, b: int, n: int)
    requires n >= 1 && (a - 1) * n < b * n
    ensures a <= b
  {
    if a > b {
      TimesMonotone(b, a - 1, n);
    }
  }

  /** The listing's own ceiling formula gives the same number. */
  lemma {:induction false} CeilingAgrees(total: nat, perPage: int)
    requires perPage >= 1
    ensures TotalPages(total, perPage) == Quotient(total + perPage - 1, perPage)
  {
    var q := (total + perPage - 1) / perPage;
    assert q * perPage <= total + perPage - 1 < (q + 1) * perPage;
    TotalPagesIs(total, perPage, q);
  }

  // ---- pages ----

  /** LIMIT and OFFSET. */
  function Select<T>(rows: seq<T>, limit: int, offset: int): seq<T>
    requires limit >= 0 && offset >= 0
  {
    if offset >= |rows| then [] else if offset + limit >= |rows| then rows[offset..] else rows[offset..offset + limit]
  }

  function PageOf<T>(rows: seq<T>, p: Params): seq<T>
    requires p.page >= 1 && p.perPage >= 1
  {
    OffsetNotNegative(p);
    Select(rows, p.Limit(), p.Offset())
  }

  lemma OffsetNotNegative(p: Params)
    requires p.page >= 1 && p.perPage >= 1
    ensures p.Offset() >= 0
  {
  }

  /** The first n pages, one after the other. */
  function Pages<T>(rows: seq<T>, perPage: int, n: nat): seq<T>
    requires perPage >= 1
  {
    if n == 0 then [] else Pages(rows, perPage, n - 1) + PageOf(rows, Params(n, perPage))
  }

  function Min(a: int, b: int): int { if a < b then a else b }

  lemma {:induction false} PagesArePrefix<T>(rows: seq<T>, perPage: int, n: nat)
    requires perPage >= 1
    ensures 0 <= n * perPage && Pages(rows, perPage, n) == rows[..Min(n * perPage, |rows|)]
  {
    if n > 0 {
      PagesArePrefix(rows, perPage, n - 1);
      assert n * perPage == (n - 1) * perPage + perPage;
    }
  }

  /** The pages put together are the list. */
  lemma PagesPartition<T>(rows: seq<T>, perPage: int)
    requires perPage >= 1
    ensures TotalPages(|rows|, perPage) >= 0 && Pages(rows, perPage, TotalPages(|rows|, perPage)) == rows
  {
    var t := TotalPages(|rows|, perPage);
    TotalPagesIs(|rows|, perPage, t);
    Between(0, t, perPage);
    PagesArePrefix(rows, perPage, t);
  }

  /** A page has rows exactly when its number is no more than the total, and all but the last are full. */
  lemma {:induction false} NonEmptyIff<T>(rows: seq<T>, p: Params)
    requires p.page >= 1 && p.perPage >= 1
    ensures PageOf(rows, p) != [] <==> p.page <= TotalPages(|rows|, p.perPage)
    ensures p.page < TotalPages(|rows|, p.perPage) ==> |PageOf(rows, p)| == p.perPage
  {
    var t := TotalPages(|rows|, p.perPage);
    TotalPagesIs(|rows|, p.perPage, t);
    OffsetNotNegative(p);
    SelectSize(rows, p.Limit(), p.Offset());
    if p.page <= t {
      TimesMonotone(p.page - 1, t - 1, p.perPage);
      if p.page < t {
        TimesMonotone(p.page, t - 1, p.perPage);
        assert p.page * p.perPage == p.Offset() + p.perPage;
      }
    } else {
      TimesMonotone(t, p.page - 1, p.perPage);
    }
  }

  lemma SelectSize<T>(rows: seq<T>, limit: int, offset: int)
    requires limit >= 1 && offset >= 0
    ensures Select(rows, limit, offset) != [] <==> offset < |rows|
    ensures offset + limit <= |rows| ==> |Select(rows, limit, offset)| == limit
  {
  }

  // ---- the 32-bit offset of the queries ----

  /** What a listing query returns: the offset is cut to 32 bits, and a negative one is refused. */
  function Served<T>(rows: seq<T>, p: Params): Option<seq<T>>
    requires 1 <= p.perPage <= MAX_PER_PAGE
  {
    if Int32(p.Offset()) < 0 then None else Some(Select(rows, Int32(p.Limit()), Int32(p.Offset())))
  }

  /** It is the page asked for exactly when the offset fits, or when it is cut to one that is also behind the list. */
  lemma ServedIff<T>(rows: seq<T>, p: Params)
    requires p.page >= 1 && 1 <= p.perPage <= MAX_PER_PAGE && |rows| < 0x8000_0000
    ensures Served(rows, p) == Some(PageOf(rows, p))
      <==> Int32(p.Offset()) == p.Offset() || Int32(p.Offset()) >= |rows|
  {
    OffsetNotNegative(p);
    var off := Int32(p.Offset());
    if off != p.Offset() {
      assert p.Offset() >= 0x8000_0000;
      assert PageOf(rows, p) == [];
      assert 0 <= off < |rows| ==> Select(rows, p.perPage, off) != [];
    }
  }

  /** Of a list that a 32-bit offset can reach the end of, every page there is is served. */
  lemma PagesFit<T>(rows: seq<T>, p: Params)
    requires 1 <= p.page <= TotalPages(|rows|, p.perPage) && 1 <= p.perPage <= MAX_PER_PAGE && |rows| < 0x8000_0000
    ensures 0 <= p.Offset() < |rows| && Int32(p.Offset()) == p.Offset() && Served(rows, p) == Some(PageOf(rows, p))
  {
    OffsetNotNegative(p);
    NonEmptyIff(rows, p);
    ServedIff(rows, p);
  }

  /** Far behind the list the offset wraps round: page 2^32 + 1 of a one-row list is that row again. */
  lemma OffsetCanWrap<T>(x: T)
    ensures var p := Params(0x1_0000_0001, 1);
      PageOf([x], p) == [] && Served([x], p) == Some([x])
  {
    assert Int32(0x1_0000_0000) == 0;
  }
}
