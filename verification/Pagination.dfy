/** Page parameters, SQL offsets in 32-bit arithmetic, and page metadata. */
module Pagination {

  const U32_MAX := 0xFFFF_FFFF
  const TWO_32 := 0x1_0000_0000

  newtype U32 = x: int | 0 <= x < 0x1_0000_0000

  /** Query parameters, normalised in place before use. */
  class PaginationParams {
    var page: U32
    var pageSize: U32

    constructor (page: U32, pageSize: U32)
      ensures this.page == page && this.pageSize == pageSize
    {
      this.page, this.pageSize := page, pageSize;
    }

    /** Afterwards the page is at least 1 and the size within [1, 100]; parameters that were
        already acceptable are kept, and a size of 0 means the default of 20. */
    method Validate()
      modifies this
      ensures page >= 1 && 1 <= pageSize <= 100
      ensures old(page) >= 1 ==> page == old(page)
      ensures old(page) == 0 ==> page == 1
      ensures 1 <= old(pageSize) <= 100 ==> pageSize == old(pageSize)
      ensures old(pageSize) == 0 ==> pageSize == 20
      ensures old(pageSize) > 100 ==> pageSize == 100
    {
      if page < 1 {
        page := 1;
      }
      if pageSize < 1 {
        pageSize := 20;
      } else if pageSize > 100 {
        pageSize := 100;
      }
    }
  }

  /** `((page − 1) * page_size) as i64`: the product is taken in u32 and wraps. */
  function Offset(page: nat, size: nat): nat
    requires page >= 1
  {
    ((page - 1) * size) % TWO_32
  }

  /** `SELECT … OFFSET offset LIMIT size`. */
  function Slice<T>(data: seq<T>, offset: nat, size: nat): seq<T> {
    var from := if offset <= |data| then offset else |data|;
    var upto := if offset + size <= |data| then offset + size else |data|;
    data[from..upto]
  }

  function Page<T>(data: seq<T>, page: nat, size: nat): seq<T>
    requires page >= 1
  {
    Slice(data, Offset(page, size), size)
  }

  /** The page counter of the metadata: a ceiling taken on reals, cast to u32. */
  function TotalPages(items: int, size: nat): nat
    requires size >= 1
  {
    if items == 0 then 1 else ToU32(Ceil(items as real / size as real))
  }

  function Ceil(x: real): int {
    if x == x.Floor as real then x.Floor else x.Floor + 1
  }

  function ToU32(n: int): nat {
    if n < 0 then 0 else if n > U32_MAX then U32_MAX else n
  }

  datatype Meta = Meta(currentPage: nat, totalPages: nat, hasNext: bool, hasPrevious: bool)

  function MetaOf(page: nat, size: nat, items: int): Meta
    requires size >= 1
  {
    var pages := TotalPages(items, size);
    Meta(page, pages, page < pages, page > 1)
  }

  // ---------------------------------------------------------------- counting pages

  lemma FloorOf(x: real, n: int)
    requires n as real <= x < n as real + 1.0
    ensures x.Floor == n
  {
  }

  lemma Quotient(items: nat, size: nat)
    requires size >= 1
    ensures var q, r := items / size, items % size;
            && items == q * size + r && 0 <= r < size
            && (items as real / size as real).Floor == q
            && (items as real / size as real == q as real <==> r == 0)
  {
    var q, r := items / size, items % size;
    assert items == q * size + r;
    var x, s := items as real / size as real, size as real;
    RealQuotient(x, s, q, r, items);
    FloorOf(x, q);
  }

  lemma RealQuotient(x: real, s: real, q: nat, r: nat, items: nat)
    requires s > 0.0 && x == items as real / s && items as real == q as real * s + r as real && (r as real) < s
    ensures q as real <= x < q as real + 1.0
    ensures x == q as real <==> r == 0
  {
    assert x * s == items as real;
    var d := x - q as real;
    assert d * s == r as real;
    Fraction(d, s, r as real);
  }

  lemma Fraction(d: real, s: real, r: real)
    requires s > 0.0 && d * s == r && 0.0 <= r < s
    ensures 0.0 <= d < 1.0 && (d == 0.0 <==> r == 0.0)
  {
  }

  /** For a positive count within 32 bits the page count is integer ceiling division; an empty
      list still has one page. */
  lemma PagesAreCeiling(items: nat, size: nat)
    requires size >= 1
    ensures items == 0 ==> TotalPages(items, size) == 1
    ensures items > 0 ==> TotalPages(items, size) == ToU32((items + size - 1) / size)
    ensures 0 < items && (items + size - 1) / size <= U32_MAX ==>
              (TotalPages(items, size) - 1) * size < items <= TotalPages(items, size) * size
    ensures (items + size - 1) / size > 4294967295 ==> TotalPages(items, size) == 4294967295
  {
    if items > 0 {
      Quotient(items, size);
      CeilingDivision(items, size);
    }
  }

  lemma CeilingDivision(items: nat, size: nat)
    requires size >= 1 && items > 0
    ensures var c := (items + size - 1) / size;
            && c == items / size + (if items % size == 0 then 0 else 1)
            && (c - 1) * size < items <= c * size
  {
    var q, r := items / size, items % size;
    assert items == q * size + r;
    if r == 0 {
      DivideExactly(items + size - 1, size, q, size - 1);
      assert (q - 1) * size == q * size - size;
    } else {
      assert (q + 1) * size == q * size + size;
      DivideExactly(items + size - 1, size, q + 1, r - 1);
    }
  }

  lemma DivideExactly(n: nat, d: nat, q: int, r: nat)
    requires d >= 1 && n == q * d + r && r < d
    ensures n / d == q
  {
    NoMultiple(n / d - q, d, r - n % d);
  }

  lemma NoMultiple(k: int, d: nat, e: int)
    requires -(d as int) < e < d && k * d == e
    ensures k == 0
  {
    if k >= 1 {
      ProductBound(k - 1, d);
    } else if k <= -1 {
      ProductBound(-k - 1, d);
    }
  }

  lemma ProductBound(k: nat, d: nat)
    ensures 0 <= k * d && (k + 1) * d == k * d + d
  {
  }

  // ---------------------------------------------------------------- pages partition the data

  /** The first `k` pages, one after the other. */
  function Pages<T>(data: seq<T>, size: nat, k: nat): seq<T> {
    if k == 0 then [] else Pages(data, size, k - 1) + Page(data, k, size)
  }

  lemma OffsetExact(page: nat, size: nat)
    requires page >= 1
    ensures Offset(page, size) == (page - 1) * size <==> (page - 1) * size < TWO_32
  {
  }

  lemma Bigger(j: nat, k: nat, size: nat)
    requires j <= k
    ensures j * size <= k * size
  {
  }

  lemma {:induction false} PrefixOfPages<T>(data: seq<T>, size: nat, k: nat)
    requires k >= 1 ==> (k - 1) * size < TWO_32
    requires k >= 1 ==> (k - 1) * size <= |data|
    ensures Pages(data, size, k) == data[..if k * size <= |data| then k * size else |data|]
    decreases k
  {
    if k == 0 {
    } else {
      if k > 1 {
        Bigger(k - 2, k - 1, size);
      }
      PrefixOfPages(data, size, k - 1);
      OffsetExact(k, size);
      assert k * size == (k - 1) * size + size;
    }
  }

  /** The pages partition the data: as long as offsets fit 32 bits, pages 1 to `total_pages` in
      order are the whole list, each item once; the last page has no next one. */
  lemma PagesPartitionTheData<T>(data: seq<T>, size: nat)
    requires 1 <= size <= 100
    requires var n := (|data| + size - 1) / size; n <= U32_MAX && (n - 1) * size < TWO_32
    ensures var n := TotalPages(|data|, size);
            && n >= 1
            && Pages(data, size, n) == data
            && (forall k :: 1 <= k <= n ==> (MetaOf(k, size, |data|).hasNext <==> k != n))
            && (forall k :: 1 <= k <= n ==> (MetaOf(k, size, |data|).hasPrevious <==> k != 1))
            && (data != [] ==> Page(data, n, size) != [])
            && (forall k :: 1 <= k <= n ==> MetaOf(k, size, |data|).currentPage == k && MetaOf(k, size, |data|).totalPages == n)
  {
    var n := TotalPages(|data|, size);
    PagesAreCeiling(|data|, size);
    if data == [] {
      PrefixOfPages(data, size, 1);
    } else {
      PrefixOfPages(data, size, n);
      OffsetExact(n, size);
    }
  }

  /** On data without repetitions a page shows the items it should exactly if its true offset
      fits 32 bits: beyond that the offset wraps and the page repeats earlier items. */
  lemma PageIsRightExactly<T>(data: seq<T>, page: nat, size: nat)
    requires size >= 1 && page >= 1 && (page - 1) * size < |data|
    requires forall i, j :: 0 <= i < j < |data| ==> data[i] != data[j]
    ensures Page(data, page, size) == Slice(data, (page - 1) * size, size) <==> (page - 1) * size < 4294967296
  {
    var true', wrapped := (page - 1) * size, Offset(page, size);
    OffsetExact(page, size);
    if true' >= TWO_32 {
      assert wrapped < TWO_32;
      assert Slice(data, true', size)[0] == data[true'];
      assert Page(data, page, size)[0] == data[wrapped];
    }
  }
}
