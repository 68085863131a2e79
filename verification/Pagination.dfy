/** Pages of an array: together they are the array, and the flags say where one stands. */
module Pagination {
  /** A JavaScript number that dividing by a zero limit may make infinite or not a number. */
  datatype Number = Finite(value: int) | Infinite | NotANumber

  datatype Meta = Meta(page: int, limit: int, total: nat, totalPages: Number, hasNextPage: bool, hasPreviousPage: bool)

  datatype Page<T> = Page(data: seq<T>, meta: Meta)

  /** `Math.ceil(total / limit)` */
  function CeilingOf(total: nat, limit: int): Number {
    if limit > 0 then Finite((total + limit - 1) / limit)
    else if limit < 0 then Finite(-(total / -limit))
    else if total > 0 then Infinite
    else NotANumber
  }

  /** No comparison with a number that is not one holds. */
  predicate Below(page: int, pages: Number) {
    match pages
    case Finite(n) => page < n
    case Infinite => true
    case NotANumber => false
  }

  function CreatePaginationMeta(page: int, limit: int, total: nat): Meta {
    var totalPages := CeilingOf(total, limit);
    Meta(page, limit, total, totalPages, Below(page, totalPages), page > 1)
  }

  /** An index into a sequence as `slice` reads it: negative ones count from the end, and both ends clamp. */
  function Clamp(index: int, length: nat): (r: nat)
    ensures r <= length
  {
    if index < 0 then (if length + index < 0 then 0 else length + index)
    else if index > length then length
    else index
  }

  function Slice<T>(items: seq<T>, start: int, end: int): seq<T> {
    var i, j := Clamp(start, |items|), Clamp(end, |items|);
    if i <= j then items[i..j] else []
  }

  function PaginateArray<T>(items: seq<T>, page: int, limit: int): Page<T> {
    var startIndex := (page - 1) * limit;
    Page(Slice(items, startIndex, startIndex + limit), CreatePaginationMeta(page, limit, |items|))
  }

  /** Pages 1 to `pages`, one after the other. */
  function Gathered<T>(items: seq<T>, limit: int, pages: nat): seq<T> {
    if pages == 0 then [] else Gathered(items, limit, pages - 1) + PaginateArray(items, pages, limit).data
  }

  /** The ceiling is the least number of pages that holds every item. */
  lemma CeilingIsLeast(total: nat, limit: int, pages: int)
    requires limit >= 1
    ensures CeilingOf(total, limit).Finite?
    ensures pages < CeilingOf(total, limit).value <==> pages * limit < total
  {
    var c := (total + limit - 1) / limit;
    assert c * limit <= total + limit - 1 < (c + 1) * limit by {
      assert total + limit - 1 == c * limit + (total + limit - 1) % limit;
    }
    if pages < c {
      Grows(pages, c - 1, limit);
    } else {
      Grows(c, pages, limit);
    }
  }

  lemma Grows(a: int, b: int, limit: int)
    requires a <= b && limit >= 0
    ensures a * limit <= b * limit
  {
    assert (b - a) * limit >= 0;
    assert b * limit == a * limit + (b - a) * limit;
  }

  /** A prefix and the slice that follows it are the longer prefix. */
  lemma OnePage<T>(items: seq<T>, start: nat, limit: nat)
    ensures items[..Clamp(start, |items|)] + Slice(items, start, start + limit) == items[..Clamp(start + limit, |items|)]
  {
  }

  lemma {:induction false} GatheredIsPrefix<T>(items: seq<T>, limit: int, pages: nat)
    requires limit >= 1
    ensures Gathered(items, limit, pages) == items[..if pages * limit < |items| then pages * limit else |items|]
  {
    if pages > 0 {
      GatheredIsPrefix(items, limit, pages - 1);
      Grows(0, pages - 1, limit);
      OnePage(items, (pages - 1) * limit, limit);
      assert pages * limit == (pages - 1) * limit + limit;
    }
  }

  /** Tiling: the pages 1 to `totalPages` put together are the array, for every array and every positive limit. */
  lemma PagesTile<T>(items: seq<T>, limit: int, page: int)
    requires limit >= 1
    ensures var pages := PaginateArray(items, page, limit).meta.totalPages;
            pages.Finite? && pages.value >= 0 && Gathered(items, limit, pages.value) == items
    ensures var meta := PaginateArray(items, page, limit).meta; meta.page == page && meta.limit == limit && meta.total == |items|
  {
    var n := CeilingOf(|items|, limit).value;
    CeilingIsLeast(|items|, limit, n);
    GatheredIsPrefix(items, limit, n);
  }

  /** `hasNextPage` holds exactly when the pages so far leave items out. */
  lemma NextPageIffItemsRemain<T>(items: seq<T>, page: nat, limit: int)
    requires limit >= 1
    ensures PaginateArray(items, page, limit).meta.hasNextPage <==> Gathered(items, limit, page) != items
  {
    CeilingIsLeast(|items|, limit, page);
    GatheredIsPrefix(items, limit, page);
    if page * limit < |items| {
      assert page * limit >= 0;
      assert |Gathered(items, limit, page)| < |items|;
    }
  }

  /** Which page numbers have items: the pages 1 to `totalPages`, and, since `slice` counts negative indices from the end, some negative ones. */
  lemma PageHasItemsExactly<T>(items: seq<T>, page: int, limit: int)
    requires limit >= 1
    ensures var pages := CeilingOf(|items|, limit);
            pages.Finite? &&
            (PaginateArray(items, page, limit).data != [] <==> 1 <= page <= pages.value || -pages.value < page < 0)
  {
    CeilingIsLeast(|items|, limit, page - 1);
    CeilingIsLeast(|items|, limit, -page);
    PageStart(page, limit);
    SliceHasItems(items, (page - 1) * limit, limit);
  }

  lemma PageStart(page: int, limit: int)
    requires limit >= 1
    ensures (page - 1) * limit + limit == page * limit == -((-page) * limit)
    ensures (page >= 1 <==> (page - 1) * limit >= 0) && (page < 0 <==> page * limit < 0)
  {
    if page >= 1 {
      Grows(0, page - 1, limit);
    } else {
      Grows(page - 1, -1, limit);
    }
    if page < 0 {
      Grows(page, -1, limit);
    } else {
      Grows(0, page, limit);
    }
  }

  /** A slice of positive width has items when it starts inside, or when both ends count from the end and the second is inside. */
  lemma SliceHasItems<T>(items: seq<T>, start: int, limit: int)
    requires limit >= 1 && (start >= 0 || start + limit <= 0)
    ensures Slice(items, start, start + limit) != [] <==> 0 <= start < |items| || (start + limit < 0 && -(start + limit) < |items|)
  {
  }

  /** `hasPreviousPage` holds exactly when the pages before this one hold items. */
  lemma PreviousPageIffItemsBefore<T>(items: seq<T>, page: int, limit: int)
    requires limit >= 1 && page >= 1 && items != []
    ensures PaginateArray(items, page, limit).meta.hasPreviousPage <==> Gathered(items, limit, page - 1) != []
  {
    GatheredIsPrefix(items, limit, page - 1);
    if page > 1 {
      Grows(1, page - 1, limit);
    }
  }

  /** A zero limit gives empty pages, and any item there is always lies ahead. */
  lemma ZeroLimit<T>(items: seq<T>, page: int)
    ensures PaginateArray(items, page, 0).data == []
    ensures PaginateArray(items, page, 0).meta.hasNextPage <==> items != []
  {
  }

  /** Below zero too, the number of pages is the least integer not below the quotient. */
  lemma NegativeLimit(total: nat, limit: int)
    requires limit < 0
    ensures CeilingOf(total, limit).Finite?
    ensures var pages := CeilingOf(total, limit).value; pages * limit <= total < (pages - 1) * limit
  {
    var q := total / -limit;
    assert total == q * -limit + total % -limit;
    assert (-q) * limit == q * -limit;
    assert (-q - 1) * limit == q * -limit - limit;
  }

  /** Negative page numbers count pages back from the end, leaving out the last `-page` pages. */
  lemma NegativePage<T>(items: seq<T>, page: int, limit: int)
    requires limit >= 1 && page < 0
    ensures var back, n := -page * limit, |items|;
            PaginateArray(items, page, limit).data == items[if back + limit < n then n - back - limit else 0..if back < n then n - back else 0]
  {
    PageStart(page, limit);
  }
}
