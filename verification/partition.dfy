/**
 * `organizeHistoriesMenu`: the first `MAX_COUNT` records are split into
 * pages of `NUMBER_OF_ITEMS_PER_GROUP` entries, each page labelled with
 * the 1-based range of records it holds.
 *
 * `Paginate` and `Partition` say what the pages are; the method
 * `OrganizeHistoriesMenu` builds them the way the source does, one record
 * at a time, opening a page whenever `i % n == 0`.
 */
module Pagination {

  import opened Base
  import opened Text
  import opened Menu

  /**
   * How many records a page holds. The source only divides by the setting,
   * so a negative setting behaves like its absolute value for `%`.
   */
  function PageSize(n: int): nat
  {
    if n < 0 then -n else n
  }

  /**
   * The first record of page `k` when pages hold `p` records: `k * p`,
   * counted one page at a time so that proofs about pages stay linear.
   */
  function PageStart(k: nat, p: nat): nat
  {
    if k == 0 then 0 else PageStart(k - 1, p) + p
  }

  lemma {:induction false} PageStartIsProduct(k: nat, p: nat)
    ensures PageStart(k, p) == k * p
  {
    if k > 0 {
      PageStartIsProduct(k - 1, p);
    }
  }

  /** Later pages start later, by at least a page. */
  lemma {:induction false} PageStartMonotonic(j: nat, k: nat, p: nat)
    requires j < k
    ensures PageStart(j, p) + p <= PageStart(k, p)
    decreases k
  {
    if j < k - 1 {
      PageStartMonotonic(j, k - 1, p);
    }
  }

  /** The number of pages of size `p` that `a` records fill, counted one page at a time. */
  function PageCount(a: int, p: int): nat
    requires p > 0
    decreases a
  {
    if a <= 0 then 0 else 1 + PageCount(a - p, p)
  }

  /** The page count is the least `c` with `c * p >= a`. */
  lemma {:induction false} PageCountBounds(a: int, p: int)
    requires p > 0
    ensures a <= 0 ==> PageCount(a, p) == 0
    ensures a > 0 ==> PageStart(PageCount(a, p) - 1, p) < a <= PageStart(PageCount(a, p), p)
    decreases a
  {
    if a > 0 && a - p > 0 {
      PageCountBounds(a - p, p);
      ShiftPageStart(PageCount(a - p, p) - 1, p);
    }
  }

  lemma ShiftPageStart(k: nat, p: nat)
    ensures PageStart(k + 1, p) == PageStart(k, p) + p
  {
  }

  /** The page count is `ceil(a / p)`. */
  lemma PageCountIsCeiling(a: int, p: int)
    requires p > 0 && a > 0
    ensures PageCount(a, p) == (a + p - 1) / p
  {
    var c := PageCount(a, p);
    PageCountBounds(a, p);
    PageStartIsProduct(c - 1, p);
    PageStartIsProduct(c, p);
    assert (c - 1) * p + p == c * p;
    DivInPage(a + p - 1, c, p);
  }

  /** One more record opens a new page exactly when the pages so far are full. */
  lemma {:induction false} PageCountStep(a: int, p: int)
    requires p > 0 && a >= 0
    ensures PageCount(a + 1, p) == PageCount(a, p) + (if a == PageStart(PageCount(a, p), p) then 1 else 0)
    decreases a
  {
    if a > 0 && a - p >= 0 {
      PageCountStep(a - p, p);
      ShiftPageStart(PageCount(a - p, p), p);
    }
  }

  lemma {:induction false} MulAtLeast(a: int, d: int)
    requires a > 0 && d >= 1
    ensures a * d >= a
    decreases d
  {
    if d > 1 {
      MulAtLeast(a, d - 1);
      assert a * d == a * (d - 1) + a;
    }
  }

  /** A non-zero multiple of `n` is at least `|n|` away from zero. */
  lemma MultipleBound(n: int, d: int)
    requires n != 0
    ensures d == 0 || n * d >= PageSize(n) || -(n * d) >= PageSize(n)
  {
    if d == 0 {
    } else if n > 0 && d > 0 {
      MulAtLeast(n, d);
    } else if n > 0 {
      MulAtLeast(n, -d);
      assert n * -d == -(n * d);
    } else if d > 0 {
      MulAtLeast(-n, d);
      assert -n * d == -(n * d);
    } else {
      MulAtLeast(-n, -d);
      assert -n * -d == n * d;
    }
  }

  /**
   * Euclidean division by `n` of a number lying in the `k`-th block of
   * `|n|` numbers: the remainder is the offset into the block.
   */
  lemma DivInPage(i: int, k: int, n: int)
    requires n != 0 && 0 <= k
    requires k * PageSize(n) <= i < k * PageSize(n) + PageSize(n)
    ensures i % n == i - k * PageSize(n)
    ensures i / n == if n > 0 then k else -k
  {
    var p := PageSize(n);
    var s := if n > 0 then k else -k;
    var q := i / n;
    var r := i % n;
    assert k * p == n * s;
    assert n * q + r == i;
    assert n * (q - s) == n * q - n * s;
    assert n * (q - s) == (i - k * p) - r;
    MultipleBound(n, q - s);
  }

  /**
   * What `i % n` says about record `i` when `c` pages are open: it is zero
   * exactly when the open pages are full, and otherwise it is the offset of
   * record `i` into the last page.
   */
  lemma RemainderAt(i: int, c: nat, n: int)
    requires n != 0 && i >= 0
    requires if i == 0 then c == 0 else c == PageCount(i, PageSize(n))
    ensures var p := PageSize(n);
      && (i % n == 0 <==> i == PageStart(c, p))
      && (i % n == 0 ==> (i / n) * n == i)
      && (i % n != 0 ==> 0 < c && i % n == i - PageStart(c - 1, p) && i < PageStart(c - 1, p) + p)
      && PageCount(i + 1, p) == c + (if i % n == 0 then 1 else 0)
  {
    var p := PageSize(n);
    PageCountBounds(i, p);
    PageCountStep(i, p);
    if i == PageStart(c, p) {
      PageStartIsProduct(c, p);
      DivInPage(i, c, n);
    } else {
      PageStartIsProduct(c - 1, p);
      DivInPage(i, c - 1, n);
    }
  }

  /**
   * The upper bound shown on the page opened at record `start`:
   * `(start / n) * n + delta`, where `delta` is `n` unless fewer than `n`
   * records remain.
   */
  function UpperLimit(start: int, total: int, n: int): int
  {
    if total - start < n then total else start + n
  }

  /** Entries numbered from 1 within their page, one per record. */
  function NumberedEntries(rs: seq<Record>, maxTitle: int, h: Handler): seq<Entry>
    requires rs != [] ==> maxTitle >= 0
  {
    seq(|rs|, j requires 0 <= j < |rs| => Entry(Some(j + 1), MenuTitle(rs[j].content, maxTitle), rs[j].id, h))
  }

  /** The page opened at record `start`, holding records `start` up to `end`. */
  function MakePage(items: seq<Record>, start: int, end: int, total: int, n: int, maxTitle: int, h: Handler): Page
    requires 0 <= start <= end <= |items| && maxTitle >= 0
  {
    Page(start + 1, UpperLimit(start, total, n), NumberedEntries(items[start..end], maxTitle, h))
  }

  /**
   * The pages holding records `from` up to `upto`, one full page after
   * another, the last one possibly short; `total` is the number of
   * records the whole menu shows, which bounds the range each page is
   * labelled with.
   */
  function Paginate(items: seq<Record>, from: int, upto: int, total: int, n: int, maxTitle: int, h: Handler): seq<Page>
    requires 0 <= from <= upto <= |items| && n != 0 && maxTitle >= 0
    decreases upto - from
  {
    if from == upto then []
    else
      var end := Min(from + PageSize(n), upto);
      [MakePage(items, from, end, total, n, maxTitle, h)] + Paginate(items, end, upto, total, n, maxTitle, h)
  }

  /** `totalItems`: how many of `count` records the menu shows. */
  function Total(count: int, cfg: Config): int
  {
    Min(count, cfg.maxCount)
  }

  /**
   * When the source does not throw: once any record is shown, `i % n`
   * needs `n != 0` and `Substring(0, MAX_MENU_TITLE)` a non-negative length.
   */
  predicate CanPartition(count: int, cfg: Config)
  {
    Total(count, cfg) > 0 ==> cfg.itemsPerGroup != 0 && cfg.maxMenuTitle >= 0
  }

  /** The pages `organizeHistoriesMenu` adds for `items`. */
  function Partition(items: seq<Record>, cfg: Config, h: Handler): seq<Page>
    requires CanPartition(|items|, cfg)
  {
    var total := Total(|items|, cfg);
    if total <= 0 then [] else Paginate(items, 0, total, total, cfg.itemsPerGroup, cfg.maxMenuTitle, h)
  }

  /** `Paginate` has one page per started block of `|n|` records. */
  lemma {:induction false} PaginateLength(items: seq<Record>, from: int, upto: int, total: int, n: int, maxTitle: int,
                                          h: Handler)
    requires 0 <= from <= upto <= |items| && n != 0 && maxTitle >= 0
    ensures |Paginate(items, from, upto, total, n, maxTitle, h)| == PageCount(upto - from, PageSize(n))
    decreases upto - from
  {
    if from < upto {
      var end := Min(from + PageSize(n), upto);
      PaginateLength(items, end, upto, total, n, maxTitle, h);
    }
  }

  /** Page `k` of `Paginate` is the one opened at record `start == from + k * |n|`. */
  lemma {:induction false} PaginateAt(items: seq<Record>, from: int, upto: int, total: int, n: int, maxTitle: int,
                                      h: Handler, k: int, start: int)
    requires 0 <= from <= upto <= |items| && n != 0 && maxTitle >= 0
    requires 0 <= k < |Paginate(items, from, upto, total, n, maxTitle, h)|
    requires start == from + PageStart(k, PageSize(n))
    ensures start < upto
    ensures Paginate(items, from, upto, total, n, maxTitle, h)[k]
            == MakePage(items, start, Min(start + PageSize(n), upto), total, n, maxTitle, h)
    decreases upto - from
  {
    var p := PageSize(n);
    var end := Min(from + p, upto);
    var ps := Paginate(items, from, upto, total, n, maxTitle, h);
    var rest := Paginate(items, end, upto, total, n, maxTitle, h);
    assert ps == [MakePage(items, from, end, total, n, maxTitle, h)] + rest;
    if k > 0 {
      PaginateAt(items, end, upto, total, n, maxTitle, h, k - 1, start);
      assert ps[k] == rest[k - 1];
    }
  }

  /** The tags of the pages are the ids of records `from` up to `upto`, in order. */
  lemma {:induction false} PaginateTags(items: seq<Record>, from: int, upto: int, total: int, n: int, maxTitle: int,
                                        h: Handler)
    requires 0 <= from <= upto <= |items| && n != 0 && maxTitle >= 0
    ensures PageTags(Paginate(items, from, upto, total, n, maxTitle, h)) == Ids(items[from..upto])
    decreases upto - from
  {
    if from < upto {
      var end := Min(from + PageSize(n), upto);
      var ps := Paginate(items, from, upto, total, n, maxTitle, h);
      PaginateTags(items, end, upto, total, n, maxTitle, h);
      assert ps[1..] == Paginate(items, end, upto, total, n, maxTitle, h);
      assert Tags(ps[0].entries) == Ids(items[from..end]);
      assert items[from..upto] == items[from..end] + items[end..upto];
      IdsAppend(items[from..end], items[end..upto]);
    }
  }

  lemma IdsAppend(a: seq<Record>, b: seq<Record>)
    ensures Ids(a + b) == Ids(a) + Ids(b)
  {
  }

  /** The entry `organizeHistoriesMenu` adds for record `i`, numbered `number`. */
  function EntryFor(items: seq<Record>, i: int, number: int, maxTitle: int, h: Handler): Entry
    requires 0 <= i < |items| && maxTitle >= 0
  {
    Entry(Some(number), MenuTitle(items[i].content, maxTitle), items[i].id, h)
  }

  /** Adding the next record to a page appends its entry, numbered after the others. */
  lemma MakePageExtend(items: seq<Record>, start: int, end: int, total: int, n: int, maxTitle: int, h: Handler)
    requires 0 <= start <= end < |items| && maxTitle >= 0
    ensures var pg := MakePage(items, start, end, total, n, maxTitle, h);
      MakePage(items, start, end + 1, total, n, maxTitle, h)
      == pg.(entries := pg.entries + [EntryFor(items, end, end - start + 1, maxTitle, h)])
  {
    var es := NumberedEntries(items[start..end], maxTitle, h);
    var es' := NumberedEntries(items[start..end + 1], maxTitle, h);
    assert es' == es + [EntryFor(items, end, end - start + 1, maxTitle, h)];
  }

  lemma ConcatAssociative<T>(a: seq<T>, b: seq<T>, c: seq<T>)
    ensures a + (b + c) == (a + b) + c
  {
  }

  /** Records that fit in one page make up a single page. */
  lemma PaginateOnePage(items: seq<Record>, from: int, upto: int, total: int, n: int, maxTitle: int, h: Handler)
    requires 0 <= from < upto <= |items| && n != 0 && maxTitle >= 0 && upto <= from + PageSize(n)
    ensures Paginate(items, from, upto, total, n, maxTitle, h) == [MakePage(items, from, upto, total, n, maxTitle, h)]
  {
    assert Paginate(items, upto, upto, total, n, maxTitle, h) == [];
  }

  /**
   * The pages for a range split at a page boundary `b`, `j` pages after
   * `from`, are the pages before `b` followed by the pages from `b` on.
   */
  lemma {:induction false} PaginateSplit(items: seq<Record>, from: int, j: nat, upto: int, total: int, n: int,
                                         maxTitle: int, h: Handler)
    requires 0 <= from && from + PageStart(j, PageSize(n)) <= upto <= |items| && n != 0 && maxTitle >= 0
    ensures var b := from + PageStart(j, PageSize(n));
      Paginate(items, from, upto, total, n, maxTitle, h)
      == Paginate(items, from, b, total, n, maxTitle, h) + Paginate(items, b, upto, total, n, maxTitle, h)
    decreases j
  {
    var p := PageSize(n);
    var b := from + PageStart(j, p);
    if j > 0 {
      PageStartMonotonic(0, j, p);
      var first := MakePage(items, from, from + p, total, n, maxTitle, h);
      var before := Paginate(items, from + p, b, total, n, maxTitle, h);
      var after := Paginate(items, b, upto, total, n, maxTitle, h);
      assert Paginate(items, from, upto, total, n, maxTitle, h) == [first] + Paginate(items, from + p, upto, total, n, maxTitle, h);
      assert Paginate(items, from, b, total, n, maxTitle, h) == [first] + before;
      PaginateSplit(items, from + p, j - 1, upto, total, n, maxTitle, h);
      ConcatAssociative([first], before, after);
    } else {
      assert Paginate(items, from, from, total, n, maxTitle, h) == [];
    }
  }

  /**
   * A turn of the loop of `organizeHistoriesMenu` with `i % n == 0`: the
   * page it opens is labelled `1 + i` to `(i / n) * n + delta`, where
   * `delta` is `n` unless fewer records remain, and holds record `i`,
   * numbered 1.
   */
  lemma LoopTurnOpens(items: seq<Record>, i: int, total: int, n: int, maxTitle: int, h: Handler)
    requires 0 <= i < total <= |items| && n != 0 && maxTitle >= 0 && i % n == 0
    ensures var delta := if total - i < n then total - i else n;
      Paginate(items, 0, i + 1, total, n, maxTitle, h)
      == Paginate(items, 0, i, total, n, maxTitle, h) + [Page(1 + i, (i / n) * n + delta, [EntryFor(items, i, 1, maxTitle, h)])]
  {
    var ps := Paginate(items, 0, i, total, n, maxTitle, h);
    PaginateLength(items, 0, i, total, n, maxTitle, h);
    RemainderAt(i, |ps|, n);
    PaginateSplit(items, 0, |ps|, i + 1, total, n, maxTitle, h);
    PaginateOnePage(items, i, i + 1, total, n, maxTitle, h);
    MakePageExtend(items, i, i, total, n, maxTitle, h);
    var delta := if total - i < n then total - i else n;
    assert (i / n) * n + delta == UpperLimit(i, total, n);
    assert MakePage(items, i, i, total, n, maxTitle, h) == Page(1 + i, (i / n) * n + delta, []);
    assert MakePage(items, i, i + 1, total, n, maxTitle, h) == Page(1 + i, (i / n) * n + delta, [EntryFor(items, i, 1, maxTitle, h)]);
  }

  /** The pages up to `upto` within the page opened at page boundary `s`: those before `s`, then that page. */
  lemma SplitAtLastPage(items: seq<Record>, j: nat, upto: int, total: int, n: int, maxTitle: int, h: Handler)
    requires n != 0 && maxTitle >= 0 && upto <= |items|
    requires PageStart(j, PageSize(n)) < upto <= PageStart(j, PageSize(n)) + PageSize(n)
    ensures var s := PageStart(j, PageSize(n));
      Paginate(items, 0, upto, total, n, maxTitle, h)
      == Paginate(items, 0, s, total, n, maxTitle, h) + [MakePage(items, s, upto, total, n, maxTitle, h)]
  {
    var s := PageStart(j, PageSize(n));
    PaginateSplit(items, 0, j, upto, total, n, maxTitle, h);
    PaginateOnePage(items, s, upto, total, n, maxTitle, h);
  }

  /**
   * While record `i` is not the first of a page, the pages up to `i` and
   * up to `i + 1` share all pages but the last, which is the page opened
   * at record `s == i - i % n` and holds the records from `s` on.
   */
  lemma LastPageSplit(items: seq<Record>, i: int, total: int, n: int, maxTitle: int, h: Handler) returns (s: int)
    requires 0 <= i < total <= |items| && n != 0 && maxTitle >= 0 && i % n != 0
    ensures 0 <= s < i && i - s == i % n
    ensures Paginate(items, 0, i, total, n, maxTitle, h)
      == Paginate(items, 0, s, total, n, maxTitle, h) + [MakePage(items, s, i, total, n, maxTitle, h)]
    ensures Paginate(items, 0, i + 1, total, n, maxTitle, h)
      == Paginate(items, 0, s, total, n, maxTitle, h) + [MakePage(items, s, i + 1, total, n, maxTitle, h)]
  {
    var c := |Paginate(items, 0, i, total, n, maxTitle, h)|;
    PaginateLength(items, 0, i, total, n, maxTitle, h);
    RemainderAt(i, c, n);
    s := PageStart(c - 1, PageSize(n));
    SplitAtLastPage(items, c - 1, i, total, n, maxTitle, h);
    SplitAtLastPage(items, c - 1, i + 1, total, n, maxTitle, h);
  }

  /**
   * A turn of the loop of `organizeHistoriesMenu` with `i % n != 0`:
   * record `i` joins the last page, numbered `i % n + 1`.
   */
  lemma LoopTurnJoins(items: seq<Record>, i: int, total: int, n: int, maxTitle: int, h: Handler)
    requires 0 <= i < total <= |items| && n != 0 && maxTitle >= 0 && i % n != 0
    ensures var ps := Paginate(items, 0, i, total, n, maxTitle, h);
      && ps != []
      && var last := ps[|ps| - 1];
         Paginate(items, 0, i + 1, total, n, maxTitle, h)
         == ps[..|ps| - 1] + [last.(entries := last.entries + [EntryFor(items, i, i % n + 1, maxTitle, h)])]
  {
    var s := LastPageSplit(items, i, total, n, maxTitle, h);
    var ps := Paginate(items, 0, i, total, n, maxTitle, h);
    var full := Paginate(items, 0, s, total, n, maxTitle, h);
    assert ps[..|ps| - 1] == full;
    MakePageExtend(items, s, i, total, n, maxTitle, h);
    assert i - s + 1 == i % n + 1;
  }

  /**
   * One turn of the loop of `organizeHistoriesMenu`, written as the source
   * does it: with `r == i % n`, a page labelled `1 + i` to
   * `(i / n) * n + delta` is opened when `r == 0`, and record `i` is added
   * to the last page, numbered `r + 1`. The result is the pages for one
   * more record.
   */
  lemma LoopTurn(items: seq<Record>, i: int, total: int, n: int, maxTitle: int, h: Handler,
                 ps: seq<Page>, grown: seq<Page>, entry: Entry)
    requires 0 <= i < total <= |items| && n != 0 && maxTitle >= 0
    requires ps == Paginate(items, 0, i, total, n, maxTitle, h)
    requires var delta := if total - i < n then total - i else n;
      grown == if i % n == 0 then ps + [Page(1 + i, (i / n) * n + delta, [])] else ps
    requires entry == Entry(Some(i % n + 1), MenuTitle(items[i].content, maxTitle), items[i].id, h)
    ensures grown != []
    ensures var menu := grown[|grown| - 1];
      grown[..|grown| - 1] + [menu.(entries := menu.entries + [entry])] == Paginate(items, 0, i + 1, total, n, maxTitle, h)
  {
    if i % n == 0 {
      LoopTurnOpens(items, i, total, n, maxTitle, h);
      var delta := if total - i < n then total - i else n;
      var menu := grown[|grown| - 1];
      assert grown[..|grown| - 1] == ps;
      assert EntryFor(items, i, 1, maxTitle, h) == entry;
      assert menu.(entries := menu.entries + [entry]) == Page(1 + i, (i / n) * n + delta, [entry]);
    } else {
      LoopTurnJoins(items, i, total, n, maxTitle, h);
      assert EntryFor(items, i, i % n + 1, maxTitle, h) == entry;
    }
  }

  /**
   * `organizeHistoriesMenu` as the source runs it. `pages` stands for the
   * parent menu's items; the page the source keeps adding to through its
   * `menu` reference is the last one of `pages`.
   */
  method OrganizeHistoriesMenu(items: seq<Record>, cfg: Config, h: Handler) returns (pages: seq<Page>)
    requires CanPartition(|items|, cfg)
    ensures pages == Partition(items, cfg, h)
  {
    var n := cfg.itemsPerGroup;
    var totalItems := Min(|items|, cfg.maxCount);
    pages := [];
    var i := 0;
    while i < totalItems
      invariant 0 <= i && (i <= totalItems || i == 0)
      invariant i == 0 ==> pages == []
      invariant totalItems > 0 ==> pages == Paginate(items, 0, i, totalItems, n, cfg.maxMenuTitle, h)
    {
      ghost var before := pages;
      var remainent := i % n;
      if remainent == 0 {
        var delta := n;
        if totalItems - i < n {
          delta := totalItems - i;
        }
        var upperLimit := (i / n) * n + delta;
        pages := pages + [Page(1 + i, upperLimit, [])];
      }
      var entry := Entry(Some(remainent + 1), MenuTitle(items[i].content, cfg.maxMenuTitle), items[i].id, h);
      LoopTurn(items, i, totalItems, n, cfg.maxMenuTitle, h, before, pages, entry);
      var menu := pages[|pages| - 1];
      pages := pages[..|pages| - 1] + [menu.(entries := menu.entries + [entry])];
      i := i + 1;
    }
  }

  /** Nothing is shown when `min(count, MAX_COUNT)` is not positive; otherwise there are `ceil(total / |n|)` pages. */
  lemma PartitionLength(items: seq<Record>, cfg: Config, h: Handler)
    requires CanPartition(|items|, cfg)
    ensures var total := Total(|items|, cfg);
      var p := PageSize(cfg.itemsPerGroup);
      && (total <= 0 ==> Partition(items, cfg, h) == [])
      && (total > 0 ==> |Partition(items, cfg, h)| == (total + p - 1) / p)
  {
    var total := Total(|items|, cfg);
    if total > 0 {
      PaginateLength(items, 0, total, total, cfg.itemsPerGroup, cfg.maxMenuTitle, h);
      PageCountIsCeiling(total, PageSize(cfg.itemsPerGroup));
    }
  }

  /**
   * Page `k` starts at record `s == k * |n|` and is labelled from `s + 1`.
   * Every page but the last holds `|n|` entries, and the last one the
   * rest, so no record at or after `total` is shown.
   */
  lemma PartitionPageBounds(items: seq<Record>, cfg: Config, h: Handler, k: int)
    requires CanPartition(|items|, cfg)
    requires 0 <= k < |Partition(items, cfg, h)|
    ensures var total := Total(|items|, cfg);
      var p := PageSize(cfg.itemsPerGroup);
      var s := k * p;
      var page := Partition(items, cfg, h)[k];
      && 0 <= s < total <= |items|
      && page.lower == s + 1 && page.upper == UpperLimit(s, total, cfg.itemsPerGroup)
      && |page.entries| == (if k < |Partition(items, cfg, h)| - 1 then p else total - s)
      && 0 < |page.entries| <= p && s + |page.entries| <= total
  {
    var total := Total(|items|, cfg);
    var n := cfg.itemsPerGroup;
    var p := PageSize(n);
    var ps := Partition(items, cfg, h);
    PaginateAt(items, 0, total, total, n, cfg.maxMenuTitle, h, k, PageStart(k, p));
    PageStartIsProduct(k, p);
    PaginateLength(items, 0, total, total, n, cfg.maxMenuTitle, h);
    PageCountBounds(total, p);
    ShiftPageStart(k, p);
    if k < |ps| - 1 {
      PageStartMonotonic(k, |ps| - 1, p);
    }
  }

  /** Entry `j` of page `k` is record `k * |n| + j`, numbered `j + 1` and tagged with that record's id. */
  lemma PartitionPageEntries(items: seq<Record>, cfg: Config, h: Handler, k: int)
    requires CanPartition(|items|, cfg)
    requires 0 <= k < |Partition(items, cfg, h)|
    ensures var s := k * PageSize(cfg.itemsPerGroup);
      var page := Partition(items, cfg, h)[k];
      && 0 <= s && s + |page.entries| <= |items|
      && forall j :: 0 <= j < |page.entries| ==>
           page.entries[j] == Entry(Some(j + 1), MenuTitle(items[s + j].content, cfg.maxMenuTitle), items[s + j].id, h)
  {
    var total := Total(|items|, cfg);
    var p := PageSize(cfg.itemsPerGroup);
    PaginateAt(items, 0, total, total, cfg.itemsPerGroup, cfg.maxMenuTitle, h, k, PageStart(k, p));
    PageStartIsProduct(k, p);
  }

  /**
   * With a positive page size, page `k` is labelled `k * n + 1` to
   * `min(k * n + n, total)`; it ends one before the next page begins, or,
   * when it is the last page, at `total`.
   */
  lemma PartitionLabel(items: seq<Record>, cfg: Config, h: Handler, k: int)
    requires CanPartition(|items|, cfg) && cfg.itemsPerGroup > 0
    requires 0 <= k < |Partition(items, cfg, h)|
    ensures var ps := Partition(items, cfg, h);
      var total := Total(|items|, cfg);
      var n := cfg.itemsPerGroup;
      && ps[k].lower == k * n + 1 && ps[k].upper == Min(k * n + n, total)
      && (k < |ps| - 1 ==> ps[k].upper + 1 == ps[k + 1].lower)
      && (k == |ps| - 1 ==> ps[k].upper == total)
  {
    var ps := Partition(items, cfg, h);
    var n := cfg.itemsPerGroup;
    assert PageSize(n) == n;
    PartitionPageBounds(items, cfg, h, k);
    if k < |ps| - 1 {
      PartitionPageBounds(items, cfg, h, k + 1);
      PageStartIsProduct(k, n);
      PageStartIsProduct(k + 1, n);
      ShiftPageStart(k, n);
    }
  }

  /** The labels of all pages together run from 1 to `total` without gap or overlap. */
  lemma PartitionLabels(items: seq<Record>, cfg: Config, h: Handler)
    requires CanPartition(|items|, cfg) && cfg.itemsPerGroup > 0
    ensures var ps := Partition(items, cfg, h);
      var total := Total(|items|, cfg);
      var n := cfg.itemsPerGroup;
      && (forall k :: 0 <= k < |ps| ==> ps[k].lower == k * n + 1 && ps[k].upper == Min(k * n + n, total))
      && (forall k :: 0 <= k < |ps| - 1 ==> ps[k].upper + 1 == ps[k + 1].lower)
      && (ps != [] ==> ps[0].lower == 1 && ps[|ps| - 1].upper == total)
  {
    var ps := Partition(items, cfg, h);
    var total := Total(|items|, cfg);
    var n := cfg.itemsPerGroup;
    forall k | 0 <= k < |ps|
      ensures ps[k].lower == k * n + 1 && ps[k].upper == Min(k * n + n, total)
      ensures k < |ps| - 1 ==> ps[k].upper + 1 == ps[k + 1].lower
    {
      PartitionLabel(items, cfg, h, k);
    }
    if ps != [] {
      PartitionLabel(items, cfg, h, 0);
      PartitionLabel(items, cfg, h, |ps| - 1);
    }
  }

  /**
   * Reading the tags of all pages in order gives the ids of the first
   * `total` records in their original order.
   */
  lemma PartitionTags(items: seq<Record>, cfg: Config, h: Handler)
    requires CanPartition(|items|, cfg)
    ensures var total := Total(|items|, cfg);
      PageTags(Partition(items, cfg, h)) == Ids(items[..if total < 0 then 0 else total])
  {
    var total := Total(|items|, cfg);
    if total > 0 {
      PaginateTags(items, 0, total, total, cfg.itemsPerGroup, cfg.maxMenuTitle, h);
      assert items[0..total] == items[..total];
    }
  }

  /**
   * Twenty-five records, ten to a page, at most a hundred shown: three
   * pages labelled 1 - 10, 11 - 20 and 21 - 25, the last one holding five
   * entries numbered 1 to 5.
   */
  lemma PartitionTwentyFive(items: seq<Record>, maxTitle: int, h: Handler)
    requires |items| == 25 && maxTitle >= 0
    ensures var ps := Partition(items, Config(100, maxTitle, 10), h);
      && |ps| == 3
      && ps[0].lower == 1 && ps[0].upper == 10
      && ps[1].lower == 11 && ps[1].upper == 20
      && ps[2].lower == 21 && ps[2].upper == 25
      && |ps[2].entries| == 5
      && forall j :: 0 <= j < 5 ==> ps[2].entries[j].number == Some(j + 1)
  {
    var cfg := Config(100, maxTitle, 10);
    PartitionLength(items, cfg, h);
    PartitionLabel(items, cfg, h, 0);
    PartitionLabel(items, cfg, h, 1);
    PartitionLabel(items, cfg, h, 2);
    PartitionPageBounds(items, cfg, h, 2);
    PartitionPageEntries(items, cfg, h, 2);
  }

  /** The same records with at most five shown: one page, labelled 1 - 5, with five entries. */
  lemma PartitionCappedAtFive(items: seq<Record>, maxTitle: int, h: Handler)
    requires |items| == 25 && maxTitle >= 0
    ensures var ps := Partition(items, Config(5, maxTitle, 10), h);
      && |ps| == 1 && ps[0].lower == 1 && ps[0].upper == 5 && |ps[0].entries| == 5
  {
    var cfg := Config(5, maxTitle, 10);
    PartitionLength(items, cfg, h);
    PartitionLabel(items, cfg, h, 0);
    PartitionPageBounds(items, cfg, h, 0);
  }
}
