/**
 * Keyset pagination: src/lib/pagination.ts with the list query of src/routes/projects.ts, and with the
 * audit-log query of src/routes/admin.ts, followed page by page over a table that may change in between.
 */
module Pagination {
  import opened Prelude

  /** Timestamps count microseconds, as the database stores them; ids are ordered as the database orders uuids. */
  datatype Row = Row(createdAt: int, id: nat)

  datatype Page = Page(data: seq<Row>, next: Option<Row>)

  /** The list query compares (created_at, id); the audit-log query compares created_at alone. */
  datatype Keyset = Composite | TimeOnly

  /** Rows reach the server as JavaScript dates, so a cursor carries whole milliseconds. */
  const CURSOR_PRECISION := 1000

  /** Requests for an empty page or for a larger one are refused. */
  const MAX_PAGE_SIZE := 100

  predicate Less(a: Row, b: Row) {
    a.createdAt < b.createdAt || (a.createdAt == b.createdAt && a.id < b.id)
  }

  predicate Below(mode: Keyset, r: Row, cursor: Option<Row>) {
    cursor.Some? ==>
      match mode
      case Composite => Less(r, cursor.value)
      case TimeOnly => r.createdAt < cursor.value.createdAt
  }

  /** The cursor made from a row when timestamps are written with a precision of `unit` microseconds. */
  function CursorOf(last: Row, unit: int): Row
    requires unit > 0
  {
    last.(createdAt := last.createdAt - last.createdAt % unit)
  }

  ghost predicate Descending(rows: seq<Row>) {
    forall i, j :: 0 <= i < j < |rows| ==> Less(rows[j], rows[i])
  }

  function Matching(t: set<Row>, mode: Keyset, cursor: Option<Row>): set<Row> {
    set r | r in t && Below(mode, r, cursor)
  }

  // ---- one page ----

  function BuildPage(rows: seq<Row>, limit: nat, unit: int): (page: Page)
    requires unit > 0 && limit > 0
    ensures page.next.Some? <==> |rows| > limit
    ensures |page.data| == Min(|rows|, limit) && page.data <= rows
    ensures page.next.Some? ==> page.next.value == CursorOf(page.data[limit - 1], unit)
  {
    var hasMore := |rows| > limit;
    var data := if hasMore then rows[..limit] else rows;
    Page(data, if hasMore && |data| > 0 then Some(CursorOf(data[|data| - 1], unit)) else None)
  }

  lemma Total(a: Row, b: Row)
    ensures a == b || Less(a, b) || Less(b, a)
  {
    assert a.createdAt == b.createdAt && a.id == b.id ==> a == b;
  }

  ghost predicate IsGreatest(rows: set<Row>, top: Row) {
    top in rows && forall r :: r in rows ==> r == top || Less(r, top)
  }

  lemma {:induction false} GreatestExists(rows: set<Row>)
    requires rows != {}
    ensures exists top :: IsGreatest(rows, top)
    decreases |rows|
  {
    var one :| one in rows;
    var rest := rows - {one};
    assert forall r :: r in rows ==> r == one || r in rest;
    if rest == {} {
      assert IsGreatest(rows, one);
    } else {
      GreatestExists(rest);
      var other :| IsGreatest(rest, other);
      Total(one, other);
      assert IsGreatest(rows, if Less(one, other) then other else one);
    }
  }

  ghost function Greatest(rows: set<Row>): (top: Row)
    requires rows != {}
    ensures IsGreatest(rows, top)
  {
    GreatestExists(rows);
    var top :| IsGreatest(rows, top);
    top
  }

  /** `order by created_at desc, id desc` */
  ghost function Ordered(rows: set<Row>): (all: seq<Row>)
    ensures Descending(all) && |all| == |rows| && forall r :: r in all <==> r in rows
    decreases |rows|
  {
    if rows == {} then []
    else
      var top := Greatest(rows);
      [top] + Ordered(rows - {top})
  }

  /** The query: rows below the cursor, newest first, one more than the page holds. */
  ghost function ListPage(t: set<Row>, mode: Keyset, cursor: Option<Row>, limit: nat, unit: int): (page: Page)
    requires unit > 0 && limit > 0
  {
    var all := Ordered(Matching(t, mode, cursor));
    BuildPage(all[..Min(limit + 1, |all|)], limit, unit)
  }

  /** What a page says about the table it was read from. */
  ghost predicate Served(t: set<Row>, mode: Keyset, cursor: Option<Row>, limit: nat, unit: int, page: Page)
    requires unit > 0
  {
    && Descending(page.data)
    && (forall r :: r in page.data ==> r in t && Below(mode, r, cursor))
    && (page.next == None ==>
          |page.data| <= limit && forall r :: r in t && Below(mode, r, cursor) ==> r in page.data)
    && (page.next.Some? ==>
          && 0 < |page.data| == limit
          && page.next.value == CursorOf(page.data[limit - 1], unit)
          && (forall r :: r in t && Below(mode, r, cursor) && r !in page.data ==> Less(r, page.data[limit - 1]))
          && (exists r :: r in t && Below(mode, r, cursor) && r !in page.data))
  }

  /** A cursor names the row and its time, cut to the precision. */
  lemma CursorIs(last: Row, unit: int)
    requires unit > 0
    ensures var c := CursorOf(last, unit);
            && c.id == last.id && c.createdAt == last.createdAt / unit * unit
            && c.createdAt <= last.createdAt < c.createdAt + unit
  {
  }

  /** A page in words: newest first, ids breaking ties, and everything strictly older than the cursor. */
  lemma PageRows(t: set<Row>, mode: Keyset, cursor: Option<Row>, limit: nat, unit: int, page: Page)
    requires unit > 0 && Served(t, mode, cursor, limit, unit, page)
    ensures forall i, j :: 0 <= i < j < |page.data| ==>
              var a, b := page.data[i], page.data[j];
              a.createdAt > b.createdAt || (a.createdAt == b.createdAt && a.id > b.id)
    ensures forall r :: cursor.Some? && r in page.data ==>
              var c := cursor.value;
              r in t && (r.createdAt < c.createdAt || (mode == Composite && r.createdAt == c.createdAt && r.id < c.id))
    ensures forall r :: page.next == None && r in t && r !in page.data ==>
              cursor.Some? && r.createdAt >= cursor.value.createdAt
              && (mode == TimeOnly || r.createdAt > cursor.value.createdAt || r.id >= cursor.value.id)
  {
  }

  lemma PageIsServed(t: set<Row>, mode: Keyset, cursor: Option<Row>, limit: nat, unit: int)
    requires unit > 0 && limit > 0
    ensures Served(t, mode, cursor, limit, unit, ListPage(t, mode, cursor, limit, unit))
  {
    hide Below, Less, CursorOf, Descending, Ordered;
    var matching := Matching(t, mode, cursor);
    var all, page := Ordered(matching), ListPage(t, mode, cursor, limit, unit);
    assert forall r :: r in all <==> r in t && Below(mode, r, cursor);
    TopOf(all, limit);
    if |all| > limit {
      assert page.data == all[..limit];
      assert all[limit] in all && all[limit] !in page.data;
    } else {
      assert page.data == all;
    }
  }

  /** The first `limit` of a descending row: descending, and everything else comes after the last of them. */
  lemma TopOf(all: seq<Row>, limit: nat)
    requires Descending(all) && limit > 0
    ensures limit < |all| ==>
              && Descending(all[..limit]) && all[limit] !in all[..limit]
              && forall r :: r in all && r !in all[..limit] ==> Less(r, all[limit - 1])
  {
    if limit < |all| {
      assert all == all[..limit] + all[limit..];
      assert forall r :: r in all ==> r in all[..limit] || r in all[limit..];
    }
  }

  ghost function Rows(rows: seq<Row>): set<Row> {
    set r | r in rows
  }

  lemma {:induction false} DistinctRows(rows: seq<Row>)
    requires Descending(rows)
    ensures |Rows(rows)| == |rows|
  {
    if rows != [] {
      var front, last := rows[..|rows| - 1], rows[|rows| - 1];
      DistinctRows(front);
      assert last !in Rows(front);
      assert Rows(rows) == Rows(front) + {last};
    }
  }

  lemma SubsetSize(a: set<Row>, b: set<Row>)
    requires a <= b
    ensures |a| <= |b| && (|a| == |b| ==> a == b)
  {
    assert |b| == |a| + |b - a| by { assert b == a + (b - a); }
    if |b - a| == 0 {
      assert b - a == {};
    }
  }

  // ---- a whole walk ----

  /** tables[i] is the table when page i is asked for; each page but the first continues from the one before. */
  datatype Walk = Walk(start: Option<Row>, tables: seq<set<Row>>, pages: seq<Page>)

  function CursorAt(w: Walk, i: nat): Option<Row>
    requires i <= |w.pages|
  {
    if i == 0 then w.start else w.pages[i - 1].next
  }

  ghost predicate Followed(w: Walk, mode: Keyset, limit: nat, unit: int)
    requires unit > 0
  {
    && |w.tables| == |w.pages|
    && (forall i :: 0 <= i < |w.pages| ==> Served(w.tables[i], mode, CursorAt(w, i), limit, unit, w.pages[i]))
    && (forall i :: 0 < i < |w.pages| ==> CursorAt(w, i).Some?)
  }

  /** Everything listed on the first n pages. */
  function Listed(w: Walk, n: nat): seq<Row>
    requires n <= |w.pages|
  {
    if n == 0 then [] else Listed(w, n - 1) + w.pages[n - 1].data
  }

  /** A cursor never lies above the row it was made from. */
  lemma CursorIsNotAbove(mode: Keyset, r: Row, last: Row, unit: int)
    requires unit > 0 && Below(mode, r, Some(CursorOf(last, unit)))
    ensures Less(r, last)
  {
  }

  lemma PageFacts(w: Walk, mode: Keyset, limit: nat, unit: int, i: nat)
    requires unit > 0 && limit > 0 && Followed(w, mode, limit, unit) && i < |w.pages|
    ensures |w.tables| == |w.pages| && Descending(w.pages[i].data)
    ensures forall r :: r in w.pages[i].data ==> r in w.tables[i] && Below(mode, r, CursorAt(w, i))
    ensures 0 < i ==> CursorAt(w, i).Some?
    ensures w.pages[i].next.Some? ==>
              |w.pages[i].data| == limit && w.pages[i].next.value == CursorOf(w.pages[i].data[limit - 1], unit)
  {
    hide Descending, Below, CursorOf;
    assert Served(w.tables[i], mode, CursorAt(w, i), limit, unit, w.pages[i]);
  }

  /** After a page that is not the last, the walk stands just below the last row listed. */
  lemma StandsBelowLast(w: Walk, mode: Keyset, limit: nat, unit: int, n: nat)
    requires unit > 0 && limit > 0 && Followed(w, mode, limit, unit) && 0 < n <= |w.pages| && CursorAt(w, n).Some?
    ensures |w.pages[n - 1].data| == limit && Listed(w, n) != []
    ensures Listed(w, n)[|Listed(w, n)| - 1] == w.pages[n - 1].data[limit - 1]
    ensures CursorAt(w, n) == Some(CursorOf(w.pages[n - 1].data[limit - 1], unit))
  {
    hide Descending, Below, CursorOf, Served, Followed;
    PageFacts(w, mode, limit, unit, n - 1);
  }

  lemma {:induction false} ListedDescends(w: Walk, mode: Keyset, limit: nat, unit: int, n: nat)
    requires unit > 0 && limit > 0 && Followed(w, mode, limit, unit) && n <= |w.pages|
    ensures Descending(Listed(w, n))
  {
    hide Descending, Below, CursorOf, Less, Served, Followed;
    if n == 0 {
      NothingDescends();
    } else {
      ListedDescends(w, mode, limit, unit, n - 1);
      PageFacts(w, mode, limit, unit, n - 1);
      var data := w.pages[n - 1].data;
      if n == 1 {
        assert Listed(w, n) == data;
      } else {
        StandsBelowLast(w, mode, limit, unit, n - 1);
        var last := w.pages[n - 2].data[limit - 1];
        forall r | r in data ensures Less(r, last) {
          CursorIsNotAbove(mode, r, last, unit);
        }
        Joined(Listed(w, n - 1), data);
      }
    }
  }

  lemma NothingDescends()
    ensures Descending([])
  {
  }

  lemma {:induction false} ListedFromTables(w: Walk, mode: Keyset, limit: nat, unit: int, n: nat)
    requires unit > 0 && limit > 0 && Followed(w, mode, limit, unit) && n <= |w.pages|
    ensures forall r :: r in Listed(w, n) ==> exists i :: 0 <= i < n && r in w.tables[i]
  {
    hide Served, Followed;
    if n > 0 {
      ListedFromTables(w, mode, limit, unit, n - 1);
      PageFacts(w, mode, limit, unit, n - 1);
    }
  }

  lemma {:induction false} FullPages(w: Walk, mode: Keyset, limit: nat, unit: int, n: nat)
    requires unit > 0 && limit > 0 && Followed(w, mode, limit, unit) && n <= |w.pages|
    requires 0 < n ==> CursorAt(w, n).Some?
    ensures |Listed(w, n)| == n * limit
  {
    hide Served, Followed, CursorOf;
    if n > 0 {
      if n > 1 {
        PageFacts(w, mode, limit, unit, n - 1);
      }
      FullPages(w, mode, limit, unit, n - 1);
      StandsBelowLast(w, mode, limit, unit, n);
      assert n * limit == (n - 1) * limit + limit;
    }
  }

  lemma Joined(a: seq<Row>, b: seq<Row>)
    requires Descending(a) && Descending(b) && a != []
    requires forall r :: r in b ==> Less(r, a[|a| - 1])
    ensures Descending(a + b)
  {
    forall i, j | 0 <= i < j < |a + b| ensures Less((a + b)[j], (a + b)[i]) {
      if i < |a| <= j {
        assert b[j - |a|] in b;
      }
    }
  }

  /** Whatever is inserted or deleted between pages, rows come in strictly descending order: none comes twice. */
  lemma NeverTwice(w: Walk, mode: Keyset, limit: nat, unit: int)
    requires unit > 0 && limit > 0 && Followed(w, mode, limit, unit)
    ensures var all := Listed(w, |w.pages|);
            && Descending(all)
            && (forall i, j :: 0 <= i < j < |all| ==> all[i] != all[j])
            && (forall r :: r in all ==> exists i :: 0 <= i < |w.tables| && r in w.tables[i])
  {
    ListedDescends(w, mode, limit, unit, |w.pages|);
    ListedFromTables(w, mode, limit, unit, |w.pages|);
  }

  /** `r` comes after the last row of a page in the order, yet not below the cursor made from it. */
  ghost predicate Skipped(mode: Keyset, r: Row, last: Row, unit: int)
    requires unit > 0
  {
    Less(r, last) && !Below(mode, r, Some(CursorOf(last, unit)))
  }

  /** `r` falls between page i and the cursor of page i + 1. */
  ghost predicate SkippedAt(w: Walk, mode: Keyset, unit: int, r: Row, i: nat)
    requires unit > 0 && i < |w.pages|
  {
    && w.pages[i].next.Some? && |w.pages[i].data| > 0
    && Skipped(mode, r, w.pages[i].data[|w.pages[i].data| - 1], unit)
  }

  lemma {:induction false} ListedOrBelow(w: Walk, mode: Keyset, limit: nat, unit: int, r: Row, n: nat)
    requires unit > 0 && limit > 0 && Followed(w, mode, limit, unit) && n <= |w.pages|
    requires w.start == None && forall i :: 0 <= i < |w.tables| ==> r in w.tables[i]
    requires forall i :: 0 <= i < n ==> !SkippedAt(w, mode, unit, r, i)
    ensures r in Listed(w, n) || (Below(mode, r, CursorAt(w, n)) && (0 < n ==> CursorAt(w, n).Some?))
  {
    hide Followed, Served, Below, CursorOf, Less;
    if n == 0 {
      assert CursorAt(w, 0) == None;
      NoCursor(mode, r);
    } else {
      ListedOrBelow(w, mode, limit, unit, r, n - 1);
      if r !in Listed(w, n) {
        PageFacts(w, mode, limit, unit, n - 1);
        PageMisses(w, mode, limit, unit, r, n - 1);
        assert !SkippedAt(w, mode, unit, r, n - 1);
      }
    }
  }

  lemma NoCursor(mode: Keyset, r: Row)
    ensures Below(mode, r, None)
  {
  }

  lemma PageMisses(w: Walk, mode: Keyset, limit: nat, unit: int, r: Row, i: nat)
    requires unit > 0 && limit > 0 && Followed(w, mode, limit, unit) && i < |w.pages|
    requires r in w.tables[i] && Below(mode, r, CursorAt(w, i)) && r !in w.pages[i].data
    ensures w.pages[i].next.Some? && |w.pages[i].data| == limit && Less(r, w.pages[i].data[limit - 1])
  {
    hide Descending, Below, CursorOf;
    assert Served(w.tables[i], mode, CursorAt(w, i), limit, unit, w.pages[i]);
  }

  /** A row skipped at a boundary is above every later cursor, and was below every row before it. */
  lemma {:induction false} SkippedForGood(w: Walk, mode: Keyset, limit: nat, unit: int, r: Row, i: nat, n: nat)
    requires unit > 0 && limit > 0 && Followed(w, mode, limit, unit) && i < n <= |w.pages|
             && SkippedAt(w, mode, unit, r, i)
    ensures r !in Listed(w, n)
    ensures CursorAt(w, n).Some? ==> !Below(mode, r, CursorAt(w, n))
    decreases n
  {
    hide Descending, Below, CursorOf, Less, Served, Followed;
    var page := w.pages[n - 1];
    PageFacts(w, mode, limit, unit, n - 1);
    if i + 1 < n {
      SkippedForGood(w, mode, limit, unit, r, i, n - 1);
      if page.next.Some? {
        CursorsDescend(mode, r, CursorAt(w, n - 1).value, page.data[limit - 1], unit);
      }
    } else {
      StandsBelowLast(w, mode, limit, unit, n);
      ListedDescends(w, mode, limit, unit, n);
      BelowTheLast(Listed(w, n), r);
    }
  }

  lemma BelowTheLast(rows: seq<Row>, r: Row)
    requires Descending(rows) && rows != [] && Less(r, rows[|rows| - 1])
    ensures r !in rows
  {
  }

  lemma CursorsDescend(mode: Keyset, r: Row, cursor: Row, last: Row, unit: int)
    requires unit > 0 && Below(mode, last, Some(cursor)) && !Below(mode, r, Some(cursor))
    ensures !Below(mode, r, Some(CursorOf(last, unit)))
  {
  }

  /** The walk began with the first page and has been followed to its end. */
  predicate Whole(w: Walk) {
    w.start == None && |w.pages| > 0 && w.pages[|w.pages| - 1].next == None
  }

  /**
   * Followed to the end, a walk lists a row that was there throughout exactly once,
   * unless the row was skipped at one of the page boundaries; then it lists it never.
   */
  lemma ListedIffNotSkipped(w: Walk, mode: Keyset, limit: nat, unit: int, r: Row)
    requires unit > 0 && limit > 0 && Followed(w, mode, limit, unit) && Whole(w)
    requires forall i :: 0 <= i < |w.tables| ==> r in w.tables[i]
    ensures r in Listed(w, |w.pages|) <==> forall i :: 0 <= i < |w.pages| ==> !SkippedAt(w, mode, unit, r, i)
  {
    if forall i :: 0 <= i < |w.pages| ==> !SkippedAt(w, mode, unit, r, i) {
      ListedOrBelow(w, mode, limit, unit, r, |w.pages|);
    } else {
      var i: nat :| i < |w.pages| && SkippedAt(w, mode, unit, r, i);
      SkippedForGood(w, mode, limit, unit, r, i, |w.pages|);
    }
  }

  // ---- when nothing is skipped ----

  /** Skipping needs a timestamp finer than the cursor's, or, without the id in the key, an equal one. */
  lemma SkippedIff(mode: Keyset, r: Row, last: Row, unit: int)
    requires unit > 0
    ensures mode == Composite ==>
              (Skipped(mode, r, last, unit) <==>
               && Less(r, last) && r.createdAt / unit == last.createdAt / unit
               && (last.id <= r.id || r.createdAt % unit != 0))
    ensures mode == TimeOnly ==>
              (Skipped(mode, r, last, unit) <==> Less(r, last) && r.createdAt / unit == last.createdAt / unit)
  {
    SameUnit(r.createdAt, last.createdAt, unit);
  }

  lemma SameUnit(a: int, b: int, unit: int)
    requires unit > 0
    ensures a <= b ==> (a / unit == b / unit <==> a >= b - b % unit)
  {
    var q, r, x, y := b / unit, b % unit, a / unit, a % unit;
    assert b == unit * q + r && a == unit * x + y;
    if a <= b {
      if x > q {
        Spread(unit, x - q);
      } else if x < q {
        Spread(unit, q - x);
      }
    }
  }

  lemma Spread(unit: int, k: int)
    requires unit > 0 && k >= 1
    ensures unit * k >= unit
  {
    assert unit * (k - 1) >= 0;
  }

  /** Timestamps the cursor can carry: the whole walk is complete, each row exactly once. */
  lemma CompleteAtFullPrecision(w: Walk, limit: nat, unit: int, r: Row)
    requires unit > 0 && limit > 0 && Followed(w, Composite, limit, unit) && Whole(w)
    requires forall i :: 0 <= i < |w.tables| ==> r in w.tables[i]
    requires unit == 1 || forall i, x :: 0 <= i < |w.tables| && x in w.tables[i] ==> x.createdAt % unit == 0
    ensures multiset(Listed(w, |w.pages|))[r] == 1
  {
    forall i | 0 <= i < |w.pages| ensures !SkippedAt(w, Composite, unit, r, i) {
      assert Served(w.tables[i], Composite, CursorAt(w, i), limit, unit, w.pages[i]);
      if w.pages[i].next.Some? {
        var last := w.pages[i].data[|w.pages[i].data| - 1];
        assert last in w.pages[i].data;
        assert last.createdAt % unit == 0 && CursorOf(last, unit) == last;
      }
    }
    ListedIffNotSkipped(w, Composite, limit, unit, r);
    ListedDescends(w, Composite, limit, unit, |w.pages|);
    Once(Listed(w, |w.pages|), r);
  }

  lemma {:induction false} Once(rows: seq<Row>, r: Row)
    requires Descending(rows)
    ensures multiset(rows)[r] == if r in rows then 1 else 0
  {
    if rows != [] {
      var front, last := rows[..|rows| - 1], rows[|rows| - 1];
      Once(front, r);
      assert rows == front + [last] && last !in front;
    }
  }

  /** The audit log is complete in the same sense when, besides, no two timestamps are equal. */
  lemma AuditCompleteIfDistinct(w: Walk, limit: nat, r: Row)
    requires limit > 0 && Followed(w, TimeOnly, limit, 1) && Whole(w)
    requires forall i :: 0 <= i < |w.tables| ==> r in w.tables[i]
    requires forall i, x :: 0 <= i < |w.tables| && x in w.tables[i] && x.createdAt == r.createdAt ==> x == r
    ensures multiset(Listed(w, |w.pages|))[r] == 1
  {
    forall i | 0 <= i < |w.pages| ensures !SkippedAt(w, TimeOnly, 1, r, i) {
      assert Served(w.tables[i], TimeOnly, CursorAt(w, i), limit, 1, w.pages[i]);
      if w.pages[i].next.Some? {
        var last := w.pages[i].data[|w.pages[i].data| - 1];
        assert last in w.pages[i].data;
      }
    }
    ListedIffNotSkipped(w, TimeOnly, limit, 1, r);
    ListedDescends(w, TimeOnly, limit, 1, |w.pages|);
    Once(Listed(w, |w.pages|), r);
  }

  // ---- a walk ends ----

  /** Over a table that stays the same, a walk has at most one page more than full pages fit in the table. */
  lemma WalkIsBounded(w: Walk, mode: Keyset, limit: nat, unit: int, t: set<Row>)
    requires unit > 0 && limit > 0 && Followed(w, mode, limit, unit) && |w.pages| > 0
    requires forall i :: 0 <= i < |w.tables| ==> w.tables[i] == t
    ensures (|w.pages| - 1) * limit <= |t|
  {
    hide Served, Followed, Descending;
    var n := |w.pages| - 1;
    PageFacts(w, mode, limit, unit, n);
    FullPages(w, mode, limit, unit, n);
    if n > 0 {
      ListedDescends(w, mode, limit, unit, n);
      ListedFromTables(w, mode, limit, unit, n);
      DistinctRows(Listed(w, n));
      assert forall r :: r in Rows(Listed(w, n)) ==> r in t;
      SubsetSize(Rows(Listed(w, n)), t);
    }
  }

  // ---- what the millisecond cursor and the audit log skip ----

  lemma OnePageFirst(t: set<Row>, mode: Keyset, start: Option<Row>, limit: nat, unit: int, first: Page, rest: Walk)
    requires unit > 0 && Served(t, mode, start, limit, unit, first) && first.next.Some?
    requires Followed(rest, mode, limit, unit) && rest.start == first.next
    ensures Followed(Walk(start, [t] + rest.tables, [first] + rest.pages), mode, limit, unit)
  {
    hide Served;
    var w := Walk(start, [t] + rest.tables, [first] + rest.pages);
    forall i | 0 <= i < |w.pages|
      ensures Served(w.tables[i], mode, CursorAt(w, i), limit, unit, w.pages[i]) && (0 < i ==> CursorAt(w, i).Some?)
    {
      if i > 0 {
        assert w.pages[i] == rest.pages[i - 1] && w.tables[i] == rest.tables[i - 1]
               && CursorAt(w, i) == CursorAt(rest, i - 1);
      }
    }
  }

  /** A walk over a table that does not change, followed to the end. */
  lemma {:induction false} FollowOn(t: set<Row>, mode: Keyset, start: Option<Row>, limit: nat, unit: int)
      returns (w: Walk)
    requires unit > 0 && limit > 0
    ensures w.start == start && Followed(w, mode, limit, unit)
    ensures |w.pages| > 0 && w.pages[|w.pages| - 1].next == None
    ensures forall i :: 0 <= i < |w.tables| ==> w.tables[i] == t
    decreases |Matching(t, mode, start)|
  {
    hide Followed, ListPage, Matching, Below, CursorOf, Descending;
    var page := ListPage(t, mode, start, limit, unit);
    PageIsServed(t, mode, start, limit, unit);
    if page.next.Some? {
      var last := page.data[limit - 1];
      assert last in page.data;
      Shrinks(t, mode, start, last, unit);
      hide Served;
      var rest := FollowOn(t, mode, page.next, limit, unit);
      OnePageFirst(t, mode, start, limit, unit, page, rest);
      w := Walk(start, [t] + rest.tables, [page] + rest.pages);
    } else {
      OnePageOnly(t, mode, start, limit, unit, page);
      w := Walk(start, [t], [page]);
    }
  }

  lemma OnePageOnly(t: set<Row>, mode: Keyset, start: Option<Row>, limit: nat, unit: int, page: Page)
    requires unit > 0 && Served(t, mode, start, limit, unit, page)
    ensures Followed(Walk(start, [t], [page]), mode, limit, unit)
  {
    hide Served;
  }

  lemma Shrinks(t: set<Row>, mode: Keyset, cursor: Option<Row>, last: Row, unit: int)
    requires unit > 0 && last in t && Below(mode, last, cursor)
    ensures |Matching(t, mode, Some(CursorOf(last, unit)))| < |Matching(t, mode, cursor)|
  {
    var before, after := Matching(t, mode, cursor), Matching(t, mode, Some(CursorOf(last, unit)));
    assert last in before && last !in after;
    assert after <= before;
    SubsetSize(after, before);
  }

  lemma {:induction false} ListedOn(w: Walk, r: Row, n: nat) returns (i: nat)
    requires n <= |w.pages| && r in Listed(w, n)
    ensures i < n && r in w.pages[i].data
  {
    if r in w.pages[n - 1].data {
      i := n - 1;
    } else {
      i := ListedOn(w, r, n - 1);
    }
  }

  /** One row a page: a walk that comes to `last` misses a row that is skipped below it. */
  lemma OneOfTwoIsMissed(w: Walk, mode: Keyset, r: Row, last: Row, unit: int)
    requires unit > 0 && Followed(w, mode, 1, unit) && Whole(w) && Skipped(mode, r, last, unit)
    ensures !(last in Listed(w, |w.pages|) && r in Listed(w, |w.pages|))
  {
    hide Followed, CursorOf, Below, Less, Descending, Served;
    var n := |w.pages|;
    if last in Listed(w, n) {
      var i := ListedOn(w, last, n);
      OneRowPage(w, mode, unit, i);
      assert w.pages[i].data == [last];
      if w.pages[i].next.Some? {
        assert SkippedAt(w, mode, unit, r, i);
        SkippedForGood(w, mode, 1, unit, r, i, n);
      } else {
        assert i + 1 == n;
        ListedDescends(w, mode, 1, unit, n);
        BelowTheLast(Listed(w, n), r);
      }
    }
  }

  lemma OneRowPage(w: Walk, mode: Keyset, unit: int, i: nat)
    requires unit > 0 && Followed(w, mode, 1, unit) && i < |w.pages|
    ensures |w.pages[i].data| <= 1
    ensures i + 1 < |w.pages| ==> w.pages[i].next.Some?
  {
    assert Served(w.tables[i], mode, CursorAt(w, i), 1, unit, w.pages[i]);
    if i + 1 < |w.pages| {
      assert CursorAt(w, i + 1).Some?;
    }
  }

  /** Wherever two rows of a table allow it, the walk with one row a page never lists one of them. */
  lemma SkippingHappens(t: set<Row>, mode: Keyset, r: Row, last: Row, unit: int) returns (w: Walk)
    requires unit > 0 && r in t && last in t && Skipped(mode, r, last, unit)
    ensures Followed(w, mode, 1, unit) && Whole(w)
    ensures forall i :: 0 <= i < |w.tables| ==> w.tables[i] == t
    ensures r !in Listed(w, |w.pages|) || last !in Listed(w, |w.pages|)
  {
    w := FollowOn(t, mode, None, 1, unit);
    OneOfTwoIsMissed(w, mode, r, last, unit);
  }

  /**
   * The list of a table that stays the same is complete for every page size the server accepts exactly when no row
   * of it can be skipped below another. For the project list that is two rows in one millisecond; for the audit
   * log, a tie.
   */
  lemma CompleteIff(t: set<Row>, mode: Keyset, unit: int)
    requires unit > 0
    ensures (forall r, last :: r in t && last in t ==> !Skipped(mode, r, last, unit))
       <==> (forall w, limit: nat, r ::
               (&& 1 <= limit <= MAX_PAGE_SIZE && Followed(w, mode, limit, unit) && Whole(w) && r in t
                && (forall i :: 0 <= i < |w.tables| ==> w.tables[i] == t))
               ==> r in Listed(w, |w.pages|))
  {
    if r, last :| r in t && last in t && Skipped(mode, r, last, unit) {
      var w := SkippingHappens(t, mode, r, last, unit);
      var missed := if r in Listed(w, |w.pages|) then last else r;
      var limit := 1;
      assert 1 <= limit <= MAX_PAGE_SIZE && Followed(w, mode, limit, unit) && missed !in Listed(w, |w.pages|);
    } else {
      forall w, limit: nat, r |
        && 1 <= limit <= MAX_PAGE_SIZE && Followed(w, mode, limit, unit) && Whole(w) && r in t
        && (forall i :: 0 <= i < |w.tables| ==> w.tables[i] == t)
        ensures r in Listed(w, |w.pages|)
      {
        NothingSkipped(w, t, mode, limit, unit, r);
      }
    }
  }

  lemma NothingSkipped(w: Walk, t: set<Row>, mode: Keyset, limit: nat, unit: int, r: Row)
    requires unit > 0 && limit > 0 && Followed(w, mode, limit, unit) && Whole(w)
    requires (forall i :: 0 <= i < |w.tables| ==> w.tables[i] == t) && r in t
    requires forall last :: last in t ==> !Skipped(mode, r, last, unit)
    ensures r in Listed(w, |w.pages|)
  {
    hide Followed, Skipped;
    forall i | 0 <= i < |w.pages| ensures !SkippedAt(w, mode, unit, r, i) {
      PageFacts(w, mode, limit, unit, i);
      if w.pages[i].next.Some? {
        assert w.pages[i].data[limit - 1] in w.pages[i].data;
      }
    }
    ListedIffNotSkipped(w, mode, limit, unit, r);
  }

  /** Two rows, one a page: the first page's cursor passes over the second row, and the list ends there. */
  lemma TwoRowWalk(mode: Keyset, r: Row, last: Row, unit: int) returns (w: Walk)
    requires unit > 0 && Skipped(mode, r, last, unit)
    ensures Followed(w, mode, 1, unit) && Whole(w)
    ensures forall i :: 0 <= i < |w.tables| ==> w.tables[i] == {last, r}
    ensures Listed(w, |w.pages|) == [last] && r != last
  {
    var t, cursor := {last, r}, CursorOf(last, unit);
    var first, second := Page([last], Some(cursor)), Page([], None);
    forall x | x in t ensures Below(mode, x, None) && !Below(mode, x, Some(cursor)) {
      if Below(mode, last, Some(cursor)) {
        CursorIsNotAbove(mode, last, last, unit);
      }
    }
    hide Below, Less, CursorOf;
    assert r in t && r !in first.data;
    assert Served(t, mode, None, 1, unit, first);
    assert Served(t, mode, Some(cursor), 1, unit, second);
    w := Walk(None, [t, t], [first, second]);
    assert Listed(w, 0) == [] && Listed(w, 1) == [last] && Listed(w, 2) == [last];
  }

  /** Two projects created within one millisecond: one to a page, the older is never listed. */
  lemma MillisecondCursorSkips() returns (w: Walk)
    ensures Followed(w, Composite, 1, 1000) && Whole(w)
    ensures forall i :: 0 <= i < |w.tables| ==> w.tables[i] == {Row(1500, 2), Row(1200, 1)}
    ensures Row(1200, 1) !in Listed(w, |w.pages|)
  {
    hide Followed, Listed;
    w := TwoRowWalk(Composite, Row(1200, 1), Row(1500, 2), CURSOR_PRECISION);
  }

  lemma AuditTie()
    ensures Skipped(TimeOnly, Row(7, 1), Row(7, 2), 1)
  {
    hide CursorOf;
    ExactCursor(Row(7, 2));
  }

  lemma ExactCursor(last: Row)
    ensures CursorOf(last, 1) == last
  {
  }

  /** Two audit entries with one timestamp: even at full precision, one to a page, the second is never listed. */
  lemma AuditTieSkips() returns (w: Walk)
    ensures Followed(w, TimeOnly, 1, 1) && Whole(w)
    ensures forall i :: 0 <= i < |w.tables| ==> w.tables[i] == {Row(7, 2), Row(7, 1)}
    ensures Row(7, 1) !in Listed(w, |w.pages|)
  {
    hide Followed, Listed, Skipped;
    AuditTie();
    w := TwoRowWalk(TimeOnly, Row(7, 1), Row(7, 2), 1);
  }
}
