/** The catalog and event searches: filters, key order, and pages that partition the matches. */
module Search {
  import opened Common
  import opened Schema

  // ------------------------------------------------------------ parameters

  /** `validate_bbox`; `None` where it raises. */
  function ValidateBox(values: seq<real>): (box: Option<Box>)
    ensures box.Some? <==> IsBox(values)
    ensures box.Some? ==> box.value == Box(values[0], values[1], values[2], values[3])
  {
    if |values| != 4 then None
    else if !(-180.0 <= values[0] <= 180.0) || !(-90.0 <= values[1] <= 90.0) then None
    else if !(-180.0 <= values[2] <= 180.0) || !(-90.0 <= values[3] <= 90.0) then None
    else if values[0] >= values[2] || values[1] >= values[3] then None
    else Some(Box(values[0], values[1], values[2], values[3]))
  }

  /** West, south, east and north of a box in WGS84, in order. */
  predicate IsBox(values: seq<real>) {
    |values| == 4 && -180.0 <= values[0] < values[2] <= 180.0 && -90.0 <= values[1] < values[3] <= 90.0
  }

  datatype Filters = Filters(box: Option<Box>, interval: Option<(int, int)>)

  /** `parse_filters`: both ends of the interval or neither, in order; `None` where it raises. */
  function ParseFilters(bbox: Option<seq<real>>, start: Option<int>, end: Option<int>): (filters: Option<Filters>)
    ensures filters.None? <==>
      || (bbox.Some? && !IsBox(bbox.value))
      || (start.Some? && end.None?) || (start.None? && end.Some?)
      || (start.Some? && end.Some? && end.value < start.value)
    ensures filters.Some? ==>
      && (bbox.None? ==> filters.value.box.None?)
      && (bbox.Some? ==> filters.value.box == Some(Box(bbox.value[0], bbox.value[1], bbox.value[2], bbox.value[3])))
      && (start.None? ==> filters.value.interval.None?)
      && (start.Some? ==> filters.value.interval == Some((start.value, end.value)))
  {
    if bbox.Some? && ValidateBox(bbox.value).None? then None
    else
      var box := if bbox.Some? then ValidateBox(bbox.value) else None;
      if start.None? && end.None? then Some(Filters(box, None))
      else if start.None? || end.None? then None
      else if start.value > end.value then None
      else Some(Filters(box, Some((start.value, end.value))))
  }

  /** `parse_pagination`; a parameter that is not an integer is `None`. */
  function ParsePagination(page: Option<int>, pageSize: Option<int>): (parsed: Option<(nat, nat)>)
    ensures parsed.Some? <==> page.Some? && pageSize.Some? && 1 <= page.value && 1 <= pageSize.value <= 100
    ensures parsed.Some? ==> parsed.value == (page.value, pageSize.value)
  {
    if page.None? || pageSize.None? then None
    else if page.value < 1 || pageSize.value < 1 || pageSize.value > 100 then None
    else Some((page.value, pageSize.value))
  }

  // ---------------------------------------------------------------- pages

  /** `OFFSET (page - 1) * size LIMIT size` */
  function PageOf<T>(list: seq<T>, page: nat, size: nat): seq<T>
    requires page >= 1
  {
    var offset := Min((page - 1) * size, |list|);
    list[offset..Min(offset + size, |list|)]
  }

  function PageCount(total: nat, size: nat): nat
    requires size >= 1
  {
    (total + size - 1) / size
  }

  /** Pages 1 to n, one after another. */
  function Pages<T>(list: seq<T>, size: nat, n: nat): seq<T> {
    if n == 0 then [] else Pages(list, size, n - 1) + PageOf(list, n, size)
  }

  lemma {:induction false} FirstPages<T>(list: seq<T>, size: nat, n: nat)
    ensures Pages(list, size, n) == list[..Min(n * size, |list|)]
  {
    if n > 0 {
      FirstPages(list, size, n - 1);
      assert n * size == (n - 1) * size + size;
      NextPage(list, (n - 1) * size, size);
    }
  }

  lemma {:induction false} NextPage<T>(list: seq<T>, offset: nat, size: nat)
    ensures var a, b := Min(offset, |list|), Min(offset + size, |list|);
      a <= b && Min(a + size, |list|) == b && list[..a] + list[a..b] == list[..b]
  {
  }

  lemma {:induction false} PageCountCovers(total: nat, size: nat)
    requires size >= 1
    ensures PageCount(total, size) * size >= total
    ensures PageCount(total, size) > 0 ==> (PageCount(total, size) - 1) * size < total
  {
    var n := PageCount(total, size);
    assert (total + size - 1) == size * n + (total + size - 1) % size;
    assert n * size == size * n;
    assert n > 0 ==> (n - 1) * size == n * size - size;
  }

  lemma {:induction false} TimesMonotone(a: nat, b: nat, size: nat)
    requires a <= b
    ensures a * size <= b * size
  {
    assert b * size == a * size + (b - a) * size;
  }

  /**
   Pages 1 to ceil(total / size) are the whole list in order, none of them empty, and every
   later page is empty.
   */
  lemma {:induction false} PagesPartition<T>(list: seq<T>, size: nat, page: nat)
    requires size >= 1 && page >= 1
    ensures Pages(list, size, PageCount(|list|, size)) == list
    ensures PageOf(list, page, size) == [] <==> page > PageCount(|list|, size)
  {
    hide PageCount, PageOf;
    var n := PageCount(|list|, size);
    FirstPages(list, size, n);
    PageCountCovers(|list|, size);
    assert list[..|list|] == list;
    PageEmpty(list, page, size);
    if page > n {
      TimesMonotone(n, page - 1, size);
    } else {
      TimesMonotone(page - 1, n - 1, size);
    }
  }

  lemma {:induction false} PageEmpty<T>(list: seq<T>, page: nat, size: nat)
    requires size >= 1 && page >= 1
    ensures PageOf(list, page, size) == [] <==> (page - 1) * size >= |list|
  {
  }

  /** The k-th item of a page is the list's item at its offset plus k. */
  lemma {:induction false} PageItem<T>(list: seq<T>, page: nat, size: nat, k: nat)
    requires page >= 1 && k < |PageOf(list, page, size)|
    ensures (page - 1) * size + k < |list| && PageOf(list, page, size)[k] == list[(page - 1) * size + k]
  {
  }

  /** No item is on two pages. */
  lemma {:induction false} PagesDisjoint<T>(list: seq<T>, size: nat, p: nat, q: nat, x: T)
    requires Distinct(list) && 1 <= p < q
    ensures x !in PageOf(list, p, size) || x !in PageOf(list, q, size)
  {
    var a, b := PageOf(list, p, size), PageOf(list, q, size);
    TimesMonotone(p, q - 1, size);
    assert p * size == (p - 1) * size + size;
    if i, j :| 0 <= i < |a| && 0 <= j < |b| && a[i] == x && b[j] == x {
      PageItem(list, p, size, i);
      PageItem(list, q, size, j);
      assert false;
    }
  }

  // ------------------------------------------------------------- key order

  /** A strict total order on keys, as the database's collation gives. */
  ghost predicate TotalOrder(less: (string, string) -> bool) {
    && (forall a, b :: !(less(a, b) && less(b, a)))
    && (forall a, b | a != b :: less(a, b) || less(b, a))
  }

  ghost predicate Sorted(less: (string, string) -> bool, keys: seq<string>) {
    forall i, j | 0 <= i < j < |keys| :: less(keys[i], keys[j])
  }

  /** `keys` lists the primary keys of a table in order. */
  ghost predicate Lists<T>(less: (string, string) -> bool, keys: seq<string>, rows: map<string, T>) {
    Sorted(less, keys) && forall k :: k in keys <==> k in rows
  }

  lemma {:induction false} SortedDistinct(less: (string, string) -> bool, keys: seq<string>)
    requires TotalOrder(less) && Sorted(less, keys)
    ensures Distinct(keys)
  {
    forall i, j | 0 <= i < j < |keys| ensures keys[i] != keys[j] {
      assert less(keys[i], keys[j]);
      assert !(less(keys[i], keys[j]) && less(keys[j], keys[i]));
    }
  }

  lemma {:induction false} FilterSorted(less: (string, string) -> bool, keep: string -> bool, keys: seq<string>)
    requires Sorted(less, keys)
    ensures Sorted(less, Filter(keep, keys))
  {
    if keys != [] {
      var n := |keys| - 1;
      FilterSorted(less, keep, keys[..n]);
      var kept := Filter(keep, keys[..n]);
      forall i | 0 <= i < |kept| ensures less(kept[i], keys[n]) {
        assert kept[i] in kept;
        var j :| 0 <= j < n && keys[j] == kept[i];
      }
    }
  }

  // -------------------------------------------------------------- searches

  predicate Intersects(a: Box, b: Box) {
    a.west <= b.east && b.west <= a.east && a.south <= b.north && b.south <= a.north
  }

  /** What the query is meant to return: accepted scenes that satisfy every filter given. */
  predicate SceneMatches(filters: Filters, scene: Scene) {
    && scene.status == Accepted
    && (filters.box.Some? ==>
          && scene.columns.footprint.Some?
          && var (a, b) := (scene.columns.footprint.value, filters.box.value);
          a.west <= b.east && b.west <= a.east && a.south <= b.north && b.south <= a.north)
    && (filters.interval.Some? ==> filters.interval.value.0 <= scene.captureTime && scene.captureTime <= filters.interval.value.1)
  }

  predicate EventMatches(filters: Filters, event: Event) {
    && (filters.box.Some? ==>
          var (box, p) := (filters.box.value, event.location);
          box.west <= p.longitude && p.longitude <= box.east && box.south <= p.latitude && p.latitude <= box.north)
    && (filters.interval.Some? ==> filters.interval.value.0 <= event.observedAt && event.observedAt <= filters.interval.value.1)
  }

  function MatchingKeys<T>(rows: map<string, T>, keep: T -> bool): string -> bool {
    k => k in rows && keep(rows[k])
  }

  /** The keys of the rows that satisfy `keep`, in key order. */
  function Select<T>(rows: map<string, T>, keep: T -> bool, keys: seq<string>): seq<string> {
    Filter(MatchingKeys(rows, keep), keys)
  }

  datatype PageReply = PageReply(items: seq<string>, page: nat, pageSize: nat, total: nat)

  /** A WHERE clause: all of its conditions. */
  function Where<T>(conditions: seq<T -> bool>): T -> bool {
    row => forall i | 0 <= i < |conditions| :: conditions[i](row)
  }

  function Reply<T>(rows: map<string, T>, keep: T -> bool, keys: seq<string>, page: nat, pageSize: nat): PageReply
    requires page >= 1
  {
    var matching := Select(rows, keep, keys);
    PageReply(PageOf(matching, page, pageSize), page, pageSize, |matching|)
  }

  /** One more condition. */
  lemma {:induction false} Narrowed<T(!new)>(conditions: seq<T -> bool>, c: T -> bool, keep: T -> bool)
    requires forall row :: Where(conditions)(row) <==> keep(row)
    ensures forall row :: Where(conditions + [c])(row) <==> keep(row) && c(row)
  {
    var more := conditions + [c];
    forall row ensures Where(more)(row) <==> keep(row) && c(row) {
      assert more[|conditions|] == c && forall i | 0 <= i < |conditions| :: more[i] == conditions[i];
      assert Where(conditions)(row) <==> keep(row);
    }
  }

  lemma {:induction false} SelectSame<T(!new)>(rows: map<string, T>, keep: T -> bool, keep': T -> bool, keys: seq<string>)
    requires forall row :: keep(row) == keep'(row)
    ensures Select(rows, keep, keys) == Select(rows, keep', keys)
  {
    if keys != [] {
      SelectSame(rows, keep, keep', keys[..|keys| - 1]);
    }
  }

  // The conditions of the two searches.

  function IsAccepted(): Scene -> bool {
    (scene: Scene) => scene.status == Accepted
  }

  function Overlapping(box: Box): Scene -> bool {
    (scene: Scene) => scene.columns.footprint.Some? && Intersects(scene.columns.footprint.value, box)
  }

  function CapturedFrom(first: int): Scene -> bool {
    (scene: Scene) => scene.captureTime >= first
  }

  function CapturedUntil(last: int): Scene -> bool {
    (scene: Scene) => scene.captureTime <= last
  }

  function CoveredBy(box: Box): Event -> bool {
    (event: Event) => Covers(box, event.location)
  }

  function ObservedFrom(first: int): Event -> bool {
    (event: Event) => event.observedAt >= first
  }

  function ObservedUntil(last: int): Event -> bool {
    (event: Event) => event.observedAt <= last
  }

  function SceneFilter(filters: Filters): Scene -> bool {
    scene => SceneMatches(filters, scene)
  }

  function EventFilter(filters: Filters): Event -> bool {
    event => EventMatches(filters, event)
  }

  /** `search_scenes` over a snapshot whose primary keys are `keys`, in order; `None` is the 422 answer. */
  method SearchScenes(rows: map<string, Scene>, keys: seq<string>, bbox: Option<seq<real>>, start: Option<int>,
                      end: Option<int>, page: Option<int>, pageSize: Option<int>)
    returns (reply: Option<PageReply>)
    ensures reply.Some? <==> ParseFilters(bbox, start, end).Some? && ParsePagination(page, pageSize).Some?
    ensures reply.Some? ==>
      reply.value == Reply(rows, SceneFilter(ParseFilters(bbox, start, end).value), keys, page.value, pageSize.value)
  {
    var filters, pagination := ParseFilters(bbox, start, end), ParsePagination(page, pageSize);
    if filters.None? || pagination.None? {
      return None;
    }
    var conditions: seq<Scene -> bool> := [IsAccepted()];
    ghost var f := Filters(None, None);
    Narrowed([], IsAccepted(), (scene: Scene) => true);
    assert [] + [IsAccepted()] == conditions;
    assert forall scene :: Where(conditions)(scene) <==> SceneFilter(f)(scene);
    if filters.value.box.Some? {
      var box := filters.value.box.value;
      Narrowed(conditions, Overlapping(box), SceneFilter(f));
      conditions, f := conditions + [Overlapping(box)], Filters(Some(box), None);
    }
    if filters.value.interval.Some? {
      var (first, last) := filters.value.interval.value;
      ghost var keep := SceneFilter(f);
      Narrowed(conditions, CapturedFrom(first), keep);
      Narrowed(conditions + [CapturedFrom(first)], CapturedUntil(last), scene => keep(scene) && CapturedFrom(first)(scene));
      conditions := conditions + [CapturedFrom(first)] + [CapturedUntil(last)];
    }
    SelectSame(rows, Where(conditions), SceneFilter(filters.value), keys);
    var matching := Select(rows, Where(conditions), keys);
    var (pageValue, size) := pagination.value;
    reply := Some(PageReply(PageOf(matching, pageValue, size), pageValue, size, |matching|));
  }

  /** `search_events` */
  method SearchEvents(rows: map<string, Event>, keys: seq<string>, bbox: Option<seq<real>>, start: Option<int>,
                      end: Option<int>, page: Option<int>, pageSize: Option<int>)
    returns (reply: Option<PageReply>)
    ensures reply.Some? <==> ParseFilters(bbox, start, end).Some? && ParsePagination(page, pageSize).Some?
    ensures reply.Some? ==>
      reply.value == Reply(rows, EventFilter(ParseFilters(bbox, start, end).value), keys, page.value, pageSize.value)
  {
    var filters, pagination := ParseFilters(bbox, start, end), ParsePagination(page, pageSize);
    if filters.None? || pagination.None? {
      return None;
    }
    var conditions: seq<Event -> bool> := [];
    ghost var f := Filters(None, None);
    if filters.value.box.Some? {
      var box := filters.value.box.value;
      Narrowed(conditions, CoveredBy(box), EventFilter(f));
      conditions, f := conditions + [CoveredBy(box)], Filters(Some(box), None);
    }
    if filters.value.interval.Some? {
      var (first, last) := filters.value.interval.value;
      ghost var keep := EventFilter(f);
      Narrowed(conditions, ObservedFrom(first), keep);
      Narrowed(conditions + [ObservedFrom(first)], ObservedUntil(last), event => keep(event) && ObservedFrom(first)(event));
      conditions := conditions + [ObservedFrom(first)] + [ObservedUntil(last)];
    }
    SelectSame(rows, Where(conditions), EventFilter(filters.value), keys);
    var matching := Select(rows, Where(conditions), keys);
    var (pageValue, size) := pagination.value;
    reply := Some(PageReply(PageOf(matching, pageValue, size), pageValue, size, |matching|));
  }

  /** The pages a client asks for one by one over an unchanged snapshot. */
  function Walk<T>(rows: map<string, T>, keep: T -> bool, keys: seq<string>, pageSize: nat, n: nat): seq<string> {
    if n == 0 then [] else Walk(rows, keep, keys, pageSize, n - 1) + Reply(rows, keep, keys, n, pageSize).items
  }

  lemma {:induction false} WalkIsPages<T>(rows: map<string, T>, keep: T -> bool, keys: seq<string>, pageSize: nat, n: nat)
    ensures Walk(rows, keep, keys, pageSize, n) == Pages(Select(rows, keep, keys), pageSize, n)
  {
    if n > 0 {
      WalkIsPages(rows, keep, keys, pageSize, n - 1);
    }
  }

  /**
   Walking pages 1 to ceil(total / size) returns each matching row once, in key order, and
   nothing else; `total` is what every reply reports.
   */
  lemma {:induction false} WalkReturnsMatches<T>(less: (string, string) -> bool, rows: map<string, T>, keep: T -> bool,
                                                 keys: seq<string>, pageSize: nat)
    requires TotalOrder(less) && Lists(less, keys, rows) && 1 <= pageSize <= 100
    ensures var total := Reply(rows, keep, keys, 1, pageSize).total;
      var walked := Walk(rows, keep, keys, pageSize, PageCount(total, pageSize));
      && Sorted(less, walked) && Distinct(walked) && |walked| == total
      && forall k :: k in walked <==> k in rows && keep(rows[k])
  {
    var matching := Select(rows, keep, keys);
    WalkIsPages(rows, keep, keys, pageSize, PageCount(|matching|, pageSize));
    PagesPartition(matching, pageSize, 1);
    FilterSorted(less, MatchingKeys(rows, keep), keys);
    SortedDistinct(less, matching);
  }
}
