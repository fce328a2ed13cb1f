/**
 * The ticket table: a sorted copy of the fetched tickets, cut into 1-based
 * pages of `itemsPerPage`, with a sort selector and Back/Forward buttons.
 */
module Table {
  import opened Wrappers
  import opened Records
  import opened Sorting
  import Text
  import Store

  const High := "Высокий"
  const Medium := "Средний"
  const Low := "Низкий"

  const New := "Новые"
  const InProgress := "В процессе"
  const Done := "Завершенные"

  /** `priorityOrder[v]`; None is `undefined`. */
  function PriorityRank(v: Option<Value>): Option<int>
  {
    if v == Some(Str(High)) then Some(3)
    else if v == Some(Str(Medium)) then Some(2)
    else if v == Some(Str(Low)) then Some(1)
    else None
  }

  /** `statusOrder[v]`; None is `undefined`. */
  function StatusRank(v: Option<Value>): Option<int>
  {
    if v == Some(Str(New)) then Some(1)
    else if v == Some(Str(InProgress)) then Some(2)
    else if v == Some(Str(Done)) then Some(3)
    else None
  }

  function PriorityOf(t: Record): Option<int> { PriorityRank(Get(t, PriorityField)) }

  function StatusOf(t: Record): Option<int> { StatusRank(Get(t, StatusField)) }

  /**
   * `x - y` as a comparator result, None standing for a value that is not a
   * number (an `undefined` rank, an Invalid Date): the difference is then
   * NaN, which Array.prototype.sort reads as "equal".
   */
  function Minus(x: Option<int>, y: Option<int>): int
  {
    if x.Some? && y.Some? then x.value - y.value else 0
  }

  /**
   * The string a value becomes when `<` converts it to a primitive: a string
   * is itself, an array is `Array.prototype.toString`, its elements joined
   * with commas. A number stays a number.
   */
  function StringForm(v: Value): Option<string>
  {
    match v
    case Str(s) => Some(s)
    case List(items) => Some(Text.Join(items, ','))
    case Num(_) => None
  }

  /**
   * `a < b` on two field values: numbers numerically; strings and arrays by
   * their string forms; `undefined` never. A number against a string or an
   * array is never "less" in this model.
   */
  predicate ValueLess(a: Option<Value>, b: Option<Value>)
  {
    match (a, b)
    case (Some(Num(x)), Some(Num(y))) => x < y
    case (Some(x), Some(y)) =>
      StringForm(x).Some? && StringForm(y).Some? && Text.Less(StringForm(x).value, StringForm(y).value)
    case _ => false
  }

  /** The comparator passed to `sort`, for `sortKey` and `sortOrder === 'asc'`. */
  function Compare(sortKey: string, ascending: bool, a: Record, b: Record): int
  {
    if sortKey == "" then 0
    else
      var va := Get(a, sortKey);
      var vb := Get(b, sortKey);
      if sortKey == PriorityField then
        (if ascending then Minus(PriorityRank(va), PriorityRank(vb)) else Minus(PriorityRank(vb), PriorityRank(va)))
      else if sortKey == StatusField then
        (if ascending then Minus(StatusRank(va), StatusRank(vb)) else Minus(StatusRank(vb), StatusRank(va)))
      else if ascending then (if ValueLess(va, vb) then -1 else if ValueLess(vb, va) then 1 else 0)
      else (if ValueLess(va, vb) then 1 else if ValueLess(vb, va) then -1 else 0)
  }

  function Comparator(sortKey: string, ascending: bool): (Record, Record) -> int
  {
    (a, b) => Compare(sortKey, ascending, a, b)
  }

  /** `sortedData`: the fetched tickets, copied and sorted. */
  function SortedData(data: seq<Record>, sortKey: string, ascending: bool): seq<Record>
  {
    InsertionSort(data, Comparator(sortKey, ascending))
  }

  /** The descending comparator is the ascending one negated, for every key. */
  lemma DescendingNegatesAscending(sortKey: string, a: Record, b: Record)
    ensures Compare(sortKey, false, a, b) == -Compare(sortKey, true, a, b)
  {
  }

  /** The sorted copy is a permutation of the fetched tickets. */
  lemma SortedDataIsPermutation(data: seq<Record>, sortKey: string, ascending: bool)
    ensures multiset(SortedData(data, sortKey, ascending)) == multiset(data)
    ensures |SortedData(data, sortKey, ascending)| == |data|
  {
    SortPermutation(data, Comparator(sortKey, ascending));
  }

  /** With no sort key the comparator is always 0 and the fetch order is kept. */
  lemma UnsortedKeepsFetchOrder(data: seq<Record>, ascending: bool)
    ensures SortedData(data, "", ascending) == data
  {
    SortAllTiesIdentity(data, Comparator("", ascending));
  }

  /** Ascending priority runs Низкий < Средний < Высокий; descending reverses it. */
  lemma PriorityRanks(a: Record, b: Record)
    requires (PriorityOf(a) == Some(1) && PriorityOf(b) == Some(2)) || (PriorityOf(a) == Some(2) && PriorityOf(b) == Some(3))
    ensures Get(a, PriorityField) == Some(Str(Low)) ==> Get(b, PriorityField) == Some(Str(Medium))
    ensures Get(a, PriorityField) == Some(Str(Medium)) ==> Get(b, PriorityField) == Some(Str(High))
    ensures Compare(PriorityField, true, a, b) < 0 && Compare(PriorityField, false, a, b) > 0
  {
  }

  /** Ascending status runs Новые < В процессе < Завершенные; descending reverses it. */
  lemma StatusRanks(a: Record, b: Record)
    requires (StatusOf(a) == Some(1) && StatusOf(b) == Some(2)) || (StatusOf(a) == Some(2) && StatusOf(b) == Some(3))
    ensures Get(a, StatusField) == Some(Str(New)) ==> Get(b, StatusField) == Some(Str(InProgress))
    ensures Get(a, StatusField) == Some(Str(InProgress)) ==> Get(b, StatusField) == Some(Str(Done))
    ensures Compare(StatusField, true, a, b) < 0 && Compare(StatusField, false, a, b) > 0
  {
  }

  /** The rank a rank-sorted key reads: priority or status. */
  function RankFor(sortKey: string): Record -> Option<int>
  {
    if sortKey == PriorityField then PriorityOf else StatusOf
  }

  /** The ranks along `r` never fall (ascending) or never rise (descending). */
  ghost predicate RankOrdered(r: seq<Record>, rank: Record -> Option<int>, ascending: bool)
  {
    forall i, j :: 0 <= i < j < |r| ==>
      rank(r[i]).Some? && rank(r[j]).Some? &&
      if ascending then rank(r[i]).value <= rank(r[j]).value else rank(r[i]).value >= rank(r[j]).value
  }

  /** On two ranked tickets the rank comparator is the difference of their ranks. */
  lemma RankCompare(sortKey: string, ascending: bool, a: Record, b: Record)
    requires sortKey == PriorityField || sortKey == StatusField
    requires RankFor(sortKey)(a).Some? && RankFor(sortKey)(b).Some?
    ensures Compare(sortKey, ascending, a, b) ==
      if ascending then RankFor(sortKey)(a).value - RankFor(sortKey)(b).value
      else RankFor(sortKey)(b).value - RankFor(sortKey)(a).value
  {
  }

  /** Rank comparators are total preorders on tickets that all carry one of the three ranked values. */
  lemma RankedPreorder(data: seq<Record>, sortKey: string, ascending: bool)
    requires sortKey == PriorityField || sortKey == StatusField
    requires forall t :: t in data ==> RankFor(sortKey)(t).Some?
    ensures TotalPreorderOn(Comparator(sortKey, ascending), data)
  {
    var cmp := Comparator(sortKey, ascending);
    forall a, b | a in data && b in data
      ensures cmp(a, b) == Compare(sortKey, ascending, a, b)
      ensures Compare(sortKey, ascending, a, b) ==
        if ascending then RankFor(sortKey)(a).value - RankFor(sortKey)(b).value
        else RankFor(sortKey)(b).value - RankFor(sortKey)(a).value
    {
      RankCompare(sortKey, ascending, a, b);
    }
  }

  /**
   * Sorting by a ranked key on tickets that all carry a ranked value orders
   * the ranks, ascending or descending, and keeps every ticket.
   */
  lemma {:induction false} SortByRank(data: seq<Record>, sortKey: string, ascending: bool)
    requires sortKey == PriorityField || sortKey == StatusField
    requires forall t :: t in data ==> RankFor(sortKey)(t).Some?
    ensures multiset(SortedData(data, sortKey, ascending)) == multiset(data)
    ensures RankOrdered(SortedData(data, sortKey, ascending), RankFor(sortKey), ascending)
  {
    var cmp := Comparator(sortKey, ascending);
    RankedPreorder(data, sortKey, ascending);
    SortSorted(data, cmp);
    SortPermutation(data, cmp);
    var r := SortedData(data, sortKey, ascending);
    forall t | t in r ensures RankFor(sortKey)(t).Some? {
      assert t in multiset(data);
    }
    SortedRanks(r, sortKey, ascending);
  }

  /** A sequence sorted under a rank comparator, every element ranked, has its ranks in order. */
  lemma SortedRanks(r: seq<Record>, sortKey: string, ascending: bool)
    requires sortKey == PriorityField || sortKey == StatusField
    requires forall t :: t in r ==> RankFor(sortKey)(t).Some?
    requires SortedBy(r, Comparator(sortKey, ascending))
    ensures RankOrdered(r, RankFor(sortKey), ascending)
  {
    forall i, j | 0 <= i < j < |r|
      ensures RankFor(sortKey)(r[i]).Some? && RankFor(sortKey)(r[j]).Some?
      ensures if ascending then RankFor(sortKey)(r[i]).value <= RankFor(sortKey)(r[j]).value
              else RankFor(sortKey)(r[i]).value >= RankFor(sortKey)(r[j]).value
    {
      RankPairOrdered(sortKey, ascending, r[i], r[j]);
    }
  }

  /** Two ranked tickets the comparator does not swap have their ranks in order. */
  lemma RankPairOrdered(sortKey: string, ascending: bool, a: Record, b: Record)
    requires sortKey == PriorityField || sortKey == StatusField
    requires RankFor(sortKey)(a).Some? && RankFor(sortKey)(b).Some?
    requires Comparator(sortKey, ascending)(a, b) <= 0
    ensures if ascending then RankFor(sortKey)(a).value <= RankFor(sortKey)(b).value
            else RankFor(sortKey)(a).value >= RankFor(sortKey)(b).value
  {
    RankCompare(sortKey, ascending, a, b);
  }

  /** Sorting by priority orders Низкий, Средний, Высокий (or the reverse) and keeps every ticket. */
  lemma SortByPriority(data: seq<Record>, ascending: bool)
    requires forall t :: t in data ==> PriorityOf(t).Some?
    ensures multiset(SortedData(data, PriorityField, ascending)) == multiset(data)
    ensures RankOrdered(SortedData(data, PriorityField, ascending), PriorityOf, ascending)
  {
    SortByRank(data, PriorityField, ascending);
  }

  /** Sorting by status orders Новые, В процессе, Завершенные (or the reverse) and keeps every ticket. */
  lemma SortByStatus(data: seq<Record>, ascending: bool)
    requires forall t :: t in data ==> StatusOf(t).Some?
    ensures multiset(SortedData(data, StatusField, ascending)) == multiset(data)
    ensures RankOrdered(SortedData(data, StatusField, ascending), StatusOf, ascending)
  {
    SortByRank(data, StatusField, ascending);
  }

  /** Every ticket's value under `key` is a string, or every one is a number. */
  predicate Comparable(data: seq<Record>, key: string)
  {
    || (forall t :: t in data ==> Get(t, key).Some? && Get(t, key).value.Str?)
    || (forall t :: t in data ==> Get(t, key).Some? && Get(t, key).value.Num?)
  }

  lemma ValueLessOrder(a: Option<Value>, b: Option<Value>, c: Option<Value>)
    requires a.Some? && b.Some? && c.Some?
    requires (a.value.Str? && b.value.Str? && c.value.Str?) || (a.value.Num? && b.value.Num? && c.value.Num?)
    ensures !(ValueLess(a, b) && ValueLess(b, a))
    ensures a != b ==> ValueLess(a, b) || ValueLess(b, a)
    ensures !ValueLess(b, a) && !ValueLess(c, b) ==> !ValueLess(c, a)
  {
    if a.value.Str? {
      Text.LessTrichotomy(a.value.s, b.value.s);
      Text.LessTrichotomy(b.value.s, c.value.s);
      Text.LessTrichotomy(a.value.s, c.value.s);
      if Text.Less(c.value.s, a.value.s) && !Text.Less(b.value.s, a.value.s) && !Text.Less(c.value.s, b.value.s) {
        if a.value.s != b.value.s {
          Text.LessTransitive(c.value.s, a.value.s, b.value.s);
        }
      }
    }
  }

  /** Three-way comparison of comparable values is a total preorder, in either direction. */
  lemma ThreeWayPreorder(data: seq<Record>, sortKey: string, ascending: bool)
    requires sortKey != "" && sortKey != PriorityField && sortKey != StatusField
    requires Comparable(data, sortKey)
    ensures TotalPreorderOn(Comparator(sortKey, ascending), data)
  {
    var cmp := Comparator(sortKey, ascending);
    forall a, b, c | a in data && b in data && c in data
      ensures cmp(a, b) < 0 <==> cmp(b, a) > 0
      ensures cmp(a, b) <= 0 && cmp(b, c) <= 0 ==> cmp(a, c) <= 0
    {
      var va, vb, vc := Get(a, sortKey), Get(b, sortKey), Get(c, sortKey);
      ValueLessOrder(va, vb, vc);
      ValueLessOrder(vc, vb, va);
      ValueLessOrder(va, vc, vb);
    }
  }

  /**
   * Sorting by any other key whose values are all strings or all numbers:
   * ascending, no ticket's value is less than an earlier one's; descending,
   * no ticket's value is greater.
   */
  lemma {:induction false} SortByOtherKey(data: seq<Record>, sortKey: string, ascending: bool)
    requires sortKey != "" && sortKey != PriorityField && sortKey != StatusField
    requires Comparable(data, sortKey)
    ensures var r := SortedData(data, sortKey, ascending);
      && multiset(r) == multiset(data)
      && forall i, j :: 0 <= i < j < |r| ==>
           if ascending then !ValueLess(Get(r[j], sortKey), Get(r[i], sortKey))
           else !ValueLess(Get(r[i], sortKey), Get(r[j], sortKey))
  {
    var cmp := Comparator(sortKey, ascending);
    ThreeWayPreorder(data, sortKey, ascending);
    SortSorted(data, cmp);
    SortPermutation(data, cmp);
    var r := SortedData(data, sortKey, ascending);
    forall i, j | 0 <= i < j < |r|
      ensures if ascending then !ValueLess(Get(r[j], sortKey), Get(r[i], sortKey))
              else !ValueLess(Get(r[i], sortKey), Get(r[j], sortKey))
    {
      assert r[i] in multiset(data) && r[j] in multiset(data);
      assert cmp(r[i], r[j]) <= 0;
      ValueLessOrder(Get(r[i], sortKey), Get(r[j], sortKey), Get(r[j], sortKey));
    }
  }

  /** Under any key the comparator orders totally, tickets it calls equal keep their fetch order. */
  lemma SortIsStable(data: seq<Record>, sortKey: string, ascending: bool, z: Record)
    requires TotalPreorderOn(Comparator(sortKey, ascending), data + [z])
    ensures Ties(SortedData(data, sortKey, ascending), z, Comparator(sortKey, ascending))
         == Ties(data, z, Comparator(sortKey, ascending))
  {
    SortStable(data, z, Comparator(sortKey, ascending));
  }

  /** Sorting Низкий, Высокий, Средний by priority, descending, gives Высокий, Средний, Низкий. */
  lemma PriorityDescendingExample(low: Record, high: Record, medium: Record)
    requires Get(low, PriorityField) == Some(Str(Low))
    requires Get(high, PriorityField) == Some(Str(High))
    requires Get(medium, PriorityField) == Some(Str(Medium))
    ensures SortedData([low, high, medium], PriorityField, false) == [high, medium, low]
  {
    var cmp := Comparator(PriorityField, false);
    assert cmp(high, medium) < 0 && cmp(low, high) > 0 && cmp(low, medium) > 0;
    assert [low, high, medium][1..] == [high, medium] && [high, medium][1..] == [medium];
    assert InsertionSort([medium], cmp) == [medium];
    assert InsertionSort([high, medium], cmp) == [high, medium];
    assert Insert(low, [medium], cmp) == [medium, low];
    assert Insert(low, [high, medium], cmp) == [high] + Insert(low, [medium], cmp);
  }

  /** Sorting Завершенные, Новые, В процессе by status, ascending, gives Новые, В процессе, Завершенные. */
  lemma StatusAscendingExample(finished: Record, newer: Record, started: Record)
    requires Get(finished, StatusField) == Some(Str(Done))
    requires Get(newer, StatusField) == Some(Str(New))
    requires Get(started, StatusField) == Some(Str(InProgress))
    ensures SortedData([finished, newer, started], StatusField, true) == [newer, started, finished]
  {
    var cmp := Comparator(StatusField, true);
    assert cmp(newer, started) < 0 && cmp(finished, newer) > 0 && cmp(finished, started) > 0;
    assert [finished, newer, started][1..] == [newer, started] && [newer, started][1..] == [started];
    assert InsertionSort([started], cmp) == [started];
    assert InsertionSort([newer, started], cmp) == [newer, started];
    assert Insert(finished, [started], cmp) == [started, finished];
    assert Insert(finished, [newer, started], cmp) == [newer] + Insert(finished, [started], cmp);
  }

  // ----- pagination -----

  /** `Math.ceil(len / perPage)`. */
  function TotalPages(len: nat, perPage: nat): (t: nat)
    requires perPage > 0
    ensures t * perPage >= len
    ensures len > 0 ==> (t - 1) * perPage < len
    ensures t == 0 <==> len == 0
  {
    var q := (len + perPage - 1) / perPage;
    var r := (len + perPage - 1) % perPage;
    assert len + perPage - 1 == q * perPage + r;
    assert q * perPage == len + perPage - 1 - r;
    assert (q - 1) * perPage == q * perPage - perPage;
    q
  }

  function Min(a: int, b: int): int { if a < b then a else b }

  /** How `slice` reads an index: negative counts from the end; both ends are clamped to the length. */
  function SliceIndex(i: int, len: nat): (r: nat)
  {
    if i < 0 then (if len + i < 0 then 0 else len + i)
    else if i > len then len
    else i
  }

  /** `s.slice(start, end)`. */
  function Slice<T>(s: seq<T>, start: int, end: int): seq<T>
  {
    var a := SliceIndex(start, |s|);
    var b := SliceIndex(end, |s|);
    if a < b then s[a..b] else []
  }

  /** `currentItems`, from `indexOfFirstItem` and `indexOfLastItem`. */
  function CurrentItems<T>(sorted: seq<T>, page: int, perPage: nat): seq<T>
  {
    var indexOfLastItem := page * perPage;
    var indexOfFirstItem := indexOfLastItem - perPage;
    Slice(sorted, indexOfFirstItem, indexOfLastItem)
  }

  /** Page `p` (1-based) is the run of items from `(p-1)*n` up to `p*n`, cut at the end. */
  lemma PageIsSlice<T>(s: seq<T>, page: int, perPage: nat)
    requires page >= 1 && perPage > 0
    ensures Min((page - 1) * perPage, |s|) <= Min(page * perPage, |s|)
    ensures CurrentItems(s, page, perPage) == s[Min((page - 1) * perPage, |s|)..Min(page * perPage, |s|)]
  {
    assert page * perPage == (page - 1) * perPage + perPage;
    assert (page - 1) * perPage >= 0;
  }

  /** Pages 1..count, one after the other. */
  function Pages<T>(s: seq<T>, perPage: nat, count: nat): seq<T>
  {
    if count == 0 then [] else Pages(s, perPage, count - 1) + CurrentItems(s, count, perPage)
  }

  lemma {:induction false} PagesArePrefix<T>(s: seq<T>, perPage: nat, count: nat)
    requires perPage > 0
    ensures Pages(s, perPage, count) == s[..Min(count * perPage, |s|)]
  {
    if count > 0 {
      PagesArePrefix(s, perPage, count - 1);
      PageIsSlice(s, count, perPage);
      PrefixThenSlice(s, Min((count - 1) * perPage, |s|), Min(count * perPage, |s|));
    }
  }

  lemma PrefixThenSlice<T>(s: seq<T>, a: int, b: int)
    requires 0 <= a <= b <= |s|
    ensures s[..a] + s[a..b] == s[..b]
  {
  }

  /** Reading pages 1 to `totalPages` in turn shows every sorted ticket once, in order. */
  lemma AllPagesReproduce<T>(s: seq<T>, perPage: nat)
    requires perPage > 0
    ensures Pages(s, perPage, TotalPages(|s|, perPage)) == s
  {
    PagesArePrefix(s, perPage, TotalPages(|s|, perPage));
  }

  lemma MulMonotone(a: int, b: int, n: nat)
    requires a <= b
    ensures a * n <= b * n
  {
    assert b * n - a * n == (b - a) * n;
  }

  /** Where the page's two ends fall: inside the items before the last page, around the end on it. */
  lemma PageBounds(len: nat, perPage: nat, page: int)
    requires perPage > 0 && 1 <= page <= TotalPages(len, perPage)
    ensures 0 <= (page - 1) * perPage && page * perPage == (page - 1) * perPage + perPage
    ensures page < TotalPages(len, perPage) ==> page * perPage <= len
    ensures page == TotalPages(len, perPage) ==> (page - 1) * perPage < len <= page * perPage
  {
    MulMonotone(0, page - 1, perPage);
    var t := TotalPages(len, perPage);
    if page < t {
      MulMonotone(page, t - 1, perPage);
    }
  }

  /** Every page before the last is full; the last holds the remainder and is not empty. */
  lemma PageSizes<T>(s: seq<T>, perPage: nat, page: int)
    requires perPage > 0 && 1 <= page <= TotalPages(|s|, perPage)
    ensures page < TotalPages(|s|, perPage) ==> |CurrentItems(s, page, perPage)| == perPage
    ensures page == TotalPages(|s|, perPage) ==>
      |CurrentItems(s, page, perPage)| == |s| - (page - 1) * perPage > 0
  {
    PageIsSlice(s, page, perPage);
    PageBounds(|s|, perPage, page);
    SpanSize(|s|, (page - 1) * perPage, page * perPage, perPage, page == TotalPages(|s|, perPage));
  }

  /** The length of the run between two clamped ends `first` and `first + n`. */
  lemma SpanSize(len: nat, first: int, last: int, n: nat, isLast: bool)
    requires 0 <= first && last == first + n
    requires !isLast ==> last <= len
    requires isLast ==> first < len <= last
    ensures !isLast ==> Min(last, len) - Min(first, len) == n
    ensures isLast ==> Min(last, len) - Min(first, len) == len - first > 0
  {
  }

  /** 120 tickets at 50 a page: three pages of 50, 50 and 20, and no way forward from page 3. */
  lemma PaginationExample(s: seq<Record>)
    requires |s| == 120
    ensures TotalPages(|s|, 50) == 3
    ensures |CurrentItems(s, 1, 50)| == 50 && |CurrentItems(s, 2, 50)| == 50 && |CurrentItems(s, 3, 50)| == 20
    ensures ForwardDisabled(3, TotalPages(|s|, 50))
  {
    PageSizes(s, 50, 1);
    PageSizes(s, 50, 2);
    PageSizes(s, 50, 3);
  }

  // ----- the Back and Forward buttons -----

  /** "Назад" is disabled on page 1. */
  predicate BackDisabled(page: int) { page == 1 }

  /** "Вперед" is disabled when the page equals `totalPages`. */
  predicate ForwardDisabled(page: int, totalPages: int) { page == totalPages }

  function AfterBack(page: int): int { if BackDisabled(page) then page else page - 1 }

  function AfterForward(page: int, totalPages: int): int
  {
    if ForwardDisabled(page, totalPages) then page else page + 1
  }

  /** With at least one page, the buttons keep the page between 1 and `totalPages`. */
  lemma NavigationStaysInRange(page: int, totalPages: int)
    requires 1 <= page <= totalPages
    ensures BackDisabled(page) <==> page == 1
    ensures ForwardDisabled(page, totalPages) <==> page == totalPages
    ensures 1 <= AfterBack(page) <= totalPages
    ensures 1 <= AfterForward(page, totalPages) <= totalPages
  {
  }

  /** On an empty table there are no pages, yet page 1 leaves "Вперед" enabled and it leads to page 2. */
  lemma ForwardLeavesEmptyTable(perPage: nat)
    requires perPage > 0
    ensures TotalPages(0, perPage) == 0
    ensures !ForwardDisabled(1, TotalPages(0, perPage))
    ensures AfterForward(1, TotalPages(0, perPage)) == 2
  {
  }

  /** The evidently intended guard: disabled on the last page and beyond. */
  predicate ForwardDisabledAtEnd(page: int, totalPages: int) { page >= totalPages }

  function AfterForwardAtEnd(page: int, totalPages: int): int
  {
    if ForwardDisabledAtEnd(page, totalPages) then page else page + 1
  }

  /** With that guard the page stays in 1..max(1, totalPages), empty table included. */
  lemma ForwardAtEndStaysInRange(page: int, totalPages: nat)
    requires 1 <= page && (page <= totalPages || page == 1)
    ensures 1 <= AfterForwardAtEnd(page, totalPages) && (AfterForwardAtEnd(page, totalPages) <= totalPages || AfterForwardAtEnd(page, totalPages) == 1)
    ensures 1 <= AfterBack(page) && (AfterBack(page) <= totalPages || AfterBack(page) == 1)
  {
  }

  // ----- the sort selector -----

  /** `const [key, order] = value.split('-')`; a missing `order` is `undefined`. */
  function ParseSortValue(value: string): (string, Option<string>)
  {
    var parts := Text.Split(value, '-');
    (parts[0], if |parts| >= 2 then Some(parts[1]) else None)
  }

  /** Every option of the selector, `key-order`, splits back into its key and order. */
  lemma ParseSortOption(key: string, order: string)
    requires '-' !in key && '-' !in order
    ensures ParseSortValue(key + "-" + order) == (key, Some(order))
  {
    Text.SplitJoin([key, order], '-');
    assert Text.Join([key, order], '-') == key + "-" + order;
  }

  /** A selector value without `-` sets the key and leaves the order `undefined`. */
  lemma ParseSortKeyOnly(key: string)
    requires '-' !in key
    ensures ParseSortValue(key) == (key, None)
  {
    Text.SplitFree(key, '-');
  }

  // ----- the component's state -----

  const EmptyForm: Record := map[
    "number" := Str(""), "description" := Str(""), CreationDateField := Str(""),
    StatusField := Str(""), PriorityField := Str(""), "responsibleEmployee" := Str("")]

  class TableView {
    /** `data`: the tickets as last fetched. */
    var data: seq<Record>
    /** `formData`; the inputs write it field by field. */
    var form: Record
    var sortKey: string
    /** `sortOrder`; None is `undefined` (a selector value without `-`). */
    var sortOrder: Option<string>
    var currentPage: int
    /** `itemsPerPage`: its setter is never called. */
    const itemsPerPage: nat

    constructor ()
      ensures data == [] && form == EmptyForm
      ensures sortKey == "" && sortOrder == Some("asc")
      ensures currentPage == 1 && itemsPerPage == 50
    {
      data, form := [], EmptyForm;
      sortKey, sortOrder := "", Some("asc");
      currentPage, itemsPerPage := 1, 50;
    }

    function Ascending(): bool
      reads this
    {
      sortOrder == Some("asc")
    }

    function Sorted(): seq<Record>
      reads this
    {
      SortedData(data, sortKey, Ascending())
    }

    function Shown(): seq<Record>
      reads this
    {
      CurrentItems(Sorted(), currentPage, itemsPerPage)
    }

    function PageCount(): nat
      reads this
      requires itemsPerPage > 0
    {
      TotalPages(|Sorted()|, itemsPerPage)
    }

    /** The effect on mount: fetch all tickets once the store is ready; a failure leaves `data`. */
    method Load(store: Store.RecordStore)
      requires store.Valid()
      modifies this`data
      ensures !store.ready ==> data == old(data)
      ensures store.ready ==> data == store.records
    {
      if !store.ready {
        return;
      }
      var items := store.GetAllData();
      if items.Ok? {
        data := items.value;
      }
    }

    /**
     * `handleAddItem`: add a copy of the form, fetch everything again, clear
     * the form. A rejected step leaves `data` and the form as they were.
     */
    method HandleAddItem(store: Store.RecordStore)
      requires store.Valid()
      modifies this`data, this`form, store`records, store`nextKey, store`usedKeys
      ensures store.Valid()
      ensures old(store.usedKeys) <= store.usedKeys && old(store.nextKey) <= store.nextKey
      ensures !store.ready ==> data == old(data) && form == old(form) && unchanged(store)
      ensures data == old(data) || data == store.records
      ensures form == old(form) || (form == EmptyForm && data == store.records)
      ensures store.ready && IdField !in old(form) ==>
        && |store.records| == |old(store.records)| + 1
        && Store.ChangedOnlyAt(old(store.records), store.records, old(store.nextKey), old(form)[IdField := Num(old(store.nextKey))])
        && data == store.records && form == EmptyForm
      ensures store.ready && IdField in old(form) ==>
        match Store.KeyOf(old(form))
        case Some(k) =>
          if Store.Lookup(old(store.records), k).None? then
            && Store.ChangedOnlyAt(old(store.records), store.records, k, old(form))
            && data == store.records && form == EmptyForm
          else data == old(data) && form == old(form) && unchanged(store)
        case None => data == old(data) && form == old(form) && unchanged(store)
    {
      if !store.ready {
        return;
      }
      var added := store.AddData(form);
      if added.Err? {
        return;
      }
      var items := store.GetAllData();
      if items.Err? {
        return;
      }
      data := items.value;
      form := EmptyForm;
    }

    /** `handleSortChange`: the selector value split into key and order. */
    method HandleSortChange(value: string)
      modifies this`sortKey, this`sortOrder
      ensures (sortKey, sortOrder) == ParseSortValue(value)
    {
      var parsed := ParseSortValue(value);
      sortKey := parsed.0;
      sortOrder := parsed.1;
    }

    /** `resetSorting`: back to the fetch order. */
    method ResetSorting()
      modifies this`sortKey, this`sortOrder
      ensures sortKey == "" && sortOrder == Some("asc")
      ensures Sorted() == data
    {
      sortKey := "";
      sortOrder := Some("asc");
      UnsortedKeepsFetchOrder(data, true);
    }

    /** `handlePageChange`. */
    method HandlePageChange(pageNumber: int)
      modifies this`currentPage
      ensures currentPage == pageNumber
    {
      currentPage := pageNumber;
    }

    /** A click on "Назад": one page back unless on page 1. */
    method PressBack()
      modifies this`currentPage
      ensures currentPage == AfterBack(old(currentPage))
    {
      if !BackDisabled(currentPage) {
        HandlePageChange(currentPage - 1);
      }
    }

    /**
     * A click on "Вперед": one page on unless on the last page. This uses the
     * corrected guard `ForwardDisabledAtEnd`, so the page cannot run past an
     * empty table.
     */
    method PressForward()
      requires itemsPerPage > 0
      modifies this`currentPage
      ensures currentPage == AfterForwardAtEnd(old(currentPage), PageCount())
      ensures 1 <= old(currentPage) && (old(currentPage) <= PageCount() || old(currentPage) == 1) ==>
        1 <= currentPage && (currentPage <= PageCount() || currentPage == 1)
    {
      if !ForwardDisabledAtEnd(currentPage, PageCount()) {
        HandlePageChange(currentPage + 1);
      }
    }
  }
}
