/**
 * The dashboard's figures, all computed from the fetched tickets: the
 * counters, the status and priority charts, the per-day timeline and the
 * five most recent tickets.
 */
module Dashboard {
  import opened Wrappers
  import opened Records
  import opened Sorting
  import Text
  import Table

  // ----- counters -----

  /** `tickets.filter(t => t[field] === v)`. */
  function Matching(ts: seq<Record>, field: string, v: Value): (r: seq<Record>)
    ensures |r| <= |ts|
  {
    if ts == [] then []
    else (if Get(ts[0], field) == Some(v) then [ts[0]] else []) + Matching(ts[1..], field, v)
  }

  /** `tickets.filter(t => t[field] !== v)`. */
  function NotMatching(ts: seq<Record>, field: string, v: Value): (r: seq<Record>)
    ensures |r| <= |ts|
  {
    if ts == [] then []
    else (if Get(ts[0], field) != Some(v) then [ts[0]] else []) + NotMatching(ts[1..], field, v)
  }

  /** The first filter keeps exactly the tickets whose `field` is `v`. */
  lemma {:induction false} MatchingMembers(ts: seq<Record>, field: string, v: Value)
    ensures forall t :: t in Matching(ts, field, v) <==> t in ts && Get(t, field) == Some(v)
  {
    if ts != [] {
      MatchingMembers(ts[1..], field, v);
      assert ts == [ts[0]] + ts[1..];
    }
  }

  /** The second keeps exactly the others, those without the field included. */
  lemma {:induction false} NotMatchingMembers(ts: seq<Record>, field: string, v: Value)
    ensures forall t :: t in NotMatching(ts, field, v) <==> t in ts && Get(t, field) != Some(v)
  {
    if ts != [] {
      NotMatchingMembers(ts[1..], field, v);
      assert ts == [ts[0]] + ts[1..];
    }
  }

  /** The two filters split the tickets between them. */
  lemma {:induction false} MatchingSplits(ts: seq<Record>, field: string, v: Value)
    ensures multiset(Matching(ts, field, v)) + multiset(NotMatching(ts, field, v)) == multiset(ts)
    ensures |Matching(ts, field, v)| + |NotMatching(ts, field, v)| == |ts|
  {
    if ts != [] {
      MatchingSplits(ts[1..], field, v);
      MultisetCons(ts);
    }
  }

  lemma MultisetCons<T>(s: seq<T>)
    requires s != []
    ensures multiset(s) == multiset{s[0]} + multiset(s[1..])
  {
    assert s == [s[0]] + s[1..];
  }

  function TotalTickets(ts: seq<Record>): nat { |ts| }

  function OpenTickets(ts: seq<Record>): nat { |NotMatching(ts, StatusField, Str(Table.Done))| }

  function ResolvedTickets(ts: seq<Record>): nat { |Matching(ts, StatusField, Str(Table.Done))| }

  /** Every ticket is either open or resolved, never both. */
  lemma OpenPlusResolved(ts: seq<Record>)
    ensures OpenTickets(ts) + ResolvedTickets(ts) == TotalTickets(ts)
    ensures forall t :: t in Matching(ts, StatusField, Str(Table.Done)) ==> t !in NotMatching(ts, StatusField, Str(Table.Done))
  {
    MatchingSplits(ts, StatusField, Str(Table.Done));
    MatchingMembers(ts, StatusField, Str(Table.Done));
    NotMatchingMembers(ts, StatusField, Str(Table.Done));
  }

  /** One slice of a pie or bar chart. */
  datatype Entry = Entry(name: string, value: nat)

  /**
   * `statusData`: an open and a resolved slice, adding up to every ticket;
   * a slice is empty exactly when no ticket falls in it.
   */
  function StatusData(ts: seq<Record>): (r: seq<Entry>)
    ensures |r| == 2 && r[0].name == "Открытые" && r[1].name == "Решённые"
    ensures r[0].value + r[1].value == |ts|
    ensures r[0].value == 0 <==> forall t :: t in ts ==> Get(t, StatusField) == Some(Str(Table.Done))
    ensures r[1].value == 0 <==> forall t :: t in ts ==> Get(t, StatusField) != Some(Str(Table.Done))
  {
    OpenPlusResolved(ts);
    MatchingMembers(ts, StatusField, Str(Table.Done));
    NotMatchingMembers(ts, StatusField, Str(Table.Done));
    EmptyIffNoMember(Matching(ts, StatusField, Str(Table.Done)));
    EmptyIffNoMember(NotMatching(ts, StatusField, Str(Table.Done)));
    [Entry("Открытые", OpenTickets(ts)), Entry("Решённые", ResolvedTickets(ts))]
  }

  lemma EmptyIffNoMember<T>(s: seq<T>)
    ensures |s| == 0 <==> forall x :: x !in s
  {
    if s != [] {
      assert s[0] in s;
    }
  }

  /** `priorityData`: one bar per listed priority. */
  function PriorityData(ts: seq<Record>): seq<Entry>
  {
    [ Entry(Table.High, |Matching(ts, PriorityField, Str(Table.High))|),
      Entry(Table.Medium, |Matching(ts, PriorityField, Str(Table.Medium))|),
      Entry(Table.Low, |Matching(ts, PriorityField, Str(Table.Low))|) ]
  }

  predicate HasListedPriority(t: Record)
  {
    Get(t, PriorityField) in {Some(Str(Table.High)), Some(Str(Table.Medium)), Some(Str(Table.Low))}
  }

  /**
   * The three bars add up to at most the number of tickets, and to exactly
   * that number when every ticket has one of the three priorities.
   */
  lemma {:induction false} PriorityCounts(ts: seq<Record>)
    ensures var r := PriorityData(ts);
      && |r| == 3
      && r[0].value + r[1].value + r[2].value <= |ts|
      && (r[0].value + r[1].value + r[2].value == |ts| <==> forall t :: t in ts ==> HasListedPriority(t))
  {
    if ts != [] {
      var h, rest := ts[0], ts[1..];
      PriorityCounts(rest);
      assert |Matching(ts, PriorityField, Str(Table.High))|
        == (if Get(h, PriorityField) == Some(Str(Table.High)) then 1 else 0) + |Matching(rest, PriorityField, Str(Table.High))|;
      assert |Matching(ts, PriorityField, Str(Table.Medium))|
        == (if Get(h, PriorityField) == Some(Str(Table.Medium)) then 1 else 0) + |Matching(rest, PriorityField, Str(Table.Medium))|;
      assert |Matching(ts, PriorityField, Str(Table.Low))|
        == (if Get(h, PriorityField) == Some(Str(Table.Low)) then 1 else 0) + |Matching(rest, PriorityField, Str(Table.Low))|;
      assert (forall t :: t in ts ==> HasListedPriority(t)) <==> HasListedPriority(h) && forall t :: t in rest ==> HasListedPriority(t) by {
        assert ts == [h] + rest;
      }
    }
  }

  // ----- the timeline -----

  /** `t.creationDate.split("T")[0]`; None when `creationDate` is not a string, where `split` throws. */
  function DateKey(t: Record): Option<string>
  {
    match Get(t, CreationDateField)
    case Some(Str(s)) => Some(Text.BeforeFirst(s, 'T'))
    case _ => None
  }

  /** How many tickets fall on day `d`. */
  function Occurrences(ts: seq<Record>, d: string): nat
  {
    if ts == [] then 0
    else (if DateKey(ts[0]) == Some(d) then 1 else 0) + Occurrences(ts[1..], d)
  }

  /** The accumulator object: its keys in insertion order, and the value under each. */
  datatype Timeline = Timeline(keys: seq<string>, counts: map<string, nat>)

  ghost predicate WellFormed(tl: Timeline)
  {
    && (forall i, j :: 0 <= i < j < |tl.keys| ==> tl.keys[i] != tl.keys[j])
    && (forall d :: d in tl.keys <==> d in tl.counts)
  }

  /** `acc[date] = (acc[date] || 0) + 1`. */
  function Bump(tl: Timeline, d: string): Timeline
  {
    if d in tl.counts then Timeline(tl.keys, tl.counts[d := tl.counts[d] + 1])
    else Timeline(tl.keys + [d], tl.counts[d := 1])
  }

  /** The rest of `reduce` from accumulator `acc`; None where a ticket makes `split` throw. */
  function Fold(acc: Timeline, ts: seq<Record>): Option<Timeline>
    decreases |ts|
  {
    if ts == [] then Some(acc)
    else match DateKey(ts[0])
      case None => None
      case Some(d) => Fold(Bump(acc, d), ts[1..])
  }

  /** `timelineData`. */
  function TimelineData(ts: seq<Record>): Option<Timeline>
  {
    Fold(Timeline([], map[]), ts)
  }

  /** The values under the keys, added up. */
  function Total(keys: seq<string>, counts: map<string, nat>): nat
    requires forall i :: 0 <= i < |keys| ==> keys[i] in counts
  {
    if keys == [] then 0 else Total(keys[..|keys| - 1], counts) + counts[keys[|keys| - 1]]
  }

  lemma {:induction false} TotalUnchanged(keys: seq<string>, c: map<string, nat>, c': map<string, nat>)
    requires forall i :: 0 <= i < |keys| ==> keys[i] in c && keys[i] in c' && c[keys[i]] == c'[keys[i]]
    ensures Total(keys, c) == Total(keys, c')
  {
    if keys != [] {
      TotalUnchanged(keys[..|keys| - 1], c, c');
    }
  }

  lemma {:induction false} TotalBump(keys: seq<string>, c: map<string, nat>, d: string)
    requires forall i :: 0 <= i < |keys| ==> keys[i] in c
    requires forall i, j :: 0 <= i < j < |keys| ==> keys[i] != keys[j]
    requires d in keys
    ensures Total(keys, c[d := c[d] + 1]) == Total(keys, c) + 1
  {
    var init := keys[..|keys| - 1];
    var c' := c[d := c[d] + 1];
    if keys[|keys| - 1] == d {
      assert forall i :: 0 <= i < |init| ==> init[i] != d;
      TotalUnchanged(init, c, c');
    } else {
      assert d in init by {
        var i :| 0 <= i < |keys| && keys[i] == d;
        assert init[i] == d;
      }
      TotalBump(init, c, d);
    }
  }

  /** One step of the fold keeps the accumulator well formed and counts `d` once more. */
  lemma BumpSpec(tl: Timeline, d: string)
    requires WellFormed(tl)
    ensures WellFormed(Bump(tl, d))
    ensures forall e :: e in Bump(tl, d).counts <==> e in tl.counts || e == d
    ensures forall e :: e in Bump(tl, d).counts ==>
      Bump(tl, d).counts[e] == (if e in tl.counts then tl.counts[e] else 0) + (if e == d then 1 else 0)
    ensures tl.keys <= Bump(tl, d).keys
  {
  }

  /** One step of the fold adds one to the total. */
  lemma BumpTotal(tl: Timeline, d: string)
    requires WellFormed(tl)
    ensures forall i :: 0 <= i < |Bump(tl, d).keys| ==> Bump(tl, d).keys[i] in Bump(tl, d).counts
    ensures Total(Bump(tl, d).keys, Bump(tl, d).counts) == Total(tl.keys, tl.counts) + 1
  {
    var b := Bump(tl, d);
    assert forall i :: 0 <= i < |tl.keys| ==> tl.keys[i] in tl.counts;
    if d in tl.counts {
      assert b == Timeline(tl.keys, tl.counts[d := tl.counts[d] + 1]);
      assert d in tl.keys;
      TotalBump(tl.keys, tl.counts, d);
    } else {
      assert b == Timeline(tl.keys + [d], tl.counts[d := 1]);
      TotalAppend(tl.keys, tl.counts, d);
    }
  }

  /** Counting a new day once adds one to the total. */
  lemma TotalAppend(keys: seq<string>, c: map<string, nat>, d: string)
    requires forall i :: 0 <= i < |keys| ==> keys[i] in c
    requires d !in c
    ensures Total(keys + [d], c[d := 1]) == Total(keys, c) + 1
  {
    var keys' := keys + [d];
    assert keys'[..|keys'| - 1] == keys;
    TotalUnchanged(keys, c, c[d := 1]);
  }

  /** The fold completes exactly when every ticket's `creationDate` is a string. */
  lemma {:induction false} FoldDefined(acc: Timeline, ts: seq<Record>)
    ensures Fold(acc, ts).Some? <==> forall i :: 0 <= i < |ts| ==> DateKey(ts[i]).Some?
    decreases |ts|
  {
    if ts != [] {
      assert forall i :: 1 <= i < |ts| ==> ts[i] == ts[1..][i - 1];
      match DateKey(ts[0])
      case None =>
      case Some(d) =>
        FoldDefined(Bump(acc, d), ts[1..]);
    }
  }

  /** A completed fold from `acc` keeps it well formed, extends its keys and adds one to the total per ticket. */
  lemma {:induction false} FoldTotal(acc: Timeline, ts: seq<Record>)
    requires WellFormed(acc) && Fold(acc, ts).Some?
    ensures WellFormed(Fold(acc, ts).value)
    ensures acc.keys <= Fold(acc, ts).value.keys
    ensures forall i :: 0 <= i < |Fold(acc, ts).value.keys| ==> Fold(acc, ts).value.keys[i] in Fold(acc, ts).value.counts
    ensures Total(Fold(acc, ts).value.keys, Fold(acc, ts).value.counts) == Total(acc.keys, acc.counts) + |ts|
    decreases |ts|
  {
    if ts != [] {
      var d := DateKey(ts[0]).value;
      var b, rest := Bump(acc, d), ts[1..];
      assert Fold(acc, ts) == Fold(b, rest);
      BumpSpec(acc, d);
      BumpTotal(acc, d);
      FoldTotal(b, rest);
      var tl := Fold(b, rest).value;
      assert acc.keys <= b.keys <= tl.keys;
    }
  }

  /** After a completed fold from `acc`, each day's value is its value in `acc` plus its tickets. */
  lemma {:induction false} FoldCounts(acc: Timeline, ts: seq<Record>)
    requires WellFormed(acc) && Fold(acc, ts).Some?
    ensures forall e :: e in Fold(acc, ts).value.counts <==> e in acc.counts || Occurrences(ts, e) > 0
    ensures forall e :: e in Fold(acc, ts).value.counts ==>
      Fold(acc, ts).value.counts[e] == (if e in acc.counts then acc.counts[e] else 0) + Occurrences(ts, e)
    decreases |ts|
  {
    if ts != [] {
      var d := DateKey(ts[0]).value;
      var b, rest := Bump(acc, d), ts[1..];
      assert Fold(acc, ts) == Fold(b, rest);
      BumpSpec(acc, d);
      FoldCounts(b, rest);
    }
  }

  /** A ticket's own day occurs among the tickets. */
  lemma {:induction false} OccursOwnDay(ts: seq<Record>, i: int)
    requires 0 <= i < |ts| && DateKey(ts[i]).Some?
    ensures Occurrences(ts, DateKey(ts[i]).value) > 0
  {
    if i > 0 {
      OccursOwnDay(ts[1..], i - 1);
    }
  }

  /**
   * When every `creationDate` is a string, the timeline's keys are the
   * distinct days, each ticket's day among them; the count under a key is
   * the number of tickets of that day, at least 1; the counts add up to the
   * number of tickets. Otherwise the fold throws.
   */
  lemma TimelineSpec(ts: seq<Record>)
    ensures TimelineData(ts).Some? <==> forall i :: 0 <= i < |ts| ==> DateKey(ts[i]).Some?
    ensures TimelineData(ts).Some? ==>
      var tl := TimelineData(ts).value;
      && WellFormed(tl)
      && (forall i :: 0 <= i < |ts| ==> DateKey(ts[i]).value in tl.counts)
      && (forall d :: d in tl.counts ==> tl.counts[d] == Occurrences(ts, d) >= 1)
      && Total(tl.keys, tl.counts) == |ts|
  {
    var empty := Timeline([], map[]);
    FoldDefined(empty, ts);
    if TimelineData(ts).Some? {
      FoldTotal(empty, ts);
      FoldCounts(empty, ts);
    }
    forall i | 0 <= i < |ts| && DateKey(ts[i]).Some? ensures Occurrences(ts, DateKey(ts[i]).value) > 0 {
      OccursOwnDay(ts, i);
    }
  }

  /** One point of the line chart. */
  datatype Point = Point(date: string, count: nat)

  /** `Object.keys(timelineData).map(date => ({ date, count: timelineData[date] }))`. */
  function Points(keys: seq<string>, counts: map<string, nat>): seq<Point>
    requires forall i :: 0 <= i < |keys| ==> keys[i] in counts
  {
    if keys == [] then [] else [Point(keys[0], counts[keys[0]])] + Points(keys[1..], counts)
  }

  function Dates(ps: seq<Point>): seq<string>
  {
    if ps == [] then [] else [ps[0].date] + Dates(ps[1..])
  }

  lemma {:induction false} PointsFollowKeys(keys: seq<string>, counts: map<string, nat>)
    requires forall i :: 0 <= i < |keys| ==> keys[i] in counts
    ensures Dates(Points(keys, counts)) == keys
    ensures |Points(keys, counts)| == |keys|
    ensures forall i :: 0 <= i < |keys| ==> Points(keys, counts)[i].count == counts[keys[i]]
  {
    if keys != [] {
      PointsFollowKeys(keys[1..], counts);
    }
  }

  /** `timelineChartData`; None where building `timelineData` throws. */
  function TimelineChartData(ts: seq<Record>): Option<seq<Point>>
  {
    match TimelineData(ts)
    case None => None
    case Some(tl) =>
      FoldTotal(Timeline([], map[]), ts);
      Some(Points(tl.keys, tl.counts))
  }

  /**
   * The chart has one point per distinct day, in the timeline's key order,
   * carrying that day's number of tickets; every ticket's day has a point.
   */
  lemma TimelineChartSpec(ts: seq<Record>)
    ensures TimelineChartData(ts).Some? <==> forall i :: 0 <= i < |ts| ==> DateKey(ts[i]).Some?
    ensures TimelineChartData(ts).Some? ==>
      var ps := TimelineChartData(ts).value;
      && Dates(ps) == TimelineData(ts).value.keys
      && (forall i, j :: 0 <= i < j < |ps| ==> ps[i].date != ps[j].date)
      && (forall i :: 0 <= i < |ps| ==> ps[i].count == Occurrences(ts, ps[i].date) >= 1)
      && (forall i :: 0 <= i < |ts| ==> DateKey(ts[i]).value in Dates(ps))
  {
    FoldDefined(Timeline([], map[]), ts);
    if TimelineData(ts).Some? {
      var tl := TimelineData(ts).value;
      TimelineKeyed(ts);
      PointsOfTimeline(tl.keys, tl.counts, ts);
      assert TimelineChartData(ts) == Some(Points(tl.keys, tl.counts));
    }
  }

  /** A completed timeline, read key by key: distinct keys, each with its day's count, covering every ticket's day. */
  lemma TimelineKeyed(ts: seq<Record>)
    requires TimelineData(ts).Some?
    ensures var tl := TimelineData(ts).value;
      && (forall i, j :: 0 <= i < j < |tl.keys| ==> tl.keys[i] != tl.keys[j])
      && (forall i :: 0 <= i < |tl.keys| ==>
            tl.keys[i] in tl.counts && tl.counts[tl.keys[i]] == Occurrences(ts, tl.keys[i]) >= 1)
      && (forall i :: 0 <= i < |ts| ==> DateKey(ts[i]).Some? && DateKey(ts[i]).value in tl.keys)
  {
    TimelineSpec(ts);
    KeyedCounts(TimelineData(ts).value, ts);
  }

  /** The facts about a timeline of `ts`, read key by key. */
  lemma KeyedCounts(tl: Timeline, ts: seq<Record>)
    requires WellFormed(tl)
    requires forall i :: 0 <= i < |ts| ==> DateKey(ts[i]).Some? && DateKey(ts[i]).value in tl.counts
    requires forall d :: d in tl.counts ==> tl.counts[d] == Occurrences(ts, d) >= 1
    ensures forall i :: 0 <= i < |tl.keys| ==>
      tl.keys[i] in tl.counts && tl.counts[tl.keys[i]] == Occurrences(ts, tl.keys[i]) >= 1
    ensures forall i :: 0 <= i < |ts| ==> DateKey(ts[i]).value in tl.keys
  {
    forall i | 0 <= i < |tl.keys|
      ensures tl.keys[i] in tl.counts && tl.counts[tl.keys[i]] == Occurrences(ts, tl.keys[i]) >= 1
    {
      assert tl.keys[i] in tl.keys;
    }
    forall i | 0 <= i < |ts| ensures DateKey(ts[i]).value in tl.keys {
      assert DateKey(ts[i]).value in tl.counts;
    }
  }

  /** The points of the timeline of `ts` follow its keys and carry each day's count. */
  lemma PointsOfTimeline(keys: seq<string>, counts: map<string, nat>, ts: seq<Record>)
    requires forall i, j :: 0 <= i < j < |keys| ==> keys[i] != keys[j]
    requires forall i :: 0 <= i < |keys| ==> keys[i] in counts && counts[keys[i]] == Occurrences(ts, keys[i]) >= 1
    requires forall i :: 0 <= i < |ts| ==> DateKey(ts[i]).Some? && DateKey(ts[i]).value in keys
    ensures var ps := Points(keys, counts);
      && Dates(ps) == keys
      && (forall i, j :: 0 <= i < j < |ps| ==> ps[i].date != ps[j].date)
      && (forall i :: 0 <= i < |ps| ==> ps[i].count == Occurrences(ts, ps[i].date) >= 1)
      && (forall i :: 0 <= i < |ts| ==> DateKey(ts[i]).value in Dates(ps))
  {
    PointsAt(keys, counts);
  }

  /** Point `i` is the key at `i` and its count. */
  lemma PointsAt(keys: seq<string>, counts: map<string, nat>)
    requires forall i :: 0 <= i < |keys| ==> keys[i] in counts
    ensures Dates(Points(keys, counts)) == keys && |Points(keys, counts)| == |keys|
    ensures forall i :: 0 <= i < |keys| ==>
      Points(keys, counts)[i] == Point(keys[i], counts[keys[i]])
  {
    PointsFollowKeys(keys, counts);
    var ps := Points(keys, counts);
    forall i | 0 <= i < |ps| ensures ps[i].date == keys[i] {
      DatesAt(ps, i);
    }
  }

  lemma {:induction false} DatesAt(ps: seq<Point>, i: int)
    requires 0 <= i < |ps|
    ensures |Dates(ps)| == |ps| && Dates(ps)[i] == ps[i].date
  {
    if i > 0 {
      DatesAt(ps[1..], i - 1);
    } else {
      DatesLength(ps[1..]);
    }
  }

  lemma {:induction false} DatesLength(ps: seq<Point>)
    ensures |Dates(ps)| == |ps|
  {
    if ps != [] {
      DatesLength(ps[1..]);
    }
  }

  // ----- the most recent tickets -----

  /** The largest magnitude of a valid time value, in milliseconds. */
  const MaxTime := 8_640_000_000_000_000

  /**
   * `new Date(v)` as a time value, None for an Invalid Date. Strings go to the
   * browser's date parser `parse`; an array is first joined with commas.
   */
  function TimeValue(v: Option<Value>, parse: string -> Option<int>): Option<int>
  {
    match v
    case None => None
    case Some(Str(s)) => parse(s)
    case Some(Num(n)) => if -MaxTime <= n <= MaxTime then Some(n) else None
    case Some(List(items)) => parse(Text.Join(items, ','))
  }

  function CreatedAt(t: Record, parse: string -> Option<int>): Option<int>
  {
    TimeValue(Get(t, CreationDateField), parse)
  }

  /** `(a, b) => new Date(b.creationDate) - new Date(a.creationDate)`. */
  function NewestFirst(parse: string -> Option<int>): (Record, Record) -> int
  {
    (a, b) => Table.Minus(CreatedAt(b, parse), CreatedAt(a, parse))
  }

  /** `recentTickets`. */
  function RecentTickets(ts: seq<Record>, parse: string -> Option<int>): seq<Record>
  {
    Table.Slice(InsertionSort(ts, NewestFirst(parse)), 0, 5)
  }

  predicate AllDated(ts: seq<Record>, parse: string -> Option<int>)
  {
    forall t :: t in ts ==> CreatedAt(t, parse).Some?
  }

  lemma NewestFirstPreorder(ts: seq<Record>, parse: string -> Option<int>)
    requires AllDated(ts, parse)
    ensures TotalPreorderOn(NewestFirst(parse), ts)
  {
  }

  /** The recent list is the first `min(5, n)` tickets of the sorted copy, all from the input. */
  lemma {:induction false} RecentTicketsSpec(ts: seq<Record>, parse: string -> Option<int>)
    ensures |RecentTickets(ts, parse)| == Table.Min(5, |ts|)
    ensures RecentTickets(ts, parse) == InsertionSort(ts, NewestFirst(parse))[..Table.Min(5, |ts|)]
    ensures multiset(RecentTickets(ts, parse)) <= multiset(ts)
  {
    var cmp := NewestFirst(parse);
    var s := InsertionSort(ts, cmp);
    SortPermutation(ts, cmp);
    var k := Table.Min(5, |ts|);
    assert s == s[..k] + s[k..];
    assert multiset(s) == multiset(s[..k]) + multiset(s[k..]);
  }

  /** Under the newest-first comparator, sorted means non-increasing creation time. */
  lemma NewestFirstSorted(r: seq<Record>, parse: string -> Option<int>)
    requires AllDated(r, parse) && SortedBy(r, NewestFirst(parse))
    ensures forall i, j :: 0 <= i < j < |r| ==> CreatedAt(r[i], parse).value >= CreatedAt(r[j], parse).value
  {
    forall i, j | 0 <= i < j < |r|
      ensures CreatedAt(r[i], parse).value >= CreatedAt(r[j], parse).value
    {
      assert NewestFirst(parse)(r[i], r[j]) <= 0;
    }
  }

  /**
   * When every creation date is valid, the recent list runs newest first.
   */
  lemma {:induction false} RecentTicketsNewest(ts: seq<Record>, parse: string -> Option<int>)
    requires AllDated(ts, parse)
    ensures var r := RecentTickets(ts, parse);
      && AllDated(r, parse)
      && (forall i, j :: 0 <= i < j < |r| ==> CreatedAt(r[i], parse).value >= CreatedAt(r[j], parse).value)
  {
    var cmp := NewestFirst(parse);
    var s := InsertionSort(ts, cmp);
    var k := Table.Min(5, |ts|);
    RecentTicketsSpec(ts, parse);
    NewestFirstPreorder(ts, parse);
    SortSorted(ts, cmp);
    SortedPrefix(s, cmp, k);
    SubDated(RecentTickets(ts, parse), ts, parse);
    NewestFirstSorted(RecentTickets(ts, parse), parse);
  }

  /** Tickets drawn from dated tickets are dated. */
  lemma SubDated(r: seq<Record>, ts: seq<Record>, parse: string -> Option<int>)
    requires AllDated(ts, parse) && multiset(r) <= multiset(ts)
    ensures AllDated(r, parse)
  {
    forall t | t in r ensures CreatedAt(t, parse).Some? {
      assert t in multiset(r);
    }
  }

  /** When every creation date is valid, no omitted ticket is newer than the last one shown. */
  lemma {:induction false} RecentTicketsOmitNothingNewer(ts: seq<Record>, parse: string -> Option<int>)
    requires AllDated(ts, parse)
    ensures var r := RecentTickets(ts, parse);
      |r| > 0 ==>
        && CreatedAt(r[|r| - 1], parse).Some?
        && forall t :: t in multiset(ts) - multiset(r) ==> CreatedAt(t, parse).value <= CreatedAt(r[|r| - 1], parse).value
  {
    var cmp := NewestFirst(parse);
    var s := InsertionSort(ts, cmp);
    var k := Table.Min(5, |ts|);
    var r := RecentTickets(ts, parse);
    RecentTicketsSpec(ts, parse);
    if k > 0 {
      NewestFirstPreorder(ts, parse);
      SortSorted(ts, cmp);
      SortPermutation(ts, cmp);
      PrefixComesFirst(s, cmp, k);
      var last := s[k - 1];
      assert last in multiset(ts);
      forall t | t in multiset(ts) - multiset(r)
        ensures CreatedAt(t, parse).value <= CreatedAt(last, parse).value
      {
        assert cmp(last, t) <= 0;
      }
    }
  }
}
