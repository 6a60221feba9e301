/**
 * `Stats`: the daily statistics of today and the two days before, keyed by
 * day. Adding a day that is already there changes nothing; adding a day when
 * three are kept first drops the one with the smallest day number.
 */
module DailyStats {
  import opened Wrappers

  /** The figures recorded for a day (the margin balance and the price). */
  datatype Figures = Figures(marginBalance: real, price: real)

  datatype Day = Day(day: int, figures: Figures)

  /** The number of records kept. */
  const Capacity: nat := 3

  ghost predicate DistinctDays(days: seq<Day>) {
    forall i, j :: 0 <= i < j < |days| ==> days[i].day != days[j].day
  }

  ghost predicate DescendingByDay(days: seq<Day>) {
    forall i, j :: 0 <= i < j < |days| ==> days[i].day >= days[j].day
  }

  /** `get_day`: the first record of `day`, if any. */
  function Find(days: seq<Day>, day: int): (r: Option<Day>)
    ensures r.Some? ==> r.value in days && r.value.day == day
    ensures r.None? <==> forall i :: 0 <= i < |days| ==> days[i].day != day
  {
    if days == [] then None
    else if days[0].day == day then Some(days[0])
    else Find(days[1..], day)
  }

  /** Insert `d` into a list sorted by descending day, ahead of the records with the same day. */
  function Insert(d: Day, days: seq<Day>): (r: seq<Day>)
    ensures |r| == |days| + 1
    ensures r[0] == d || (days != [] && r[0] == days[0])
    ensures multiset(r) == multiset(days) + multiset{d}
  {
    if days == [] || days[0].day <= d.day then [d] + days
    else
      assert days == [days[0]] + days[1..];
      [days[0]] + Insert(d, days[1..])
  }

  lemma {:induction false} InsertDescending(d: Day, days: seq<Day>)
    requires DescendingByDay(days)
    ensures DescendingByDay(Insert(d, days))
  {
    if !(days == [] || days[0].day <= d.day) {
      var rest := Insert(d, days[1..]);
      InsertDescending(d, days[1..]);
      var r := [days[0]] + rest;
      assert rest[0].day <= days[0].day;
      forall i, j | 0 <= i < j < |r| ensures r[i].day >= r[j].day {
        if i == 0 && j > 1 {
          assert rest[0].day >= rest[j - 1].day;
        }
      }
    }
  }

  lemma InsertMembers(d: Day, days: seq<Day>)
    ensures forall x :: x in Insert(d, days) <==> x == d || x in days
  {
    var r := Insert(d, days);
    forall x ensures x in r <==> x == d || x in days {
      assert x in r <==> x in multiset(r);
      assert x in days <==> x in multiset(days);
    }
  }

  lemma {:induction false} InsertDistinct(d: Day, days: seq<Day>)
    requires DistinctDays(days)
    requires forall i :: 0 <= i < |days| ==> days[i].day != d.day
    ensures DistinctDays(Insert(d, days))
  {
    if !(days == [] || days[0].day <= d.day) {
      var rest := Insert(d, days[1..]);
      InsertDistinct(d, days[1..]);
      InsertMembers(d, days[1..]);
      var r := [days[0]] + rest;
      forall j | 0 < j < |r| ensures r[0].day != r[j].day {
        assert rest[j - 1] in rest;
        assert rest[j - 1] == d || rest[j - 1] in days[1..];
      }
    }
  }

  /** `sorted(days, key=day, reverse=True)`, an insertion sort that keeps the order of equal days. */
  function SortDescending(days: seq<Day>): (r: seq<Day>)
    ensures |r| == |days|
    ensures multiset(r) == multiset(days)
  {
    if days == [] then []
    else
      assert days == [days[0]] + days[1..];
      Insert(days[0], SortDescending(days[1..]))
  }

  lemma {:induction false} SortDescendingSorted(days: seq<Day>)
    ensures DescendingByDay(SortDescending(days))
  {
    if days != [] {
      SortDescendingSorted(days[1..]);
      InsertDescending(days[0], SortDescending(days[1..]));
    }
  }

  lemma SortMembers(days: seq<Day>)
    ensures forall x :: x in SortDescending(days) <==> x in days
  {
    var r := SortDescending(days);
    forall x ensures x in r <==> x in days {
      assert x in r <==> x in multiset(r);
      assert x in days <==> x in multiset(days);
    }
  }

  lemma {:induction false} SortDistinct(days: seq<Day>)
    requires DistinctDays(days)
    ensures DistinctDays(SortDescending(days))
  {
    if days != [] {
      SortDistinct(days[1..]);
      SortMembers(days[1..]);
      var s := SortDescending(days[1..]);
      forall i | 0 <= i < |s| ensures s[i].day != days[0].day {
        assert s[i] in days[1..];
        var k :| 0 <= k < |days[1..]| && days[1..][k] == s[i];
        assert days[1 + k] == s[i];
      }
      InsertDistinct(days[0], s);
    }
  }

  /** The list with its smallest day dropped, as `sort` then `pop` leaves it. */
  function Evict(days: seq<Day>): (r: seq<Day>)
    requires days != []
    ensures |r| == |days| - 1
  {
    var sorted := SortDescending(days);
    sorted[..|sorted| - 1]
  }

  /** The record `sort` then `pop` removes: the last of the sorted list. */
  function Evicted(days: seq<Day>): Day
    requires days != []
  {
    var sorted := SortDescending(days);
    sorted[|sorted| - 1]
  }

  /** Evicting drops one record, one of the smallest day, and keeps the rest. */
  lemma EvictDropsSmallest(days: seq<Day>)
    requires days != []
    ensures Evicted(days) in days
    ensures forall x :: x in days ==> Evicted(days).day <= x.day
    ensures multiset(Evict(days)) + multiset{Evicted(days)} == multiset(days)
  {
    var sorted := SortDescending(days);
    var m := Evicted(days);
    SortDescendingSorted(days);
    SortMembers(days);
    assert sorted == Evict(days) + [m];
    assert multiset(sorted) == multiset(Evict(days)) + multiset{m};
    forall x | x in days ensures m.day <= x.day {
      var i :| 0 <= i < |sorted| && sorted[i] == x;
      if i < |sorted| - 1 {
        assert sorted[i].day >= sorted[|sorted| - 1].day;
      }
    }
  }

  lemma EvictShape(days: seq<Day>)
    requires days != [] && DistinctDays(days)
    ensures DistinctDays(Evict(days))
    ensures forall x :: x in Evict(days) ==> x in days
  {
    SortDistinct(days);
    SortMembers(days);
  }

  /**
   * `add_day` on the list of records: unchanged when the day is present;
   * otherwise, when more than two records are kept, sorted by descending day
   * with the last (smallest day) dropped, and the new record appended.
   */
  function AddDay(days: seq<Day>, day: int, figures: Figures): (r: seq<Day>)
    ensures Find(days, day).Some? ==> r == days
    ensures Find(days, day).None? ==> |r| == if |days| > Capacity - 1 then |days| else |days| + 1
    ensures Find(days, day).None? ==> r[|r| - 1] == Day(day, figures)
  {
    if Find(days, day).Some? then days
    else Kept(days) + [Day(day, figures)]
  }

  function Kept(days: seq<Day>): (r: seq<Day>)
    ensures |r| == if |days| > Capacity - 1 then |days| - 1 else |days|
  {
    if |days| > Capacity - 1 then Evict(days) else days
  }

  lemma KeptShape(days: seq<Day>)
    requires DistinctDays(days)
    ensures DistinctDays(Kept(days))
    ensures forall x :: x in Kept(days) ==> x in days
  {
    if |days| > Capacity - 1 {
      EvictShape(days);
    }
  }

  lemma FindAppended(days: seq<Day>, d: Day)
    ensures Find(days + [d], d.day).Some?
  {
    var s := days + [d];
    assert s[|s| - 1].day == d.day;
  }

  /** Adding the same day twice is the same as adding it once: the first figures stay. */
  lemma AddDayIdempotent(days: seq<Day>, day: int, figures: Figures, other: Figures)
    ensures AddDay(AddDay(days, day, figures), day, other) == AddDay(days, day, figures)
  {
    if Find(days, day).None? {
      FindAppended(Kept(days), Day(day, figures));
    }
  }

  lemma {:induction false} FindLast(s: seq<Day>, day: int)
    requires s != [] && s[|s| - 1].day == day
    requires forall i :: 0 <= i < |s| - 1 ==> s[i].day != day
    ensures Find(s, day) == Some(s[|s| - 1])
  {
    if |s| > 1 {
      FindLast(s[1..], day);
    }
  }

  /** After adding a new day, that day is found with the figures it was added with. */
  lemma AddDayThenFind(days: seq<Day>, day: int, figures: Figures)
    requires DistinctDays(days)
    ensures Find(days, day).None? ==> Find(AddDay(days, day, figures), day) == Some(Day(day, figures))
    ensures Find(days, day).Some? ==> Find(AddDay(days, day, figures), day) == Find(days, day)
  {
    if Find(days, day).None? {
      var kept := Kept(days);
      KeptShape(days);
      var s := kept + [Day(day, figures)];
      forall i | 0 <= i < |s| - 1 ensures s[i].day != day {
        assert s[i] in days;
      }
      FindLast(s, day);
    }
  }

  /** The records stay within capacity and keep distinct days. */
  lemma AddDayKeepsShape(days: seq<Day>, day: int, figures: Figures)
    requires |days| <= Capacity && DistinctDays(days)
    ensures |AddDay(days, day, figures)| <= Capacity
    ensures DistinctDays(AddDay(days, day, figures))
  {
    if Find(days, day).None? {
      var kept := Kept(days);
      KeptShape(days);
      var s := kept + [Day(day, figures)];
      forall i, j | 0 <= i < j < |s| ensures s[i].day != s[j].day {
        if j == |s| - 1 {
          assert s[i] in days;
        }
      }
    }
  }

  /** Four consecutive days: the first added is the one that is gone. */
  lemma AddDayExample(t: int, f: Figures)
    ensures var s := AddDay(AddDay(AddDay([Day(t - 3, f)], t - 2, f), t - 1, f), t, f);
            s == [Day(t - 1, f), Day(t - 2, f), Day(t, f)]
  {
    var s1 := [Day(t - 3, f)];
    var s2 := [Day(t - 3, f), Day(t - 2, f)];
    var s3 := [Day(t - 3, f), Day(t - 2, f), Day(t - 1, f)];
    AddNewDay(s1, t - 2, f);
    assert s1 + [Day(t - 2, f)] == s2;
    AddNewDay(s2, t - 1, f);
    assert s2 + [Day(t - 1, f)] == s3;
    AddFourthDay(t, f);
  }

  /** Below capacity, a new day is appended. */
  lemma AddNewDay(days: seq<Day>, day: int, figures: Figures)
    requires |days| < Capacity
    requires forall i :: 0 <= i < |days| ==> days[i].day != day
    ensures AddDay(days, day, figures) == days + [Day(day, figures)]
  {
  }

  lemma AddFourthDay(t: int, f: Figures)
    ensures AddDay([Day(t - 3, f), Day(t - 2, f), Day(t - 1, f)], t, f) == [Day(t - 1, f), Day(t - 2, f), Day(t, f)]
  {
    var s3 := [Day(t - 3, f), Day(t - 2, f), Day(t - 1, f)];
    AddAtCapacity(s3, t, f);
    EvictThreeDays(t, f);
  }

  /** Of three consecutive days, eviction drops the earliest. */
  lemma EvictThreeDays(t: int, f: Figures)
    ensures Evict([Day(t - 3, f), Day(t - 2, f), Day(t - 1, f)]) == [Day(t - 1, f), Day(t - 2, f)]
  {
    SortThreeDays(t, f);
    var sorted := [Day(t - 1, f), Day(t - 2, f), Day(t - 3, f)];
    assert sorted[..2] == [Day(t - 1, f), Day(t - 2, f)];
  }

  /** At capacity, a new day replaces the evicted record. */
  lemma AddAtCapacity(days: seq<Day>, day: int, figures: Figures)
    requires |days| == Capacity
    requires forall i :: 0 <= i < |days| ==> days[i].day != day
    ensures AddDay(days, day, figures) == Evict(days) + [Day(day, figures)]
  {
  }

  lemma SortThreeDays(t: int, f: Figures)
    ensures SortDescending([Day(t - 3, f), Day(t - 2, f), Day(t - 1, f)])
         == [Day(t - 1, f), Day(t - 2, f), Day(t - 3, f)]
  {
    var s3 := [Day(t - 3, f), Day(t - 2, f), Day(t - 1, f)];
    assert s3[1..] == [Day(t - 2, f), Day(t - 1, f)];
    assert s3[1..][1..] == [Day(t - 1, f)];
    SortOneDay(Day(t - 1, f));
    InsertBehind(Day(t - 2, f), Day(t - 1, f), []);
    assert SortDescending(s3[1..]) == [Day(t - 1, f), Day(t - 2, f)];
    InsertBehind(Day(t - 3, f), Day(t - 2, f), []);
    InsertBehind(Day(t - 3, f), Day(t - 1, f), [Day(t - 2, f)]);
  }

  lemma SortOneDay(d: Day)
    ensures SortDescending([d]) == [d]
  {
    assert [d][1..] == [];
  }

  /** A record with a smaller day goes behind the head. */
  lemma InsertBehind(d: Day, head: Day, rest: seq<Day>)
    requires d.day < head.day
    ensures Insert(d, [head] + rest) == [head] + Insert(d, rest)
  {
    assert ([head] + rest)[1..] == rest;
  }

  class Stats {
    var days: seq<Day>

    /** What the daemon keeps: at most three records, one per day. */
    ghost predicate Valid()
      reads this
    {
      |days| <= Capacity && DistinctDays(days)
    }

    constructor (day: int, figures: Figures)
      ensures Valid() && days == [Day(day, figures)]
    {
      days := [];
      new;
      Add(day, figures);
    }

    /** `add_day`. */
    method Add(day: int, figures: Figures)
      modifies this
      ensures days == AddDay(old(days), day, figures)
      ensures old(Valid()) ==> Valid()
    {
      if Valid() {
        AddDayKeepsShape(days, day, figures);
      }
      var existing := Get(day);
      if existing.None? {
        if |days| > 2 {
          days := SortDescending(days);
          days := days[..|days| - 1];
        }
        days := days + [Day(day, figures)];
      }
    }

    /** `get_day`. */
    function Get(day: int): (r: Option<Day>)
      reads this
      ensures r.Some? ==> r.value in days && r.value.day == day
      ensures r.None? <==> forall i :: 0 <= i < |days| ==> days[i].day != day
    {
      Find(days, day)
    }
  }
}
