/** The differ (the filter inside `filterExisting` in index.js): drops every
    candidate whose day is already taken by a collection in the calendar.
    The match is on the day alone; the collection type plays no part. */
module Differ {
  import opened Dates
  import opened PageParser
  import opened CalendarReader

  /** `existing.find(e => e.date.isSame(d))` finds an entry. */
  predicate Booked(existing: seq<BinEvent>, d: Moment) {
    exists i :: 0 <= i < |existing| && SameDay(existing[i].date, d)
  }

  /** xs can be obtained from ys by deleting elements, keeping the order of the rest. */
  predicate IsSubsequence<T(==)>(xs: seq<T>, ys: seq<T>)
    decreases |ys|
  {
    xs == []
    || (ys != []
        && ((xs[0] == ys[0] && IsSubsequence(xs[1..], ys[1..])) || IsSubsequence(xs, ys[1..])))
  }

  /** `upcoming.filter(u => !existing.find(e => e.date.isSame(u.date)))`. */
  function FilterExisting(upcoming: seq<Candidate>, existing: seq<BinEvent>): (r: seq<Candidate>)
    ensures IsSubsequence(r, upcoming)
    ensures forall c :: c in r <==> c in upcoming && !Booked(existing, c.date)
    ensures forall c :: multiset(r)[c] == if Booked(existing, c.date) then 0 else multiset(upcoming)[c]
  {
    if upcoming == [] then []
    else
      var rest := FilterExisting(upcoming[1..], existing);
      assert upcoming == [upcoming[0]] + upcoming[1..];
      assert forall c :: c in upcoming <==> c == upcoming[0] || c in upcoming[1..];
      if Booked(existing, upcoming[0].date) then rest else [upcoming[0]] + rest
  }

  /** With nothing in the calendar, every candidate is kept, in order. */
  lemma {:induction false} FilterNothingExisting(upcoming: seq<Candidate>)
    ensures FilterExisting(upcoming, []) == upcoming
  {
    if upcoming != [] {
      FilterNothingExisting(upcoming[1..]);
    }
  }

  /** Filtering the result again against the same calendar changes nothing. */
  lemma {:induction false} FilterIdempotent(upcoming: seq<Candidate>, existing: seq<BinEvent>)
    ensures FilterExisting(FilterExisting(upcoming, existing), existing) == FilterExisting(upcoming, existing)
  {
    if upcoming != [] {
      FilterIdempotent(upcoming[1..], existing);
    }
  }

  /** No kept candidate falls on a day an existing collection occupies. */
  lemma FilterDisjoint(upcoming: seq<Candidate>, existing: seq<BinEvent>, i: nat, j: nat)
    requires i < |FilterExisting(upcoming, existing)| && j < |existing|
    ensures !SameDay(existing[j].date, FilterExisting(upcoming, existing)[i].date)
  {
    var r := FilterExisting(upcoming, existing);
    assert r[i] in r;
  }

  /** Only the days of the existing collections matter, not their types or titles. */
  lemma {:induction false} FilterIgnoresType(upcoming: seq<Candidate>, existing: seq<BinEvent>, existing': seq<BinEvent>)
    requires |existing| == |existing'|
    requires forall i :: 0 <= i < |existing| ==> existing[i].date == existing'[i].date
    ensures FilterExisting(upcoming, existing) == FilterExisting(upcoming, existing')
  {
    if upcoming != [] {
      FilterIgnoresType(upcoming[1..], existing, existing');
      var d := upcoming[0].date;
      if Booked(existing, d) {
        var i :| 0 <= i < |existing| && SameDay(existing[i].date, d);
        assert SameDay(existing'[i].date, d);
      }
      if Booked(existing', d) {
        var i :| 0 <= i < |existing'| && SameDay(existing'[i].date, d);
        assert SameDay(existing[i].date, d);
      }
    }
  }

  /** A refuse candidate on a day that already has a recycling collection is
      dropped: the match ignores the type. */
  lemma DateOnlyScenario()
    ensures var day := Moment(Date(2024, 6, 3));
      FilterExisting([Candidate(Refuse, day)], [BinEvent(day, "Bin Day - Recycling", "Recycling")]) == []
  {
    var day := Moment(Date(2024, 6, 3));
    assert Booked([BinEvent(day, "Bin Day - Recycling", "Recycling")], day) by {
      assert SameDay([BinEvent(day, "Bin Day - Recycling", "Recycling")][0].date, day);
    }
  }
}
