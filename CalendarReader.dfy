/** The calendar reader (the filtering body of `getUpcomingEvents` in index.js):
    from the calendar's list of upcoming events to the collections already
    scheduled there. The list request itself is not modelled; its result is
    the input. */
module CalendarReader {
  import opened Dates
  import opened Text

  /** An event of the calendar's list, reduced to the two fields the reader uses:
      its title and its all-day start date (`start.date`). */
  datatype CalendarItem = CalendarItem(summary: string, startDate: string)

  /** A collection already in the calendar: `{date, title, type}`. */
  datatype BinEvent = BinEvent(date: Moment, title: string, kind: string)

  /** The fixed part of every collection title. */
  const TitlePrefix: string := "Bin Day - "

  predicate SingleLine(s: string) {
    forall i :: 0 <= i < |s| ==> !IsLineTerminator(s[i])
  }

  /** `summary.match(/^Bin Day \- (.*?)$/)`: the captured group, if the title
      matches. Without the `m` flag the anchors are the ends of the whole title,
      and `.` matches anything but a line terminator. */
  function MatchTitle(summary: string): Option<string> {
    var n := |TitlePrefix|;
    if n <= |summary| && summary[..n] == TitlePrefix && SingleLine(summary[n..])
    then Some(summary[n..])
    else None
  }

  /** A title matches exactly when it is the prefix followed by a single-line
      remainder, and the match captures that remainder. */
  lemma MatchTitleIff(summary: string, kind: string)
    ensures MatchTitle(summary) == Some(kind) <==> summary == TitlePrefix + kind && SingleLine(kind)
  {
    if summary == TitlePrefix + kind {
      assert summary[..|TitlePrefix|] == TitlePrefix;
      assert summary[|TitlePrefix|..] == kind;
    }
    if MatchTitle(summary) == Some(kind) {
      assert summary == summary[..|TitlePrefix|] + summary[|TitlePrefix|..];
    }
  }

  /** What one listed event contributes: a collection when its title matches. */
  function BinEventOf(item: CalendarItem): seq<BinEvent> {
    match MatchTitle(item.summary)
    case Some(kind) => [BinEvent(MomentOfIsoDate(item.startDate), item.summary, kind)]
    case None => []
  }

  /** f applied to each element of xs, the results joined in order. */
  function FlatMap<A, B>(xs: seq<A>, f: A -> seq<B>): seq<B> {
    if xs == [] then [] else f(xs[0]) + FlatMap(xs[1..], f)
  }

  lemma {:induction false} FlatMapConcat<A, B>(a: seq<A>, b: seq<A>, f: A -> seq<B>)
    ensures FlatMap(a + b, f) == FlatMap(a, f) + FlatMap(b, f)
  {
    if a == [] {
      assert a + b == b;
    } else {
      FlatMapConcat(a[1..], b, f);
      assert (a + b)[1..] == a[1..] + b;
    }
  }

  lemma FlatMapSingle<A, B>(x: A, f: A -> seq<B>)
    ensures FlatMap([x], f) == f(x)
  {
    assert [x][1..] == [];
  }

  /** The collections found in the listed events, in list order. */
  function BinEventsOf(items: seq<CalendarItem>): seq<BinEvent> {
    FlatMap(items, BinEventOf)
  }

  /** The reader keeps list order: the collections of two stretches of the list
      are those of the first followed by those of the second. */
  lemma BinEventsOfConcat(a: seq<CalendarItem>, b: seq<CalendarItem>)
    ensures BinEventsOf(a + b) == BinEventsOf(a) + BinEventsOf(b)
  {
    FlatMapConcat(a, b, BinEventOf);
  }

  /** Every collection found has title "Bin Day - " + its type, with a
      single-line type, and there are no more collections than events. */
  lemma {:induction false} BinEventsTitled(items: seq<CalendarItem>)
    ensures |BinEventsOf(items)| <= |items|
    ensures forall k :: 0 <= k < |BinEventsOf(items)| ==>
      BinEventsOf(items)[k].title == TitlePrefix + BinEventsOf(items)[k].kind && SingleLine(BinEventsOf(items)[k].kind)
  {
    if items != [] {
      BinEventsTitled(items[1..]);
      var a, b := BinEventOf(items[0]), BinEventsOf(items[1..]);
      if a != [] {
        MatchTitleIff(items[0].summary, a[0].kind);
      }
      forall k | 0 <= k < |a + b|
        ensures (a + b)[k].title == TitlePrefix + (a + b)[k].kind && SingleLine((a + b)[k].kind)
      {
        if k < |a| {
          assert (a + b)[k] == a[0];
        } else {
          assert (a + b)[k] == b[k - |a|];
        }
      }
    }
  }

  /** An event is kept exactly when its title is "Bin Day - " plus a single-line
      type; the entry records the title, that type and the start date. */
  lemma BinEventOfIff(item: CalendarItem, kind: string)
    ensures BinEventOf(item) == [BinEvent(MomentOfIsoDate(item.startDate), item.summary, kind)]
        <==> item.summary == TitlePrefix + kind && SingleLine(kind)
    ensures BinEventOf(item) == [] <==> MatchTitle(item.summary).None?
  {
    MatchTitleIff(item.summary, kind);
  }

  /** The loop of `getUpcomingEvents`: pushes a collection for every listed
      event whose title matches. */
  method ReadBinEvents(items: seq<CalendarItem>) returns (binEvents: seq<BinEvent>)
    ensures binEvents == BinEventsOf(items)
  {
    binEvents := [];
    if |items| > 0 {
      var i := 0;
      while i < |items|
        invariant 0 <= i <= |items|
        invariant binEvents == BinEventsOf(items[..i])
      {
        var item := items[i];
        var kind := MatchTitle(item.summary);
        if kind.Some? {
          binEvents := binEvents + [BinEvent(MomentOfIsoDate(item.startDate), item.summary, kind.value)];
        }
        assert items[..i + 1] == items[..i] + [item];
        BinEventsOfConcat(items[..i], [item]);
        assert [item][1..] == [];
        i := i + 1;
      }
      assert items[..i] == items;
    }
  }
}
