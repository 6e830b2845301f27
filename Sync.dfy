/** The run as a whole (`lookup().then(parse).then(filterExisting).then(createEvents)`
    in index.js), with the network calls taken out: the page's `<dd>` texts and
    the calendar's event list are inputs, and the resources to insert are the
    output. The main property is that the calendar is the dedup record: once the
    resources of one run are in the calendar, a second run on the same page
    creates nothing. */
module Sync {
  import opened Dates
  import opened PageParser
  import opened CalendarReader
  import opened Differ
  import opened EventWriter

  /** The candidates a run goes on to write: those of the page whose day is free. */
  function ToCreate(dds: seq<string>, parseDate: string -> Moment, items: seq<CalendarItem>): seq<Candidate> {
    FilterExisting(Candidates(dds, parseDate), BinEventsOf(items))
  }

  /** The resource written for one candidate. */
  function ResourceOf(c: Candidate): EventResource {
    Resource(Name(c.kind), c.date)
  }

  /** How a written resource comes back in a later event list. */
  function ListedAs(r: EventResource): CalendarItem {
    CalendarItem(r.summary, r.startDate)
  }

  /** The calendar entries a run adds, in the order written. */
  function Written(cs: seq<Candidate>): (items: seq<CalendarItem>)
    ensures |items| == |cs|
  {
    if cs == [] then [] else Written(cs[..|cs| - 1]) + [ListedAs(ResourceOf(cs[|cs| - 1]))]
  }

  predicate WritableDate(c: Candidate) {
    c.date.Moment? && c.date.date.year <= 9999
  }

  /** The title the writer builds for type t is recognised by the reader as t. */
  lemma TitleRoundTrip(kind: string)
    requires SingleLine(kind)
    ensures MatchTitle(Summary(kind)) == Some(kind)
  {
    MatchTitleIff(Summary(kind), kind);
  }

  /** A written collection is read back with the same type and day. */
  lemma WrittenReadsBack(c: Candidate)
    requires WritableDate(c)
    ensures BinEventsOf([ListedAs(ResourceOf(c))])
         == [BinEvent(c.date, Summary(Name(c.kind)), Name(c.kind))]
  {
    var item := ListedAs(ResourceOf(c));
    FlatMapSingle(item, BinEventOf);
    TitleRoundTrip(Name(c.kind));
    MomentRoundTrip(c.date);
  }

  /** Everything written is read back, one entry per candidate, on the candidate's day. */
  lemma {:induction false} WrittenAllReadBack(cs: seq<Candidate>)
    requires forall c :: c in cs ==> WritableDate(c)
    ensures |BinEventsOf(Written(cs))| == |cs|
    ensures forall k :: 0 <= k < |cs| ==> BinEventsOf(Written(cs))[k].date == cs[k].date
  {
    if cs != [] {
      var init, last := cs[..|cs| - 1], cs[|cs| - 1];
      assert forall c :: c in init ==> c in cs;
      WrittenAllReadBack(init);
      var item := ListedAs(ResourceOf(last));
      assert Written(cs) == Written(init) + [item];
      BinEventsOfConcat(Written(init), [item]);
      WrittenReadsBack(last);
      var a: seq<BinEvent>, b: seq<BinEvent> := BinEventsOf(Written(init)), BinEventsOf([item]);
      assert BinEventsOf(Written(cs)) == a + b;
      forall k | 0 <= k < |cs|
        ensures (a + b)[k].date == cs[k].date
      {
        if k < |init| {
          assert (a + b)[k] == a[k] && cs[k] == init[k];
        } else {
          assert k == |a| && (a + b)[k] == b[0] && cs[k] == last;
        }
      }
    }
  }

  /** Every written candidate's day is booked by what is read back. */
  lemma WrittenIsBooked(cs: seq<Candidate>, c: Candidate)
    requires forall c :: c in cs ==> WritableDate(c)
    requires c in cs
    ensures Booked(BinEventsOf(Written(cs)), c.date)
  {
    WrittenAllReadBack(cs);
    var k :| 0 <= k < |cs| && cs[k] == c;
    assert SameDay(BinEventsOf(Written(cs))[k].date, c.date);
  }

  /** A day booked in either part of a list is booked in the whole. */
  lemma BookedInConcat(a: seq<BinEvent>, b: seq<BinEvent>, d: Moment)
    requires Booked(a, d) || Booked(b, d)
    ensures Booked(a + b, d)
  {
    if Booked(a, d) {
      var i :| 0 <= i < |a| && SameDay(a[i].date, d);
      assert (a + b)[i] == a[i];
    } else {
      var i :| 0 <= i < |b| && SameDay(b[i].date, d);
      assert (a + b)[|a| + i] == b[i];
    }
  }

  /** When every candidate's day is booked, the differ lets nothing through. */
  lemma AllBookedFiltersAll(cands: seq<Candidate>, existing: seq<BinEvent>)
    requires forall c :: c in cands ==> Booked(existing, c.date)
    ensures FilterExisting(cands, existing) == []
  {
  }

  /** Writing what the differ let through books every candidate's day: filtering
      the same candidates against the calendar with the written entries added
      leaves nothing. */
  lemma WrittenBooksAll(cands: seq<Candidate>, items: seq<CalendarItem>)
    requires forall c :: c in cands ==> WritableDate(c)
    ensures var first := FilterExisting(cands, BinEventsOf(items));
      FilterExisting(cands, BinEventsOf(items + Written(first))) == []
  {
    var before := BinEventsOf(items);
    var first := FilterExisting(cands, before);
    var added := BinEventsOf(Written(first));
    BinEventsOfConcat(items, Written(first));
    forall c | c in cands
      ensures Booked(before + added, c.date)
    {
      if !Booked(before, c.date) {
        WrittenIsBooked(first, c);
      }
      BookedInConcat(before, added, c.date);
    }
    AllBookedFiltersAll(cands, before + added);
  }

  /** A second run over the same page, against the calendar as the first run
      left it, finds every collection already booked and writes nothing. */
  lemma SecondRunWritesNothing(dds: seq<string>, parseDate: string -> Moment, items: seq<CalendarItem>)
    requires forall c :: c in Candidates(dds, parseDate) ==> WritableDate(c)
    ensures ToCreate(dds, parseDate, items + Written(ToCreate(dds, parseDate, items))) == []
  {
    WrittenBooksAll(Candidates(dds, parseDate), items);
  }
}
