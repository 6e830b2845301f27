/** The event writer (`createEvent` in index.js): the all-day event resource
    sent to the calendar for one collection, and the in-place advance of the
    collection's date that moment's `add` performs. The insert request itself
    is not modelled; the resource it would send is the result. */
module EventWriter {
  import opened Dates
  import opened CalendarReader

  /** One reminder override: `{method, minutes}`. */
  datatype Override = Override(reminderMethod: string, minutes: int)

  datatype Reminders = Reminders(useDefault: bool, overrides: seq<Override>)

  /** The event resource inserted into the calendar. */
  datatype EventResource = EventResource(
    summary: string,
    startDate: string,
    endDate: string,
    transparency: string,
    reminders: Reminders)

  /** The popup fires a day ahead: 60 * 24 minutes. */
  const ReminderMinutes: int := 60 * 24

  /** The title every written collection gets: `Bin Day - ${type}`. */
  function Summary(kind: string): string {
    TitlePrefix + kind
  }

  /** The informational line logged before the insert. */
  function LogLine(kind: string, date: Moment): string {
    "creating event: " + Summary(kind) + ": " + Format(date)
  }

  /** The resource for a collection of type `kind` on `date`: an all-day event
      from that day to the next (end exclusive), transparent, with one popup
      reminder a day ahead and no default reminders. */
  function Resource(kind: string, date: Moment): EventResource {
    EventResource(
      Summary(kind),
      Format(date),
      Format(AddDay(date)),
      "transparent",
      Reminders(false, [Override("popup", ReminderMinutes)]))
  }

  /** An entry of the list being written: `{type, date}`, where `date` is a
      moment object that `createEvent` advances in place. */
  class PendingEvent {
    const kind: string
    var date: Moment

    constructor (kind: string, date: Moment)
      ensures this.kind == kind && this.date == date
    {
      this.kind := kind;
      this.date := date;
    }
  }

  /** `createEvent(event)`: logs, then builds the resource. The start date is
      formatted before `add` runs and the end date after, so the caller's
      `event.date` is left one day later. */
  method CreateEvent(event: PendingEvent) returns (log: string, resource: EventResource)
    modifies event
    ensures log == LogLine(event.kind, old(event.date))
    ensures resource == Resource(event.kind, old(event.date))
    ensures event.date == AddDay(old(event.date))
    ensures resource.endDate == Format(event.date)
  {
    log := LogLine(event.kind, event.date);
    var summary := Summary(event.kind);
    var start := Format(event.date);
    event.date := AddDay(event.date);
    var end := Format(event.date);
    resource := EventResource(summary, start, end, "transparent",
                              Reminders(false, [Override("popup", ReminderMinutes)]));
  }

  /** The written resource spans exactly one day: its start reads back as the
      collection day and its end as the following calendar day. */
  lemma ResourceSpansOneDay(kind: string, d: CalendarDate)
    requires d.year < 9999
    ensures ParseIsoDate(Resource(kind, Moment(d)).startDate) == Some(d)
    ensures ParseIsoDate(Resource(kind, Moment(d)).endDate) == Some(NextDay(d))
    ensures forall e: CalendarDate :: Before(d, e) && Before(e, NextDay(d)) ==> false
  {
    FormatDateRoundTrip(d);
    FormatDateRoundTrip(NextDay(d));
    forall e: CalendarDate | Before(d, e) && Before(e, NextDay(d))
      ensures false
    {
      NextDayIsSuccessor(d, e);
    }
  }

  /** The resource's title is recognised by the reader as its type, and its
      remaining fields are the fixed transparency and reminder settings. */
  lemma ResourceTitleAndSettings(kind: string, date: Moment)
    requires SingleLine(kind)
    ensures var r := Resource(kind, date);
      && MatchTitle(r.summary) == Some(kind)
      && r.transparency == "transparent"
      && !r.reminders.useDefault
      && r.reminders.overrides == [Override("popup", 1440)]
  {
    MatchTitleIff(Summary(kind), kind);
  }

  /** A collection whose date could not be parsed is written with
      "Invalid date" as both its start and its end. */
  lemma InvalidDateResource(kind: string)
    ensures Resource(kind, Invalid).startDate == "Invalid date"
    ensures Resource(kind, Invalid).endDate == "Invalid date"
  {
  }

  /** Garden on 2024-07-10 is written from "2024-07-10" to "2024-07-11". */
  lemma GardenScenario()
    ensures var r := Resource("Garden", Moment(Date(2024, 7, 10)));
      r.startDate == "2024-07-10" && r.endDate == "2024-07-11"
  {
    NextDayRollsOver();
    FormatPadsExample();
  }
}
