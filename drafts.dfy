/** Drafts as the scheduler dashboard reads them from the draft store, and the
    sort key its comparator computes for each of them. */
module Drafts {

  datatype Option<+T> = None | Some(value: T)

  /** The draft's lifecycle status. The dashboard only ever asks whether a
      status is `scheduled`; every other member of the enumeration is
      `OtherStatus`, which carries no name, so it never stands for `scheduled`. */
  datatype DraftStatus = Scheduled | OtherStatus

  /** A stored `scheduledFor` value: its text, and the number of milliseconds
      since the epoch that parsing that text as a date yields. */
  datatype ScheduledTime = ScheduledTime(text: string, millis: int)

  /** The fields of a draft that the dashboard's logic looks at. */
  datatype Draft = Draft(id: string, status: DraftStatus, scheduledFor: Option<ScheduledTime>)

  /** The filter test of the scheduled view: `d.status === DraftStatus.scheduled`. */
  predicate IsScheduled(d: Draft) {
    d.status == Scheduled
  }

  /** JavaScript truthiness of `scheduledFor`: it is present and not the empty string. */
  predicate HasTime(d: Draft) {
    d.scheduledFor.Some? && d.scheduledFor.value.text != ""
  }

  /** The number the comparator computes for one draft: its timestamp, or 0
      (the epoch) when `scheduledFor` is falsy. */
  function SortKey(d: Draft): (k: int)
    ensures d.scheduledFor.None? ==> k == 0
    ensures d.scheduledFor.Some? && d.scheduledFor.value.text == "" ==> k == 0
    ensures d.scheduledFor.Some? && d.scheduledFor.value.text != "" ==> k == d.scheduledFor.value.millis
  {
    if HasTime(d) then d.scheduledFor.value.millis else 0
  }

  /** The comparator handed to `sort`: `dateA - dateB`. `sort` reads only its
      sign: negative puts `a` first, positive puts `b` first, zero is a tie. */
  function Compare(a: Draft, b: Draft): (c: int)
    ensures c < 0 <==> SortKey(a) < SortKey(b)
    ensures c == 0 <==> SortKey(a) == SortKey(b)
    ensures c > 0 <==> SortKey(b) < SortKey(a)
  {
    SortKey(a) - SortKey(b)
  }
}
