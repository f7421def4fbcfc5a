/** Calendar events and their per-day occurrences. */
module Events {
  import opened Calendar

  /** An event with whole-minute bounds; `payload` stands for every other
      field (name, description, colour, ...), which the week view copies. */
  datatype Event = Event(id: int, start: int, end: int, payload: string)

  /** The event overlaps day `d`: `d` lies between the day it starts on and
      the day it ends on. */
  predicate Touches(e: Event, d: int) {
    DayOf(e.start) <= d <= DayOf(e.end)
  }

  /** The copy of `e` shown on day `d`: its bounds clipped to the day. */
  function Clip(e: Event, d: int): (o: Event)
    ensures o.id == e.id && o.payload == e.payload
    ensures Touches(e, d) ==>
      && StartOfDay(d) <= o.start <= EndOfDay(d)
      && StartOfDay(d) <= o.end <= EndOfDay(d)
      && e.start <= o.start && o.end <= e.end
    ensures Touches(e, d) && e.start <= e.end ==> o.start <= o.end
  {
    var startOfDay := StartOfDay(d);
    var endOfDay := EndOfDay(d);
    e.(start := if e.start < startOfDay then startOfDay else e.start,
       end := if e.end < endOfDay then e.end else endOfDay)
  }
}
