/** Worked examples of the model on small inputs. */
module Scenarios {
  import opened Calendar
  import opened Pager
  import opened Events
  import opened Partition
  import opened TimeAxis
  import opened Decimal

  /** A week view of seven days around day `d` starts with keys two weeks
      before to two weeks after, on the middle page. */
  lemma WeekWindow(d: int)
    ensures Init(Config(7, false), d).keys == [d - 14, d - 7, d, d + 7, d + 14]
    ensures Init(Config(7, false), d).currentPageIndex == 2
    ensures Init(Config(7, true), d).keys == [d + 14, d + 7, d, d - 7, d - 14]
  {
  }

  /** The window is seeded once, for the page length at construction: a
      scroll end read with a different page length extends the week-spaced
      keys by one day, so the keys stop being an arithmetic progression. */
  lemma PageLengthChangeBreaksWindow(d: int)
    ensures Valid(Config(7, false), Init(Config(7, false), d))
    ensures !Valid(Config(7, false), ScrollEnded(Config(1, false), Init(Config(7, false), d), 4))
    ensures !Valid(Config(1, false), ScrollEnded(Config(1, false), Init(Config(7, false), d), 4))
  {
    var q := ScrollEnded(Config(1, false), Init(Config(7, false), d), 4);
    assert q.keys[4] - q.keys[3] == 7;
    assert q.keys[5] - q.keys[4] == 1;
  }

  /** Scrolling from the middle page back to the first one prepends a key,
      compensates the index to 1, requests a jump there, and reports one
      swipe to the previous pages with the anchor two weeks back. */
  lemma ScrollToFirstPage(d: int)
    ensures var q := ScrollEnded(Config(7, false), Init(Config(7, false), d), 0);
      && q.keys == [d - 21, d - 14, d - 7, d, d + 7, d + 14]
      && q.currentPageIndex == 1
      && q.jumps == [1]
      && q.swipes == [SwipePrev(d - 14)]
  {
  }

  /** An event from 22:00 on day `d` to 02:00 on the next day has two
      occurrences: 22:00 to 23:59 on day `d`, and 00:00 to 02:00 after. */
  lemma OvernightEvent(d: int)
    ensures var e := Event(1, StartOfDay(d) + 22 * 60, StartOfDay(d + 1) + 2 * 60, "");
      && Bucket([e], d) == [Event(1, StartOfDay(d) + 22 * 60, EndOfDay(d), "")]
      && Bucket([e], d + 1) == [Event(1, StartOfDay(d + 1), StartOfDay(d + 1) + 2 * 60, "")]
      && Bucket([e], d + 2) == []
      && Bucket([e], d - 1) == []
  {
    var e := Event(1, StartOfDay(d) + 22 * 60, StartOfDay(d + 1) + 2 * 60, "");
    DayOfUnique(e.start, d);
    DayOfUnique(e.end, d + 1);
  }

  /** Midnight is `12 am`, noon is `12 pm`, 13:00 is `1 pm`. */
  lemma HourLabels()
    ensures FormatTime(0) == "12 am"
    ensures FormatTime(12) == "12 pm"
    ensures FormatTime(13) == "1 pm"
  {
    assert NatToString(12) == "12" by {
      assert NatToString(1) == "1";
    }
    assert ClockHour(0) == 12 && ClockHour(12) == 12 && ClockHour(13) == 1;
  }

  /** Other labels show the 24-hour hour and two-digit minutes. */
  lemma HalfPastOne()
    ensures Label(90) == "1:30"
  {
    assert 90 % 60 == 30 && 90 / 60 == 1;
    assert TwoDigits(30) == "30" by {
      assert NatToString(3) == "3";
    }
    assert Label(90) == NatToString(1) + ":" + TwoDigits(30);
  }

  /** Minutes below ten get a leading zero. */
  lemma FivePastTen()
    ensures Label(605) == "10:05"
  {
    assert NatToString(10) == "10" by {
      assert NatToString(1) == "1";
    }
    assert TwoDigits(5) == "05";
    assert 605 % 60 == 5 && 605 / 60 == 10;
    assert Label(605) == NatToString(10) + ":" + TwoDigits(5);
  }
}
