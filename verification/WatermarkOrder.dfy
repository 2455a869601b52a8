/** That watermark values are ordered as Python orders dates and datetimes: the calendar behind
    `Rank`, and what the store keeps in those terms. */
module WatermarkOrder {
  import opened Prelude
  import opened Digits
  import opened Marks
  import opened Incremental
  import opened Watermarks

  // ---------------------------------------------------------------- days

  predicate DayLess(a: Day, b: Day) {
    || a.year < b.year
    || (a.year == b.year && a.month < b.month)
    || (a.year == b.year && a.month == b.month && a.day < b.day)
  }

  function NextDay(d: Day): Day {
    if d.day < DaysIn(d.year, d.month) then Day(d.year, d.month, d.day + 1)
    else if d.month < 12 then Day(d.year, d.month + 1, 1)
    else Day(d.year + 1, 1, 1)
  }

  lemma MonthLengths(y: nat)
    ensures DaysIn(y, 1) == 31 && DaysIn(y, 3) == 31 && DaysIn(y, 4) == 30 && DaysIn(y, 5) == 31 && DaysIn(y, 6) == 30
    ensures DaysIn(y, 7) == 31 && DaysIn(y, 8) == 31 && DaysIn(y, 9) == 30 && DaysIn(y, 10) == 31 && DaysIn(y, 11) == 30
    ensures DaysIn(y, 12) == 31
    ensures DaysIn(y, 2) == if y % 4 == 0 && (y % 100 != 0 || y % 400 == 0) then 29 else 28
  {}

  lemma YearLength(y: nat)
    ensures DaysBefore(y, 1) == 0
    ensures DaysBefore(y, 12) + DaysIn(y, 12) == if IsLeap(y) then 366 else 365
  {
    assert DaysBefore(y, 2) == 31;
    var feb := DaysIn(y, 2);
    assert DaysBefore(y, 3) == 31 + feb;
    assert DaysBefore(y, 4) == 62 + feb;
    assert DaysBefore(y, 5) == 92 + feb;
    assert DaysBefore(y, 6) == 123 + feb;
    assert DaysBefore(y, 7) == 153 + feb;
    assert DaysBefore(y, 8) == 184 + feb;
    assert DaysBefore(y, 9) == 215 + feb;
    assert DaysBefore(y, 10) == 245 + feb;
    assert DaysBefore(y, 11) == 276 + feb;
    assert DaysBefore(y, 12) == 306 + feb;
  }

  lemma {:induction false} MonthsApart(y: nat, m: nat, n: nat)
    requires 1 <= m < n
    ensures DaysBefore(y, m) + DaysIn(y, m) <= DaysBefore(y, n)
  {
    if m + 1 < n {
      MonthsApart(y, m, n - 1);
    }
  }

  /** The day number of the last day before year `y`. */
  function YearStart(y: nat): int
    requires y >= 1
  {
    (y - 1) * 365 + (y - 1) / 4 - (y - 1) / 100 + (y - 1) / 400 - 719163
  }

  lemma QuotientStep(y: nat, d: nat)
    requires y >= 1 && d >= 1
    ensures y / d == (y - 1) / d + if y % d == 0 then 1 else 0
  {
    DivBounds(y, d);
    DivBounds(y - 1, d);
    assert y == y / d * d + y % d;
    if y % d == 0 {
      assert (y / d - 1) * d == y / d * d - d;
      DivUnique(y - 1, d, y / d - 1);
    } else {
      DivUnique(y - 1, d, y / d);
    }
  }

  lemma YearStep(y: nat)
    requires y >= 1
    ensures YearStart(y + 1) == YearStart(y) + if IsLeap(y) then 366 else 365
  {
    QuotientStep(y, 4);
    QuotientStep(y, 100);
    QuotientStep(y, 400);
  }

  lemma {:induction false} YearsApart(a: nat, b: nat)
    requires 1 <= a < b
    ensures YearStart(a + 1) <= YearStart(b)
  {
    if a + 1 < b {
      YearsApart(a, b - 1);
      YearStep(b - 1);
    }
  }

  lemma DayNumberIs(d: Day)
    requires ValidDay(d)
    ensures DayNumber(d) == YearStart(d.year) + DaysBefore(d.year, d.month) + d.day
  {}

  lemma EarlierDay(a: Day, b: Day)
    requires ValidDay(a) && ValidDay(b) && DayLess(a, b)
    ensures DayNumber(a) < DayNumber(b)
  {
    DayNumberIs(a);
    DayNumberIs(b);
    hide YearStart, DaysBefore, DayNumber, DaysIn;
    if a.year < b.year {
      YearsApart(a.year, b.year);
      YearStep(a.year);
      YearLength(a.year);
      if a.month < 12 {
        MonthsApart(a.year, a.month, 12);
      }
    } else if a.month < b.month {
      MonthsApart(a.year, a.month, b.month);
    }
  }

  /** MAIN: day numbers order days as (year, month, day). */
  lemma DaysInOrder(a: Day, b: Day)
    requires ValidDay(a) && ValidDay(b)
    ensures DayNumber(a) < DayNumber(b) <==> DayLess(a, b)
    ensures DayNumber(a) == DayNumber(b) <==> a == b
  {
    hide DayNumber, ValidDay;
    if DayLess(a, b) {
      EarlierDay(a, b);
    } else if DayLess(b, a) {
      EarlierDay(b, a);
    }
  }

  /** MAIN: the next calendar day is the next number, from 1970-01-01 being 0. */
  lemma NextDayNumber(d: Day)
    requires ValidDay(d) && (d.year < 9999 || d.month < 12 || d.day < 31)
    ensures ValidDay(NextDay(d)) && DayNumber(NextDay(d)) == DayNumber(d) + 1
    ensures DayNumber(Day(1970, 1, 1)) == 0
  {
    EpochDay();
    NextDayValid(d);
    hide YearStart, DaysBefore, DayNumber, ValidDay, IsLeap, DaysIn;
    DayNumberIs(d);
    DayNumberIs(NextDay(d));
    NextDayOffset(d);
    YearStep(d.year);
  }

  lemma EpochDay()
    ensures DayNumber(Day(1970, 1, 1)) == 0
  {
    assert DaysBefore(1970, 1) == 0;
  }

  lemma NextDayValid(d: Day)
    requires ValidDay(d) && (d.year < 9999 || d.month < 12 || d.day < 31)
    ensures ValidDay(NextDay(d)) && d.year >= 1 && (NextDay(d).year == d.year || NextDay(d).year == d.year + 1)
  {
    MonthLengths(d.year);
  }

  lemma NextDayOffset(d: Day)
    requires ValidDay(d)
    ensures var next := NextDay(d);
            DaysBefore(next.year, next.month) + next.day ==
            DaysBefore(d.year, d.month) + d.day + 1 - if next.year == d.year then 0 else if IsLeap(d.year) then 366 else 365
  {
    YearLength(d.year);
    YearLength(d.year + 1);
    hide IsLeap;
  }

  // ---------------------------------------------------------------- stamps

  predicate ClockLess(a: Stamp, b: Stamp) {
    || a.hour < b.hour
    || (a.hour == b.hour && a.minute < b.minute)
    || (a.hour == b.hour && a.minute == b.minute && a.second < b.second)
    || (a.hour == b.hour && a.minute == b.minute && a.second == b.second && a.micro < b.micro)
  }

  /** Field by field, from the date down. */
  predicate StampLess(a: Stamp, b: Stamp) {
    DayLess(a.date, b.date) || (a.date == b.date && ClockLess(a, b))
  }

  /** The stamp's own wall clock, in microseconds. */
  function Wall(t: Stamp): int
    requires ValidStamp(t)
  {
    Instant(t.(offset := None))
  }

  function OfDay(t: Stamp): int {
    ((t.hour * 60 + t.minute) * 60 + t.second) * 1_000_000 + t.micro
  }

  lemma WallIs(t: Stamp)
    requires ValidStamp(t)
    ensures Wall(t) == DayNumber(t.date) * 86_400_000_000 + OfDay(t) && 0 <= OfDay(t) < 86_400_000_000
  {
    hide DayNumber, ValidDay;
  }

  lemma ClockInOrder(a: Stamp, b: Stamp)
    requires ValidStamp(a) && ValidStamp(b)
    ensures OfDay(a) < OfDay(b) <==> ClockLess(a, b)
    ensures OfDay(a) == OfDay(b) <==> (a.hour, a.minute, a.second, a.micro) == (b.hour, b.minute, b.second, b.micro)
  {
    hide ValidDay;
  }

  /** MAIN: wall clocks order stamps field by field; so naive stamps, and aware ones of one offset,
      compare by date, hour, minute, second and microsecond. */
  lemma StampsInOrder(a: Stamp, b: Stamp)
    requires ValidStamp(a) && ValidStamp(b)
    ensures Wall(a) < Wall(b) <==> StampLess(a, b)
    ensures Wall(a) == Wall(b) <==> a.(offset := None) == b.(offset := None)
    ensures a.offset == b.offset ==> (Instant(a) < Instant(b) <==> StampLess(a, b))
  {
    WallIs(a);
    WallIs(b);
    InstantIs(a);
    InstantIs(b);
    DaysInOrder(a.date, b.date);
    ClockInOrder(a, b);
    hide DayNumber, ValidDay, OfDay, Wall, Instant, ClockLess, DayLess;
  }

  lemma InstantIs(t: Stamp)
    requires ValidStamp(t)
    ensures Instant(t) == Wall(t) - if t.offset.Some? then t.offset.value else 0
  {
    hide DayNumber, ValidDay;
  }

  /** MAIN: two aware stamps are as far apart as their wall clocks, less the difference of their
      offsets: moving clock and offset alike does not move the instant. */
  lemma OffsetsMoveTheClock(a: Stamp, b: Stamp)
    requires ValidStamp(a) && ValidStamp(b) && a.offset.Some? && b.offset.Some?
    ensures Instant(b) - Instant(a) == (Wall(b) - Wall(a)) - (b.offset.value - a.offset.value)
    ensures Wall(b) - Wall(a) == b.offset.value - a.offset.value <==> Instant(a) == Instant(b)
  {
    InstantIs(a);
    InstantIs(b);
    hide Instant, Wall;
  }

  /** The microsecond after `t` on the same clock. */
  function NextMicro(t: Stamp): Stamp {
    if t.micro < 999_999 then t.(micro := t.micro + 1)
    else if t.second < 59 then t.(micro := 0, second := t.second + 1)
    else if t.minute < 59 then t.(micro := 0, second := 0, minute := t.minute + 1)
    else if t.hour < 23 then t.(micro := 0, second := 0, minute := 0, hour := t.hour + 1)
    else t.(micro := 0, second := 0, minute := 0, hour := 0, date := NextDay(t.date))
  }

  /** MAIN: the axis counts microseconds. */
  lemma NextMicroIsNext(t: Stamp)
    requires ValidStamp(t) && (t.date.year < 9999 || t.date.month < 12 || t.date.day < 31)
    ensures ValidStamp(NextMicro(t)) && Wall(NextMicro(t)) == Wall(t) + 1 && Instant(NextMicro(t)) == Instant(t) + 1
  {
    NextDayNumber(t.date);
    hide DayNumber, ValidDay, NextDay;
    WallIs(t);
    WallIs(NextMicro(t));
    InstantIs(t);
    InstantIs(NextMicro(t));
  }

  // ---------------------------------------------------------------- values and watermarks

  /** Python's `<` on values of one kind; aware stamps compare by clock less offset. */
  predicate Earlier(v: Value, w: Value, kind: Kind)
    requires Matches(v, kind) && Matches(w, kind)
  {
    match kind
    case Integer => v.i < w.i
    case Date => DayLess(v.d, w.d)
    case TimestampNaive => StampLess(v.t, w.t)
    case TimestampTz => Wall(v.t) - v.t.offset.value < Wall(w.t) - w.t.offset.value
  }

  /** Python's `>` on (value, last_id). */
  predicate Newer(w: Watermark, than: Watermark, kind: Kind)
    requires Matches(w.value, kind) && Matches(than.value, kind)
  {
    || Earlier(than.value, w.value, kind)
    || (!Earlier(w.value, than.value, kind) && than.lastId < w.lastId)
  }

  lemma RankInOrder(v: Value, w: Value, kind: Kind)
    requires Matches(v, kind) && Matches(w, kind)
    ensures Rank(v, kind) < Rank(w, kind) <==> Earlier(v, w, kind)
  {
    match kind
    case Integer =>
    case Date => DaysInOrder(v.d, w.d);
    case TimestampNaive => StampsInOrder(v.t, w.t);
    case TimestampTz => InstantIs(v.t); InstantIs(w.t);
  }

  /** MAIN: marks order watermarks as Python orders the tuples. */
  lemma MarksInOrder(w: Watermark, than: Watermark, kind: Kind)
    requires Matches(w.value, kind) && Matches(than.value, kind)
    ensures Lt(MarkOfWatermark(than, kind), MarkOfWatermark(w, kind)) <==> Newer(w, than, kind)
  {
    RankInOrder(w.value, than.value, kind);
    RankInOrder(than.value, w.value, kind);
    hide Rank, Matches, Earlier;
  }

  /** MAIN: `set_watermark` replaces a stored watermark exactly by a newer one; the new row reads back
      as the value set, and carries `last_ts` for aware stamps only. */
  lemma SetKeepsTheNewer(cell: Cell, w: Watermark, kind: Kind)
    requires Upgraded(cell, kind) && Matches(w.value, kind)
    ensures Get(cell, kind).Some? && Matches(Get(cell, kind).value.value, kind)
    ensures var end := Set(cell, w, kind);
            if cell.None? || Newer(w, Get(cell, kind).value, kind)
            then && end.Some? && Get(end, kind) == Some(w) && end.value.lastId == w.lastId
                 && end.value.lastTs == (if kind.TimestampTz? then Some(w.value.t) else None)
            else end == cell
  {
    SetRefinesAdvance(cell, w, kind);
    TextRoundTrip(w.value, kind);
    if cell.Some? {
      MarksInOrder(w, Get(cell, kind).value, kind);
    }
    hide Parse, Serialize, Rank, Newer;
  }

  /** MAIN: after any calls in any order, `get` answers one of the watermarks set (or the one that
      was stored), and none of them is newer in Python's order. */
  lemma StoredIsGreatest(cell: Cell, ws: seq<Watermark>, kind: Kind)
    requires Upgraded(cell, kind)
    requires forall w :: w in ws ==> Matches(w.value, kind)
    requires cell.Some? || ws != []
    ensures Get(cell, kind).Some? && Matches(Get(cell, kind).value.value, kind)
    ensures var got := Get(SetAll(cell, ws, kind), kind);
            && got.Some? && Matches(got.value.value, kind)
            && (got.value in ws || (cell.Some? && got == Get(cell, kind)))
            && (forall w :: w in ws ==> !Newer(w, got.value, kind))
            && (cell.Some? ==> !Newer(Get(cell, kind).value, got.value, kind))
  {
    StoredIsMaximum(cell, ws, kind);
    if cell.Some? {
      SetRefinesAdvance(cell, Get(cell, kind).value, kind) by {
        GetMatches(cell, kind);
      }
    } else {
      DefaultRanksZero(kind);
    }
    GetMatches(cell, kind);
    var got := Get(SetAll(cell, ws, kind), kind).value;
    hide Parse, Serialize, Rank, Newer, Get, SetAll;
    forall w | w in ws
      ensures !Newer(w, got, kind)
    {
      MarksInOrder(w, got, kind);
    }
    MarksInOrder(Get(cell, kind).value, got, kind);
  }

  lemma GetMatches(cell: Cell, kind: Kind)
    requires Upgraded(cell, kind)
    ensures Get(cell, kind).Some? && Matches(Get(cell, kind).value.value, kind)
  {
    DefaultRanksZero(kind);
  }

  // ---------------------------------------------------------------- legacy rows and texts

  /** MAIN: what `get` answers for a row without `last_value`: its `last_ts` for the timestamp kinds,
      for naive ones the clock without its offset, else the kind's default; `last_id` as stored. No
      row at all reads like an empty one with id 0. */
  lemma LegacyAnswer(row: StoredRow, kind: Kind)
    requires row.lastValue.None?
    ensures Get(Some(row), kind).Some? && Get(Some(row), kind).value.lastId == row.lastId
    ensures var v := Get(Some(row), kind).value.value;
            && (kind.TimestampTz? && row.lastTs.Some? ==> v == StampValue(row.lastTs.value))
            && (kind.TimestampNaive? && row.lastTs.Some? ==> v.StampValue? && v.t.offset.None? && v.t.(offset := row.lastTs.value.offset) == row.lastTs.value)
            && (kind.Integer? ==> v == IntValue(0))
            && (kind.Date? ==> v == DayValue(Day(1970, 1, 1)))
            && (kind.TimestampTz? && row.lastTs.None? ==> v == StampValue(Stamp(Day(1970, 1, 1), 0, 0, 0, 0, Some(0))))
            && (kind.TimestampNaive? && row.lastTs.None? ==> v == StampValue(Stamp(Day(1970, 1, 1), 0, 0, 0, 0, None)))
    ensures Get(None, kind) == Get(Some(StoredRow(None, None, 0)), kind)
  {}

  /** MAIN: the text of a date is that of `isoformat`. */
  lemma DayTextForm(d: Day)
    requires ValidDay(d)
    ensures var s := Serialize(DayValue(d));
            && |s| == 10 && s[4] == '-' && s[7] == '-'
            && Field(s, 0, 4) == Some(d.year) && Field(s, 5, 7) == Some(d.month) && Field(s, 8, 10) == Some(d.day)
  {
    assert Pow10(4) == 10 * Pow10(3) && Pow10(3) == 1000;
    PadRoundTrip(d.year, 4);
    TwoDigits(d.month);
    TwoDigits(d.day);
    hide Pad, AllDigits, Number;
    DayFields(Pad(d.year, 4), Pad(d.month, 2), Pad(d.day, 2));
  }

  /** MAIN: and so is the text of a stamp: a fraction only when there is one, then the offset. */
  lemma StampTextForm(t: Stamp)
    requires ValidStamp(t)
    ensures var s := Serialize(StampValue(t));
            && |s| >= 19 && s[..10] == Serialize(DayValue(t.date)) && s[10] == 'T' && s[13] == ':' && s[16] == ':'
            && Field(s, 11, 13) == Some(t.hour) && Field(s, 14, 16) == Some(t.minute) && Field(s, 17, 19) == Some(t.second)
            && (if t.micro == 0 then s[19..] == OffsetSuffix(t)
                else |s| >= 26 && s[19] == '.' && Field(s, 20, 26) == Some(t.micro) && s[26..] == OffsetSuffix(t))
  {
    DayRoundTrip(t.date);
    ClockForm(t);
    TailForm(t);
    hide DayText, ClockText, TailText, ValidStamp, OffsetSuffix, Field;
    var s, clock, tail := StampText(t), ClockText(t), TailText(t);
    assert s[..10] == DayText(t.date) && s[11..19] == clock && s[19..] == tail;
    assert s[13] == clock[2] && s[16] == clock[5];
    FieldWithin(s, 11, clock, 0, 2);
    FieldWithin(s, 11, clock, 3, 5);
    FieldWithin(s, 11, clock, 6, 8);
    if t.micro != 0 {
      FieldWithin(s, 19, tail, 1, 7);
      assert s[19] == tail[0] && s[26..] == tail[7..];
    }
  }

  /** A field of a part of a text is one of the text. */
  lemma FieldWithin(s: string, at: nat, part: string, from: nat, to: nat)
    requires from <= to <= |part| && at + |part| <= |s| && s[at..at + |part|] == part
    ensures Field(s, at + from, at + to) == Field(part, from, to)
  {
    var x, y := s[at + from..at + to], part[from..to];
    forall k | 0 <= k < |x|
      ensures x[k] == y[k]
    {
      assert y[k] == part[from + k] && part[from + k] == s[at..at + |part|][from + k];
    }
    assert x == y;
  }

  lemma ClockForm(t: Stamp)
    requires ValidStamp(t)
    ensures var s := ClockText(t);
            && |s| == 8 && s[2] == ':' && s[5] == ':'
            && Field(s, 0, 2) == Some(t.hour) && Field(s, 3, 5) == Some(t.minute) && Field(s, 6, 8) == Some(t.second)
  {
    TwoDigits(t.hour);
    TwoDigits(t.minute);
    TwoDigits(t.second);
    hide Pad, AllDigits, Number, Field;
    var s := ClockText(t);
    assert s[0..2] == Pad(t.hour, 2) && s[3..5] == Pad(t.minute, 2) && s[6..8] == Pad(t.second, 2);
    FieldIs(s, 0, 2, t.hour);
    FieldIs(s, 3, 5, t.minute);
    FieldIs(s, 6, 8, t.second);
  }

  lemma TailForm(t: Stamp)
    requires ValidStamp(t)
    ensures var s := TailText(t);
            if t.micro == 0 then s == OffsetSuffix(t)
            else |s| >= 7 && s[0] == '.' && Field(s, 1, 7) == Some(t.micro) && s[7..] == OffsetSuffix(t)
  {
    SixDigits(t.micro);
    hide Pad, AllDigits, Number, Field, OffsetText;
    var s := TailText(t);
    if t.micro != 0 {
      assert s[1..7] == Pad(t.micro, 6) && s[7..] == OffsetSuffix(t);
      FieldIs(s, 1, 7, t.micro);
    }
  }

  /** The offset at the end of a stamp's text. */
  function OffsetSuffix(t: Stamp): string {
    if t.offset.Some? then OffsetText(t.offset.value) else ""
  }

  /** MAIN: a sign, hours and minutes, and seconds and microseconds only where the offset has some. */
  lemma OffsetTextForm(o: int)
    requires -86_400_000_000 < o < 86_400_000_000
    ensures var s := OffsetText(o);
            var a := if o < 0 then -o else o;
            && |s| >= 6 && s[0] == (if o < 0 then '-' else '+') && s[3] == ':'
            && Field(s, 1, 3) == Some(a / 3_600_000_000) && Field(s, 4, 6) == Some(a / 60_000_000 % 60)
            && (a % 60_000_000 == 0 <==> |s| == 6)
  {
    var a := if o < 0 then -o else o;
    var sec := a / US;
    SplitOffset(a);
    TwoDigits(sec / 3600);
    TwoDigits(sec / 60 % 60);
    hide Pad, AllDigits, Number, Field;
    OffsetFields(if o < 0 then "-" else "+", Pad(sec / 3600, 2), Pad(sec / 60 % 60, 2), OffsetTail(sec % 60, a % US));
    FieldIs(OffsetText(o), 1, 3, sec / 3600);
    FieldIs(OffsetText(o), 4, 6, sec / 60 % 60);
    WholeMinutes(a);
  }

  lemma WholeMinutes(a: nat)
    ensures a % 60_000_000 == 0 <==> a / US % 60 == 0 && a % US == 0
    ensures a / US / 3600 == a / 3_600_000_000 && a / US / 60 % 60 == a / 60_000_000 % 60
  {
    var q, r := a / US, a % US;
    var hours, minutes := q / 3600, q / 60;
    assert a == q * US + r && q == hours * 3600 + q % 3600 && q == minutes * 60 + q % 60;
    DivUnique(a, 3_600_000_000, hours);
    DivUnique(a, 60_000_000, minutes);
    assert a % 60_000_000 == a - minutes * 60_000_000;
  }
}
