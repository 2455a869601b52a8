/** The stored watermark: its text form, and the forward-only row it lives in. */
module Watermarks {
  import opened Prelude
  import opened Digits
  import opened Marks
  import opened Incremental

  // ---------------------------------------------------------------- values

  datatype Day = Day(year: nat, month: nat, day: nat)

  /** A `datetime`; `offset` is its UTC offset in microseconds, None for a naive one. */
  datatype Stamp = Stamp(date: Day, hour: nat, minute: nat, second: nat, micro: nat, offset: Option<int>)

  datatype Value = IntValue(i: int) | DayValue(d: Day) | StampValue(t: Stamp)

  datatype Watermark = Watermark(value: Value, lastId: int)

  predicate IsLeap(y: nat) {
    y % 4 == 0 && (y % 100 != 0 || y % 400 == 0)
  }

  function DaysIn(y: nat, m: nat): nat {
    if m == 2 then (if IsLeap(y) then 29 else 28)
    else if m == 4 || m == 6 || m == 9 || m == 11 then 30
    else 31
  }

  predicate ValidDay(d: Day) {
    1 <= d.year <= 9999 && 1 <= d.month <= 12 && 1 <= d.day <= DaysIn(d.year, d.month)
  }

  predicate ValidStamp(t: Stamp) {
    && ValidDay(t.date)
    && t.hour < 24 && t.minute < 60 && t.second < 60 && t.micro < 1_000_000
    && (t.offset.Some? ==> -DAY_US < t.offset.value < DAY_US)
  }

  /** The value has the Python type the kind stands for. */
  predicate Matches(v: Value, kind: Kind) {
    match kind
    case Integer => v.IntValue?
    case Date => v.DayValue? && ValidDay(v.d)
    case TimestampNaive => v.StampValue? && ValidStamp(v.t) && v.t.offset.None?
    case TimestampTz => v.StampValue? && ValidStamp(v.t) && v.t.offset.Some?
  }

  function EpochStamp(offset: Option<int>): Stamp {
    Stamp(Day(1970, 1, 1), 0, 0, 0, 0, offset)
  }

  function DefaultValue(kind: Kind): Value {
    match kind
    case Integer => IntValue(0)
    case Date => DayValue(Day(1970, 1, 1))
    case TimestampNaive => StampValue(EpochStamp(None))
    case TimestampTz => StampValue(EpochStamp(Some(0)))
  }

  // ---------------------------------------------------------------- text

  function DayText(d: Day): string {
    Pad(d.year, 4) + "-" + Pad(d.month, 2) + "-" + Pad(d.day, 2)
  }

  function OffsetParts(negative: bool, h: nat, m: nat, sec: nat, micro: nat): string {
    (if negative then "-" else "+") + Pad(h, 2) + ":" + Pad(m, 2) + OffsetTail(sec, micro)
  }

  /** Seconds of an offset only when it is not whole minutes, microseconds only when there are any. */
  function OffsetTail(sec: nat, micro: nat): string {
    if sec == 0 && micro == 0 then "" else ":" + Pad(sec, 2) + (if micro != 0 then "." + Pad(micro, 6) else "")
  }

  function OffsetText(o: int): string {
    var a := if o < 0 then -o else o;
    var sec := a / US;
    OffsetParts(o < 0, sec / 3600, sec / 60 % 60, sec % 60, a % US)
  }

  function ClockText(t: Stamp): string {
    Pad(t.hour, 2) + ":" + Pad(t.minute, 2) + ":" + Pad(t.second, 2)
  }

  /** Microseconds only when there are any, the offset only when there is one. */
  function TailText(t: Stamp): string {
    (if t.micro != 0 then "." + Pad(t.micro, 6) else "") + (if t.offset.Some? then OffsetText(t.offset.value) else "")
  }

  /** `datetime.isoformat()`. */
  function StampText(t: Stamp): string {
    DayText(t.date) + "T" + ClockText(t) + TailText(t)
  }

  function IntText(i: int): string {
    if i < 0 then "-" + Render(-i) else Render(i)
  }

  function Serialize(v: Value): string {
    match v
    case IntValue(i) => IntText(i)
    case DayValue(d) => DayText(d)
    case StampValue(t) => StampText(t)
  }

  /** The number spelled by the digits in `s[from..to]`. */
  function Field(s: string, from: nat, to: nat): Option<nat> {
    if from <= to <= |s| && AllDigits(s[from..to]) then Some(Number(s[from..to])) else None
  }

  function ParseDay(s: string): Option<Day> {
    if |s| != 10 || s[4] != '-' || s[7] != '-' then None
    else
      var y, m, d := Field(s, 0, 4), Field(s, 5, 7), Field(s, 8, 10);
      if y.Some? && m.Some? && d.Some? && ValidDay(Day(y.value, m.value, d.value))
      then Some(Day(y.value, m.value, d.value)) else None
  }

  /** `+HH:MM`, `+HH:MM:SS` or `+HH:MM:SS.ffffff`, either sign. */
  function ParseOffset(s: string): Option<int> {
    if |s| < 6 || (s[0] != '+' && s[0] != '-') || s[3] != ':' then None
    else
      var h, m, tail := Field(s, 1, 3), Field(s, 4, 6), ParseOffsetTail(s[6..]);
      if h.Some? && m.Some? && tail.Some? && h.value < 24 && m.value < 60 then
        var a := (h.value * 3600 + m.value * 60) * US + tail.value;
        Some(if s[0] == '-' then -a else a)
      else None
  }

  /** Microseconds of `[:SS[.ffffff]]`. */
  function ParseOffsetTail(s: string): Option<nat> {
    if s == "" then Some(0)
    else if (|s| != 3 && |s| != 10) || s[0] != ':' || (|s| == 10 && s[3] != '.') then None
    else
      var sec := Field(s, 1, 3);
      var micro := if |s| == 10 then Field(s, 4, 10) else Some(0);
      if sec.Some? && micro.Some? && sec.value < 60 then Some(sec.value * US + micro.value) else None
  }

  /** `HH:MM:SS`. */
  function ParseClock(s: string): Option<(nat, nat, nat)> {
    if |s| != 8 || s[2] != ':' || s[5] != ':' then None
    else
      var h, m, sec := Field(s, 0, 2), Field(s, 3, 5), Field(s, 6, 8);
      if h.Some? && m.Some? && sec.Some? then Some((h.value, m.value, sec.value)) else None
  }

  /** `[.ffffff][offset]`. */
  function ParseTail(s: string): Option<(nat, Option<int>)> {
    var hasFraction := |s| >= 7 && s[0] == '.';
    var micro := if hasFraction then Field(s, 1, 7) else Some(0);
    var zone := if hasFraction then s[7..] else s;
    if micro.None? then None
    else if zone == "" then Some((micro.value, None))
    else
      var o := ParseOffset(zone);
      if o.Some? then Some((micro.value, o)) else None
  }

  /** `datetime.fromisoformat` on the forms that `isoformat` writes. */
  function ParseStamp(s: string): Option<Stamp> {
    if |s| < 19 || s[10] != 'T' then None
    else
      var date, clock, tail := ParseDay(s[..10]), ParseClock(s[11..19]), ParseTail(s[19..]);
      if date.None? || clock.None? || tail.None? then None
      else
        var t := Stamp(date.value, clock.value.0, clock.value.1, clock.value.2, tail.value.0, tail.value.1);
        if ValidStamp(t) then Some(t) else None
  }

  function ParseInt(s: string): Option<int> {
    if |s| > 1 && s[0] == '-' && AllDigits(s[1..]) then Some(0 - Number(s[1..]))
    else if s != "" && AllDigits(s) then Some(Number(s))
    else None
  }

  /** `_parse` of a non-NULL text; None when Python would raise. */
  function Parse(s: string, kind: Kind): Option<Value> {
    match kind
    case Integer => var i := ParseInt(s); if i.Some? then Some(IntValue(i.value)) else None
    case Date => var d := ParseDay(s); if d.Some? then Some(DayValue(d.value)) else None
    case TimestampNaive =>
      var t := ParseStamp(s);
      if t.Some? then Some(StampValue(t.value.(offset := None))) else None
    case TimestampTz =>
      var t := ParseStamp(s);
      if t.None? then None
      else if t.value.offset.Some? then Some(StampValue(t.value))
      else Some(StampValue(t.value.(offset := Some(0))))
  }

  // ---------------------------------------------------------------- round trip

  lemma IntRoundTrip(i: int)
    ensures ParseInt(IntText(i)) == Some(i)
  {
    RenderRoundTrip(if i < 0 then -i else i);
    if i < 0 {
      assert IntText(i)[1..] == Render(-i);
    } else {
      assert IsDigit(IntText(i)[0]);
    }
  }

  lemma DayFields(y: string, m: string, d: string)
    requires |y| == 4 && |m| == 2 && |d| == 2
    ensures var s := y + "-" + m + "-" + d;
            && |s| == 10 && s[4] == '-' && s[7] == '-'
            && s[0..4] == y && s[5..7] == m && s[8..10] == d
  {}

  lemma DayRoundTrip(d: Day)
    requires ValidDay(d)
    ensures |DayText(d)| == 10 && ParseDay(DayText(d)) == Some(d)
  {
    assert Pow10(4) == 10 * Pow10(3) && Pow10(3) == 1000;
    PadRoundTrip(d.year, 4);
    TwoDigits(d.month);
    TwoDigits(d.day);
    DayFields(Pad(d.year, 4), Pad(d.month, 2), Pad(d.day, 2));
  }

  lemma SplitOffset(a: nat)
    requires a < DAY_US
    ensures var sec := a / US;
            && sec / 3600 < 24
            && a == (sec / 3600 * 3600 + sec / 60 % 60 * 60) * US + (sec % 60 * US + a % US)
  {
    var sec := a / US;
    assert sec == sec / 3600 * 3600 + sec / 60 % 60 * 60 + sec % 60;
  }

  lemma SixDigits(n: nat)
    requires n < US
    ensures |Pad(n, 6)| == 6 && AllDigits(Pad(n, 6)) && Number(Pad(n, 6)) == n
  {
    assert Pow10(6) == US by {
      assert Pow10(4) == 10 * Pow10(3) && Pow10(3) == 1000;
    }
    PadRoundTrip(n, 6);
  }

  lemma OffsetTailRoundTrip(sec: nat, micro: nat)
    requires sec < 60 && micro < US
    ensures ParseOffsetTail(OffsetTail(sec, micro)) == Some(sec * US + micro)
  {
    TwoDigits(sec);
    SixDigits(micro);
    var s := OffsetTail(sec, micro);
    hide Pad, AllDigits, Number;
    if s != "" {
      assert s[1..3] == Pad(sec, 2);
      if micro != 0 {
        assert s[4..10] == Pad(micro, 6);
      }
    }
  }

  lemma OffsetPartsRoundTrip(negative: bool, h: nat, m: nat, sec: nat, micro: nat)
    requires h < 24 && m < 60 && sec < 60 && micro < US
    ensures var s := OffsetParts(negative, h, m, sec, micro);
            var a := (h * 3600 + m * 60) * US + (sec * US + micro);
            && s != "" && s[0] != '.'
            && ParseOffset(s) == Some(if negative then -a else a)
  {
    hide Pad, AllDigits, Number, ParseOffsetTail, OffsetTail, Field;
    TwoDigits(h);
    TwoDigits(m);
    OffsetTailRoundTrip(sec, micro);
    var s := OffsetParts(negative, h, m, sec, micro);
    OffsetFields(if negative then "-" else "+", Pad(h, 2), Pad(m, 2), OffsetTail(sec, micro));
    FieldIs(s, 1, 3, h);
    FieldIs(s, 4, 6, m);
  }

  lemma FieldIs(s: string, from: nat, to: nat, n: nat)
    requires from <= to <= |s| && AllDigits(s[from..to]) && Number(s[from..to]) == n
    ensures Field(s, from, to) == Some(n)
  {}

  lemma OffsetFields(sign: string, h: string, m: string, tail: string)
    requires |sign| == 1 && |h| == 2 && |m| == 2
    ensures var s := sign + h + ":" + m + tail;
            && |s| >= 6 && s[0] == sign[0] && s[3] == ':'
            && s[1..3] == h && s[4..6] == m && s[6..] == tail
  {}

  lemma OffsetRoundTrip(o: int)
    requires -DAY_US < o < DAY_US
    ensures OffsetText(o) != "" && OffsetText(o)[0] != '.'
    ensures ParseOffset(OffsetText(o)) == Some(o)
  {
    hide ParseOffset, OffsetParts;
    var a := if o < 0 then -o else o;
    SplitOffset(a);
    var sec := a / US;
    OffsetPartsRoundTrip(o < 0, sec / 3600, sec / 60 % 60, sec % 60, a % US);
  }

  lemma ClockRoundTrip(t: Stamp)
    requires ValidStamp(t)
    ensures |ClockText(t)| == 8 && ParseClock(ClockText(t)) == Some((t.hour, t.minute, t.second))
  {
    TwoDigits(t.hour);
    TwoDigits(t.minute);
    TwoDigits(t.second);
    var s := ClockText(t);
    assert s[0..2] == Pad(t.hour, 2);
    assert s[3..5] == Pad(t.minute, 2);
    assert s[6..8] == Pad(t.second, 2);
  }

  lemma TailRoundTrip(t: Stamp)
    requires ValidStamp(t)
    ensures ParseTail(TailText(t)) == Some((t.micro, t.offset))
  {
    var zone := if t.offset.Some? then OffsetText(t.offset.value) else "";
    var s := TailText(t);
    if t.offset.Some? {
      OffsetRoundTrip(t.offset.value);
    }
    if t.micro != 0 {
      SixDigits(t.micro);
      assert s[1..7] == Pad(t.micro, 6);
      assert s[7..] == zone;
    } else {
      assert s == zone;
    }
  }

  lemma StampRoundTrip(t: Stamp)
    requires ValidStamp(t)
    ensures ParseStamp(StampText(t)) == Some(t)
  {
    var s := StampText(t);
    DayRoundTrip(t.date);
    ClockRoundTrip(t);
    TailRoundTrip(t);
    assert s[..10] == DayText(t.date);
    assert s[11..19] == ClockText(t);
    assert s[19..] == TailText(t);
  }

  /** MAIN: a stored value of its kind comes back unchanged. */
  lemma TextRoundTrip(v: Value, kind: Kind)
    requires Matches(v, kind)
    ensures Parse(Serialize(v), kind) == Some(v)
  {
    match kind
    case Integer => IntRoundTrip(v.i);
    case Date => DayRoundTrip(v.d);
    case _ => StampRoundTrip(v.t);
  }

  // ---------------------------------------------------------------- order

  /** Proleptic Gregorian day number, 1970-01-01 being 0. */
  function DayNumber(d: Day): int
    requires ValidDay(d)
  {
    var y := d.year - 1;
    y * 365 + y / 4 - y / 100 + y / 400 + DaysBefore(d.year, d.month) + d.day - 719163
  }

  function DaysBefore(y: nat, m: nat): nat {
    if m <= 1 then 0 else DaysBefore(y, m - 1) + DaysIn(y, m - 1)
  }

  /** Microseconds since the epoch: on its own wall clock for a naive stamp, in UTC otherwise. */
  function Instant(t: Stamp): int
    requires ValidStamp(t)
  {
    var o := if t.offset.Some? then t.offset.value else 0;
    DayNumber(t.date) * DAY_US + (t.hour * 3600 + t.minute * 60 + t.second) * US + t.micro - o
  }

  /** The position of a value on its kind's axis; Python compares values by it. */
  function Rank(v: Value, kind: Kind): int
    requires Matches(v, kind)
  {
    match kind
    case Integer => v.i
    case Date => DayNumber(v.d)
    case _ => Instant(v.t)
  }

  function MarkOfWatermark(w: Watermark, kind: Kind): Mark
    requires Matches(w.value, kind)
  {
    Mark(Rank(w.value, kind), w.lastId)
  }

  lemma DefaultRanksZero(kind: Kind)
    ensures Matches(DefaultValue(kind), kind) && Rank(DefaultValue(kind), kind) == 0
  {
    assert DaysBefore(1970, 1) == 0;
  }

  // ---------------------------------------------------------------- the row

  /** A row of `pipeline_watermarks`; `lastValue` is NULL in rows older than the column. */
  datatype StoredRow = StoredRow(lastValue: Option<string>, lastTs: Option<Stamp>, lastId: int)

  /** The row of one (connection, table), or no row yet. */
  type Cell = Option<StoredRow>

  /** `get_watermark`; None when the stored text does not parse. */
  function Get(cell: Cell, kind: Kind): Option<Watermark> {
    if cell.None? then Some(Watermark(DefaultValue(kind), 0))
    else
      var row := cell.value;
      if row.lastValue.Some? then
        var v := Parse(row.lastValue.value, kind);
        if v.Some? then Some(Watermark(v.value, row.lastId)) else None
      else if (kind.TimestampTz? || kind.TimestampNaive?) && row.lastTs.Some? then
        var t := if kind.TimestampNaive? then row.lastTs.value.(offset := None) else row.lastTs.value;
        Some(Watermark(StampValue(t), row.lastId))
      else Some(Watermark(DefaultValue(kind), row.lastId))
  }

  function Written(w: Watermark, kind: Kind): StoredRow {
    StoredRow(Some(Serialize(w.value)), if kind.TimestampTz? && w.value.StampValue? then Some(w.value.t) else None, w.lastId)
  }

  /** What `set_watermark` compares against: unlike `Get` it never looks at `last_ts`. */
  function Compared(row: StoredRow, kind: Kind): Option<Watermark> {
    if row.lastValue.None? then Some(Watermark(DefaultValue(kind), row.lastId))
    else
      var v := Parse(row.lastValue.value, kind);
      if v.Some? then Some(Watermark(v.value, row.lastId)) else None
  }

  /** The stored text, if any, is a value of the kind. */
  predicate Readable(cell: Cell, kind: Kind) {
    cell.Some? && cell.value.lastValue.Some? ==>
      var v := Parse(cell.value.lastValue.value, kind); v.Some? && Matches(v.value, kind)
  }

  /** `last_ts` is a TIMESTAMPTZ: it comes back with an offset. */
  predicate LegacyOk(cell: Cell) {
    cell.Some? && cell.value.lastTs.Some? ==> ValidStamp(cell.value.lastTs.value) && cell.value.lastTs.value.offset.Some?
  }

  /** `set_watermark` on a readable row. */
  function Set(cell: Cell, w: Watermark, kind: Kind): (end: Cell)
    requires Matches(w.value, kind) && Readable(cell, kind)
    ensures Readable(end, kind)
    ensures LegacyOk(cell) ==> LegacyOk(end)
  {
    DefaultRanksZero(kind);
    TextRoundTrip(w.value, kind);
    if cell.None? then Some(Written(w, kind))
    else if Le(MarkOfWatermark(w, kind), MarkOfWatermark(Compared(cell.value, kind).value, kind)) then cell
    else Some(Written(w, kind))
  }

  /** No row, or a row that carries `last_value`. */
  predicate Upgraded(cell: Cell, kind: Kind) {
    Readable(cell, kind) && (cell.Some? ==> cell.value.lastValue.Some?)
  }

  /** The row as a mark. */
  function View(cell: Cell, kind: Kind): Option<Mark>
    requires Upgraded(cell, kind)
  {
    if cell.None? then None
    else Some(MarkOfWatermark(Compared(cell.value, kind).value, kind))
  }

  /** MAIN: on current rows the textual store is the forward-only mark: `set` is `Advance`
      and `get` reads the mark (0 for no row). */
  lemma SetRefinesAdvance(cell: Cell, w: Watermark, kind: Kind)
    requires Upgraded(cell, kind) && Matches(w.value, kind)
    ensures Upgraded(Set(cell, w, kind), kind)
    ensures View(Set(cell, w, kind), kind) == Advance(View(cell, kind), MarkOfWatermark(w, kind))
    ensures Get(cell, kind).Some? && Matches(Get(cell, kind).value.value, kind)
    ensures MarkOfWatermark(Get(cell, kind).value, kind) == Marks.Current(View(cell, kind))
  {
    TextRoundTrip(w.value, kind);
    DefaultRanksZero(kind);
  }

  function SetAll(cell: Cell, ws: seq<Watermark>, kind: Kind): Cell
    requires Upgraded(cell, kind)
    requires forall w :: w in ws ==> Matches(w.value, kind)
    decreases |ws|
  {
    if ws == [] then cell
    else
      SetRefinesAdvance(cell, ws[0], kind);
      SetAll(Set(cell, ws[0], kind), ws[1..], kind)
  }

  /** MAIN: after any calls in any order, `get` answers one of the values set (or the one that
      was stored), and none of them is greater. */
  lemma {:induction false} StoredIsMaximum(cell: Cell, ws: seq<Watermark>, kind: Kind)
    requires Upgraded(cell, kind)
    requires forall w :: w in ws ==> Matches(w.value, kind)
    requires cell.Some? || ws != []
    ensures var end := SetAll(cell, ws, kind);
            && Upgraded(end, kind) && end.Some?
            && var got := Get(end, kind).value;
               && Matches(got.value, kind)
               && (got in ws || (cell.Some? && got == Get(cell, kind).value))
               && (forall w :: w in ws ==> Le(MarkOfWatermark(w, kind), MarkOfWatermark(got, kind)))
               && (cell.Some? ==> Le(MarkOfWatermark(Get(cell, kind).value, kind), MarkOfWatermark(got, kind)))
    decreases |ws|
  {
    hide Parse, Serialize, Rank, Matches;
    if ws != [] {
      SetRefinesAdvance(cell, ws[0], kind);
      TextRoundTrip(ws[0].value, kind);
      StoredIsMaximum(Set(cell, ws[0], kind), ws[1..], kind);
      assert ws == [ws[0]] + ws[1..];
    }
  }

  // ---------------------------------------------------------------- legacy rows

  /** A row written before `last_value` existed whose `last_ts` is what `get` answers. */
  predicate FallsBack(cell: Cell, kind: Kind) {
    && cell.Some? && cell.value.lastValue.None? && cell.value.lastTs.Some?
    && (kind.TimestampTz? || kind.TimestampNaive?)
  }

  /** What `get` answers, as a mark. */
  function Answer(cell: Cell, kind: Kind): Mark
    requires Readable(cell, kind) && LegacyOk(cell)
  {
    DefaultRanksZero(kind);
    MarkOfWatermark(Get(cell, kind).value, kind)
  }

  lemma AnswerAfterWrite(w: Watermark, kind: Kind)
    requires Matches(w.value, kind)
    ensures var cell := Some(Written(w, kind));
            && Readable(cell, kind) && LegacyOk(cell)
            && Answer(cell, kind) == MarkOfWatermark(w, kind)
  {
    TextRoundTrip(w.value, kind);
  }

  /** MAIN: exactly when one call can move what `get` answers backwards: on a missing row by a
      value below the default, on a fallback row by a value strictly between the default that
      `set` compares with and the `last_ts` that `get` answers. */
  lemma MovesBackExactly(cell: Cell, w: Watermark, kind: Kind)
    requires Readable(cell, kind) && LegacyOk(cell) && Matches(w.value, kind)
    ensures var m := MarkOfWatermark(w, kind);
            Lt(Answer(Set(cell, w, kind), kind), Answer(cell, kind)) <==>
            || (cell.None? && Lt(m, Mark(0, 0)))
            || (FallsBack(cell, kind) && Lt(Mark(0, cell.value.lastId), m) && Lt(m, Answer(cell, kind)))
  {
    hide Parse, Serialize, Instant, DayNumber;
    AnswerAfterWrite(w, kind);
    DefaultRanksZero(kind);
  }

  function NewYear(y: nat): Stamp {
    Stamp(Day(y, 1, 1), 0, 0, 0, 0, Some(0))
  }

  lemma NewYearRanks()
    ensures ValidStamp(NewYear(2001)) && ValidStamp(NewYear(2024))
    ensures Instant(NewYear(2001)) > 0
  {
    assert DaysBefore(2001, 1) == 0;
    assert DayNumber(Day(2001, 1, 1)) == 11323;
  }

  /** The effect on a concrete legacy row: a 2001 watermark replaces a stored 2024 one. */
  lemma LegacyRowMovesBack()
    ensures var legacy := Some(StoredRow(None, Some(NewYear(2024)), 7));
            var w := Watermark(StampValue(NewYear(2001)), 1);
            && Matches(w.value, TimestampTz)
            && Get(legacy, TimestampTz) == Some(Watermark(StampValue(NewYear(2024)), 7))
            && Get(Set(legacy, w, TimestampTz), TimestampTz) == Some(w)
  {
    hide Parse, Serialize, Instant, ValidStamp;
    NewYearRanks();
    var w := Watermark(StampValue(NewYear(2001)), 1);
    TextRoundTrip(w.value, TimestampTz);
    DefaultRanksZero(TimestampTz);
  }

  // ---------------------------------------------------------------- the table

  /** `pipeline_watermarks`, keyed by connection and table name. */
  class WatermarkTable {
    var rows: map<(int, string), StoredRow>

    constructor ()
      ensures rows == map[]
    {
      rows := map[];
    }

    function At(key: (int, string)): Cell
      reads this
    {
      if key in rows then Some(rows[key]) else None
    }

    method GetWatermark(key: (int, string), kind: Kind) returns (w: Option<Watermark>)
      ensures w == Get(At(key), kind)
    {
      if key !in rows {
        return Some(Watermark(DefaultValue(kind), 0));
      }
      var row := rows[key];
      if row.lastValue.Some? {
        var v := Parse(row.lastValue.value, kind);
        return if v.Some? then Some(Watermark(v.value, row.lastId)) else None;
      }
      if (kind.TimestampTz? || kind.TimestampNaive?) && row.lastTs.Some? {
        var val := row.lastTs.value;
        if kind.TimestampNaive? && val.offset.Some? {
          val := val.(offset := None);
        }
        return Some(Watermark(StampValue(val), row.lastId));
      }
      return Some(Watermark(DefaultValue(kind), row.lastId));
    }

    /** Advances one row and leaves every other row alone. */
    method SetWatermark(key: (int, string), w: Watermark, kind: Kind)
      requires Matches(w.value, kind) && Readable(At(key), kind)
      modifies this
      ensures At(key) == Set(old(At(key)), w, kind)
      ensures rows - {key} == old(rows) - {key}
    {
      DefaultRanksZero(kind);
      if key in rows {
        var current := Compared(rows[key], kind).value;
        if Le(MarkOfWatermark(w, kind), MarkOfWatermark(current, kind)) {
          return;
        }
      }
      rows := rows[key := Written(w, kind)];
    }
  }
}
