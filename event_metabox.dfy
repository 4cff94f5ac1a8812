/**
 * The event meta box (class Event_Metabox): the sanitisers and validators of its fields and
 * `append_data`, which turns the saved form fields into the canonical `dtstart` and `dtend`
 * meta values.
 *
 * The form data arrives as a map from field name to string, after sanitising; a checked
 * `full_day` box is a key that is present (PHP's `isset` is true for its `false` too).
 */
module EventMetabox {
  import opened Wrappers
  import opened PhpValues
  import opened DateTimes
  import opened EventPostObject

  // ---------------------------------------------------------------- sanitisers and validators

  /** `sanitize_date($input)`: the 'Y-m-d' form of a date 'Y-m-d' accepts, or "". */
  function SanitizeDate(input: string, now: Instant): (r: string)
    ensures r == "" <==> CreateFromFormat(Ymd, input, now).None?
  {
    match CreateFromFormat(Ymd, input, now)
    case Some(d) => FormatYmdShape(d); Format(Ymd, d)
    case None => ""
  }

  /** `sanitize_time($input)`: the 'H:i' form of a time 'H:i' accepts, or "". */
  function SanitizeTime(input: string, now: Instant): (r: string)
    ensures r == "" <==> CreateFromFormat(Hi, input, now).None?
  {
    match CreateFromFormat(Hi, input, now)
    case Some(t) => FormatHiShape(t); Format(Hi, t)
    case None => ""
  }

  /** The sanitised date does not depend on the clock, and a second pass leaves it alone. */
  lemma SanitizeDateIdempotent(input: string, now1: Instant, now2: Instant)
    ensures SanitizeDate(input, now1) == SanitizeDate(input, now2)
    ensures SanitizeDate(SanitizeDate(input, now1), now2) == SanitizeDate(input, now1)
  {
    YmdTakesClockTime(input, now1, now2);
    match CreateFromFormat(Ymd, input, now1)
    case None =>
      EmptyNeverParses(Ymd, now2);
    case Some(d) =>
      var d2 := DateTime(d.date, now2.time);
      FormatYmdShape(d);
      FormatYmdShape(d2);
      ParseFormattedYmd(d, now2);
      FormatYmdShape(DateTime(d.date, now2.time));
  }

  /** A sanitised date names the day the input was read as, and reads back as that day. */
  lemma SanitizedDateIsInputDate(input: string, now: Instant, now2: Instant)
    ensures SanitizeDate(input, now) != "" ==>
      CreateFromFormat(Ymd, SanitizeDate(input, now), now2)
        == Some(DateTime(CreateFromFormat(Ymd, input, now).value.date, now2.time))
  {
    if CreateFromFormat(Ymd, input, now).Some? {
      ParseFormattedYmd(CreateFromFormat(Ymd, input, now).value, now2);
    }
  }

  /** The sanitised time does not depend on the clock, and a second pass leaves it alone. */
  lemma SanitizeTimeIdempotent(input: string, now1: Instant, now2: Instant)
    ensures SanitizeTime(input, now1) == SanitizeTime(input, now2)
    ensures SanitizeTime(SanitizeTime(input, now1), now2) == SanitizeTime(input, now1)
  {
    HiTakesClockDate(input, now1, now2);
    match CreateFromFormat(Hi, input, now1)
    case None =>
      EmptyNeverParses(Hi, now2);
    case Some(t) =>
      FormatHiShape(t);
      FormatHiShape(DateTime(now2.date, t.time));
      ParseFormattedHi(t, now2);
      FormatHiShape(DateTime(now2.date, Time(t.time.hour, t.time.minute, 0)));
  }

  /** `validate_event_status($input)`. */
  function ValidateEventStatus(input: string): (r: string)
    ensures r in Keys(Stati)
    ensures r == input <==> input in Keys(Stati)
    ensures r != input ==> r == DefaultStatus
  {
    EnumerationFacts();
    Resolve(Stati, input, DefaultStatus)
  }

  /** `validate_event_type($input)`. */
  function ValidateEventType(input: string): (r: string)
    ensures r in Keys(AttendanceModes)
    ensures r == input <==> input in Keys(AttendanceModes)
    ensures r != input ==> r == DefaultAttendance
  {
    EnumerationFacts();
    Resolve(AttendanceModes, input, DefaultAttendance)
  }

  lemma ValidatorsIdempotent(input: string)
    ensures ValidateEventStatus(ValidateEventStatus(input)) == ValidateEventStatus(input)
    ensures ValidateEventType(ValidateEventType(input)) == ValidateEventType(input)
  {
  }

  // ---------------------------------------------------------------- the end time field

  /** "HH:MM" with an hour of the day and a minute: the shape `sanitize_time` produces. */
  predicate IsClockTime(t: string) {
    |t| == 5 && t[2] == ':' && AllDigits(t[..2]) && AllDigits(t[3..]) &&
    DecimalValue(t[..2]) <= 23 && DecimalValue(t[3..]) <= 59
  }

  /** `list($hour, $minutes) = explode(':', $t)`, each part read as an integer. */
  function ClockParts(t: string): (hm: (int, int))
    requires IsClockTime(t)
    ensures 0 <= hm.0 <= 23 && 0 <= hm.1 <= 59
    ensures Pad2(hm.0) + ":" + Pad2(hm.1) == t
  {
    PadOfDecimal2(t[..2]);
    PadOfDecimal2(t[3..]);
    assert t == t[..2] + ":" + t[3..];
    (DecimalValue(t[..2]), DecimalValue(t[3..]))
  }

  /** What `sanitize_time` leaves behind is "" or a clock time naming its own hour and minute. */
  lemma SanitizedTimeIsClockTime(input: string, now: Instant)
    ensures SanitizeTime(input, now) == "" || IsClockTime(SanitizeTime(input, now))
    ensures SanitizeTime(input, now) != "" ==>
      var t := CreateFromFormat(Hi, input, now).value;
      ClockParts(SanitizeTime(input, now)) == (t.time.hour, t.time.minute)
  {
    if CreateFromFormat(Hi, input, now).Some? {
      var t := CreateFromFormat(Hi, input, now).value;
      var s := SanitizeTime(input, now);
      FormatHiShape(t);
      assert s[..2] == Pad2(t.time.hour) && s[3..] == Pad2(t.time.minute);
      DecimalPad2(t.time.hour);
      DecimalPad2(t.time.minute);
    }
  }

  /** `append_data` is only ever handed an end time that `sanitize_time` could have produced. */
  predicate EndTimeWellFormed(data: map<string, string>) {
    "dtend_time" in data ==> StringIsEmpty(data["dtend_time"]) || IsClockTime(data["dtend_time"])
  }

  // ---------------------------------------------------------------- append_data, as written

  predicate Given(data: map<string, string>, key: string) {
    key in data && !StringIsEmpty(data[key])
  }

  /** The start text: `"{dtstart_date} {dtstart_time ?? '00:00'}:00"`. */
  function StartText(data: map<string, string>): string
    requires "dtstart_date" in data
  {
    data["dtstart_date"] + " " + (if "dtstart_time" in data then data["dtstart_time"] else "00:00") + ":00"
  }

  /** The start instant, when there is a start date and the start text parses. */
  function ParsedStart(data: map<string, string>, now: Instant): Option<Instant> {
    if !Given(data, "dtstart_date") then None else CreateFromFormat(YmdHis, StartText(data), now)
  }

  /** The end date read with 'Y-m-d': its time of day is the clock's. */
  function EndCandidate(data: map<string, string>, now: Instant): Option<Instant> {
    if Given(data, "dtend_date") then CreateFromFormat(Ymd, data["dtend_date"], now) else None
  }

  /** An end date earlier than the start instant is refused and reported. */
  function EndCorrected(data: map<string, string>, start: Instant, now: Instant): bool {
    EndCandidate(data, now).Some? && Before(EndCandidate(data, now).value, start)
  }

  /** The end before its time of day is set: the start, or the adopted end date. */
  function EndBase(data: map<string, string>, start: Instant, now: Instant): Instant {
    if EndCandidate(data, now).Some? && !EndCorrected(data, start, now) then EndCandidate(data, now).value else start
  }

  /** The time of day the form imposes on the end, if any. */
  function EndTimeOfDay(data: map<string, string>, base: Instant): Instant {
    if "full_day" in data then DateTime(base.date, Time(23, 59, 59))
    else if Given(data, "dtend_time") && IsClockTime(data["dtend_time"]) then
      var (h, m) := ClockParts(data["dtend_time"]);
      DateTime(base.date, Time(h, m, 0))
    else base
  }

  type Write = (string, string)

  /** The `update_post_meta` calls of `append_data`, in order. */
  function Writes(data: map<string, string>, now: Instant): (r: seq<Write>)
    ensures r == [] <==> ParsedStart(data, now).None?
    ensures r != [] ==> 2 <= |r| <= 3 && r[0].0 == "dtstart" && r[|r| - 1].0 == "dtend"
  {
    match ParsedStart(data, now)
    case None => []
    case Some(start) =>
      [("dtstart", Format(YmdHis, start))]
      + (if EndCorrected(data, start, now) then [("event_dtend_date", Format(Ymd, start))] else [])
      + [("dtend", Format(YmdHis, EndTimeOfDay(data, EndBase(data, start, now))))]
  }

  /** The meta after a sequence of writes. */
  function Applied(meta: map<string, string>, ws: seq<Write>): map<string, string>
    decreases |ws|
  {
    if ws == [] then meta
    else
      var n := |ws| - 1;
      Applied(meta, ws[..n])[ws[n].0 := ws[n].1]
  }

  /**
   * A post's meta, written through `update_post_meta`: `calls` lists the writes made since
   * `initial`, and the meta is always what those writes leave.
   */
  class PostMeta {
    ghost var initial: map<string, string>
    var meta: map<string, string>
    var calls: seq<Write>

    ghost predicate Valid()
      reads this
    {
      meta == Applied(initial, calls)
    }

    constructor(meta: map<string, string>)
      ensures Valid() && this.meta == meta && initial == meta && calls == []
    {
      this.meta := meta;
      initial := meta;
      calls := [];
    }

    method Update(key: string, value: string)
      requires Valid()
      modifies this
      ensures Valid() && initial == old(initial)
      ensures meta == old(meta)[key := value]
      ensures calls == old(calls) + [(key, value)]
    {
      AppliedStep(initial, calls, (key, value));
      meta := meta[key := value];
      calls := calls + [(key, value)];
    }
  }

  /** A mutable PHP DateTime object. */
  class DateTimeBox {
    var value: Instant

    constructor(value: Instant)
      ensures this.value == value
    {
      this.value := value;
    }

    /** `clone $this`. */
    method Clone() returns (c: DateTimeBox)
      ensures fresh(c) && c.value == value
    {
      c := new DateTimeBox(value);
    }

    /** `setTime($h, $m, $s)` with an hour, minute and second in range. */
    method SetTime(h: int, m: int, s: int)
      requires 0 <= h <= 23 && 0 <= m <= 59 && 0 <= s <= 59
      modifies this
      ensures value == DateTime(old(value).date, Time(h, m, s))
    {
      value := DateTime(value.date, Time(h, m, s));
    }
  }

  lemma AppliedStep(meta: map<string, string>, ws: seq<Write>, w: Write)
    ensures Applied(meta, ws + [w]) == Applied(meta, ws)[w.0 := w.1]
  {
    assert (ws + [w])[..|ws|] == ws;
  }

  lemma {:induction false} AppliedConcat(meta: map<string, string>, a: seq<Write>, b: seq<Write>)
    ensures Applied(meta, a + b) == Applied(Applied(meta, a), b)
    decreases |b|
  {
    if b == [] {
      assert a + b == a;
    } else {
      var n := |b| - 1;
      assert (a + b)[..|a + b| - 1] == a + b[..n];
      AppliedConcat(meta, a, b[..n]);
    }
  }

  lemma WritesOfStart(data: map<string, string>, now: Instant, start: Instant)
    requires ParsedStart(data, now) == Some(start)
    ensures Writes(data, now) ==
      [("dtstart", Format(YmdHis, start))]
      + (if EndCorrected(data, start, now) then [("event_dtend_date", Format(Ymd, start))] else [])
      + [("dtend", Format(YmdHis, EndTimeOfDay(data, EndBase(data, start, now))))]
  {
  }

  lemma ConcatAssoc(a: seq<Write>, b: seq<Write>, c: seq<Write>)
    ensures (a + b) + c == a + (b + c)
  {
  }

  /** `append_data($data, $post_id)` on the post whose meta is `store`, at clock time `now`. */
  method AppendData(data: map<string, string>, store: PostMeta, now: Instant)
    requires EndTimeWellFormed(data) && store.Valid()
    modifies store
    ensures store.Valid() && store.initial == old(store.initial)
    ensures store.calls == old(store.calls) + Writes(data, now)
    ensures store.meta == Applied(old(store.meta), Writes(data, now))
  {
    ghost var calls0 := store.calls;
    if !Given(data, "dtstart_date") {
      NothingWithoutStart(data, now);
      assert calls0 + [] == calls0;
      return;
    }
    var time := if "dtstart_time" in data then data["dtstart_time"] else "00:00";
    var parsed := CreateFromFormat(YmdHis, data["dtstart_date"] + " " + time + ":00", now);
    assert parsed == ParsedStart(data, now);
    if parsed.None? {
      NothingWithoutStart(data, now);
      assert calls0 + [] == calls0;
      return;
    }
    var dtstart := new DateTimeBox(parsed.value);
    store.Update("dtstart", Format(YmdHis, dtstart.value));
    var dtend := EndDate(data, store, now, dtstart);
    if "full_day" in data {
      dtend.SetTime(23, 59, 59);
    } else if Given(data, "dtend_time") {
      var (hour, minutes) := ClockParts(data["dtend_time"]);
      dtend.SetTime(hour, minutes, 0);
    }
    store.Update("dtend", Format(YmdHis, dtend.value));
    StoredSchedule(data, now, parsed.value, calls0, store.calls, dtend.value);
    AppliedConcat(store.initial, calls0, Writes(data, now));
  }

  /**
   * The end date step of `append_data`: the end starts as a copy of the start, adopts a
   * readable end date that is not before the start, and otherwise the start's date is
   * written back as `event_dtend_date`.
   */
  method EndDate(data: map<string, string>, store: PostMeta, now: Instant, dtstart: DateTimeBox)
    returns (dtend: DateTimeBox)
    requires store.Valid()
    modifies store
    ensures fresh(dtend)
    ensures dtend.value == EndBase(data, dtstart.value, now)
    ensures store.Valid() && store.initial == old(store.initial)
    ensures store.calls == old(store.calls)
      + (if EndCorrected(data, dtstart.value, now) then [("event_dtend_date", Format(Ymd, dtstart.value))] else [])
  {
    dtend := dtstart.Clone();
    if Given(data, "dtend_date") {
      var maybeEnd := CreateFromFormat(Ymd, data["dtend_date"], now);
      if maybeEnd.Some? {
        if !Before(maybeEnd.value, dtstart.value) {
          dtend := new DateTimeBox(maybeEnd.value);
          assert store.calls + [] == store.calls;
          return;
        }
        store.Update("event_dtend_date", Format(Ymd, dtstart.value));
        return;
      }
    }
    assert store.calls + [] == store.calls;
  }

  /** The calls `append_data` makes, once the start has been read, are `Writes`. */
  lemma StoredSchedule(data: map<string, string>, now: Instant, start: Instant,
                       calls0: seq<Write>, calls: seq<Write>, end: Instant)
    requires ParsedStart(data, now) == Some(start)
    requires calls == calls0 + [("dtstart", Format(YmdHis, start))]
      + (if EndCorrected(data, start, now) then [("event_dtend_date", Format(Ymd, start))] else [])
      + [("dtend", Format(YmdHis, end))]
    requires end == EndTimeOfDay(data, EndBase(data, start, now))
    ensures calls == calls0 + Writes(data, now)
  {
    WritesOfStart(data, now, start);
    var w0 := [("dtstart", Format(YmdHis, start))];
    var w1 := if EndCorrected(data, start, now) then [("event_dtend_date", Format(Ymd, start))] else [];
    var w2 := [("dtend", Format(YmdHis, end))];
    ConcatAssoc(calls0, w0, w1);
    ConcatAssoc(calls0, w0 + w1, w2);
  }

  // ---------------------------------------------------------------- what append_data writes

  /** Nothing is written unless there is a start date and the start text parses. */
  lemma NothingWithoutStart(data: map<string, string>, now: Instant)
    ensures Writes(data, now) == [] <==> ParsedStart(data, now).None?
    ensures !Given(data, "dtstart_date") ==> Writes(data, now) == []
  {
  }

  /** Only `dtstart`, `event_dtend_date` and `dtend` are written; `dtend` exactly when `dtstart`. */
  lemma WrittenKeys(data: map<string, string>, now: Instant)
    ensures forall w :: w in Writes(data, now) ==> w.0 in {"dtstart", "event_dtend_date", "dtend"}
    ensures (exists w :: w in Writes(data, now) && w.0 == "dtstart") <==> (exists w :: w in Writes(data, now) && w.0 == "dtend")
    ensures Writes(data, now) != [] ==> Writes(data, now)[0].0 == "dtstart" && Writes(data, now)[|Writes(data, now)| - 1].0 == "dtend"
    ensures |Writes(data, now)| in {0, 2, 3}
  {
    var ws := Writes(data, now);
    if ws != [] {
      assert ws[0].0 == "dtstart" && ws[|ws| - 1].0 == "dtend";
    }
  }

  /** The start text of a canonical date and time is the 'Y-m-d H:i:s' text of that moment. */
  lemma JoinedStartText(d: Instant, t: Instant)
    ensures Format(Ymd, d) + " " + Format(Hi, t) + ":00" == Format(YmdHis, DateTime(d.date, Time(t.time.hour, t.time.minute, 0)))
  {
    var x: Instant := DateTime(d.date, Time(t.time.hour, t.time.minute, 0));
    assert Format(Ymd, x) == Format(Ymd, d) by {
      FormatYmdShape(d);
      FormatYmdShape(x);
    }
    assert Format(Hi, x) == Format(Hi, t) by {
      FormatHiShape(t);
      FormatHiShape(x);
    }
    FormatYmdHisShape(x);
    assert Pad2(0) == "00";
    SecondsSuffix(Format(Ymd, d), Format(Hi, t), Pad2(0));
  }

  lemma SecondsSuffix(date: string, time: string, seconds: string)
    requires seconds == "00"
    ensures date + " " + time + ":00" == date + " " + time + ":" + seconds
  {
    var c := date + " " + time;
    assert (c + ":") + seconds == c + (":" + seconds);
  }

  /** A canonical date and time are stored as the date, the time and ":00". */
  lemma StoredStartIsInput(data: map<string, string>, now: Instant, d: Instant, t: Instant)
    requires "dtstart_date" in data && data["dtstart_date"] == Format(Ymd, d)
    requires "dtstart_time" in data && data["dtstart_time"] == Format(Hi, t)
    ensures ParsedStart(data, now) == Some(DateTime(d.date, Time(t.time.hour, t.time.minute, 0)))
    ensures Writes(data, now) != [] && Writes(data, now)[0] == ("dtstart", Format(Ymd, d) + " " + Format(Hi, t) + ":00")
  {
    var x: Instant := DateTime(d.date, Time(t.time.hour, t.time.minute, 0));
    JoinedStartText(d, t);
    assert Given(data, "dtstart_date") by {
      FormatYmdShape(d);
    }
    StartOfFormattedText(data, now, x);
  }

  /** A start text that is a formatted instant parses back to it and is stored first. */
  lemma StartOfFormattedText(data: map<string, string>, now: Instant, x: Instant)
    requires Given(data, "dtstart_date") && StartText(data) == Format(YmdHis, x)
    ensures ParsedStart(data, now) == Some(x)
    ensures Writes(data, now) != [] && Writes(data, now)[0] == ("dtstart", StartText(data))
  {
    ParseFormattedYmdHis(x, now);
    WritesOfStart(data, now, x);
  }

  /** Without a start time the start is midnight of the start date, stored as the start text. */
  lemma StartDefaultsToMidnight(data: map<string, string>, now: Instant, d: Instant)
    requires "dtstart_date" in data && data["dtstart_date"] == Format(Ymd, d)
    requires "dtstart_time" !in data
    ensures ParsedStart(data, now) == Some(DateTime(d.date, Time(0, 0, 0)))
    ensures Writes(data, now) != [] && Writes(data, now)[0] == ("dtstart", StartText(data))
  {
    var x: Instant := DateTime(d.date, Time(0, 0, 0));
    assert Given(data, "dtstart_date") by {
      FormatYmdShape(d);
    }
    assert Format(Hi, x) == "00:00" by {
      FormatHiShape(x);
      assert Pad2(0) == "00";
    }
    assert StartText(data) == Format(Ymd, d) + " " + Format(Hi, x) + ":00";
    JoinedStartText(d, x);
    StartOfFormattedText(data, now, x);
  }

  /**
   * A start time that is present but empty (a blank field, once sanitised) is not replaced by
   * "00:00": the start text lacks its time, does not parse, and nothing is written.
   */
  lemma EmptyStartTimeWritesNothing(data: map<string, string>, now: Instant, d: Instant)
    requires "dtstart_date" in data && data["dtstart_date"] == Format(Ymd, d)
    requires "dtstart_time" in data && data["dtstart_time"] == ""
    ensures ParsedStart(data, now) == None
    ensures Writes(data, now) == []
  {
    assert StartText(data) == Format(Ymd, d) + " :00";
    MissingTimeNeverParses(d, now);
  }

  /** The stored start depends on the start fields only: nothing about the end reaches it. */
  lemma StartIgnoresEndFields(data1: map<string, string>, data2: map<string, string>, now: Instant)
    requires forall k :: k in {"dtstart_date", "dtstart_time"} ==> (k in data1 <==> k in data2) && (k in data1 ==> data1[k] == data2[k])
    requires Writes(data1, now) != []
    ensures Writes(data2, now) != [] && Writes(data2, now)[0] == Writes(data1, now)[0]
  {
    assert "dtstart_date" in data1 <==> "dtstart_date" in data2;
    assert "dtstart_time" in data1 <==> "dtstart_time" in data2;
    assert ParsedStart(data1, now) == ParsedStart(data2, now);
  }

  /** An end date earlier than the start is reported through `event_dtend_date`; else nothing is. */
  lemma EndDateCorrection(data: map<string, string>, now: Instant, start: Instant)
    requires ParsedStart(data, now) == Some(start)
    ensures EndCorrected(data, start, now) ==>
      |Writes(data, now)| == 3 && Writes(data, now)[1] == ("event_dtend_date", Format(Ymd, start)) &&
      EndBase(data, start, now) == start
    ensures !EndCorrected(data, start, now) ==>
      |Writes(data, now)| == 2 && forall w :: w in Writes(data, now) ==> w.0 != "event_dtend_date"
    ensures EndCandidate(data, now).Some? && !EndCorrected(data, start, now) ==>
      EndBase(data, start, now) == EndCandidate(data, now).value
  {
  }

  /** The stored end: 23:59:59 on a full day, else the given end time, else the base's time. */
  lemma StoredEnd(data: map<string, string>, now: Instant, start: Instant)
    requires ParsedStart(data, now) == Some(start)
    ensures var ws := Writes(data, now);
            var base := EndBase(data, start, now);
            ws[|ws| - 1] == ("dtend", Format(YmdHis, EndTimeOfDay(data, base))) &&
            StoredDate(ws[|ws| - 1].1) == Some(EndTimeOfDay(data, base))
    ensures "full_day" in data ==> EndTimeOfDay(data, EndBase(data, start, now)).time == Time(23, 59, 59)
    ensures "full_day" !in data && Given(data, "dtend_time") && IsClockTime(data["dtend_time"]) ==>
      var (h, m) := ClockParts(data["dtend_time"]);
      EndTimeOfDay(data, EndBase(data, start, now)).time == Time(h, m, 0)
    ensures "full_day" !in data && !Given(data, "dtend_time") ==>
      EndTimeOfDay(data, EndBase(data, start, now)) == EndBase(data, start, now)
    ensures EndTimeOfDay(data, EndBase(data, start, now)).date == EndBase(data, start, now).date
  {
    StoredDateOfFormatted(EndTimeOfDay(data, EndBase(data, start, now)));
  }

  /**
   * The end date is compared at the clock's time of day: an end date on the start's own day
   * is kept when the clock is past the start time and "corrected" when it is not, and a kept
   * end takes the clock's time of day.
   */
  lemma SameDayEndFollowsClock(data: map<string, string>, now: Instant, start: Instant)
    requires ParsedStart(data, now) == Some(start)
    requires "dtend_date" in data && data["dtend_date"] == Format(Ymd, start)
    requires "full_day" !in data && !Given(data, "dtend_time")
    ensures EndCorrected(data, start, now) <==> TimeBefore(now.time, start.time)
    ensures var ws := Writes(data, now);
            ws[|ws| - 1].1 == Format(YmdHis, if TimeBefore(now.time, start.time) then start else DateTime(start.date, now.time))
  {
    FormatYmdShape(start);
    ParseFormattedYmd(start, now);
    assert EndCandidate(data, now) == Some(DateTime(start.date, now.time));
  }

  // ---------------------------------------------------------------- append_data, as intended

  /** The end date on its own, at the start's time of day. */
  function IntendedEndBase(data: map<string, string>, start: Instant): Instant {
    match EndCandidate(data, Epoch)
    case Some(e) =>
      if DateBefore(e.date, start.date) then start
      else DateTime(e.date, start.time)
    case None => start
  }

  /** The writes with the end compared date to date and no clock involved. */
  function IntendedWrites(data: map<string, string>): seq<Write> {
    match ParsedStart(data, Epoch)
    case None => []
    case Some(start) =>
      var e := EndCandidate(data, Epoch);
      var corrected := e.Some? && DateBefore(e.value.date, start.date);
      [("dtstart", Format(YmdHis, start))]
      + (if corrected then [("event_dtend_date", Format(Ymd, start))] else [])
      + [("dtend", Format(YmdHis, EndTimeOfDay(data, IntendedEndBase(data, start))))]
  }

  lemma DateBeforeTotal(a: Date, b: Date)
    ensures DateBefore(a, b) || a == b || DateBefore(b, a)
    ensures !(DateBefore(a, b) && DateBefore(b, a))
  {
  }

  /** The intended writes for a start that parsed, spelled out. */
  lemma IntendedWritesOfStart(data: map<string, string>, start: Instant)
    requires ParsedStart(data, Epoch) == Some(start)
    ensures var e := EndCandidate(data, Epoch);
      IntendedWrites(data) ==
      [("dtstart", Format(YmdHis, start))]
      + (if e.Some? && DateBefore(e.value.date, start.date) then [("event_dtend_date", Format(Ymd, start))] else [])
      + [("dtend", Format(YmdHis, EndTimeOfDay(data, IntendedEndBase(data, start))))]
  {
  }

  /**
   * Read date to date, the end date is never before the start date, a kept end keeps the
   * start's time of day, and so the end never falls before the start unless an explicit end
   * time pulls it back.
   */
  lemma IntendedEndNotBeforeStart(data: map<string, string>, start: Instant)
    ensures !DateBefore(IntendedEndBase(data, start).date, start.date)
    ensures IntendedEndBase(data, start).time == start.time
    ensures "full_day" in data || !Given(data, "dtend_time") ==>
      !Before(EndTimeOfDay(data, IntendedEndBase(data, start)), start)
  {
    match EndCandidate(data, Epoch)
    case Some(e) => DateBeforeTotal(e.date, start.date);
    case None =>
  }

  /** The correction is written exactly when the end date is before the start date. */
  lemma IntendedCorrection(data: map<string, string>, start: Instant)
    requires ParsedStart(data, Epoch) == Some(start)
    ensures var ws := IntendedWrites(data);
            var e := EndCandidate(data, Epoch);
            (|ws| == 3 <==> e.Some? && DateBefore(e.value.date, start.date)) &&
            ws[0] == ("dtstart", Format(YmdHis, start)) &&
            StoredDate(ws[|ws| - 1].1) == Some(EndTimeOfDay(data, IntendedEndBase(data, start)))
  {
    IntendedWritesOfStart(data, start);
    StoredDateOfFormatted(EndTimeOfDay(data, IntendedEndBase(data, start)));
  }

  /** The intended writes agree with the source's whenever the clock reads the start's time. */
  lemma IntendedMatchesAtStartTime(data: map<string, string>, now: Instant, start: Instant)
    requires ParsedStart(data, now) == Some(start) && now.time == start.time
    ensures IntendedWrites(data) == Writes(data, now)
  {
    YmdHisIgnoresClock(StartText(data), now, Epoch);
    if Given(data, "dtend_date") {
      YmdTakesClockTime(data["dtend_date"], Epoch, now);
      match EndCandidate(data, Epoch)
      case Some(e) => DateBeforeTotal(e.date, start.date);
      case None =>
        YmdTakesClockTime(data["dtend_date"], now, Epoch);
    }
  }
}
