/**
 * Calendar values and PHP's `DateTime::createFromFormat` / `DateTime::format` for the
 * numeric formats the plugin uses ('Y-m-d H:i:s', 'Y-m-d', 'H:i' and the 'c' layout).
 *
 * Parsing follows PHP's format-directed scanner: 'Y' reads one to four digits, 'm', 'd' and
 * 'H' one or two, 'i' and 's' exactly two; a separator must match itself; a space in the
 * format skips any run of spaces and tabs; text left over after the format fails. Fields
 * the format does not mention are filled in afterwards: when some time-of-day field was
 * read, the other time-of-day fields become 0, and everything still missing comes from the
 * clock. Values out of range are refused here (PHP would roll them over).
 */
module DateTimes {
  import opened Wrappers

  datatype Date = Date(year: int, month: int, day: int)
  datatype Time = Time(hour: int, minute: int, second: int)
  datatype DateTime = DateTime(date: Date, time: Time)

  predicate IsLeapYear(y: int) {
    y % 4 == 0 && (y % 100 != 0 || y % 400 == 0)
  }

  function DaysInMonth(year: int, month: int): int {
    if month == 2 then (if IsLeapYear(year) then 29 else 28)
    else if month == 4 || month == 6 || month == 9 || month == 11 then 30
    else 31
  }

  predicate ValidDate(d: Date) {
    0 <= d.year <= 9999 && 1 <= d.month <= 12 && 1 <= d.day <= DaysInMonth(d.year, d.month)
  }

  predicate ValidTime(t: Time) {
    0 <= t.hour <= 23 && 0 <= t.minute <= 59 && 0 <= t.second <= 59
  }

  predicate Valid(dt: DateTime) {
    ValidDate(dt.date) && ValidTime(dt.time)
  }

  /** A well-formed local date-time (one time zone throughout). */
  type Instant = dt: DateTime | Valid(dt) witness DateTime(Date(1970, 1, 1), Time(0, 0, 0))

  // PHP compares two DateTime objects by the instant they denote; within one time zone
  // that is the lexicographic order on (year, month, day, hour, minute, second).

  predicate DateBefore(a: Date, b: Date) {
    || a.year < b.year
    || (a.year == b.year && a.month < b.month)
    || (a.year == b.year && a.month == b.month && a.day < b.day)
  }

  predicate TimeBefore(a: Time, b: Time) {
    || a.hour < b.hour
    || (a.hour == b.hour && a.minute < b.minute)
    || (a.hour == b.hour && a.minute == b.minute && a.second < b.second)
  }

  /** `$a < $b` for two DateTime objects. */
  predicate Before(a: DateTime, b: DateTime) {
    DateBefore(a.date, b.date) || (a.date == b.date && TimeBefore(a.time, b.time))
  }

  lemma BeforeIsStrictTotalOrder(a: DateTime, b: DateTime, c: DateTime)
    ensures !Before(a, a)
    ensures Before(a, b) && Before(b, c) ==> Before(a, c)
    ensures a == b || Before(a, b) || Before(b, a)
    ensures !(Before(a, b) && Before(b, a))
  {
  }

  // ---------------------------------------------------------------- digits

  predicate IsDigit(c: char) {
    '0' <= c <= '9'
  }

  predicate AllDigits(s: string) {
    forall i :: 0 <= i < |s| ==> IsDigit(s[i])
  }

  function DigitChar(n: int): (c: char)
    requires 0 <= n <= 9
    ensures IsDigit(c) && c as int - '0' as int == n
  {
    ('0' as int + n) as char
  }

  /** Two digits with a leading zero ('m', 'd', 'H', 'i', 's' in `format`). */
  function Pad2(n: int): (s: string)
    requires 0 <= n <= 99
    ensures |s| == 2 && AllDigits(s)
  {
    [DigitChar(n / 10), DigitChar(n % 10)]
  }

  /** Four digits with leading zeros ('Y' in `format`). */
  function Pad4(n: int): (s: string)
    requires 0 <= n <= 9999
    ensures |s| == 4 && AllDigits(s)
  {
    Pad2(n / 100) + Pad2(n % 100)
  }

  /** The number a run of decimal digits denotes. */
  function DecimalValue(ds: string): nat
    requires AllDigits(ds)
  {
    if ds == [] then 0
    else DecimalValue(ds[..|ds| - 1]) * 10 + (ds[|ds| - 1] as int - '0' as int)
  }

  /** How many digits the scanner takes: as many as there are, up to `max`. */
  function DigitRun(s: string, max: nat): (n: nat)
    ensures n <= max && n <= |s| && AllDigits(s[..n])
    ensures n < max && n < |s| ==> !IsDigit(s[n])
  {
    if max == 0 || s == [] || !IsDigit(s[0]) then 0
    else
      var n := 1 + DigitRun(s[1..], max - 1);
      assert forall i :: 1 <= i < n ==> s[..n][i] == s[1..][..n - 1][i - 1];
      n
  }

  lemma DecimalPad2(n: int)
    requires 0 <= n <= 99
    ensures DecimalValue(Pad2(n)) == n
  {
    var s := Pad2(n);
    assert s[..|s| - 1] == [DigitChar(n / 10)];
    assert [DigitChar(n / 10)][..0] == [];
    assert DecimalValue([DigitChar(n / 10)]) == n / 10;
    assert DecimalValue(s) == (n / 10) * 10 + n % 10;
  }

  lemma DecimalPad4(n: int)
    requires 0 <= n <= 9999
    ensures DecimalValue(Pad4(n)) == n
  {
    var hi, lo := n / 100, n % 100;
    var s := Pad4(n);
    var s3 := Pad2(hi) + [DigitChar(lo / 10)];
    assert s[..3] == s3;
    assert s3[..2] == Pad2(hi);
    DecimalPad2(hi);
    assert DecimalValue(s3) == hi * 10 + lo / 10;
    assert DecimalValue(s) == (hi * 10 + lo / 10) * 10 + lo % 10;
  }

  lemma {:induction false} DigitRunOfDigits(ds: string, rest: string)
    requires AllDigits(ds)
    ensures DigitRun(ds + rest, |ds|) == |ds|
    decreases |ds|
  {
    if ds != [] {
      assert (ds + rest)[1..] == ds[1..] + rest;
      DigitRunOfDigits(ds[1..], rest);
    }
  }

  /** Two digits are the zero-padded form of the number they denote. */
  lemma PadOfDecimal2(ds: string)
    requires |ds| == 2 && AllDigits(ds)
    ensures DecimalValue(ds) <= 99 && Pad2(DecimalValue(ds)) == ds
  {
    var hi, lo := ds[0] as int - '0' as int, ds[1] as int - '0' as int;
    assert ds[..1] == [ds[0]] && [ds[0]][..0] == [];
    assert DecimalValue(ds[..1]) == hi;
    assert DecimalValue(ds) == hi * 10 + lo;
    assert (hi * 10 + lo) / 10 == hi && (hi * 10 + lo) % 10 == lo;
  }

  lemma Pad2Injective(a: int, b: int)
    requires 0 <= a <= 99 && 0 <= b <= 99 && Pad2(a) == Pad2(b)
    ensures a == b
  {
    DecimalPad2(a);
    DecimalPad2(b);
  }

  lemma Pad4Injective(a: int, b: int)
    requires 0 <= a <= 9999 && 0 <= b <= 9999 && Pad4(a) == Pad4(b)
    ensures a == b
  {
    DecimalPad4(a);
    DecimalPad4(b);
  }

  // ---------------------------------------------------------------- formats

  /** Format characters: 'Y', 'm', 'd', 'H', 'i', 's', a separator, and ' '. */
  datatype Directive = Year | Month | Day | Hour | Minute | Second | Lit(c: char) | Blanks

  predicate IsField(d: Directive) {
    !d.Lit? && !d.Blanks?
  }

  /** The most digits the scanner reads for a field, and the width `format` writes. */
  function Width(d: Directive): nat {
    match d
    case Year => 4
    case Lit(_) => 0
    case Blanks => 0
    case _ => 2
  }

  /** 'i' and 's' demand exactly two digits; the others accept fewer. */
  predicate NeedsFullWidth(d: Directive) {
    d == Minute || d == Second
  }

  /** 'Y-m-d H:i:s', the MySQL DATETIME layout the plugin stores. */
  const YmdHis: seq<Directive> := Ymd + [Blanks] + Hi + [Lit(':'), Second]
  /** 'Y-m-d'. */
  const Ymd: seq<Directive> := [Year, Lit('-'), Month, Lit('-'), Day]
  /** 'H:i'. */
  const Hi: seq<Directive> := [Hour, Lit(':'), Minute]
  /** 'c' without its trailing time-zone offset: 'Y-m-d\TH:i:s'. */
  const IsoLocal: seq<Directive> := [Year, Lit('-'), Month, Lit('-'), Day, Lit('T'), Hour, Lit(':'), Minute, Lit(':'), Second]

  /** The fields read so far. */
  datatype Partial = Partial(year: Option<int>, month: Option<int>, day: Option<int>,
                             hour: Option<int>, minute: Option<int>, second: Option<int>)

  const Unset := Partial(None, None, None, None, None, None)

  function Assign(p: Partial, d: Directive, v: int): Partial {
    match d
    case Year => p.(year := Some(v))
    case Month => p.(month := Some(v))
    case Day => p.(day := Some(v))
    case Hour => p.(hour := Some(v))
    case Minute => p.(minute := Some(v))
    case Second => p.(second := Some(v))
    case _ => p
  }

  function SkipBlanks(s: string): (r: string)
    ensures |r| <= |s|
  {
    if s != [] && (s[0] == ' ' || s[0] == '\t') then SkipBlanks(s[1..]) else s
  }

  /** The scanning pass of `createFromFormat`: None on a mismatch or on trailing data. */
  function Scan(fmt: seq<Directive>, s: string, p: Partial): Option<Partial>
    decreases |fmt|
  {
    if fmt == [] then (if s == [] then Some(p) else None)
    else match fmt[0]
      case Lit(c) => if s != [] && s[0] == c then Scan(fmt[1..], s[1..], p) else None
      case Blanks => Scan(fmt[1..], SkipBlanks(s), p)
      case _ =>
        var n := DigitRun(s, Width(fmt[0]));
        if n == 0 || (NeedsFullWidth(fmt[0]) && n != Width(fmt[0])) then None
        else Scan(fmt[1..], s[n..], Assign(p, fmt[0], DecimalValue(s[..n])))
  }

  /** Fill the fields the format left unset, then refuse an impossible date or time. */
  function Complete(p: Partial, now: Instant): Option<Instant> {
    var timeGiven := p.hour.Some? || p.minute.Some? || p.second.Some?;
    var date := Date(p.year.GetOr(now.date.year), p.month.GetOr(now.date.month), p.day.GetOr(now.date.day));
    var time := if timeGiven then Time(p.hour.GetOr(0), p.minute.GetOr(0), p.second.GetOr(0)) else now.time;
    var dt := DateTime(date, time);
    if Valid(dt) then Some(dt) else None
  }

  /** `DateTime::createFromFormat($fmt, $s)` read at clock time `now`; None stands for `false`. */
  function CreateFromFormat(fmt: seq<Directive>, s: string, now: Instant): (r: Option<Instant>)
    ensures r.Some? && Year !in fmt ==> r.value.date.year == now.date.year
    ensures r.Some? && Month !in fmt ==> r.value.date.month == now.date.month
    ensures r.Some? && Day !in fmt ==> r.value.date.day == now.date.day
    ensures r.Some? && Hour !in fmt && Minute !in fmt && Second !in fmt ==> r.value.time == now.time
  {
    match Scan(fmt, s, Unset)
    case None => None
    case Some(p) =>
      ScanLeavesOthersUnset(fmt, s, Unset, p);
      Complete(p, now)
  }

  function Render(d: Directive, dt: Instant): (r: string)
    ensures IsField(d) ==> |r| == Width(d) && AllDigits(r)
  {
    match d
    case Year => Pad4(dt.date.year)
    case Month => Pad2(dt.date.month)
    case Day => Pad2(dt.date.day)
    case Hour => Pad2(dt.time.hour)
    case Minute => Pad2(dt.time.minute)
    case Second => Pad2(dt.time.second)
    case Lit(c) => [c]
    case Blanks => " "
  }

  /** `DateTime::format($fmt)`. */
  function Format(fmt: seq<Directive>, dt: Instant): string
    decreases |fmt|
  {
    if fmt == [] then "" else Render(fmt[0], dt) + Format(fmt[1..], dt)
  }

  function FieldOf(d: Directive, dt: DateTime): int {
    match d
    case Year => dt.date.year
    case Month => dt.date.month
    case Day => dt.date.day
    case Hour => dt.time.hour
    case Minute => dt.time.minute
    case Second => dt.time.second
    case _ => 0
  }

  /** What a scan of `format(fmt)` ought to record: each field of `fmt` with its value in `dt`. */
  function AssignAll(p: Partial, fmt: seq<Directive>, dt: DateTime): Partial
    decreases |fmt|
  {
    if fmt == [] then p
    else AssignAll(if IsField(fmt[0]) then Assign(p, fmt[0], FieldOf(fmt[0], dt)) else p, fmt[1..], dt)
  }

  /** Each field `fmt` names gets its value in `dt`; the others keep theirs. */
  lemma {:induction false} AssignAllFields(p: Partial, fmt: seq<Directive>, dt: DateTime)
    ensures AssignAll(p, fmt, dt).year == if Year in fmt then Some(dt.date.year) else p.year
    ensures AssignAll(p, fmt, dt).month == if Month in fmt then Some(dt.date.month) else p.month
    ensures AssignAll(p, fmt, dt).day == if Day in fmt then Some(dt.date.day) else p.day
    ensures AssignAll(p, fmt, dt).hour == if Hour in fmt then Some(dt.time.hour) else p.hour
    ensures AssignAll(p, fmt, dt).minute == if Minute in fmt then Some(dt.time.minute) else p.minute
    ensures AssignAll(p, fmt, dt).second == if Second in fmt then Some(dt.time.second) else p.second
    decreases |fmt|
  {
    if fmt != [] {
      assert fmt == [fmt[0]] + fmt[1..];
      AssignAllFields(if IsField(fmt[0]) then Assign(p, fmt[0], FieldOf(fmt[0], dt)) else p, fmt[1..], dt);
    }
  }

  /** A space in a format is followed by a field (or ends it), so skipping spaces stops at digits. */
  predicate BlanksBeforeFields(fmt: seq<Directive>) {
    forall i :: 0 <= i < |fmt| - 1 && fmt[i] == Blanks ==> IsField(fmt[i + 1])
  }

  lemma {:induction false} ScanFormatted(fmt: seq<Directive>, dt: Instant, p: Partial)
    requires BlanksBeforeFields(fmt)
    ensures Scan(fmt, Format(fmt, dt), p) == Some(AssignAll(p, fmt, dt))
    decreases |fmt|
  {
    if fmt != [] {
      var d, rest := fmt[0], Format(fmt[1..], dt);
      var s := Format(fmt, dt);
      assert s == Render(d, dt) + rest;
      assert BlanksBeforeFields(fmt[1..]) by {
        forall i | 0 <= i < |fmt[1..]| - 1 && fmt[1..][i] == Blanks ensures IsField(fmt[1..][i + 1]) {
          assert fmt[i + 1] == Blanks;
        }
      }
      match d
      case Lit(c) =>
        assert s[1..] == rest;
        ScanFormatted(fmt[1..], dt, p);
      case Blanks =>
        assert SkipBlanks(s) == rest by {
          assert s[1..] == rest;
          if |fmt| > 1 {
            assert IsField(fmt[1]);
            assert rest == Render(fmt[1], dt) + Format(fmt[2..], dt);
            assert IsDigit(rest[0]);
          }
        }
        ScanFormatted(fmt[1..], dt, p);
      case _ =>
        var r := Render(d, dt);
        DigitRunOfDigits(r, rest);
        assert s[..Width(d)] == r && s[Width(d)..] == rest;
        assert DecimalValue(r) == FieldOf(d, dt) by {
          match d
          case Year => DecimalPad4(dt.date.year);
          case Month => DecimalPad2(dt.date.month);
          case Day => DecimalPad2(dt.date.day);
          case Hour => DecimalPad2(dt.time.hour);
          case Minute => DecimalPad2(dt.time.minute);
          case Second => DecimalPad2(dt.time.second);
        }
        ScanFormatted(fmt[1..], dt, Assign(p, d, FieldOf(d, dt)));
    }
  }

  /** A successful scan has set every field the format names, and kept those set before. */
  lemma {:induction false} ScanSetsFields(fmt: seq<Directive>, s: string, p: Partial, q: Partial)
    requires Scan(fmt, s, p) == Some(q)
    ensures Year in fmt || p.year.Some? ==> q.year.Some?
    ensures Month in fmt || p.month.Some? ==> q.month.Some?
    ensures Day in fmt || p.day.Some? ==> q.day.Some?
    ensures Hour in fmt || p.hour.Some? ==> q.hour.Some?
    ensures Minute in fmt || p.minute.Some? ==> q.minute.Some?
    ensures Second in fmt || p.second.Some? ==> q.second.Some?
    decreases |fmt|
  {
    if fmt != [] {
      assert fmt == [fmt[0]] + fmt[1..];
      match fmt[0]
      case Lit(c) => ScanSetsFields(fmt[1..], s[1..], p, q);
      case Blanks => ScanSetsFields(fmt[1..], SkipBlanks(s), p, q);
      case _ =>
        var n := DigitRun(s, Width(fmt[0]));
        ScanSetsFields(fmt[1..], s[n..], Assign(p, fmt[0], DecimalValue(s[..n])), q);
    }
  }

  // ---------------------------------------------------------------- the plugin's formats

  lemma YmdHisSpacing()
    ensures BlanksBeforeFields(YmdHis)
  {
    forall i | 0 <= i < |YmdHis| - 1 && YmdHis[i] == Blanks ensures IsField(YmdHis[i + 1]) {
      assert i == 5;
    }
  }

  lemma AssignAllYmdHis(dt: DateTime)
    ensures AssignAll(Unset, YmdHis, dt) == Partial(Some(dt.date.year), Some(dt.date.month), Some(dt.date.day),
                                                     Some(dt.time.hour), Some(dt.time.minute), Some(dt.time.second))
  {
    AssignAllFields(Unset, YmdHis, dt);
    assert YmdHis[0] == Year && YmdHis[2] == Month && YmdHis[4] == Day;
    assert YmdHis[6] == Hour && YmdHis[8] == Minute && YmdHis[10] == Second;
  }

  /** Reading back what 'Y-m-d H:i:s' wrote gives the same instant. */
  lemma ParseFormattedYmdHis(dt: Instant, now: Instant)
    ensures CreateFromFormat(YmdHis, Format(YmdHis, dt), now) == Some(dt)
  {
    YmdHisSpacing();
    ScanFormatted(YmdHis, dt, Unset);
    AssignAllYmdHis(dt);
    CompleteAllSet(AssignAll(Unset, YmdHis, dt), dt, now);
  }

  lemma CompleteAllSet(q: Partial, dt: Instant, now: Instant)
    requires q.year == Some(dt.date.year) && q.month == Some(dt.date.month) && q.day == Some(dt.date.day)
    requires q.hour == Some(dt.time.hour) && q.minute == Some(dt.time.minute) && q.second == Some(dt.time.second)
    ensures Complete(q, now) == Some(dt)
  {
  }

  /** Reading back what 'Y-m-d' wrote gives the same day, at the clock's time of day. */
  lemma ParseFormattedYmd(dt: Instant, now: Instant)
    ensures CreateFromFormat(Ymd, Format(Ymd, dt), now) == Some(DateTime(dt.date, now.time))
  {
    assert BlanksBeforeFields(Ymd) by {
      assert Blanks !in Ymd;
    }
    ScanFormatted(Ymd, dt, Unset);
    AssignAllYmd(dt);
    CompleteDateSet(AssignAll(Unset, Ymd, dt), dt, now);
  }

  lemma AssignAllYmd(dt: DateTime)
    ensures AssignAll(Unset, Ymd, dt) == Partial(Some(dt.date.year), Some(dt.date.month), Some(dt.date.day), None, None, None)
  {
    AssignAllFields(Unset, Ymd, dt);
    assert Ymd[0] == Year && Ymd[2] == Month && Ymd[4] == Day;
    assert Hour !in Ymd && Minute !in Ymd && Second !in Ymd;
  }

  lemma CompleteDateSet(q: Partial, dt: Instant, now: Instant)
    requires q.year == Some(dt.date.year) && q.month == Some(dt.date.month) && q.day == Some(dt.date.day)
    requires q.hour.None? && q.minute.None? && q.second.None?
    ensures Complete(q, now) == Some(DateTime(dt.date, now.time))
  {
  }

  /** Reading back what 'H:i' wrote gives that hour and minute, second 0, on the clock's day. */
  lemma ParseFormattedHi(dt: Instant, now: Instant)
    ensures CreateFromFormat(Hi, Format(Hi, dt), now) == Some(DateTime(now.date, Time(dt.time.hour, dt.time.minute, 0)))
  {
    ScanFormatted(Hi, dt, Unset);
    AssignAllFields(Unset, Hi, dt);
  }

  /** 'Y-m-d H:i:s' names every field, so the clock never shows through. */
  lemma YmdHisIgnoresClock(s: string, now1: Instant, now2: Instant)
    ensures CreateFromFormat(YmdHis, s, now1) == CreateFromFormat(YmdHis, s, now2)
  {
    match Scan(YmdHis, s, Unset)
    case None =>
    case Some(q) => ScanSetsFields(YmdHis, s, Unset, q);
  }

  /** 'Y-m-d' takes the day from the text and the time of day from the clock. */
  lemma YmdTakesClockTime(s: string, now1: Instant, now2: Instant)
    ensures CreateFromFormat(Ymd, s, now1).Some? ==>
      CreateFromFormat(Ymd, s, now1).value.time == now1.time &&
      CreateFromFormat(Ymd, s, now2) == Some(DateTime(CreateFromFormat(Ymd, s, now1).value.date, now2.time))
  {
    match Scan(Ymd, s, Unset)
    case None =>
    case Some(q) =>
      ScanSetsFields(Ymd, s, Unset, q);
      assert q.hour.None? && q.minute.None? && q.second.None? by {
        ScanLeavesOthersUnset(Ymd, s, Unset, q);
      }
  }

  /** 'H:i' takes hour and minute from the text, second 0, and the day from the clock. */
  lemma HiTakesClockDate(s: string, now1: Instant, now2: Instant)
    ensures CreateFromFormat(Hi, s, now1).Some? ==>
      CreateFromFormat(Hi, s, now1).value.date == now1.date &&
      CreateFromFormat(Hi, s, now1).value.time.second == 0 &&
      CreateFromFormat(Hi, s, now2) == Some(DateTime(now2.date, CreateFromFormat(Hi, s, now1).value.time))
  {
    match Scan(Hi, s, Unset)
    case None =>
    case Some(q) =>
      ScanSetsFields(Hi, s, Unset, q);
      ScanLeavesOthersUnset(Hi, s, Unset, q);
  }

  /** A scan sets no field that the format does not name. */
  lemma {:induction false} ScanLeavesOthersUnset(fmt: seq<Directive>, s: string, p: Partial, q: Partial)
    requires Scan(fmt, s, p) == Some(q)
    ensures Year !in fmt ==> q.year == p.year
    ensures Month !in fmt ==> q.month == p.month
    ensures Day !in fmt ==> q.day == p.day
    ensures Hour !in fmt ==> q.hour == p.hour
    ensures Minute !in fmt ==> q.minute == p.minute
    ensures Second !in fmt ==> q.second == p.second
    decreases |fmt|
  {
    if fmt != [] {
      assert fmt == [fmt[0]] + fmt[1..];
      match fmt[0]
      case Lit(c) => ScanLeavesOthersUnset(fmt[1..], s[1..], p, q);
      case Blanks => ScanLeavesOthersUnset(fmt[1..], SkipBlanks(s), p, q);
      case _ =>
        var n := DigitRun(s, Width(fmt[0]));
        ScanLeavesOthersUnset(fmt[1..], s[n..], Assign(p, fmt[0], DecimalValue(s[..n])), q);
    }
  }

  /** 'Y-m-d' output determines the day it was written from. */
  lemma YmdInjective(a: Instant, b: Instant)
    requires Format(Ymd, a) == Format(Ymd, b)
    ensures a.date == b.date
  {
    ParseFormattedYmd(a, a);
    ParseFormattedYmd(b, a);
  }

  /** 'H:i' output determines the hour and minute it was written from. */
  lemma HiInjective(a: Instant, b: Instant)
    requires Format(Hi, a) == Format(Hi, b)
    ensures a.time.hour == b.time.hour && a.time.minute == b.time.minute
  {
    ParseFormattedHi(a, a);
    ParseFormattedHi(b, a);
  }

  /** 'Y-m-d H:i:s' output determines the instant it was written from. */
  lemma YmdHisInjective(a: Instant, b: Instant)
    requires Format(YmdHis, a) == Format(YmdHis, b)
    ensures a == b
  {
    ParseFormattedYmdHis(a, a);
    ParseFormattedYmdHis(b, a);
  }

  // ---------------------------------------------------------------- the shapes of the formats

  /** The clock reading the stored-value parser is given; 'Y-m-d H:i:s' never consults it. */
  const Epoch: Instant := DateTime(Date(1970, 1, 1), Time(0, 0, 0))

  lemma FormatYmdShape(dt: Instant)
    ensures Format(Ymd, dt) == Pad4(dt.date.year) + "-" + Pad2(dt.date.month) + "-" + Pad2(dt.date.day)
  {
    assert Ymd[1..][1..][1..][1..][1..] == [];
  }

  lemma FormatHiShape(dt: Instant)
    ensures Format(Hi, dt) == Pad2(dt.time.hour) + ":" + Pad2(dt.time.minute)
  {
    assert Hi[1..][1..][1..] == [];
  }

  lemma {:induction false} FormatAppend(f: seq<Directive>, g: seq<Directive>, dt: Instant)
    ensures Format(f + g, dt) == Format(f, dt) + Format(g, dt)
    decreases |f|
  {
    if f == [] {
      assert f + g == g;
    } else {
      assert (f + g)[1..] == f[1..] + g;
      FormatAppend(f[1..], g, dt);
    }
  }

  /** 'Y-m-d H:i:s' is 'Y-m-d', a space, 'H:i', a colon and the two-digit second. */
  lemma FormatYmdHisShape(dt: Instant)
    ensures Format(YmdHis, dt) == Format(Ymd, dt) + " " + Format(Hi, dt) + ":" + Pad2(dt.time.second)
  {
    var tail: seq<Directive> := [Lit(':'), Second];
    var head := Ymd + [Blanks] + Hi;
    assert Format(YmdHis, dt) == Format(head, dt) + Format(tail, dt) by {
      assert YmdHis == head + tail;
      FormatAppend(head, tail, dt);
    }
    assert Format(head, dt) == Format(Ymd + [Blanks], dt) + Format(Hi, dt) by {
      FormatAppend(Ymd + [Blanks], Hi, dt);
    }
    assert Format(Ymd + [Blanks], dt) == Format(Ymd, dt) + " " by {
      FormatAppend(Ymd, [Blanks], dt);
      assert Format([Blanks], dt) == " ";
    }
    assert Format(tail, dt) == ":" + Pad2(dt.time.second) by {
      assert tail[1..][1..] == [];
    }
  }

  /** A rendered field reads back as its value. */
  lemma RenderedFieldValue(d: Directive, dt: Instant)
    requires IsField(d)
    ensures DecimalValue(Render(d, dt)) == FieldOf(d, dt)
  {
    match d
    case Year => DecimalPad4(dt.date.year);
    case Month => DecimalPad2(dt.date.month);
    case Day => DecimalPad2(dt.date.day);
    case Hour => DecimalPad2(dt.time.hour);
    case Minute => DecimalPad2(dt.time.minute);
    case Second => DecimalPad2(dt.time.second);
  }

  /** Scanning a formatted prefix of a format without spaces consumes exactly what it wrote. */
  lemma {:induction false} ScanThrough(fmt: seq<Directive>, g: seq<Directive>, dt: Instant, p: Partial, rest: string)
    requires Blanks !in fmt
    ensures Scan(fmt + g, Format(fmt, dt) + rest, p) == Scan(g, rest, AssignAll(p, fmt, dt))
    decreases |fmt|
  {
    if fmt == [] {
      assert fmt + g == g;
      assert Format(fmt, dt) + rest == rest;
    } else {
      var d := fmt[0];
      var tail := Format(fmt[1..], dt) + rest;
      var s := Format(fmt, dt) + rest;
      assert s == Render(d, dt) + tail;
      assert (fmt + g)[0] == d && (fmt + g)[1..] == fmt[1..] + g;
      assert Blanks !in fmt[1..] by {
        assert forall x :: x in fmt[1..] ==> x in fmt;
      }
      assert d != Blanks by {
        assert d in fmt;
      }
      if d.Lit? {
        assert s[0] == d.c && s[1..] == tail;
        ScanThrough(fmt[1..], g, dt, p, rest);
      } else {
        var r := Render(d, dt);
        DigitRunOfDigits(r, tail);
        assert s[..Width(d)] == r && s[Width(d)..] == tail;
        RenderedFieldValue(d, dt);
        ScanThrough(fmt[1..], g, dt, Assign(p, d, FieldOf(d, dt)), rest);
      }
    }
  }

  /** A day followed by an empty time, "Y-m-d :00", is no 'Y-m-d H:i:s' text. */
  lemma MissingTimeNeverParses(d: Instant, now: Instant)
    ensures CreateFromFormat(YmdHis, Format(Ymd, d) + " :00", now) == None
  {
    var g := [Blanks] + Hi + [Lit(':'), Second];
    assert YmdHis == Ymd + g;
    assert Blanks !in Ymd;
    ScanThrough(Ymd, g, d, Unset, " :00");
    NoHourAfterBlank(AssignAll(Unset, Ymd, d));
  }

  lemma NoHourAfterBlank(q: Partial)
    ensures Scan([Blanks] + Hi + [Lit(':'), Second], " :00", q) == None
  {
    var g := [Blanks] + Hi + [Lit(':'), Second];
    assert g[0] == Blanks && g[1..][0] == Hour;
    assert SkipBlanks(" :00") == ":00" by {
      assert " :00"[1..] == ":00";
    }
    assert DigitRun(":00", 2) == 0;
  }

  /** No format that starts with a field accepts the empty string. */
  lemma EmptyNeverParses(fmt: seq<Directive>, now: Instant)
    requires fmt != [] && IsField(fmt[0])
    ensures CreateFromFormat(fmt, "", now) == None
  {
  }
}
