/**
 * The event as themes and exporters read it (class Event_Post_Object): the two schema.org
 * enumerations and their defaults, the computed properties reached through `__get`, the date
 * and time ranges shown on an event page, and the "add to Google Calendar" link together
 * with the function-static memo that caches it.
 *
 * Stored dates are read the way `mysql2date` reads them: an empty value gives `false`, and
 * anything else is parsed as 'Y-m-d H:i:s'. Locale-dependent month names and the calendar
 * library are parameters.
 */
module EventPostObject {
  import opened Wrappers
  import opened PhpValues
  import opened DateTimes

  // ---------------------------------------------------------------- enumerations

  const DefaultAttendance := "OfflineEventAttendanceMode"
  const DefaultStatus := "EventScheduled"
  const OnlineMode := "OnlineEventAttendanceMode"
  const MixedMode := "MixedEventAttendanceMode"

  /** An option list: keys in order, each with its (Spanish) label. */
  type Options = seq<(string, string)>

  /** `get_attendance_modes()`, after https://schema.org/EventAttendanceModeEnumeration. */
  const AttendanceModes: Options := [
    ("OfflineEventAttendanceMode", "Presencial"),
    ("OnlineEventAttendanceMode", "Online"),
    ("MixedEventAttendanceMode", "Mixto o semipresencial")
  ]

  /** `get_stati()`, after https://schema.org/EventStatusType. */
  const Stati: Options := [
    ("EventScheduled", "Sin modificaciones de calendarización"),
    ("EventMovedOnline", "Cambia de presencial a online"),
    ("EventRescheduled", "Recalendarizado"),
    ("EventCancelled", "Cancelado"),
    ("EventPostponed", "Postpuesto")
  ]

  function Keys(options: Options): (ks: seq<string>)
    ensures |ks| == |options| && forall i :: 0 <= i < |options| ==> ks[i] == options[i].0
  {
    seq(|options|, i requires 0 <= i < |options| => options[i].0)
  }

  predicate KeysDistinct(options: Options) {
    forall i, j :: 0 <= i < j < |options| ==> options[i].0 != options[j].0
  }

  /** Three attendance modes and five statuses, each list without repeats, defaults among them. */
  lemma EnumerationFacts()
    ensures |AttendanceModes| == 3 && KeysDistinct(AttendanceModes)
    ensures |Stati| == 5 && KeysDistinct(Stati)
    ensures DefaultAttendance in Keys(AttendanceModes) && OnlineMode in Keys(AttendanceModes)
    ensures MixedMode in Keys(AttendanceModes)
    ensures DefaultStatus in Keys(Stati)
    ensures Keys(AttendanceModes) == [DefaultAttendance, OnlineMode, MixedMode]
  {
    var modes, stati := Keys(AttendanceModes), Keys(Stati);
    assert modes[0] == DefaultAttendance && modes[1] == OnlineMode && modes[2] == MixedMode;
    assert stati[0] == DefaultStatus;
    assert KeysDistinct(Stati) by {
      forall i, j | 0 <= i < j < |Stati| ensures Stati[i].0 != Stati[j].0 {
        assert Stati[i].0[5] != Stati[j].0[5] || |Stati[i].0| != |Stati[j].0|;
      }
    }
  }

  /** `array_key_exists($value, $options) ? $value : $default`. */
  function Resolve(options: Options, value: string, default: string): (r: string)
    ensures default in Keys(options) ==> r in Keys(options)
    ensures r == value <==> value in Keys(options) || value == default
    ensures r != value ==> r == default
  {
    if value in Keys(options) then value else default
  }

  /** Resolving twice against the same list is resolving once. */
  lemma ResolveIdempotent(options: Options, value: string, default: string)
    requires default in Keys(options)
    ensures Resolve(options, Resolve(options, value, default), default) == Resolve(options, value, default)
  {
  }

  // ---------------------------------------------------------------- the event

  datatype AddressComponent = AddressComponent(longName: string, types: seq<string>)

  /** The `event_geo` meta: the picked address and its components (coordinates left out). */
  datatype Geo = Geo(address: string, components: seq<AddressComponent>)

  /** The post and the meta values the plugin reads from it; absent meta reads as "". */
  datatype EventPost = EventPost(
    id: int,
    title: string,
    content: string,
    permalink: string,
    dtstart: string,
    dtend: string,
    fullDay: string,
    eventType: string,
    eventStatus: string,
    location: string,
    locationUrl: string,
    virtualLocationName: string,
    geo: Option<Geo>,
    dtstartTimeHour: string,
    dtstartTimeMinutes: string)

  /** The site locale: full and abbreviated month names, for months 1 to 12. */
  datatype Locale = Locale(monthName: int -> string, monthAbbrev: int -> string)

  predicate MonthNamesDistinct(locale: Locale) {
    forall m1, m2 :: 1 <= m1 <= 12 && 1 <= m2 <= 12 && m1 != m2 ==> locale.monthName(m1) != locale.monthName(m2)
  }

  /** How `mysql2date` reads a stored date: None stands for its `false`. */
  function StoredDate(s: string): (r: Option<Instant>)
    ensures StringIsEmpty(s) ==> r == None
  {
    if StringIsEmpty(s) then None else CreateFromFormat(YmdHis, s, Epoch)
  }

  /** Whatever the normaliser stores reads back as the instant it was written from. */
  lemma StoredDateOfFormatted(dt: Instant)
    ensures StoredDate(Format(YmdHis, dt)) == Some(dt)
  {
    ParseFormattedYmdHis(dt, Epoch);
    FormatYmdHisShape(dt);
  }

  /** A `string` return type turns `false` into "". */
  function Text(r: Option<string>): (s: string)
    ensures r.Some? ==> s == r.value
    ensures r.None? ==> s == ""
  {
    r.GetOr("")
  }

  /** 'j': the day of the month without a leading zero. */
  function DayOfMonth(day: int): (s: string)
    requires 1 <= day <= 31
    ensures 1 <= |s| <= 2 && AllDigits(s)
    ensures |s| == 1 <==> day < 10
  {
    if day < 10 then [DigitChar(day)] else Pad2(day)
  }

  lemma DayOfMonthInjective(a: int, b: int)
    requires 1 <= a <= 31 && 1 <= b <= 31 && DayOfMonth(a) == DayOfMonth(b)
    ensures a == b
  {
    if a >= 10 {
      Pad2Injective(a, b);
    }
  }

  /** 'j \d\e F Y', the long date of the event page. */
  function LongDate(dt: Instant, locale: Locale): string {
    DayOfMonth(dt.date.day) + " de " + locale.monthName(dt.date.month) + " " + Pad4(dt.date.year)
  }

  /** With distinct month names, the long date determines the day. */
  lemma LongDateInjective(a: Instant, b: Instant, locale: Locale)
    requires MonthNamesDistinct(locale)
    requires LongDate(a, locale) == LongDate(b, locale)
    ensures a.date == b.date
  {
    var da, db := DayOfMonth(a.date.day), DayOfMonth(b.date.day);
    var na, nb := locale.monthName(a.date.month), locale.monthName(b.date.month);
    var ya, yb := Pad4(a.date.year), Pad4(b.date.year);
    var pa, pb := da + " de " + na, db + " de " + nb;
    var s := LongDate(a, locale);
    assert s == pa + " " + ya && s == pb + " " + yb;
    assert ya == s[|s| - 4..] == yb;
    Pad4Injective(a.date.year, b.date.year);
    assert pa == s[..|s| - 5] == pb;
    assert |da| == |db| by {
      assert pa[|da|] == ' ' && pb[|db|] == ' ';
    }
    assert da == pa[..|da|] == db;
    DayOfMonthInjective(a.date.day, b.date.day);
    assert na == pa[|da| + 4..] == nb;
  }

  // ---------------------------------------------------------------- computed properties

  /** `get_dt_start()`: the 'Y-m-d' part of a well-formed start, or "". */
  function GetDtStart(e: EventPost): (r: string)
    ensures CreateFromFormat(YmdHis, e.dtstart, Epoch).None? <==> r == ""
    ensures CreateFromFormat(YmdHis, e.dtstart, Epoch).Some? ==> r == Format(Ymd, CreateFromFormat(YmdHis, e.dtstart, Epoch).value)
  {
    match CreateFromFormat(YmdHis, e.dtstart, Epoch)
    case Some(dt) => FormatYmdShape(dt); Format(Ymd, dt)
    case None => ""
  }

  /** A start stored by the normaliser gives back its day, which 'Y-m-d' reads back. */
  lemma GetDtStartOfStored(e: EventPost, dt: Instant, now: Instant)
    requires e.dtstart == Format(YmdHis, dt)
    ensures GetDtStart(e) == Format(Ymd, dt)
    ensures CreateFromFormat(Ymd, GetDtStart(e), now) == Some(DateTime(dt.date, now.time))
  {
    ParseFormattedYmdHis(dt, Epoch);
    ParseFormattedYmd(dt, now);
  }

  /** `get_dt_start_month_name()`: the locale's short month name of the start, or "". */
  function GetDtStartMonthName(e: EventPost, locale: Locale): (r: string)
    ensures CreateFromFormat(YmdHis, e.dtstart, Epoch).Some? ==>
      r == locale.monthAbbrev(CreateFromFormat(YmdHis, e.dtstart, Epoch).value.date.month)
    ensures CreateFromFormat(YmdHis, e.dtstart, Epoch).None? ==> r == ""
  {
    match CreateFromFormat(YmdHis, e.dtstart, Epoch)
    case Some(dt) => locale.monthAbbrev(dt.date.month)
    case None => ""
  }

  /** `mysql2date('j', dtstart)`. */
  function DayOf(s: string): Option<string> {
    match StoredDate(s)
    case Some(dt) => Some(DayOfMonth(dt.date.day))
    case None => None
  }

  /** `mysql2date('H:i', s)`. */
  function TimeOf(s: string): Option<string> {
    match StoredDate(s)
    case Some(dt) => Some(Format(Hi, dt))
    case None => None
  }

  /** `mysql2date('j \d\e F Y', s)`. */
  function LongDateOf(s: string, locale: Locale): Option<string> {
    match StoredDate(s)
    case Some(dt) => Some(LongDate(dt, locale))
    case None => None
  }

  /** What `__get` answers: a computed value, or the parent's generic lookup of `key`. */
  datatype Got = Computed(value: string) | Inherited(key: string)

  const ComputedKeys: set<string> := {"dtstart", "dtstart_day", "dtstart_month_name",
                                      "dtstart_time_hour", "dtstart_time_minutes", "event_place"}

  /** `__get($key)`. */
  function Get(e: EventPost, key: string, locale: Locale): (r: Got)
    ensures r.Inherited? <==> key !in ComputedKeys
    ensures r.Inherited? ==> r.key == key
  {
    if key == "dtstart" then Computed(GetDtStart(e))
    else if key == "dtstart_day" then Computed(Text(DayOf(e.dtstart)))
    else if key == "dtstart_month_name" then Computed(GetDtStartMonthName(e, locale))
    else if key == "dtstart_time_hour" then Computed(e.dtstartTimeHour)
    else if key == "dtstart_time_minutes" then Computed(e.dtstartTimeMinutes)
    else if key == "event_place" then Computed(e.location)
    else Inherited(key)
  }

  /** The property `dtstart` is the day only; the stored meta has the full timestamp. */
  lemma GetDtStartProperty(e: EventPost, dt: Instant, locale: Locale)
    requires e.dtstart == Format(YmdHis, dt)
    ensures Get(e, "dtstart", locale) == Computed(Format(Ymd, dt))
    ensures Get(e, "dtstart_month_name", locale) == Computed(locale.monthAbbrev(dt.date.month))
    ensures Get(e, "event_place", locale) == Computed(e.location)
  {
    ParseFormattedYmdHis(dt, Epoch);
  }

  // ---------------------------------------------------------------- date and time ranges

  /** `get_date_range()`: one long date, or the two joined by " al ". */
  function GetDateRange(e: EventPost, locale: Locale): (r: string)
    ensures Text(LongDateOf(e.dtstart, locale)) <= r
    ensures e.dtend == e.dtstart ==> r == Text(LongDateOf(e.dtstart, locale))
  {
    var first := LongDateOf(e.dtstart, locale);
    var last := LongDateOf(e.dtend, locale);
    if first == last then Text(first) else Text(first) + " al " + Text(last)
  }

  /** With both dates readable, the range is one date exactly when both fall on the same day. */
  lemma DateRangeOfDates(e: EventPost, locale: Locale, start: Instant, end: Instant)
    requires MonthNamesDistinct(locale)
    requires StoredDate(e.dtstart) == Some(start) && StoredDate(e.dtend) == Some(end)
    ensures start.date == end.date ==> GetDateRange(e, locale) == LongDate(start, locale)
    ensures start.date != end.date ==> GetDateRange(e, locale) == LongDate(start, locale) + " al " + LongDate(end, locale)
  {
    if start.date != end.date && LongDate(start, locale) == LongDate(end, locale) {
      LongDateInjective(start, end, locale);
    }
  }

  /** An unreadable date shows as the empty text on its side of " al ". */
  lemma DateRangeUnreadable(e: EventPost, locale: Locale)
    ensures StoredDate(e.dtstart).None? && StoredDate(e.dtend).None? ==> GetDateRange(e, locale) == ""
    ensures StoredDate(e.dtstart).Some? && StoredDate(e.dtend).None? ==>
      GetDateRange(e, locale) == LongDate(StoredDate(e.dtstart).value, locale) + " al "
    ensures StoredDate(e.dtstart).None? && StoredDate(e.dtend).Some? ==>
      GetDateRange(e, locale) == " al " + LongDate(StoredDate(e.dtend).value, locale)
  {
  }

  /** `get_time_range()`. */
  function GetTimeRange(e: EventPost): (r: string)
    ensures |r| >= 4 && r[|r| - 4..] == "hrs."
    ensures !StringToBool(e.fullDay) ==> Text(TimeOf(e.dtstart)) <= r
  {
    if StringToBool(e.fullDay) then "Desde las " + Text(TimeOf(e.dtstart)) + "hrs."
    else
      var first := TimeOf(e.dtstart);
      var last := TimeOf(e.dtend);
      if first == last then Text(first) + "hrs." else Text(first) + " - " + Text(last) + "hrs."
  }

  /** A full-day event shows its start time whatever its end. */
  lemma FullDayTimeRange(e: EventPost, otherEnd: string)
    requires StringToBool(e.fullDay)
    ensures GetTimeRange(e) == "Desde las " + Text(TimeOf(e.dtstart)) + "hrs."
    ensures GetTimeRange(e.(dtend := otherEnd)) == GetTimeRange(e)
  {
  }

  /** Otherwise one time when start and end share hour and minute, a span when they do not. */
  lemma TimeRangeOfTimes(e: EventPost, start: Instant, end: Instant)
    requires !StringToBool(e.fullDay)
    requires StoredDate(e.dtstart) == Some(start) && StoredDate(e.dtend) == Some(end)
    ensures start.time.hour == end.time.hour && start.time.minute == end.time.minute ==>
      GetTimeRange(e) == Format(Hi, start) + "hrs."
    ensures start.time.hour != end.time.hour || start.time.minute != end.time.minute ==>
      GetTimeRange(e) == Format(Hi, start) + " - " + Format(Hi, end) + "hrs."
  {
    FormatHiShape(start);
    FormatHiShape(end);
    if Format(Hi, start) == Format(Hi, end) {
      HiInjective(start, end);
    }
  }

  // ---------------------------------------------------------------- the calendar link

  /** What the calendar library's Link holds once built. */
  datatype LinkData = LinkData(title: string, from: Instant, to: Instant, allDay: bool,
                               description: Option<string>, address: Option<string>)

  /** The calendar library: which (from, to) pairs `Link::create` accepts, and `google()`. */
  datatype LinkLibrary = LinkLibrary(accepts: (Instant, Instant) -> bool, google: LinkData -> string)

  datatype LinkError = UnreadableEnd | RejectedRange

  /** `new DateTime(get_formatted_date('c'))`: the start, or the clock when it is unreadable. */
  function LinkStart(e: EventPost, now: Instant): Instant {
    StoredDate(e.dtstart).GetOr(now)
  }

  /** `new DateTime($this->post->dtend)`: the clock for "", the stored end, or an exception. */
  function LinkEnd(e: EventPost, now: Instant): Option<Instant> {
    if e.dtend == "" then Some(now) else CreateFromFormat(YmdHis, e.dtend, Epoch)
  }

  function GeoAddress(e: EventPost): string {
    match e.geo
    case Some(g) => if StringIsEmpty(g.address) then "" else g.address
    case None => ""
  }

  function LinkDescription(e: EventPost): string {
    "Más información en: " + e.permalink
  }

  /** The address goes in unless the event is online-only or has no address. */
  function LinkAddress(e: EventPost): (r: Option<string>)
    ensures r.Some? <==> e.eventType != OnlineMode && !StringIsEmpty(GeoAddress(e))
    ensures r.Some? ==> r.value == GeoAddress(e)
  {
    if e.eventType != OnlineMode && !StringIsEmpty(GeoAddress(e)) then Some(GeoAddress(e)) else None
  }

  /** The link `get_calendar_link` builds for `e`, or the exception that stops it. */
  function LinkFor(e: EventPost, now: Instant, lib: LinkLibrary): (r: Result<LinkData, LinkError>)
    ensures r.Err? <==> LinkEnd(e, now).None? || !lib.accepts(LinkStart(e, now), LinkEnd(e, now).value)
    ensures r.Ok? ==> r.value.title == e.title && r.value.from == LinkStart(e, now) && !r.value.allDay
    ensures r.Ok? ==> r.value.to == LinkEnd(e, now).value
    ensures r.Ok? ==> r.value.description == Some(LinkDescription(e)) && r.value.address == LinkAddress(e)
  {
    match LinkEnd(e, now)
    case None => Err(UnreadableEnd)
    case Some(to) =>
      var from := LinkStart(e, now);
      if !lib.accepts(from, to) then Err(RejectedRange)
      else Ok(LinkData(e.title, from, to, false, Some(LinkDescription(e)), LinkAddress(e)))
  }

  /** The parts of a link that depend on the event alone (not on the clock). */
  predicate BelongsTo(link: LinkData, e: EventPost) {
    link.title == e.title && link.description == Some(LinkDescription(e)) && link.address == LinkAddress(e)
  }

  /** The library's Link builder, changed in place by `description()` and `address()`. */
  class LinkBuilder {
    var title: string
    var from: Instant
    var to: Instant
    var allDay: bool
    var description: Option<string>
    var address: Option<string>

    function Data(): LinkData
      reads this
    {
      LinkData(title, from, to, allDay, description, address)
    }

    /** `Link::create($title, $from, $to, $allDay)` once the library has accepted the range. */
    constructor Create(title: string, from: Instant, to: Instant, allDay: bool)
      ensures Data() == LinkData(title, from, to, allDay, None, None)
    {
      this.title := title;
      this.from := from;
      this.to := to;
      this.allDay := allDay;
      this.description := None;
      this.address := None;
    }

    method SetDescription(d: string)
      modifies this
      ensures Data() == old(Data()).(description := Some(d))
    {
      description := Some(d);
    }

    method SetAddress(a: string)
      modifies this
      ensures Data() == old(Data()).(address := Some(a))
    {
      address := Some(a);
    }
  }

  /** The `try` block of `get_calendar_link`, up to the call of `google()`. */
  method BuildLink(e: EventPost, now: Instant, lib: LinkLibrary) returns (r: Result<LinkData, LinkError>)
    ensures r == LinkFor(e, now, lib)
  {
    var from := LinkStart(e, now);
    var to := LinkEnd(e, now);
    if to.None? {
      return Err(UnreadableEnd);
    }
    if !lib.accepts(from, to.value) {
      return Err(RejectedRange);
    }
    var link := new LinkBuilder.Create(e.title, from, to.value, false);
    link.SetDescription(LinkDescription(e));
    var address := GeoAddress(e);
    if e.eventType != OnlineMode && !StringIsEmpty(address) {
      link.SetAddress(address);
    }
    r := Ok(link.Data());
  }

  /** The function-static `$link`: null at first, then a Link, or '' after an exception. */
  datatype LinkSlot = Unset | Cached(link: LinkData) | Cleared

  /** One call of `get_calendar_link` for `e`: the new slot and the URL returned. */
  function MemoStep(slot: LinkSlot, e: EventPost, now: Instant, lib: LinkLibrary): (r: (LinkSlot, string))
    ensures slot.Cached? ==> r.0 == slot
    ensures r.0.Cached? ==> r.1 == lib.google(r.0.link)
    ensures r.0 == Cleared ==> r.1 == "" && !slot.Cached? && LinkFor(e, now, lib).Err?
    ensures !slot.Cached? && LinkFor(e, now, lib).Ok? ==>
      r == (Cached(LinkFor(e, now, lib).value), lib.google(LinkFor(e, now, lib).value))
  {
    if slot.Cached? then (slot, lib.google(slot.link))
    else match LinkFor(e, now, lib)
      case Ok(link) => (Cached(link), lib.google(link))
      case Err(_) => (Cleared, "")
  }

  /** Once cached, the link is returned whatever event is asked about, and stays cached. */
  lemma CachedLinkIsFinal(slot: LinkSlot, e: EventPost, now: Instant, lib: LinkLibrary)
    requires slot.Cached?
    ensures MemoStep(slot, e, now, lib) == (slot, lib.google(slot.link))
  {
  }

  /** An exception yields "" and leaves no Link behind, so the next call builds again. */
  lemma FailureCachesNothing(slot: LinkSlot, e: EventPost, now: Instant, lib: LinkLibrary)
    requires !slot.Cached? && LinkFor(e, now, lib).Err?
    ensures MemoStep(slot, e, now, lib) == (Cleared, "")
    ensures MemoStep(Cleared, e, now, lib) == MemoStep(Unset, e, now, lib)
  {
  }

  /**
   * One `$link` for every event of the request, as PHP keeps a method's static variable:
   * the memo as the source has it.
   */
  class CalendarLinkMemo {
    var slot: LinkSlot

    constructor()
      ensures slot == Unset
    {
      slot := Unset;
    }

    /** `$event->get_calendar_link()` for whichever event `e` is. */
    method GetCalendarLink(e: EventPost, now: Instant, lib: LinkLibrary) returns (url: string)
      modifies this
      ensures (slot, url) == MemoStep(old(slot), e, now, lib)
    {
      if slot.Cached? {
        return lib.google(slot.link);
      }
      var r := BuildLink(e, now, lib);
      if r.Ok? {
        slot := Cached(r.value);
        url := lib.google(r.value);
      } else {
        slot := Cleared;
        url := "";
      }
    }
  }

  /**
   * The shared memo hands the second event the first event's link: the link it serves has
   * the first event's title, not the second's.
   */
  lemma SharedMemoServesFirstEvent(e1: EventPost, e2: EventPost, now1: Instant, now2: Instant, lib: LinkLibrary)
    requires LinkFor(e1, now1, lib).Ok? && e1.title != e2.title
    ensures var first := MemoStep(Unset, e1, now1, lib);
            var second := MemoStep(first.0, e2, now2, lib);
            first.0 == Cached(LinkFor(e1, now1, lib).value) && second.1 == lib.google(first.0.link)
            && !BelongsTo(first.0.link, e2)
  {
  }

  predicate SlotBelongsTo(slot: LinkSlot, e: EventPost) {
    slot.Cached? ==> BelongsTo(slot.link, e)
  }

  /** A memo owned by one event only ever serves that event's link. */
  lemma OwnMemoServesOwnLink(slot: LinkSlot, e: EventPost, now: Instant, lib: LinkLibrary)
    requires SlotBelongsTo(slot, e)
    ensures SlotBelongsTo(MemoStep(slot, e, now, lib).0, e)
    ensures var (next, url) := MemoStep(slot, e, now, lib);
            (next.Cached? && url == lib.google(next.link)) || (next == Cleared && url == "")
  {
  }

  /**
   * The calendar-link memo kept per event object: each event object carries its own slot, so
   * one event's link is never served for another.
   */
  class EventView {
    const post: EventPost
    var slot: LinkSlot

    predicate Valid()
      reads this
    {
      SlotBelongsTo(slot, post)
    }

    constructor(post: EventPost)
      ensures this.post == post && slot == Unset && Valid()
    {
      this.post := post;
      slot := Unset;
    }

    method CalendarLink(now: Instant, lib: LinkLibrary) returns (url: string)
      requires Valid()
      modifies this
      ensures Valid()
      ensures (slot, url) == MemoStep(old(slot), post, now, lib)
      ensures slot.Cached? ==> url == lib.google(slot.link) && BelongsTo(slot.link, post)
    {
      OwnMemoServesOwnLink(slot, post, now, lib);
      if slot.Cached? {
        return lib.google(slot.link);
      }
      var r := BuildLink(post, now, lib);
      if r.Ok? {
        slot := Cached(r.value);
        url := lib.google(r.value);
      } else {
        slot := Cleared;
        url := "";
      }
    }
  }
}
