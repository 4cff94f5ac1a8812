/**
 * The schema.org Event piece handed to Yoast SEO (class Event_Schema): the attendance mode and
 * status fall back to their defaults, a Place and/or a VirtualLocation is collected according
 * to the mode, and the piece is null when neither could be collected. The collected locations
 * decide only that: the piece's `location` is always just the venue name.
 */
module EventSchema {
  import opened Wrappers
  import opened PhpValues
  import opened DateTimes
  import opened EventPostObject

  /**
   * What the host supplies for one event: the URL check (`filter_var` with
   * FILTER_VALIDATE_URL), `esc_url_raw`, the first URL of the rendered content ("" when there
   * is none), the featured image URL (None for `false`) and the site time zone's UTC offset
   * at a local instant, as 'c' prints it (it changes with summer time in a named zone).
   */
  datatype Host = Host(
    isValidUrl: string -> bool,
    escUrlRaw: string -> string,
    contentUrl: string,
    imageUrl: Option<string>,
    tzOffset: Instant -> string)

  function S(key: string): Key {
    StrKey(key)
  }

  // ---------------------------------------------------------------- get_event_url

  predicate UsableUrl(url: string, host: Host) {
    !StringIsEmpty(url) && host.isValidUrl(url)
  }

  /** `get_event_url()`: the event's own URL, else the content's first URL, else the permalink. */
  function GetEventUrl(e: EventPost, host: Host): (r: string)
    ensures UsableUrl(e.locationUrl, host) ==> r == e.locationUrl
    ensures !UsableUrl(e.locationUrl, host) && UsableUrl(host.contentUrl, host) ==> r == host.contentUrl
    ensures !UsableUrl(e.locationUrl, host) && !UsableUrl(host.contentUrl, host) ==> r == e.permalink
  {
    if UsableUrl(e.locationUrl, host) then e.locationUrl
    else if UsableUrl(host.contentUrl, host) then host.contentUrl
    else e.permalink
  }

  /** The URL is a usable one when there is one, and the permalink only as the last resort. */
  lemma EventUrlPreference(e: EventPost, host: Host)
    ensures GetEventUrl(e, host) == e.permalink || UsableUrl(GetEventUrl(e, host), host)
    ensures GetEventUrl(e, host) in {e.locationUrl, host.contentUrl, e.permalink}
    ensures (UsableUrl(e.locationUrl, host) || UsableUrl(host.contentUrl, host)) ==> UsableUrl(GetEventUrl(e, host), host)
  {
  }

  // ---------------------------------------------------------------- get_place_prop_by_type

  /** The `long_name` of the first component tagged `tag`, or "". */
  function PlaceProp(props: seq<AddressComponent>, tag: string): string {
    if props == [] then ""
    else if tag in props[0].types then props[0].longName
    else PlaceProp(props[1..], tag)
  }

  /** `PlaceProp` is the first match, and "" exactly when nothing matches (or the match is unnamed). */
  lemma {:induction false} PlacePropFirstMatch(props: seq<AddressComponent>, tag: string)
    ensures (forall i :: 0 <= i < |props| ==> tag !in props[i].types) ==> PlaceProp(props, tag) == ""
    ensures forall i :: (0 <= i < |props| && tag in props[i].types && (forall j :: 0 <= j < i ==> tag !in props[j].types))
                          ==> PlaceProp(props, tag) == props[i].longName
  {
    if props != [] {
      PlacePropFirstMatch(props[1..], tag);
      forall i | 0 <= i < |props| && tag in props[i].types && (forall j :: 0 <= j < i ==> tag !in props[j].types)
        ensures PlaceProp(props, tag) == props[i].longName
      {
        if i > 0 {
          assert tag !in props[0].types;
          assert forall j :: 0 <= j < i - 1 ==> props[1..][j] == props[j + 1];
        }
      }
    }
  }

  /** `get_place_prop_by_type()`: a search that returns at the first component tagged `tag`. */
  method GetPlacePropByType(props: seq<AddressComponent>, tag: string) returns (r: string)
    ensures r == PlaceProp(props, tag)
  {
    var i := 0;
    while i < |props|
      invariant 0 <= i <= |props|
      invariant PlaceProp(props, tag) == PlaceProp(props[i..], tag)
    {
      assert props[i..][1..] == props[i + 1..];
      if tag in props[i].types {
        return props[i].longName;
      }
      i := i + 1;
    }
    return "";
  }

  // ---------------------------------------------------------------- generate

  function AttendanceOf(e: EventPost): string {
    Resolve(AttendanceModes, e.eventType, DefaultAttendance)
  }

  function StatusOf(e: EventPost): string {
    Resolve(Stati, e.eventStatus, DefaultStatus)
  }

  /** `mysql2date('c', s)`: the ISO 8601 date with the zone's offset at that instant, or `false`. */
  function IsoDate(s: string, tzOffset: Instant -> string): Option<string> {
    match StoredDate(s)
    case Some(dt) => Some(Format(IsoLocal, dt) + tzOffset(dt))
    case None => None
  }

  function StrOrFalse(r: Option<string>): Value {
    match r
    case Some(s) => Str(s)
    case None => Bool(false)
  }

  /** The keys of the literal `$schema` starts as. */
  const BaseKeys: seq<string> := ["@context", "@type", "name", "startDate", "endDate", "eventStatus",
    "eventAttendanceMode", "location"]

  lemma BaseKeysFacts()
    ensures Distinct(BaseKeys) && Distinct(BaseKeys + ["description", "image"])
    ensures "description" !in BaseKeys && "image" !in BaseKeys + ["description"]
  {
    var ks := BaseKeys + ["description", "image"];
    forall i, j | 0 <= i < j < |ks| ensures ks[i] != ks[j] {
      assert |ks[i]| != |ks[j]| || ks[i][0] != ks[j][0];
    }
    assert ks[8] == "description" && ks[9] == "image";
    assert BaseKeys == ks[..8];
  }

  /** The values of the literal `$schema` starts as, beside `BaseKeys`. */
  function BaseValues(e: EventPost, host: Host): seq<Value> {
    [ Str("http://schema.org"),
      Str("Event"),
      Str(e.title),
      Str(Text(IsoDate(e.dtstart, host.tzOffset))),
      StrOrFalse(IsoDate(e.dtend, host.tzOffset)),
      Str("https://schema.org/" + StatusOf(e)),
      Str("https://schema.org/" + AttendanceOf(e)),
      Arr([Entry(S("name"), Str(e.location))]) ]
  }

  /** The piece `generate` returns when a location was collected. */
  function SchemaOf(e: EventPost, host: Host): seq<Entry> {
    Zip(BaseKeys + ["description", "image"], BaseValues(e, host) + [Str(e.content), StrOrFalse(host.imageUrl)])
  }

  /** A Place as `generate` collects it from the geo data (coordinates left out). */
  function Place(name: string, street: string, locality: string, region: string, country: string): Value {
    Arr([ Entry(S("type"), Str("Place")),
          Entry(S("name"), Str(name)),
          Entry(S("address"), Arr([
            Entry(S("@type"), Str("PostalAddress")),
            Entry(S("streetAddress"), Str(street)),
            Entry(S("addressLocality"), Str(locality)),
            Entry(S("addressRegion"), Str(region)),
            Entry(S("addressCountry"), Str(country))])) ])
  }

  function VirtualLocation(url: string, name: string): Value {
    Arr([ Entry(S("@type"), Str("VirtualLocation")),
          Entry(S("url"), Str(url)),
          Entry(S("name"), Str(name)) ])
  }

  function PlaceOf(e: EventPost, g: Geo): Value {
    Place(e.location, g.address, PlaceProp(g.components, "locality"),
      PlaceProp(g.components, "administrative_area_level_1"), PlaceProp(g.components, "country"))
  }

  predicate HasPlace(mode: string) {
    mode == DefaultAttendance || mode == MixedMode
  }

  predicate HasVirtualLocation(mode: string) {
    mode == OnlineMode || mode == MixedMode
  }

  function PlacePart(e: EventPost): seq<Value> {
    if HasPlace(AttendanceOf(e)) && e.geo.Some? then [PlaceOf(e, e.geo.value)] else []
  }

  function VirtualPart(e: EventPost, host: Host): seq<Value> {
    if HasVirtualLocation(AttendanceOf(e)) then [VirtualLocation(host.escUrlRaw(GetEventUrl(e, host)), e.virtualLocationName)] else []
  }

  /** The `$locations` list: a Place for offline and mixed events with geo data, a VirtualLocation for online and mixed ones. */
  function Locations(e: EventPost, host: Host): seq<Value> {
    PlacePart(e) + VirtualPart(e, host)
  }

  /** `generate()`: null when no location was collected, the piece otherwise. */
  method Generate(e: EventPost, host: Host) returns (r: Option<seq<Entry>>)
    ensures r == if Locations(e, host) == [] then None else Some(SchemaOf(e, host))
  {
    var attendanceMode := Resolve(AttendanceModes, e.eventType, DefaultAttendance);
    var values := BaseValues(e, host);
    var schema := Zip(BaseKeys, values);
    var locations := CollectLocations(e, host, attendanceMode);
    if locations == [] {
      return None;
    }
    BaseKeysFacts();
    AddDescriptionAndImage(BaseKeys, values, Str(e.content), StrOrFalse(host.imageUrl));
    schema := Put(schema, S("description"), Str(e.content));
    schema := Put(schema, S("image"), StrOrFalse(host.imageUrl));
    return Some(schema);
  }

  /** The part of `generate()` that fills `$locations`, for the resolved attendance mode. */
  method CollectLocations(e: EventPost, host: Host, attendanceMode: string) returns (locations: seq<Value>)
    requires attendanceMode == AttendanceOf(e)
    ensures locations == Locations(e, host)
  {
    locations := [];
    if HasPlace(attendanceMode) {
      if e.geo.Some? {
        var g := e.geo.value;
        var locality := GetPlacePropByType(g.components, "locality");
        var region := GetPlacePropByType(g.components, "administrative_area_level_1");
        var country := GetPlacePropByType(g.components, "country");
        var place := Place(e.location, g.address, locality, region, country);
        locations := locations + [place];
      }
    }
    assert locations == PlacePart(e);
    if HasVirtualLocation(attendanceMode) {
      var virtual := VirtualLocation(host.escUrlRaw(GetEventUrl(e, host)), e.virtualLocationName);
      locations := locations + [virtual];
    } else {
      assert locations == PlacePart(e) + [];
    }
  }

  /** Assigning the two new keys `description` and `image` appends them to the literal. */
  lemma AddDescriptionAndImage(keys: seq<string>, vals: seq<Value>, d: Value, i: Value)
    requires |keys| == |vals| && "description" !in keys && "image" !in keys + ["description"]
    ensures Put(Put(Zip(keys, vals), S("description"), d), S("image"), i)
      == Zip(keys + ["description", "image"], vals + [d, i])
  {
    ZipLacksKey(keys, vals, "description");
    ZipAppend(keys, vals, "description", d);
    ZipLacksKey(keys + ["description"], vals + [d], "image");
    ZipAppend(keys + ["description"], vals + [d], "image", i);
    assert keys + ["description"] + ["image"] == keys + ["description", "image"];
    assert vals + [d] + [i] == vals + [d, i];
  }

  // ---------------------------------------------------------------- what generate promises

  /** The piece is null exactly for an (effectively) offline event without geo data. */
  lemma NullExactlyWithoutLocation(e: EventPost, host: Host)
    ensures Locations(e, host) == [] <==> AttendanceOf(e) == DefaultAttendance && e.geo.None?
  {
    EnumerationFacts();
  }

  /** Online and mixed events always get a piece; so does an offline event with geo data. */
  lemma OnlineAlwaysHasSchema(e: EventPost, host: Host)
    ensures HasVirtualLocation(AttendanceOf(e)) ==> Locations(e, host) != []
    ensures e.geo.Some? ==> Locations(e, host) != []
    ensures e.eventType !in Keys(AttendanceModes) && e.geo.None? ==> Locations(e, host) == []
  {
    EnumerationFacts();
  }

  /** The piece's entry for `BaseKeys[i]`, `description` or `image`. */
  lemma SchemaLookup(e: EventPost, host: Host, i: int)
    requires 0 <= i < 10
    ensures Lookup(SchemaOf(e, host), S((BaseKeys + ["description", "image"])[i]))
      == Some((BaseValues(e, host) + [Str(e.content), StrOrFalse(host.imageUrl)])[i])
  {
    BaseKeysFacts();
    ZipLookup(BaseKeys + ["description", "image"], BaseValues(e, host) + [Str(e.content), StrOrFalse(host.imageUrl)], i);
  }

  /** Status and attendance mode are schema.org URLs of the resolved values, which are always known ones. */
  lemma SchemaEnumerations(e: EventPost, host: Host)
    ensures Lookup(SchemaOf(e, host), S("eventStatus")) == Some(Str("https://schema.org/" + StatusOf(e)))
    ensures Lookup(SchemaOf(e, host), S("eventAttendanceMode")) == Some(Str("https://schema.org/" + AttendanceOf(e)))
    ensures StatusOf(e) in Keys(Stati) && AttendanceOf(e) in Keys(AttendanceModes)
    ensures e.eventStatus !in Keys(Stati) ==> StatusOf(e) == DefaultStatus
    ensures e.eventType !in Keys(AttendanceModes) ==> AttendanceOf(e) == DefaultAttendance
  {
    EnumerationFacts();
    SchemaLookup(e, host, 5);
    SchemaLookup(e, host, 6);
  }

  /** The piece's `location` is the venue name alone, whatever was collected; then come the content and the image. */
  lemma SchemaLocationIsVenueName(e: EventPost, host: Host)
    ensures Lookup(SchemaOf(e, host), S("location")) == Some(Arr([Entry(S("name"), Str(e.location))]))
    ensures Lookup(SchemaOf(e, host), S("description")) == Some(Str(e.content))
    ensures Lookup(SchemaOf(e, host), S("image")) == Some(StrOrFalse(host.imageUrl))
  {
    SchemaLookup(e, host, 7);
    SchemaLookup(e, host, 8);
    SchemaLookup(e, host, 9);
  }

  /** Nothing collected reaches the piece: events that differ only in their places give the same piece. */
  lemma SchemaIgnoresPlaces(e1: EventPost, e2: EventPost, host: Host)
    requires e2 == e1.(geo := e2.geo, virtualLocationName := e2.virtualLocationName, locationUrl := e2.locationUrl)
    ensures SchemaOf(e1, host) == SchemaOf(e2, host)
  {
  }

  /** A start stored by the normaliser appears as its ISO 8601 form with the zone's offset at that instant. */
  lemma SchemaStartDate(e: EventPost, host: Host, dt: Instant)
    requires e.dtstart == Format(YmdHis, dt)
    ensures Lookup(SchemaOf(e, host), S("startDate")) == Some(Str(Format(IsoLocal, dt) + host.tzOffset(dt)))
  {
    StoredDateOfFormatted(dt);
    SchemaLookup(e, host, 3);
  }

  /** A stored end exports the same way, with the zone's offset at the end's own instant. */
  lemma SchemaEndDate(e: EventPost, host: Host, dt: Instant)
    requires e.dtend == Format(YmdHis, dt)
    ensures Lookup(SchemaOf(e, host), S("endDate")) == Some(Str(Format(IsoLocal, dt) + host.tzOffset(dt)))
  {
    StoredDateOfFormatted(dt);
    SchemaLookup(e, host, 4);
  }

  /** An empty start is the empty string, an empty end is `false`. */
  lemma SchemaUnreadableDates(e: EventPost, host: Host)
    requires e.dtstart == "" && e.dtend == ""
    ensures Lookup(SchemaOf(e, host), S("startDate")) == Some(Str(""))
    ensures Lookup(SchemaOf(e, host), S("endDate")) == Some(Bool(false))
  {
    SchemaLookup(e, host, 3);
    SchemaLookup(e, host, 4);
  }

  // ---------------------------------------------------------------- the collected locations

  /** As written, a collected location never reaches the piece: its `location` is not the list. */
  lemma CollectedLocationsAreDropped(e: EventPost, host: Host)
    requires Locations(e, host) != []
    ensures Lookup(SchemaOf(e, host), S("location")) != Some(Arr(ListOf(Locations(e, host))))
  {
    SchemaLocationIsVenueName(e, host);
    assert ListOf(Locations(e, host))[0].key == IntKey(0);
  }

  /** The piece with `$schema['location'] = $locations`, as the collected list evidently means. */
  function IntendedSchemaOf(e: EventPost, host: Host): seq<Entry> {
    Zip(BaseKeys + ["description", "image"],
      BaseValues(e, host)[7 := Arr(ListOf(Locations(e, host)))] + [Str(e.content), StrOrFalse(host.imageUrl)])
  }

  /** The intended piece's `location` is the collected list. */
  lemma IntendedSchemaCarriesLocations(e: EventPost, host: Host)
    ensures Lookup(IntendedSchemaOf(e, host), S("location")) == Some(Arr(ListOf(Locations(e, host))))
  {
    var ks := BaseKeys + ["description", "image"];
    var b, t, v := BaseValues(e, host), [Str(e.content), StrOrFalse(host.imageUrl)], Arr(ListOf(Locations(e, host)));
    UpdateBeforeTail(b, 7, v, t);
    BaseKeysFacts();
    assert ks[7] == "location";
    ZipLookup(ks, (b + t)[7 := v], 7);
  }

  /** In the collected list the Place comes first and the VirtualLocation, under the URL `get_event_url` picks, last. */
  lemma CollectedOrder(e: EventPost, host: Host)
    ensures HasVirtualLocation(AttendanceOf(e)) ==>
      var ls := ListOf(Locations(e, host));
      ls[|ls| - 1].val == VirtualLocation(host.escUrlRaw(GetEventUrl(e, host)), e.virtualLocationName)
    ensures e.geo.Some? && HasPlace(AttendanceOf(e)) ==> ListOf(Locations(e, host))[0].val == PlaceOf(e, e.geo.value)
  {
  }

  /** Apart from `location`, the intended piece is the piece as written. */
  lemma IntendedSchemaElsewhere(e: EventPost, host: Host, k: Key)
    requires k != S("location")
    ensures Lookup(IntendedSchemaOf(e, host), k) == Lookup(SchemaOf(e, host), k)
  {
    var ks := BaseKeys + ["description", "image"];
    var b, t, v := BaseValues(e, host), [Str(e.content), StrOrFalse(host.imageUrl)], Arr(ListOf(Locations(e, host)));
    UpdateBeforeTail(b, 7, v, t);
    BaseKeysFacts();
    assert ks[7] == "location";
    SameLookupElsewhere(ks, b + t, (b + t)[7 := v], 7, k);
  }
}
