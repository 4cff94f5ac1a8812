# wp-cpt-events, modelled in Dafny

This project models the core of the WordPress plugin *wp-cpt-events*, which adds an "event" post type. The plugin's core:

- turns an event's edit form into two canonical timestamps, the `dtstart` and `dtend` post meta;
- checks the form's attendance mode and status against the schema.org enumerations;
- shows an event's dates, times and "add to Google Calendar" link;
- exports an event as a schema.org `Event` piece for Yoast SEO;
- marks finished events `noindex`;
- rewrites REST API queries and collection parameters;
- builds the upcoming-events query preset;
- shows or hides the admin form's location rows as the attendance mode changes.

The modules, one per source file plus shared modules:

| module | file | models |
|---|---|---|
| `Wrappers` | wrappers.dfy | `Option` and `Result` |
| `PhpValues` | php_values.dfy | PHP's ordered arrays and the operations the plugin uses on them: `$a[$k]` read, `isset`, `$a[$k] = v`, `$a[] = v`, `empty()`, array literals |
| `DateTimes` | date_times.dfy | PHP's `DateTime::createFromFormat` and `format` for the formats the plugin uses ('Y-m-d H:i:s', 'Y-m-d', 'H:i', 'c'), and the chronological order |
| `EventPostObject` | event_post_object.dfy | `Event_Post_Object`: enumerations, `__get`, date and time ranges, the calendar link and its memo |
| `EventMetabox` | event_metabox.dfy | `Event_Metabox`: the sanitisers and validators, and `append_data` writing post meta through a `PostMeta` object |
| `EventSchema` | event_schema.dfy | `Event_Schema`: `generate`, `get_event_url`, `get_place_prop_by_type` |
| `EventPostType` | event_post_type.dfy | `Event_Post_Type`'s filters: robots, REST item, REST query (with the `tax_query` hook), collection parameters |
| `EventPostQuery` | event_post_query.dfy | `Event_Post_Query::get_default_args`, and what a query with those arguments lists |
| `Backend` | backend.dfy | `assets/src/js/backend.js`: the row visibility record and `maybeHideFields` |

How the PHP is represented:

- A PHP array is a sequence of key/value entries in insertion order.
  - Assigning an existing key replaces its value in place.
  - Assigning a new key appends it.
  - `$a[] = v` uses the next integer key, which is one past the largest integer key.
- Absent post meta reads as "". A stored date is read the way `mysql2date` reads it: "" gives `false`, and anything else goes through the 'Y-m-d H:i:s' parser.
- `createFromFormat` gives `Option`, where None stands for `false`. It follows PHP's parser:
  - 'Y' takes 1 to 4 digits; 'm', 'd' and 'H' take 1 or 2; 'i' and 's' take exactly 2.
  - A space in the format skips any run of blanks.
  - Trailing text fails.
  - If any time field is read, the unread time fields are 0. If none is read, the time of day comes from the clock.
- Where the source uses the current time, the model takes a parameter `now`. The same goes for the time zone's UTC offset (a function of the local instant, since it changes with summer time), the locale's month names, and the host's URL functions.

In five places the code does not do what the plugin evidently means to do. The model follows the code each time:

- The stored end is meant never to be before the start. In the code, an explicit end time on the start's date can put it earlier (src/class-event-metabox.php:64-66). No such invariant is stated. `IntendedEndNotBeforeStart` holds only without an explicit end time.
- An adopted end date is meant to keep the start's time of day. In the code it gets the time at which the form was saved, because 'Y-m-d' fills the time from the clock (src/class-event-metabox.php:51-55). See Findings, row 2.
- The end date is meant to be compared with the start's date. The code compares an instant (the end date at the clock's time of day) with the start instant (src/class-event-metabox.php:54).
- The calendar link is meant to be memoised per event object. The code keeps it in a function-static variable, which is shared by every event object in the request (src/class-event-post-object.php:192). See Findings, row 1.
- An unreadable start or end is meant to give null (the doc comments at src/class-event-post-object.php:116 and :126). The code returns `false` through a `?DateTimeImmutable` return type, a TypeError. See Findings, row 5.
- An optional start time is meant to default to 00:00. The default applies only when the `dtstart_time` key is absent (`??`, src/class-event-metabox.php:44). A blank time field is sanitised to "" (src/class-event-metabox.php:227-233, 269), which `??` keeps. The start text is then "Y-m-d :00", which does not parse, so nothing is written. `EmptyStartTimeWritesNothing` states this.

A quirk that is modelled as written: the schema's Place uses the key `type`, not `@type` (src/class-event-schema.php:41).

## Model

| member | source | states |
|---|---|---|
| EventMetabox.SanitizeDate | src/class-event-metabox.php:213-219 | The result is empty exactly when the input does not parse as 'Y-m-d'. `SanitizedDateIsInputDate` states the value. |
| EventMetabox.SanitizeTime | src/class-event-metabox.php:227-233 | The result is empty exactly when the input does not parse as 'H:i'. |
| EventMetabox.SanitizeDateIdempotent | src/class-event-metabox.php:213-219 | The result does not depend on the clock. Sanitising a sanitised date leaves it unchanged. |
| EventMetabox.SanitizedDateIsInputDate | src/class-event-metabox.php:213-219 | A non-empty sanitised date reads back as the day the input was read as. |
| EventMetabox.SanitizeTimeIdempotent | src/class-event-metabox.php:227-233 | The result does not depend on the clock. Sanitising a sanitised time leaves it unchanged. |
| EventMetabox.SanitizedTimeIsClockTime | src/class-event-metabox.php:227-233 | A sanitised time is "" or "HH:MM". Splitting it at ':' gives back the parsed hour and minute. |
| EventMetabox.ClockParts | src/class-event-metabox.php:65 | Splitting a canonical "HH:MM" gives an hour in 0..23 and a minute in 0..59, and the two parts written back as "HH:MM" give the text again. |
| EventMetabox.ValidateEventStatus | src/class-event-metabox.php:242-244 | The result is always a known status. It equals the input exactly when the input is a known status, and is `EventScheduled` otherwise. |
| EventMetabox.ValidateEventType | src/class-event-metabox.php:253-255 | The result is always a known attendance mode. It equals the input exactly when the input is known, and is the offline mode otherwise. |
| EventMetabox.ValidatorsIdempotent | src/class-event-metabox.php:242-255 | Applying either validator twice equals applying it once. |
| EventMetabox.PostMeta.Update | src/class-event-metabox.php:47 | `update_post_meta` sets one key and leaves the other keys unchanged. The store's meta stays equal to its initial meta with every write made so far applied in order. |
| EventMetabox.DateTimeBox.Clone | src/class-event-metabox.php:49 | `clone` gives a fresh object holding the same instant, so later changes cannot reach the original. |
| EventMetabox.DateTimeBox.SetTime | src/class-event-metabox.php:63-66 | `setTime` keeps the date and replaces the time of day. |
| EventMetabox.AppendData | src/class-event-metabox.php:42-71 | The meta writes made are exactly `Writes(data, now)`, in that order. The new meta is the old meta with those writes applied. |
| EventMetabox.EndDate | src/class-event-metabox.php:49-61 | The end starts as a copy of the start and takes the end date when it is not earlier. `event_dtend_date` is written exactly when the end date is corrected. |
| EventMetabox.WritesOfStart | src/class-event-metabox.php:47-68 | Once the start parses, the writes are `dtstart`, an optional `event_dtend_date` correction, then `dtend`. |
| EventMetabox.NothingWithoutStart | src/class-event-metabox.php:43-46 | Nothing is written exactly when the start does not parse. An empty or missing start date writes nothing. |
| EventMetabox.WrittenKeys | src/class-event-metabox.php:47-68 | Only `dtstart`, `event_dtend_date` and `dtend` are written. `dtend` is written exactly when `dtstart` is, first `dtstart` and last `dtend`, and there are 0, 2 or 3 writes. |
| EventMetabox.JoinedStartText | src/class-event-metabox.php:44-45 | The joined text "date time:00" is the 'Y-m-d H:i:s' form of that day and time with second 0. |
| EventMetabox.StoredStartIsInput | src/class-event-metabox.php:44-47 | A canonical date and time parse to that day and time with second 0. The stored `dtstart` is the date, the time and ":00". |
| EventMetabox.StartOfFormattedText | src/class-event-metabox.php:45-47 | A start text that is a formatted instant parses back to that instant, and is the first value stored. |
| EventMetabox.StartDefaultsToMidnight | src/class-event-metabox.php:44-47 | Without the `dtstart_time` key the start is midnight of the start date, and the first write stores it. |
| EventMetabox.EmptyStartTimeWritesNothing | src/class-event-metabox.php:43-46 | A present but empty `dtstart_time` is not defaulted: the start does not parse and nothing is written. |
| EventMetabox.Writes | src/class-event-metabox.php:42-71 | Nothing is written exactly when the start does not parse. Otherwise there are 2 or 3 writes, first `dtstart` and last `dtend`. `NothingWithoutStart`, `WrittenKeys`, `EndDateCorrection` and `StoredEnd` state the values. |
| EventMetabox.StartIgnoresEndFields | src/class-event-metabox.php:43-49 | When two forms agree on the start fields, they store the same `dtstart`, whatever their end fields. |
| EventMetabox.EndDateCorrection | src/class-event-metabox.php:50-61 | An end date earlier than the start gives three writes, with `event_dtend_date` set to the start's date, and the end stays the start. Otherwise `event_dtend_date` is not written and a parsed end date is adopted. |
| EventMetabox.StoredEnd | src/class-event-metabox.php:62-68 | With `full_day` present, the stored end's time is 23:59:59. Otherwise a given end time "H:M" makes it H:M:00, and no end time keeps the end's time. The date is kept in every case, and what is stored reads back as the end. |
| EventMetabox.SameDayEndFollowsClock | src/class-event-metabox.php:51-55 | As written: an end date equal to the start's date is "corrected" exactly when the save clock is before the start time. The stored end is the start, or the start date at the clock's time. |
| EventMetabox.IntendedWritesOfStart | src/class-event-metabox.php:47-68 | Corrected: the writes when only the dates are compared. |
| EventMetabox.IntendedEndNotBeforeStart | src/class-event-metabox.php:50-67 | Corrected: the end date is never before the start's date and keeps the start's time of day. Without an explicit end time, the end is not before the start. |
| EventMetabox.IntendedCorrection | src/class-event-metabox.php:50-61 | Corrected: `event_dtend_date` is written exactly when the end date is an earlier day. `dtstart` is written first, and the stored end reads back. |
| EventMetabox.IntendedMatchesAtStartTime | src/class-event-metabox.php:50-61 | When the clock shows the start's time of day, the code as written and the corrected version write the same. |
| EventPostObject.EnumerationFacts | src/class-event-post-object.php:16-47 | There are 3 attendance modes and 5 statuses, with distinct keys, and both defaults are among them. |
| EventPostObject.Resolve | src/class-event-schema.php:23-24 | A value is kept exactly when it is a known key or the default, and replaced by the default otherwise. |
| EventPostObject.ResolveIdempotent | src/class-event-schema.php:23-24 | Resolving a resolved value changes nothing. |
| EventPostObject.StoredDate | src/class-event-post-object.php:154-155 | An empty text reads as `false`. `StoredDateOfFormatted` states that any stored 'Y-m-d H:i:s' reads back as its instant. |
| EventPostObject.StoredDateOfFormatted | src/class-event-post-object.php:154-155 | `mysql2date` reads a stored 'Y-m-d H:i:s' back as the same instant. |
| EventPostObject.Text | src/class-event-post-object.php:99-101 | A `false` from `mysql2date` becomes "" through the string return type. A string is kept. |
| EventPostObject.DayOfMonth | src/class-event-post-object.php:59-60 | 'j' gives one or two digits, and one digit exactly for days below 10. |
| EventPostObject.DayOfMonthInjective | src/class-event-post-object.php:59-60 | Different days give different 'j' texts. |
| EventPostObject.LongDateInjective | src/class-event-post-object.php:153 | With distinct month names, 'j \d\e F Y' determines the date. |
| EventPostObject.GetDtStart | src/class-event-post-object.php:108-111 | The result is "" exactly when `dtstart` does not parse as 'Y-m-d H:i:s'. Otherwise it is the 'Y-m-d' form of the parsed start. |
| EventPostObject.GetDtStartOfStored | src/class-event-post-object.php:108-111 | For a stored start, the result is its 'Y-m-d' day, which reads back as that day. |
| EventPostObject.GetDtStartMonthName | src/class-event-post-object.php:138-144 | The result is the locale's short name of the start's month, or "" when `dtstart` does not parse. |
| EventPostObject.Get | src/class-event-post-object.php:55-75 | The six computed keys are answered by the object. Every other key goes to the parent lookup unchanged. |
| EventPostObject.GetDtStartProperty | src/class-event-post-object.php:55-73 | `dtstart` gives the day only, `dtstart_month_name` the month's short name, and `event_place` the venue. |
| EventPostObject.GetDateRange | src/class-event-post-object.php:151-161 | The range always begins with the start's long date, and is exactly that date when the stored start and end are the same. `DateRangeOfDates` and `DateRangeUnreadable` state the rest. |
| EventPostObject.DateRangeOfDates | src/class-event-post-object.php:151-161 | One long date when start and end fall on the same day, and "start al end" otherwise. |
| EventPostObject.DateRangeUnreadable | src/class-event-post-object.php:151-161 | Two unreadable dates give "". An unreadable end gives "start al ", and an unreadable start gives " al end". |
| EventPostObject.GetTimeRange | src/class-event-post-object.php:168-184 | The range always ends in "hrs.", and begins with the start time when the event is not full-day. `FullDayTimeRange` and `TimeRangeOfTimes` state the rest. |
| EventPostObject.FullDayTimeRange | src/class-event-post-object.php:169-172 | A full-day event shows "Desde las {start}hrs.", whatever its end. |
| EventPostObject.TimeRangeOfTimes | src/class-event-post-object.php:174-183 | Equal start and end clock times give "{t}hrs.", and different ones give "{t1} - {t2}hrs.". |
| EventPostObject.LinkAddress | src/class-event-post-object.php:213-218 | The address is set exactly when the event is not online and its geo address is not empty. |
| EventPostObject.LinkFor | src/class-event-post-object.php:196-219 | The link fails exactly when the end is unreadable or the library refuses the range. Otherwise it has the title, the start, the end (the stored end, or now for an empty one), `allDay` false, the permalink description and the address rule. |
| EventPostObject.LinkBuilder.Create | src/class-event-post-object.php:200-205 | `Link::create` holds the title, range and all-day flag, with no description and no address yet. |
| EventPostObject.LinkBuilder.SetDescription | src/class-event-post-object.php:206-212 | `description()` sets only the description. |
| EventPostObject.LinkBuilder.SetAddress | src/class-event-post-object.php:213-218 | `address()` sets only the address. |
| EventPostObject.BuildLink | src/class-event-post-object.php:196-219 | Building the link step by step gives exactly `LinkFor`. |
| EventPostObject.MemoStep | src/class-event-post-object.php:191-232 | A cached Link stays cached, and a cached slot's URL is its Link's `google()`. A fresh call whose build succeeds caches `LinkFor`'s Link and returns its `google()`. The memo is cleared only by a failed build, which returns "". `CachedLinkIsFinal` and `FailureCachesNothing` state what later calls see. |
| EventPostObject.CachedLinkIsFinal | src/class-event-post-object.php:192-195 | Once a Link is cached, every call returns its URL and the cache stays. |
| EventPostObject.FailureCachesNothing | src/class-event-post-object.php:220-231 | A failure returns "" and leaves '' in the memo, which the next call treats as no link. |
| EventPostObject.CalendarLinkMemo.GetCalendarLink | src/class-event-post-object.php:191-232 | As written: one call updates the shared memo and returns the URL that `MemoStep` gives. |
| EventPostObject.SharedMemoServesFirstEvent | src/class-event-post-object.php:192-195 | As written: after a first event's link is cached, a second event with another title gets the first event's link. |
| EventPostObject.OwnMemoServesOwnLink | src/class-event-post-object.php:191-232 | Corrected: a memo holding only this event's link keeps holding only its link. |
| EventPostObject.EventView.CalendarLink | src/class-event-post-object.php:191-232 | Corrected: the per-object memo returns the event's own link or "". |
| EventSchema.GetEventUrl | src/class-event-schema.php:81-90 | A valid location URL comes first, then a valid URL from the content, then the permalink. |
| EventSchema.EventUrlPreference | src/class-event-schema.php:81-90 | The URL is one of the three candidates. It is the permalink or a valid URL, and it is valid whenever a valid candidate exists. |
| EventSchema.PlacePropFirstMatch | src/class-event-schema.php:99-106 | The result is the `long_name` of the first component tagged with the type, or "" when none is. |
| EventSchema.GetPlacePropByType | src/class-event-schema.php:99-106 | The early-return loop computes `PlaceProp`. |
| EventSchema.Generate | src/class-event-schema.php:21-73 | The result is null exactly when no location was collected, and otherwise the ten-key piece `SchemaOf`. |
| EventSchema.CollectLocations | src/class-event-schema.php:37-66 | The collected list is a Place when the mode allows one and geo data exists, then a VirtualLocation when the mode allows one. |
| EventSchema.AddDescriptionAndImage | src/class-event-schema.php:70-72 | Setting `description` and then `image` appends both keys in that order. |
| EventSchema.NullExactlyWithoutLocation | src/class-event-schema.php:37-69 | The result is null exactly when the resolved mode is offline and there is no geo data. |
| EventSchema.OnlineAlwaysHasSchema | src/class-event-schema.php:59-69 | Online and mixed modes always give a piece, and so does geo data. An unknown mode without geo data gives null. |
| EventSchema.SchemaLookup | src/class-event-schema.php:25-36 | Each of the ten keys maps to its literal value. |
| EventSchema.SchemaEnumerations | src/class-event-schema.php:23-32 | `eventStatus` and `eventAttendanceMode` are "https://schema.org/" followed by the resolved value, and unknown values resolve to the defaults. |
| EventSchema.SchemaLocationIsVenueName | src/class-event-schema.php:33-72 | `location` is always `{name: event_place}`. `description` is the content and `image` the image URL, or `false`. |
| EventSchema.SchemaIgnoresPlaces | src/class-event-schema.php:25-72 | The piece does not depend on the geo data, the virtual location name or the location URL. |
| EventSchema.SchemaStartDate | src/class-event-schema.php:29 | A stored start is exported as its ISO 8601 local form plus the time zone's offset at that instant. |
| EventSchema.SchemaEndDate | src/class-event-schema.php:30 | A stored end is exported as its ISO 8601 local form plus the time zone's offset at the end's own instant, which may differ from the start's. |
| EventSchema.SchemaUnreadableDates | src/class-event-schema.php:29-30 | Empty dates give a `startDate` of "" and an `endDate` of `false`. |
| EventSchema.CollectedLocationsAreDropped | src/class-event-schema.php:33-72 | As written: the piece's `location` is never the collected list. |
| EventSchema.IntendedSchemaCarriesLocations | src/class-event-schema.php:37-72 | Corrected: the piece's `location` is the collected list. |
| EventSchema.IntendedSchemaElsewhere | src/class-event-schema.php:25-72 | Corrected: every key except `location` is unchanged. |
| EventSchema.CollectedOrder | src/class-event-schema.php:38-66 | The Place comes first and the VirtualLocation, with the URL `get_event_url` picks, comes last. |
| EventPostType.FilterRobotsMeta | src/class-event-post-type.php:42-55 | Off a single event, or before the event is over, the array is unchanged. For an event that is over, `index` is false and `noindex` true. No other key changes. |
| EventPostType.RobotsIdempotent | src/class-event-post-type.php:50-53 | Filtering twice reads the same as filtering once. |
| EventPostType.StoredEventIsOverAfterEnd | src/class-event-post-type.php:49 | An event with a stored end is over exactly when now is after its end. |
| EventPostType.OpenEventIsOverAfterStart | src/class-event-post-type.php:48 | With an unreadable end read as the documented null (src/class-event-post-object.php:126), an event without an end is over exactly when now is after its start. As written this case throws instead; see Findings, row 5. |
| EventPostType.FilterRobotsMetaAsWritten | src/class-event-post-type.php:42-55 | As written, on a single event the filter throws exactly when the end does not parse, because `get_end_datetime` returns `false` where `?DateTimeImmutable` is declared (src/class-event-post-object.php:128-131). |
| EventPostType.RobotsAsWrittenThrowsWithoutEnd | src/class-event-post-type.php:48 | An event that has started and has an empty end makes the filter as written throw, where the documented-null version takes the page out of the index. |
| EventPostType.RobotsAsWrittenAgreesWithReadableEnd | src/class-event-post-type.php:42-55 | Off a single event, or with a readable end, the filter as written returns what `FilterRobotsMeta` returns. |
| EventPostType.FilterApiItem | src/class-event-post-type.php:87-94 | The response's data becomes `ItemData` of the old data, and the same response is returned. |
| EventPostType.ItemData | src/class-event-post-type.php:88-92 | `full_day` holds the bool cast of the flag, and every key other than `dtstart`, `dtend` and `full_day` keeps its value. `ItemDataFacts` states the dates. |
| EventPostType.ItemDataFacts | src/class-event-post-type.php:88-92 | `dtstart` and `dtend` are the ISO 8601 dates, or `false`, and `full_day` is the bool cast. Every other key is kept. |
| EventPostType.ItemStartOfStored | src/class-event-post-type.php:89 | A stored start is given as its ISO 8601 local form plus the time zone's offset at that instant. |
| EventPostType.FilterApiQuery | src/class-event-post-type.php:103-131 | With `orderby` equal to `dtstart`, every preset key is assigned in turn. Otherwise the args are returned unchanged. The hook is registered exactly when `events-tax` is not empty. |
| EventPostType.AssignEach | src/class-event-post-type.php:107-109 | The foreach assignment gives `PutAll`. |
| EventPostType.ApiQueryOverrides | src/class-event-post-type.php:106-110 | After the overrides, each preset key holds the preset's value and every other key keeps its value. |
| EventPostType.CastToArray | src/class-event-post-type.php:116 | `(array)` keeps an array and turns null into an empty array. |
| EventPostType.WithChildren | src/class-event-post-type.php:118-120 | An array item gets `include_children` true. Any other item is unchanged. |
| EventPostType.ReduceTaxQuery | src/class-event-post-type.php:117-124 | The reduce keeps one entry per item. `ReduceIsList` states its keys and values. |
| EventPostType.RewriteTaxQuery | src/class-event-post-type.php:115-126 | The rewritten query has one entry per entry of the `(array)` cast. `UnsetTaxQueryBecomesEmptyString` and `RewriteDropsRelation` state its contents. |
| EventPostType.ReduceIsList | src/class-event-post-type.php:115-125 | The reduce gives a list indexed 0.. with every item in order, each passed through `WithChildren`. |
| EventPostType.Query.Get | src/class-event-post-type.php:116 | `get` returns the set value, or "" for an unset key. |
| EventPostType.Query.RewriteTaxQueryHook | src/class-event-post-type.php:114-127 | The hook sets `tax_query` to the rewritten list and changes nothing else. |
| EventPostType.UnsetTaxQueryBecomesEmptyString | src/class-event-post-type.php:116 | An unset `tax_query` becomes the list `[""]`. |
| EventPostType.RewriteDropsRelation | src/class-event-post-type.php:115-126 | As written: the rewritten `tax_query` has no `relation` key. |
| EventPostType.KeepingKeysLookup | src/class-event-post-type.php:115-126 | Corrected: every key keeps its entry, passed through `WithChildren`. |
| EventPostType.KeepingKeysKeepsRelation | src/class-event-post-type.php:115-126 | Corrected: a lookup in the rewritten query equals the original's lookup passed through `WithChildren`, `relation` included. |
| EventPostType.FilterApiCollectionParams | src/class-event-post-type.php:139-142 | On success `orderby` is an array and every other key keeps its value. A string `orderby` is an error. `CollectionParamsAppend` and `CollectionParamsCreate` state the new `enum`. |
| EventPostType.CollectionParamsAppend | src/class-event-post-type.php:139-142 | 'dtstart' is appended to `orderby.enum` after the earlier entries. No other key changes. |
| EventPostType.CollectionParamsCreate | src/class-event-post-type.php:140 | A missing `orderby` is created as `{enum: ['dtstart']}`. |
| EventPostType.CollectionParamsStringIsError | src/class-event-post-type.php:140 | A string `orderby` makes the append an error. |
| EventPostQuery.DefaultArgsDistinct | src/class-event-post-query.php:42-56 | The preset has six distinct keys. |
| EventPostQuery.EndClauseFacts | src/class-event-post-query.php:43-50 | The clause compares `dtend` with now ('Y-m-d H:i:s'), using `>=` and DATETIME. |
| EventPostQuery.OrderingFacts | src/class-event-post-query.php:43-55 | There is one clause. `no_found_rows` is true, ordering is by the `dtstart` meta value as DATETIME, and the order is ascending. |
| EventPostQuery.EndClauseMeaning | src/class-event-post-query.php:43-50 | The clause holds for an event exactly when its end is not before now. |
| EventPostQuery.Upcoming | src/class-event-post-query.php:43-50 | The kept events are exactly those whose end is not before now. |
| EventPostQuery.InsertByStart | src/class-event-post-query.php:52-55 | Inserting adds one event and removes none. |
| EventPostQuery.SortByStart | src/class-event-post-query.php:52-55 | Sorting is a permutation. |
| EventPostQuery.InsertKeepsSorted | src/class-event-post-query.php:52-55 | Inserting into a start-ordered list keeps it ordered by start. |
| EventPostQuery.SortIsSorted | src/class-event-post-query.php:52-55 | The sorted list is ordered by start, ascending. |
| EventPostQuery.ListingMeaning | src/class-event-post-query.php:38-56 | The listing holds exactly the events whose end is not before now, each as often as given, ordered by start. |
| Backend.FieldRows.MaybeHideFields | assets/src/js/backend.js:2-24 | The rows become the table's record for a known mode and stay as they were otherwise. |
| Backend.FieldRows.Run | assets/src/js/backend.js:25-30 | On load and after each change, the rows are the fold of `maybeHideFields` over the modes checked. |
| Backend.TableFacts | assets/src/js/backend.js:5-22 | Offline shows the venue and the map and hides the URL and the name. Online is the reverse, and mixed shows all four. |
| Backend.UnknownModeChangesNothing | assets/src/js/backend.js:3-23 | An unknown or missing mode changes no row. |
| Backend.ApplyModeIdempotent | assets/src/js/backend.js:25-30 | Applying a mode again changes nothing, and for a known mode the rows depend on the mode alone. |
| Backend.NoKnownModeKeepsRows | assets/src/js/backend.js:25-30 | With no known mode among those checked, the rows stay as they were. |
| Backend.LastKnownModeDecides | assets/src/js/backend.js:25-30 | The rows are the table's record for the last known mode checked. |
| DateTimes.CreateFromFormat | src/class-event-metabox.php:45-51 | Every date field the format does not read is the clock's, and with no time field read the time of day is the clock's. The `ParseFormatted` lemmas state the round trips with `Format`. |
| DateTimes.ParseFormattedYmdHis | src/class-event-metabox.php:45-47 | 'Y-m-d H:i:s' reads back what it wrote, whatever the clock. |
| DateTimes.ParseFormattedYmd | src/class-event-metabox.php:214-216 | 'Y-m-d' reads back the day it wrote, at the clock's time of day. |
| DateTimes.ParseFormattedHi | src/class-event-metabox.php:228-230 | 'H:i' reads back the hour and minute it wrote, with second 0, on the clock's day. |
| DateTimes.YmdHisIgnoresClock | src/class-event-metabox.php:45 | Parsing with 'Y-m-d H:i:s' never depends on the clock. |
| DateTimes.YmdTakesClockTime | src/class-event-metabox.php:51 | Parsing with 'Y-m-d' takes the day from the text and the time of day from the clock. |
| DateTimes.HiTakesClockDate | src/class-event-metabox.php:228 | Parsing with 'H:i' takes the day from the clock and sets second 0. |
| DateTimes.YmdHisInjective | src/class-event-metabox.php:47 | Different instants are stored as different texts. |
| DateTimes.BeforeIsStrictTotalOrder | src/class-event-metabox.php:54 | The comparison of instants is a strict total order. |
| DateTimes.MissingTimeNeverParses | src/class-event-metabox.php:45 | A 'Y-m-d' date followed by " :00", with no time, never parses as 'Y-m-d H:i:s'. |
| DateTimes.FormatYmdHisShape | src/class-event-metabox.php:47 | `format('Y-m-d H:i:s')` is the 'Y-m-d' day, a space, the 'H:i' time, ':' and the two-digit second. |
| DateTimes.EmptyNeverParses | src/class-event-metabox.php:214 | The empty string never parses with a format that starts with a field. |
| PhpValues.Lookup | src/class-event-post-type.php:108 | A key is found exactly when it is present, and then with the value of an entry that has it. |
| PhpValues.Put | src/class-event-post-type.php:108 | Assignment makes the key hold the value and leaves other keys unchanged. A new key is appended at the end, and other entries keep their place. |
| PhpValues.PushFacts | src/class-event-post-type.php:121 | `$a[] = v` uses a fresh integer key and adds `v` after the existing values. |
| PhpValues.LookupPutAll | src/class-event-post-type.php:107-109 | After assigning every update, an updated key holds its update and every other key is unchanged. |

## Left out

- I/O and the host are not modelled. Host calls are parameters: `is_singular`, `filter_var`, `esc_url_raw`, `get_url_in_content` on the rendered content, `get_permalink`, the thumbnail URL, the time zone's offset at a given local instant and the locale's month names.
- The calendar library (Spatie `Link`) is a parameter: which ranges `Link::create` accepts, and what `google()` returns. Building the URL is not modelled.
- `SimpleLogger` logging in the calendar link's `catch` block is left out, because it is only output.
- Hook registration is reduced to a flag. `EventPostType.FilterApiQuery` returns `hooked` for the `add_action`, and the hook's own effect is `Query.RewriteTaxQueryHook`. WP_Query is modelled only as far as `get` returning "" for an unset key.
- The jQuery/DOM layer of backend.js is replaced by a record of four flags. Which radio is checked is an input.
- Several source methods are split into helper methods. `EndDate` is part of `append_data`, `CollectLocations` of `generate`, `AssignEach` of `filter_api_query`, and `BuildLink` of `get_calendar_link`.
- The translatable format strings are fixed to their untranslated Spanish text: 'j \d\e F Y', '%1$s al %2$s', 'Desde las %shrs.', '%shrs.', '%1$s - %2$shrs.' and 'Más información en: %s' (src/class-event-post-object.php:153-209). `__()` translation is not modelled. Month names are locale parameters.
- DateTimes.Format: carries no contract of its own. Its behaviour is stated by the round-trip lemmas `ParseFormattedYmdHis`, `ParseFormattedYmd` and `ParseFormattedHi`, by `FormatYmdHisShape`, `FormatYmdShape` and `FormatHiShape`, and by `YmdHisInjective`.
- Floating point is left out: the latitude and longitude casts, and the Place's `geo` entry.
- PHP's date and time overflow is left out. A date such as 2024-02-30 or a time such as 24:00 or 23:60 makes the model's parser fail, where PHP's `createFromFormat` rolls it over (so `sanitize_date` and `sanitize_time` would accept it). Years are limited to 0..9999.
- `mysql2date` and `new DateTime(...)` accept many more texts than 'Y-m-d H:i:s'. The model reads every stored date with the strict parser, and "" gives `false`.
- The robots filter compares seconds only. `new DateTimeImmutable('now')` carries microseconds, which are not modelled.
- EventPostObject.StoredDate: states only that an empty text gives `false`. The rest of its behaviour is stated by `StoredDateOfFormatted` and the `DateTimes` lemmas.
- EventMetabox.AppendData: requires the `dtend_time` field to be empty or canonical "HH:MM". That is what `sanitize_time` guarantees, by `SanitizedTimeIsClockTime`. Other text is not modelled. PHP would coerce numeric parts ("9:05"), treat a missing minute as 0 ("12"), or throw on non-numeric parts.
- The `isset(false)` quirk of `get_start_datetime` and `get_end_datetime` is not carried into the rest of the model. As written, a failed parse returns `false` from a function declared `?DateTimeImmutable`, which is a TypeError, so `filter_robots_meta` throws (Findings, row 5, `EventPostType.FilterRobotsMetaAsWritten`). `EventPostType.FilterRobotsMeta` follows the doc comments' null instead: a failed parse is None, and comparing the clock with it behaves like PHP's `$today > null` (true).
- `__call` snake-case dispatch is left out; it relies on a library function that is not part of this model.
- `get_fields`, `get_post_type_args` and `sanitize_data` as a whole are left out. They are declarative configuration, or delegate to sanitisers that are not part of this model. Only the plugin's own sanitisers and validators are modelled.
- wp-cpt-events.php (plugin bootstrap and manifest file read), webpack.config.js and assets/src/js/editor-block.js are not part of this model.
- The calendar-link memo stores the Link's data as a value. A PHP object held by reference would behave the same here, because nothing changes the Link after it is cached.
- Address components are a sequence of records, standing for the decoded JSON list.

## Findings

| source | as written | input that shows it | evidently intended | confidence | as-written member | corrected member |
|---|---|---|---|---|---|---|
| src/class-event-post-object.php:192-195 | `static $link` is a function-static variable, so one Link is shared by every event object in the request | a listing page calls `get_calendar_link` for event A ("Concierto"), then for event B ("Taller"); B gets A's link | one memo per event object (inferred: the link is built from `$this->post`, yet the cache is keyed on nothing and serves whichever event asked first) | not executed; high | EventPostObject.SharedMemoServesFirstEvent (with EventPostObject.CalendarLinkMemo.GetCalendarLink) | EventPostObject.EventView.CalendarLink (with EventPostObject.OwnMemoServesOwnLink) |
| src/class-event-metabox.php:51-55 | 'Y-m-d' fills the end's time of day from the clock, and that instant is compared with the start instant | start 2024-05-10 18:00, end date 2024-05-10, no end time; saved at 09:00 the end date is "corrected" and the end is 18:00:00, saved at 20:00 the end is stored as 2024-05-10 20:00:00 | compare days only, and let the adopted end keep the start's time of day | not executed; high | EventMetabox.SameDayEndFollowsClock | EventMetabox.IntendedCorrection (with EventMetabox.IntendedEndNotBeforeStart) |
| src/class-event-schema.php:33-72 | the collected `$locations` are only used to decide null; `location` stays `{name: event_place}` | an offline event with geo data: the Place built at lines 41-56 never reaches the piece | put the collected list into `location` | not executed; medium | EventSchema.CollectedLocationsAreDropped | EventSchema.IntendedSchemaCarriesLocations (with EventSchema.IntendedSchemaElsewhere) |
| src/class-event-post-type.php:115-126 | `$carry[] = $item` renumbers every entry, so the string key `relation` is lost and its value becomes clause 0 | `tax_query` = `{relation: 'OR', 0: clause1, 1: clause2}` becomes `[ 'OR', clause1', clause2' ]` | keep each entry's key and only add `include_children` | not executed; medium | EventPostType.RewriteDropsRelation | EventPostType.KeepingKeysKeepsRelation (with EventPostType.KeepingKeysLookup) |
| src/class-event-post-object.php:128-131 | `isset($dtend)` is true for the `false` that a failed `createFromFormat` returns, and `false` is returned from a function declared `?DateTimeImmutable` | a single-event page for an event saved without a start date (`dtend` is ""): `get_end_datetime` raises a TypeError inside `filter_robots_meta` (src/class-event-post-type.php:48), and the `started_no_dtend` branch can never be true | return null for an unreadable date, as the doc comment says, so an event that has started and has no end leaves the index | not executed; high | EventPostType.FilterRobotsMetaAsWritten (with EventPostType.RobotsAsWrittenThrowsWithoutEnd) | EventPostType.FilterRobotsMeta (with EventPostType.OpenEventIsOverAfterStart and EventPostType.RobotsAsWrittenAgreesWithReadableEnd) |
