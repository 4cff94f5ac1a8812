/**
 * The upcoming-events listing preset (class Event_Post_Query): query arguments that keep the
 * events whose end is not yet past and order them by start, ascending. The arguments are given
 * their meaning over a sequence of events that carry a stored start and end.
 */
module EventPostQuery {
  import opened Wrappers
  import opened PhpValues
  import opened DateTimes

  const ClauseKeys: seq<string> := ["key", "value", "compare", "type"]

  const DefaultArgKeys: seq<string> := ["meta_query", "no_found_rows", "orderby", "meta_key", "meta_type", "order"]

  /** The single `meta_query` clause: the stored end compared, as a DATETIME, with the local time now. */
  function EndClause(now: Instant): seq<Entry> {
    Zip(ClauseKeys, [Str("dtend"), Str(Format(YmdHis, now)), Str(">="), Str("DATETIME")])
  }

  /** `get_default_args()`; `now` is the site-local clock `date_i18n` reads. */
  function GetDefaultArgs(now: Instant): seq<Entry> {
    Zip(DefaultArgKeys, [
      Arr(ListOf([Arr(EndClause(now))])),
      Bool(true),
      Str("meta_value"),
      Str("dtstart"),
      Str("DATETIME"),
      Str("ASC")])
  }

  lemma KeysFacts()
    ensures Distinct(ClauseKeys) && Distinct(DefaultArgKeys)
  {
    forall i, j | 0 <= i < j < |DefaultArgKeys| ensures DefaultArgKeys[i] != DefaultArgKeys[j] {
      assert |DefaultArgKeys[i]| != |DefaultArgKeys[j]|;
    }
    forall i, j | 0 <= i < j < |ClauseKeys| ensures ClauseKeys[i] != ClauseKeys[j] {
      assert |ClauseKeys[i]| != |ClauseKeys[j]|;
    }
  }

  /** The preset's keys are distinct, so assigning them one by one leaves each with its value. */
  lemma DefaultArgsDistinct(now: Instant)
    ensures DistinctKeys(GetDefaultArgs(now))
    ensures forall i :: 0 <= i < |DefaultArgKeys| ==> HasKey(GetDefaultArgs(now), StrKey(DefaultArgKeys[i]))
  {
    KeysFacts();
    var a := GetDefaultArgs(now);
    forall i, j | 0 <= i < j < |a| ensures a[i].key != a[j].key {
      assert a[i].key == StrKey(DefaultArgKeys[i]) && a[j].key == StrKey(DefaultArgKeys[j]);
    }
    forall i | 0 <= i < |DefaultArgKeys| ensures HasKey(a, StrKey(DefaultArgKeys[i])) {
      assert a[i].key == StrKey(DefaultArgKeys[i]);
    }
  }

  /** The clause asks for a stored end at or after now, compared as DATETIME. */
  lemma EndClauseFacts(now: Instant)
    ensures Lookup(EndClause(now), StrKey("key")) == Some(Str("dtend"))
    ensures Lookup(EndClause(now), StrKey("value")) == Some(Str(Format(YmdHis, now)))
    ensures Lookup(EndClause(now), StrKey("compare")) == Some(Str(">="))
    ensures Lookup(EndClause(now), StrKey("type")) == Some(Str("DATETIME"))
  {
    KeysFacts();
    var vs := [Str("dtend"), Str(Format(YmdHis, now)), Str(">="), Str("DATETIME")];
    ZipLookup(ClauseKeys, vs, 0);
    ZipLookup(ClauseKeys, vs, 1);
    ZipLookup(ClauseKeys, vs, 2);
    ZipLookup(ClauseKeys, vs, 3);
  }

  /** Ordering is by the `dtstart` meta value, as DATETIME, ascending, and no total is counted. */
  lemma OrderingFacts(now: Instant)
    ensures Lookup(GetDefaultArgs(now), StrKey("meta_query")) == Some(Arr(ListOf([Arr(EndClause(now))])))
    ensures Lookup(GetDefaultArgs(now), StrKey("no_found_rows")) == Some(Bool(true))
    ensures Lookup(GetDefaultArgs(now), StrKey("orderby")) == Some(Str("meta_value"))
    ensures Lookup(GetDefaultArgs(now), StrKey("meta_key")) == Some(Str("dtstart"))
    ensures Lookup(GetDefaultArgs(now), StrKey("meta_type")) == Some(Str("DATETIME"))
    ensures Lookup(GetDefaultArgs(now), StrKey("order")) == Some(Str("ASC"))
  {
    KeysFacts();
    var vs := [Arr(ListOf([Arr(EndClause(now))])), Bool(true), Str("meta_value"), Str("dtstart"), Str("DATETIME"), Str("ASC")];
    ZipLookup(DefaultArgKeys, vs, 0);
    ZipLookup(DefaultArgKeys, vs, 1);
    ZipLookup(DefaultArgKeys, vs, 2);
    ZipLookup(DefaultArgKeys, vs, 3);
    ZipLookup(DefaultArgKeys, vs, 4);
    ZipLookup(DefaultArgKeys, vs, 5);
  }

  // ---------------------------------------------------------------- what the preset lists

  /** An event as the listing sees it: its id and the instants its `dtstart`/`dtend` meta hold. */
  datatype ListedEvent = ListedEvent(id: int, start: Instant, end: Instant)

  /** A DATETIME comparison `meta >= value` of two stored date strings; unreadable ones never match. */
  predicate DateTimeAtLeast(meta: string, value: string) {
    var m, v := CreateFromFormat(YmdHis, meta, Epoch), CreateFromFormat(YmdHis, value, Epoch);
    m.Some? && v.Some? && !Before(m.value, v.value)
  }

  /** The clause holds for an event whose stored end is not before now. */
  lemma EndClauseMeaning(ev: ListedEvent, now: Instant)
    ensures DateTimeAtLeast(Format(YmdHis, ev.end), Format(YmdHis, now)) <==> !Before(ev.end, now)
  {
    ParseFormattedYmdHis(ev.end, Epoch);
    ParseFormattedYmdHis(now, Epoch);
  }

  /** The events the clause keeps, in their given order. */
  function Upcoming(events: seq<ListedEvent>, now: Instant): (r: seq<ListedEvent>)
    ensures forall ev :: ev in r <==> ev in events && !Before(ev.end, now)
    ensures |r| <= |events|
  {
    if events == [] then []
    else
      var rest := Upcoming(events[1..], now);
      assert forall ev :: ev in events <==> ev == events[0] || ev in events[1..];
      if Before(events[0].end, now) then rest else [events[0]] + rest
  }

  predicate SortedByStart(s: seq<ListedEvent>) {
    forall i, j :: 0 <= i < j < |s| ==> !Before(s[j].start, s[i].start)
  }

  /** Places `ev` before the first event that starts later than it. */
  function InsertByStart(ev: ListedEvent, s: seq<ListedEvent>): (r: seq<ListedEvent>)
    ensures multiset(r) == multiset(s) + multiset{ev}
  {
    if s == [] then [ev]
    else if Before(ev.start, s[0].start) then [ev] + s
    else
      assert s == [s[0]] + s[1..];
      [s[0]] + InsertByStart(ev, s[1..])
  }

  /** Ascending by start. */
  function SortByStart(s: seq<ListedEvent>): (r: seq<ListedEvent>)
    ensures multiset(r) == multiset(s)
  {
    if s == [] then []
    else
      assert s == [s[0]] + s[1..];
      InsertByStart(s[0], SortByStart(s[1..]))
  }

  /** What a query with the preset returns from `events` at `now`. */
  function Listing(events: seq<ListedEvent>, now: Instant): seq<ListedEvent> {
    SortByStart(Upcoming(events, now))
  }

  lemma InsertMembers(ev: ListedEvent, s: seq<ListedEvent>)
    ensures forall x :: x in InsertByStart(ev, s) ==> x == ev || x in s
  {
    var r := InsertByStart(ev, s);
    forall x | x in r ensures x == ev || x in s {
      assert x in multiset(r);
    }
  }

  lemma TailSorted(s: seq<ListedEvent>)
    requires SortedByStart(s) && s != []
    ensures SortedByStart(s[1..])
    ensures forall x :: x in s[1..] ==> !Before(x.start, s[0].start)
  {
    forall i, j | 0 <= i < j < |s| - 1 ensures !Before(s[1..][j].start, s[1..][i].start) {
      assert s[1..][i] == s[i + 1] && s[1..][j] == s[j + 1];
    }
    forall x | x in s[1..] ensures !Before(x.start, s[0].start) {
      var k :| 0 <= k < |s[1..]| && s[1..][k] == x;
      assert s[1..][k] == s[k + 1];
    }
  }

  lemma {:induction false} InsertKeepsSorted(ev: ListedEvent, s: seq<ListedEvent>)
    requires SortedByStart(s)
    ensures SortedByStart(InsertByStart(ev, s))
  {
    if s != [] && !Before(ev.start, s[0].start) {
      TailSorted(s);
      InsertKeepsSorted(ev, s[1..]);
      InsertMembers(ev, s[1..]);
      var r := InsertByStart(ev, s);
      var t := InsertByStart(ev, s[1..]);
      assert r == [s[0]] + t;
      forall i, j | 0 <= i < j < |r| ensures !Before(r[j].start, r[i].start) {
        assert r[j] == t[j - 1];
        if i == 0 {
          assert r[j] in t;
        } else {
          assert r[i] == t[i - 1];
        }
      }
    }
  }

  lemma {:induction false} SortIsSorted(s: seq<ListedEvent>)
    ensures SortedByStart(SortByStart(s))
  {
    if s != [] {
      SortIsSorted(s[1..]);
      InsertKeepsSorted(s[0], SortByStart(s[1..]));
    }
  }

  /** The preset lists exactly the events whose end is not before now, each once, ascending by start. */
  lemma ListingMeaning(events: seq<ListedEvent>, now: Instant)
    ensures SortedByStart(Listing(events, now))
    ensures multiset(Listing(events, now)) == multiset(Upcoming(events, now))
    ensures forall ev :: ev in Listing(events, now) <==> ev in events && !Before(ev.end, now)
  {
    SortIsSorted(Upcoming(events, now));
    var l := Listing(events, now);
    forall ev ensures ev in l <==> ev in Upcoming(events, now) {
      assert ev in l <==> ev in multiset(l);
    }
  }
}
