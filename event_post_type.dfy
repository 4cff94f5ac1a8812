/**
 * The request filters of the event post type (class Event_Post_Type): the robots meta of a
 * single event page, the REST item, the REST query and its `tax_query` rewrite, and the REST
 * collection parameters.
 */
module EventPostType {
  import opened Wrappers
  import opened PhpValues
  import opened DateTimes
  import opened EventPostObject
  import opened EventSchema
  import opened EventPostQuery

  // ---------------------------------------------------------------- filter_robots_meta

  /**
   * Whether the page of `e` is taken out of the index at `now`: it has started and has no
   * readable end, or its readable end is past. An unreadable date is the null that
   * `get_start_datetime`/`get_end_datetime` document, and an unreadable start counts as
   * started, as PHP orders any object after null.
   */
  predicate EventIsOver(e: EventPost, now: Instant) {
    var start, end := CreateFromFormat(YmdHis, e.dtstart, now), CreateFromFormat(YmdHis, e.dtend, now);
    var startedNoEnd := end.None? && (start.None? || Before(start.value, now));
    var isFinished := end.Some? && Before(end.value, now);
    startedNoEnd || isFinished
  }

  /** `filter_robots_meta()`; `isSingular` is `is_singular('event')`. */
  function FilterRobotsMeta(robots: seq<Entry>, isSingular: bool, e: EventPost, now: Instant): (r: seq<Entry>)
    ensures !isSingular || !EventIsOver(e, now) ==> r == robots
    ensures isSingular && EventIsOver(e, now) ==>
      Lookup(r, StrKey("index")) == Some(Bool(false)) && Lookup(r, StrKey("noindex")) == Some(Bool(true))
    ensures forall k :: k != StrKey("index") && k != StrKey("noindex") ==> Lookup(r, k) == Lookup(robots, k)
  {
    if !isSingular then robots
    else if EventIsOver(e, now) then Put(Put(robots, StrKey("index"), Bool(false)), StrKey("noindex"), Bool(true))
    else robots
  }

  /** Filtering twice is filtering once. */
  lemma RobotsIdempotent(robots: seq<Entry>, isSingular: bool, e: EventPost, now: Instant)
    ensures var once := FilterRobotsMeta(robots, isSingular, e, now);
      forall k :: Lookup(FilterRobotsMeta(once, isSingular, e, now), k) == Lookup(once, k)
  {
  }

  /** For an event stored by the normaliser, the page leaves the index exactly once its end is past. */
  lemma StoredEventIsOverAfterEnd(e: EventPost, now: Instant, start: Instant, end: Instant)
    requires e.dtstart == Format(YmdHis, start) && e.dtend == Format(YmdHis, end)
    ensures EventIsOver(e, now) <==> Before(end, now)
  {
    ParseFormattedYmdHis(end, now);
    ParseFormattedYmdHis(start, now);
  }

  /** Without a readable end, the page leaves the index once the event has started. */
  lemma OpenEventIsOverAfterStart(e: EventPost, now: Instant, start: Instant)
    requires e.dtstart == Format(YmdHis, start) && e.dtend == ""
    ensures EventIsOver(e, now) <==> Before(start, now)
  {
    ParseFormattedYmdHis(start, now);
    EmptyNeverParses(YmdHis, now);
  }


  /**
   * `filter_robots_meta()` as written: `get_end_datetime()` returns `false` for an unreadable
   * end, which its `?DateTimeImmutable` return type refuses with a TypeError. A readable end
   * short-circuits before `get_start_datetime()` is called, so only the end decides.
   */
  function FilterRobotsMetaAsWritten(robots: seq<Entry>, isSingular: bool, e: EventPost, now: Instant): (r: Result<seq<Entry>, string>)
    ensures r.Err? <==> isSingular && CreateFromFormat(YmdHis, e.dtend, now).None?
  {
    if !isSingular then Ok(robots)
    else match CreateFromFormat(YmdHis, e.dtend, now)
      case None => Err("TypeError")
      case Some(end) =>
        Ok(if Before(end, now) then Put(Put(robots, StrKey("index"), Bool(false)), StrKey("noindex"), Bool(true))
           else robots)
  }

  /** As written, the "started, no end" branch is never reached: with a readable end the two versions agree, and without one the filter throws. */
  lemma RobotsAsWrittenThrowsWithoutEnd(robots: seq<Entry>, e: EventPost, now: Instant, start: Instant)
    requires e.dtstart == Format(YmdHis, start) && Before(start, now) && e.dtend == ""
    ensures FilterRobotsMetaAsWritten(robots, true, e, now).Err?
    ensures Lookup(FilterRobotsMeta(robots, true, e, now), StrKey("noindex")) == Some(Bool(true))
  {
    EmptyNeverParses(YmdHis, now);
    OpenEventIsOverAfterStart(e, now, start);
  }

  /** With a readable end, or off a single event, the code as written returns the documented result. */
  lemma RobotsAsWrittenAgreesWithReadableEnd(robots: seq<Entry>, isSingular: bool, e: EventPost, now: Instant)
    requires !isSingular || CreateFromFormat(YmdHis, e.dtend, now).Some?
    ensures FilterRobotsMetaAsWritten(robots, isSingular, e, now) == Ok(FilterRobotsMeta(robots, isSingular, e, now))
  {
  }

  // ---------------------------------------------------------------- filter_api_item

  /** A `WP_REST_Response`, holding its data array. */
  class RestResponse {
    var data: seq<Entry>

    constructor(data: seq<Entry>)
      ensures this.data == data
    {
      this.data := data;
    }
  }

  /** The item data with the event's dates ('c', or `false`) and its full-day flag. */
  function ItemData(data: seq<Entry>, post: EventPost, tzOffset: Instant -> string): (r: seq<Entry>)
    ensures Lookup(r, StrKey("full_day")) == Some(Bool(StringToBool(post.fullDay)))
    ensures forall k :: k != StrKey("full_day") && k != StrKey("dtstart") && k != StrKey("dtend") ==>
      Lookup(r, k) == Lookup(data, k)
  {
    var withStart := Put(data, StrKey("dtstart"), StrOrFalse(IsoDate(post.dtstart, tzOffset)));
    var withEnd := Put(withStart, StrKey("dtend"), StrOrFalse(IsoDate(post.dtend, tzOffset)));
    Put(withEnd, StrKey("full_day"), Bool(StringToBool(post.fullDay)))
  }

  /** `filter_api_item()`: the same response, its data augmented. */
  method FilterApiItem(response: RestResponse, post: EventPost, tzOffset: Instant -> string) returns (r: RestResponse)
    modifies response
    ensures r == response
    ensures response.data == ItemData(old(response.data), post, tzOffset)
  {
    var data := response.data;
    data := Put(data, StrKey("dtstart"), StrOrFalse(IsoDate(post.dtstart, tzOffset)));
    data := Put(data, StrKey("dtend"), StrOrFalse(IsoDate(post.dtend, tzOffset)));
    data := Put(data, StrKey("full_day"), Bool(StringToBool(post.fullDay)));
    response.data := data;
    return response;
  }

  /** The three added keys hold the dates and the flag; every other key keeps its value. */
  lemma ItemDataFacts(data: seq<Entry>, post: EventPost, tzOffset: Instant -> string)
    ensures Lookup(ItemData(data, post, tzOffset), StrKey("dtstart")) == Some(StrOrFalse(IsoDate(post.dtstart, tzOffset)))
    ensures Lookup(ItemData(data, post, tzOffset), StrKey("dtend")) == Some(StrOrFalse(IsoDate(post.dtend, tzOffset)))
    ensures Lookup(ItemData(data, post, tzOffset), StrKey("full_day")) == Some(Bool(StringToBool(post.fullDay)))
    ensures forall k :: k != StrKey("dtstart") && k != StrKey("dtend") && k != StrKey("full_day") ==>
      Lookup(ItemData(data, post, tzOffset), k) == Lookup(data, k)
  {
    var start, end := StrKey("dtstart"), StrKey("dtend");
    var withStart := Put(data, start, StrOrFalse(IsoDate(post.dtstart, tzOffset)));
    var withEnd := Put(withStart, end, StrOrFalse(IsoDate(post.dtend, tzOffset)));
    assert |"dtstart"| != |"dtend"| && |"dtend"| != |"full_day"| && |"dtstart"| != |"full_day"|;
    assert Lookup(withEnd, start) == Lookup(withStart, start);
  }

  /** A stored start reads back in the item as its ISO 8601 form, with the zone's offset at that instant. */
  lemma ItemStartOfStored(data: seq<Entry>, post: EventPost, tzOffset: Instant -> string, dt: Instant)
    requires post.dtstart == Format(YmdHis, dt)
    ensures Lookup(ItemData(data, post, tzOffset), StrKey("dtstart")) == Some(Str(Format(IsoLocal, dt) + tzOffset(dt)))
  {
    StoredDateOfFormatted(dt);
  }

  // ---------------------------------------------------------------- filter_api_query

  /**
   * `filter_api_query()`: the preset's arguments override `$args` when the request orders by
   * `dtstart`; `hooked` says whether the `tax_query` rewrite was registered for
   * `pre_get_posts`. The request parameters are given (Null when absent).
   */
  method FilterApiQuery(args: seq<Entry>, orderby: Value, eventsTax: Value, now: Instant)
    returns (r: seq<Entry>, hooked: bool)
    ensures r == if orderby == Str("dtstart") then PutAll(args, GetDefaultArgs(now)) else args
    ensures hooked <==> !IsEmpty(eventsTax)
  {
    var defaults := GetDefaultArgs(now);
    r := args;
    if orderby == Str("dtstart") {
      r := AssignEach(args, defaults);
    }
    hooked := !IsEmpty(eventsTax);
  }

  /** The `foreach` of `filter_api_query`: `$args[$key] = $val` for each entry, in order. */
  method AssignEach(args: seq<Entry>, updates: seq<Entry>) returns (r: seq<Entry>)
    ensures r == PutAll(args, updates)
  {
    r := args;
    for i := 0 to |updates|
      invariant r == PutAll(args, updates[..i])
    {
      assert updates[..i + 1][..i] == updates[..i];
      r := Put(r, updates[i].key, updates[i].val);
    }
    assert updates[..|updates|] == updates;
  }

  /** Ordering by `dtstart` imposes every preset key and keeps every other key of `$args`. */
  lemma ApiQueryOverrides(args: seq<Entry>, now: Instant, k: Key)
    ensures Lookup(PutAll(args, GetDefaultArgs(now)), k)
      == if HasKey(GetDefaultArgs(now), k) then Lookup(GetDefaultArgs(now), k) else Lookup(args, k)
  {
    DefaultArgsDistinct(now);
    LookupPutAll(args, GetDefaultArgs(now), k);
  }

  // ---------------------------------------------------------------- the tax_query rewrite

  /** `(array) $v`. */
  function CastToArray(v: Value): (r: seq<Entry>)
    ensures v.Arr? ==> r == v.entries
    ensures v.Null? ==> r == []
  {
    match v
    case Null => []
    case Arr(entries) => entries
    case _ => [Entry(IntKey(0), v)]
  }

  /** A tax clause with `include_children` set; anything but an array is kept as it is. */
  function WithChildren(item: Value): (r: Value)
    ensures item.Arr? ==> r.Arr? && Lookup(r.entries, StrKey("include_children")) == Some(Bool(true))
    ensures !item.Arr? ==> r == item
  {
    if item.Arr? then Arr(Put(item.entries, StrKey("include_children"), Bool(true))) else item
  }

  /** The `array_reduce`: each item, rewritten, pushed in order onto an empty array. */
  function ReduceTaxQuery(items: seq<Entry>): (r: seq<Entry>)
    ensures |r| == |items|
    decreases |items|
  {
    if items == [] then []
    else
      var n := |items| - 1;
      Push(ReduceTaxQuery(items[..n]), WithChildren(items[n].val))
  }

  /** The new `tax_query` for the value `$q->get('tax_query')` gave. */
  function RewriteTaxQuery(current: Value): (r: seq<Entry>)
    ensures |r| == |CastToArray(current)|
  {
    ReduceTaxQuery(CastToArray(current))
  }

  function MapWithChildren(vs: seq<Value>): (r: seq<Value>)
    ensures |r| == |vs| && forall i :: 0 <= i < |vs| ==> r[i] == WithChildren(vs[i])
  {
    seq(|vs|, i requires 0 <= i < |vs| => WithChildren(vs[i]))
  }

  /** The rewrite keeps every item, in order, as a list under 0, 1, 2, ..., clauses with `include_children`. */
  lemma {:induction false} ReduceIsList(items: seq<Entry>)
    ensures ReduceTaxQuery(items) == ListOf(MapWithChildren(Values(items)))
    decreases |items|
  {
    if items != [] {
      var n := |items| - 1;
      ReduceIsList(items[..n]);
      var vs := MapWithChildren(Values(items[..n]));
      ListNextIndex(vs);
      MapValuesAppend(items);
      ListOfAppend(vs, WithChildren(items[n].val));
    }
  }

  lemma MapValuesAppend(items: seq<Entry>)
    requires items != []
    ensures MapWithChildren(Values(items))
      == MapWithChildren(Values(items[..|items| - 1])) + [WithChildren(items[|items| - 1].val)]
  {
  }

  lemma ListOfAppend(vs: seq<Value>, x: Value)
    ensures ListOf(vs + [x]) == ListOf(vs) + [Entry(IntKey(|vs|), x)]
  {
  }

  /** The next index of a list of length n is n. */
  lemma ListNextIndex(vs: seq<Value>)
    ensures NextIndex(ListOf(vs)) == |vs|
  {
    var l := ListOf(vs);
    NextIndexAtMost(l, |vs|);
    if vs != [] {
      assert l[|vs| - 1].key == IntKey(|vs| - 1);
    }
  }

  /** The next index is at most `m` when every integer key is below `m` (and `m` is not negative). */
  lemma {:induction false} NextIndexAtMost(a: seq<Entry>, m: int)
    requires m >= 0
    requires forall i :: 0 <= i < |a| && a[i].key.IntKey? ==> a[i].key.i < m
    ensures NextIndex(a) <= m
    decreases |a|
  {
    if a != [] {
      assert forall i :: 0 <= i < |a[1..]| ==> a[1..][i] == a[i + 1];
      NextIndexAtMost(a[1..], m);
    }
  }

  /** `pre_get_posts` as registered: a WP_Query whose query variables the hook rewrites. */
  class Query {
    var vars: seq<Entry>

    constructor(vars: seq<Entry>)
      ensures this.vars == vars
    {
      this.vars := vars;
    }

    /** `WP_Query::get($key)`: the variable when it is set and not null, else its default "". */
    function Get(key: string): (v: Value)
      reads this
      ensures HasKey(vars, StrKey(key)) && Lookup(vars, StrKey(key)).value != Null ==> v == Lookup(vars, StrKey(key)).value
      ensures !HasKey(vars, StrKey(key)) ==> v == Str("")
    {
      match Lookup(vars, StrKey(key))
      case Some(x) => if x == Null then Str("") else x
      case None => Str("")
    }

    /** The closure registered for `pre_get_posts`. */
    method RewriteTaxQueryHook()
      modifies this
      ensures vars == Put(old(vars), StrKey("tax_query"), Arr(RewriteTaxQuery(old(Get("tax_query")))))
    {
      var newTaxQuery := RewriteTaxQuery(Get("tax_query"));
      vars := Put(vars, StrKey("tax_query"), Arr(newTaxQuery));
    }
  }

  /** An unset `tax_query` becomes a list holding the one item "" (the default of `get`). */
  lemma UnsetTaxQueryBecomesEmptyString()
    ensures RewriteTaxQuery(Str("")) == [Entry(IntKey(0), Str(""))]
  {
  }

  /** As written, a `relation` entry of the tax query is not kept under its key. */
  lemma RewriteDropsRelation(clauses: seq<Entry>, relation: string)
    ensures !HasKey(RewriteTaxQuery(Arr([Entry(StrKey("relation"), Str(relation))] + clauses)), StrKey("relation"))
  {
    var items := [Entry(StrKey("relation"), Str(relation))] + clauses;
    ReduceIsList(items);
  }

  /** Each item rewritten in place, under its own key. */
  function KeepKeys(items: seq<Entry>): (r: seq<Entry>)
    ensures |r| == |items|
    ensures forall i :: 0 <= i < |r| ==> r[i] == Entry(items[i].key, WithChildren(items[i].val))
  {
    if items == [] then [] else [Entry(items[0].key, WithChildren(items[0].val))] + KeepKeys(items[1..])
  }

  /** The rewrite that keeps every item under its own key, the relation included. */
  function RewriteTaxQueryKeepingKeys(current: Value): seq<Entry> {
    KeepKeys(CastToArray(current))
  }

  /** Keeping the keys keeps the relation and sets `include_children` on every clause. */
  lemma {:induction false} KeepingKeysLookup(items: seq<Entry>, k: Key)
    ensures Lookup(KeepKeys(items), k) == match Lookup(items, k) case Some(v) => Some(WithChildren(v)) case None => None
    decreases |items|
  {
    if items != [] {
      KeepingKeysLookup(items[1..], k);
      LookupCons(Entry(items[0].key, WithChildren(items[0].val)), KeepKeys(items[1..]), k);
      LookupCons(items[0], items[1..], k);
      assert items == [items[0]] + items[1..];
    }
  }

  /** The corrected rewrite, read through any key, including `relation`. */
  lemma KeepingKeysKeepsRelation(current: Value, k: Key)
    ensures Lookup(RewriteTaxQueryKeepingKeys(current), k) == match Lookup(CastToArray(current), k)
      case Some(v) => Some(WithChildren(v))
      case None => None
  {
    KeepingKeysLookup(CastToArray(current), k);
  }

  // ---------------------------------------------------------------- filter_api_collection_params

  /** The array an element assignment writes into: absent, null and `false` start a new one; other scalars throw. */
  function Autovivify(v: Option<Value>): Option<seq<Entry>> {
    match v
    case None => Some([])
    case Some(Null) => Some([])
    case Some(Bool(b)) => if b then None else Some([])
    case Some(Str(_)) => None
    case Some(Arr(entries)) => Some(entries)
  }

  /** `$params['orderby']['enum'][] = 'dtstart'`; None stands for the Error PHP throws. */
  function FilterApiCollectionParams(params: seq<Entry>): (r: Option<seq<Entry>>)
    ensures r.Some? ==> Lookup(r.value, StrKey("orderby")).Some? && Lookup(r.value, StrKey("orderby")).value.Arr?
    ensures r.Some? ==> forall k :: k != StrKey("orderby") ==> Lookup(r.value, k) == Lookup(params, k)
    ensures Lookup(params, StrKey("orderby")).Some? && Lookup(params, StrKey("orderby")).value.Str? ==> r.None?
  {
    match Autovivify(Lookup(params, StrKey("orderby")))
    case None => None
    case Some(orderby) =>
      match Autovivify(Lookup(orderby, StrKey("enum")))
      case None => None
      case Some(enum) =>
        Some(Put(params, StrKey("orderby"), Arr(Put(orderby, StrKey("enum"), Arr(Push(enum, Str("dtstart")))))))
  }

  /** 'dtstart' is appended to the end of `orderby.enum`; the earlier entries and every other key are kept. */
  lemma CollectionParamsAppend(params: seq<Entry>, orderby: seq<Entry>, enum: seq<Entry>)
    requires Lookup(params, StrKey("orderby")) == Some(Arr(orderby))
    requires Lookup(orderby, StrKey("enum")) == Some(Arr(enum))
    ensures FilterApiCollectionParams(params).Some?
    ensures var r := FilterApiCollectionParams(params).value;
      Lookup(r, StrKey("orderby")).Some? && Lookup(r, StrKey("orderby")).value.Arr? &&
      var o := Lookup(r, StrKey("orderby")).value.entries;
      Lookup(o, StrKey("enum")).Some? && Lookup(o, StrKey("enum")).value.Arr? &&
      var en := Lookup(o, StrKey("enum")).value.entries;
      Values(en) == Values(enum) + [Str("dtstart")] && en[..|enum|] == enum
      && (forall k :: k != StrKey("enum") ==> Lookup(o, k) == Lookup(orderby, k))
      && (forall k :: k != StrKey("orderby") ==> Lookup(r, k) == Lookup(params, k))
  {
    var en := Push(enum, Str("dtstart"));
    var o := Put(orderby, StrKey("enum"), Arr(en));
    var r := Put(params, StrKey("orderby"), Arr(o));
    assert FilterApiCollectionParams(params) == Some(r);
    PushFacts(enum, Str("dtstart"));
    assert en[..|enum|] == enum;
  }

  /** A missing `orderby` is created, holding an `enum` with just 'dtstart'. */
  lemma CollectionParamsCreate(params: seq<Entry>)
    requires !HasKey(params, StrKey("orderby"))
    ensures FilterApiCollectionParams(params)
      == Some(params + [Entry(StrKey("orderby"), Arr([Entry(StrKey("enum"), Arr([Entry(IntKey(0), Str("dtstart"))]))]))])
  {
    assert Push([], Str("dtstart")) == [Entry(IntKey(0), Str("dtstart"))];
    assert Put([], StrKey("enum"), Arr([Entry(IntKey(0), Str("dtstart"))])) == [Entry(StrKey("enum"), Arr([Entry(IntKey(0), Str("dtstart"))]))];
  }

  /** A string under `orderby` cannot be written into: PHP throws. */
  lemma CollectionParamsStringIsError(params: seq<Entry>, s: string)
    requires Lookup(params, StrKey("orderby")) == Some(Str(s))
    ensures FilterApiCollectionParams(params) == None
  {
  }
}
