/**
 * The event meta box's admin script (assets/src/js/backend.js): the checked attendance mode
 * decides which of four form rows are shown. The rows are a visibility record; jQuery's
 * `show`/`hide` set one flag each.
 */
module Backend {
  import opened Wrappers

  /** Which rows are shown: the location URL, the virtual location name, the venue and the map picker. */
  datatype Visibility = Visibility(locationUrl: bool, virtualLocationName: bool, location: bool, geoPicker: bool)

  /** The switch of `maybeHideFields`: a visibility for each known mode, none otherwise. */
  function Table(mode: Option<string>): Option<Visibility> {
    match mode
    case Some("OfflineEventAttendanceMode") => Some(Visibility(false, false, true, true))
    case Some("OnlineEventAttendanceMode") => Some(Visibility(true, true, false, false))
    case Some("MixedEventAttendanceMode") => Some(Visibility(true, true, true, true))
    case _ => None
  }

  /** The rows after `maybeHideFields` with `mode` checked: the table's record, or the rows as they were. */
  function ApplyMode(v: Visibility, mode: Option<string>): Visibility {
    Table(mode).GetOr(v)
  }

  /** The rows of the meta box form. */
  class FieldRows {
    var locationUrl: bool
    var virtualLocationName: bool
    var location: bool
    var geoPicker: bool

    function Snapshot(): Visibility
      reads this
    {
      Visibility(locationUrl, virtualLocationName, location, geoPicker)
    }

    constructor(v: Visibility)
      ensures Snapshot() == v
    {
      locationUrl, virtualLocationName, location, geoPicker := v.locationUrl, v.virtualLocationName, v.location, v.geoPicker;
    }

    /** `maybeHideFields()`; `checked` is the value of the checked type radio (None when none is). */
    method MaybeHideFields(checked: Option<string>)
      modifies this
      ensures Snapshot() == ApplyMode(old(Snapshot()), checked)
    {
      if checked == Some("OfflineEventAttendanceMode") {
        locationUrl := false;
        virtualLocationName := false;
        location := true;
        geoPicker := true;
      } else if checked == Some("OnlineEventAttendanceMode") {
        locationUrl := true;
        virtualLocationName := true;
        location := false;
        geoPicker := false;
      } else if checked == Some("MixedEventAttendanceMode") {
        locationUrl := true;
        virtualLocationName := true;
        location := true;
        geoPicker := true;
      }
    }

    /**
     * The page's life: `maybeHideFields` on document ready with `onLoad` checked, then once for
     * each change of the type radio, with the mode checked after it.
     */
    method Run(onLoad: Option<string>, changes: seq<Option<string>>)
      modifies this
      ensures Snapshot() == ApplyAll(old(Snapshot()), [onLoad] + changes)
    {
      ghost var start := Snapshot();
      MaybeHideFields(onLoad);
      var i := 0;
      while i < |changes|
        invariant 0 <= i <= |changes|
        invariant Snapshot() == ApplyAll(start, [onLoad] + changes[..i])
      {
        assert ([onLoad] + changes[..i + 1])[..i + 1] == [onLoad] + changes[..i];
        MaybeHideFields(changes[i]);
        i := i + 1;
      }
      assert changes[..i] == changes;
    }
  }

  /** The rows after `maybeHideFields` ran with each of `modes` checked in turn. */
  function ApplyAll(v: Visibility, modes: seq<Option<string>>): Visibility
    decreases |modes|
  {
    if modes == [] then v else ApplyMode(ApplyAll(v, modes[..|modes| - 1]), modes[|modes| - 1])
  }

  predicate Known(mode: Option<string>) {
    Table(mode).Some?
  }

  /** Offline shows the venue and the map and hides the URL and the name; online the reverse; mixed shows all. */
  lemma TableFacts(v: Visibility, mode: Option<string>)
    requires Known(mode)
    ensures mode in {Some("OfflineEventAttendanceMode"), Some("OnlineEventAttendanceMode"), Some("MixedEventAttendanceMode")}
    ensures ApplyMode(v, mode).location <==> mode != Some("OnlineEventAttendanceMode")
    ensures ApplyMode(v, mode).geoPicker <==> mode != Some("OnlineEventAttendanceMode")
    ensures ApplyMode(v, mode).locationUrl <==> mode != Some("OfflineEventAttendanceMode")
    ensures ApplyMode(v, mode).virtualLocationName <==> mode != Some("OfflineEventAttendanceMode")
  {
  }

  /** No row changes for an unknown or missing mode, as the switch has no default. */
  lemma UnknownModeChangesNothing(v: Visibility, mode: Option<string>)
    requires !Known(mode)
    ensures ApplyMode(v, mode) == v
  {
  }

  /** For a known mode the rows depend only on the mode, so applying it again changes nothing. */
  lemma ApplyModeIdempotent(v: Visibility, w: Visibility, mode: Option<string>)
    ensures ApplyMode(ApplyMode(v, mode), mode) == ApplyMode(v, mode)
    ensures Known(mode) ==> ApplyMode(v, mode) == ApplyMode(w, mode)
  {
  }

  /** With no known mode among those checked, the rows stay as they were. */
  lemma {:induction false} NoKnownModeKeepsRows(v: Visibility, modes: seq<Option<string>>)
    requires forall i :: 0 <= i < |modes| ==> !Known(modes[i])
    ensures ApplyAll(v, modes) == v
    decreases |modes|
  {
    if modes != [] {
      var n := |modes| - 1;
      assert forall i :: 0 <= i < n ==> modes[..n][i] == modes[i];
      NoKnownModeKeepsRows(v, modes[..n]);
    }
  }

  /** After load and any changes, the rows are those of the last known mode checked. */
  lemma {:induction false} LastKnownModeDecides(v: Visibility, modes: seq<Option<string>>, i: int)
    requires 0 <= i < |modes| && Known(modes[i])
    requires forall j :: i < j < |modes| ==> !Known(modes[j])
    ensures ApplyAll(v, modes) == Table(modes[i]).value
    decreases |modes|
  {
    var n := |modes| - 1;
    if i < n {
      assert forall j :: i < j < n ==> modes[..n][j] == modes[j];
      LastKnownModeDecides(v, modes[..n], i);
    }
  }
}
