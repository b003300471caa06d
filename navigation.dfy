/**
 * The navigation readout of `updateNavImmediate`: the relative angle the
 * arrow turns by, the eight-way direction label, and the proximity
 * vibration, together with the guards that decide whether an update runs.
 */
module Navigation {
  import opened Wrappers
  import opened JsNumber
  import opened Targets
  import opened Surveys
  import opened Copies

  /** `lastPosition.coords` reduced to what navigation reads. */
  datatype GeoPoint = GeoPoint(lat: real, lon: real)

  /**
   * `haversineMeters` and `bearingTo`, taken as given functions of the two
   * points; the spherical trigonometry is not modelled.
   */
  datatype Geo = Geo(distance: (GeoPoint, GeoPoint) -> real, bearing: (GeoPoint, GeoPoint) -> real)

  /** `((brg - h) + 540) % 360 - 180`: how far to turn from the heading to face the target. */
  function RelativeAngle(brg: real, h: real): (rel: real)
    ensures Congruent(rel, brg - h, 360.0)
    ensures 0.0 <= brg < 360.0 && 0.0 <= h < 360.0 ==> -180.0 <= rel < 180.0
  {
    var x := brg - h + 540.0;
    var r := Rem(x, 360.0);
    CongruentMultiple(r, x, 360.0);
    CongruentByMultiple(r - 180.0, brg - h, 360.0, ((r - x) / 360.0).Floor + 1);
    r - 180.0
  }

  /** The `if` chain of `updateNavImmediate`; "" stands for no branch taken. */
  function DirectionLabel(rel: real): (r: string)
    ensures r in {"Straight ahead", "Slight right", "Right", "Sharp right", "Behind you", "Sharp left", "Left", "Slight left"}
  {
    if rel >= -10.0 && rel <= 10.0 then "Straight ahead"
    else if rel > 10.0 && rel <= 45.0 then "Slight right"
    else if rel > 45.0 && rel <= 90.0 then "Right"
    else if rel > 90.0 && rel <= 135.0 then "Sharp right"
    else if rel > 135.0 || rel < -135.0 then "Behind you"
    else if rel < -90.0 && rel >= -135.0 then "Sharp left"
    else if rel < -45.0 && rel >= -90.0 then "Left"
    else if rel < -10.0 && rel >= -45.0 then "Slight left"
    else ""
  }

  /** The eight sectors of the direction table. */
  datatype Sector = StraightAhead | SlightRight | Right | SharpRight | Behind | SharpLeft | Left | SlightLeft

  function SectorLabel(s: Sector): string {
    match s
    case StraightAhead => "Straight ahead"
    case SlightRight => "Slight right"
    case Right => "Right"
    case SharpRight => "Sharp right"
    case Behind => "Behind you"
    case SharpLeft => "Sharp left"
    case Left => "Left"
    case SlightLeft => "Slight left"
  }

  /** The span of each sector. */
  predicate InSector(s: Sector, r: real) {
    match s
    case StraightAhead => -10.0 <= r <= 10.0
    case SlightRight => 10.0 < r <= 45.0
    case Right => 45.0 < r <= 90.0
    case SharpRight => 90.0 < r <= 135.0
    case Behind => r > 135.0 || r < -135.0
    case SharpLeft => -135.0 <= r < -90.0
    case Left => -90.0 <= r < -45.0
    case SlightLeft => -45.0 <= r < -10.0
  }

  /**
   * The chain assigns a non-empty label to every angle, and it is the
   * label of sector s exactly when the angle lies in sector s; so the
   * sectors cover the line without overlap.
   */
  lemma DirectionMatchesSector(rel: real, s: Sector)
    ensures DirectionLabel(rel) != ""
    ensures DirectionLabel(rel) == SectorLabel(s) <==> InSector(s, rel)
  {
  }

  /** The tie-breaks at the sector boundaries, and both ends of the arrow's range. */
  lemma BoundaryLabels()
    ensures DirectionLabel(10.0) == "Straight ahead" && DirectionLabel(-10.0) == "Straight ahead"
    ensures DirectionLabel(45.0) == "Slight right" && DirectionLabel(90.0) == "Right" && DirectionLabel(135.0) == "Sharp right"
    ensures DirectionLabel(-45.0) == "Slight left" && DirectionLabel(-90.0) == "Left" && DirectionLabel(-135.0) == "Sharp left"
    ensures DirectionLabel(-180.0) == "Behind you" && DirectionLabel(180.0) == "Behind you"
    ensures DirectionLabel(RelativeAngle(100.0, 90.0)) == "Straight ahead"
    ensures DirectionLabel(RelativeAngle(101.0, 90.0)) == "Slight right"
  {
    assert RelativeAngle(100.0, 90.0) == 10.0 by {
      assert Rem(550.0, 360.0) == 190.0 by { assert (550.0 / 360.0).Floor == 1; }
    }
    assert RelativeAngle(101.0, 90.0) == 11.0 by {
      assert Rem(551.0, 360.0) == 191.0 by { assert (551.0 / 360.0).Floor == 1; }
    }
  }

  /** The globals the update reads. */
  datatype NavState = NavState(
    currentScreen: string,
    surveys: seq<Survey>,
    selectedTargetId: Option<string>,
    lastPosition: Option<GeoPoint>,
    smoothedHeading: real,
    canVibrate: bool)

  /** What one update shows, and whether it vibrates. */
  datatype Readout = Readout(distance: real, bearing: real, rel: real, direction: string, vibrate: bool)

  /** `!selectedTargetId` is false: a selection that is not the empty string. */
  predicate Truthy(sel: Option<string>) {
    sel.Some? && sel.value != ""
  }

  /** The guards of `updateNavImmediate`; only the first copy checks the screen. */
  predicate Proceeds(copy: Copy, st: NavState)
    ensures Proceeds(copy, st) ==> OpenIndex(st.surveys).Some?
    ensures Proceeds(copy, st) ==>
      var o := OpenIndex(st.surveys).value;
      && IsOpen(st.surveys[o])
      && st.selectedTargetId.Some? && st.selectedTargetId.value != ""
      && exists k :: 0 <= k < |st.surveys[o].targets| && st.surveys[o].targets[k].id == st.selectedTargetId.value
  {
    && (copy == FirstCopy ==> st.currentScreen == "compass")
    && OpenIndex(st.surveys).Some?
    && Truthy(st.selectedTargetId)
    && st.lastPosition.Some?
    && IndexOf(st.surveys[OpenIndex(st.surveys).value].targets, st.selectedTargetId) >= 0
  }

  /**
   * `updateNavImmediate`: nothing unless an open survey, a selection, a
   * position fix and the selected target are there (and, in the first copy,
   * the compass screen is showing); otherwise the readout for the first
   * target of the open survey with the selected id.
   */
  function NavUpdate(copy: Copy, st: NavState, geo: Geo): (r: Option<Readout>)
    ensures r.Some? <==> Proceeds(copy, st)
    ensures r.Some? ==>
      var ts := st.surveys[OpenIndex(st.surveys).value].targets;
      var t := ts[IndexOf(ts, st.selectedTargetId)];
      var here := st.lastPosition.value;
      && t.id == st.selectedTargetId.value
      && r.value.distance == geo.distance(here, GeoPoint(t.lat, t.lng))
      && r.value.bearing == geo.bearing(here, GeoPoint(t.lat, t.lng))
      && Congruent(r.value.rel, r.value.bearing - st.smoothedHeading, 360.0)
      && (0.0 <= r.value.bearing < 360.0 && 0.0 <= st.smoothedHeading < 360.0 ==> -180.0 <= r.value.rel < 180.0)
      && r.value.direction == DirectionLabel(r.value.rel) && r.value.direction != ""
      && (r.value.vibrate <==> st.canVibrate && r.value.distance < 4.0)
  {
    if !Proceeds(copy, st) then None
    else
      var ts := st.surveys[OpenIndex(st.surveys).value].targets;
      var t := ts[IndexOf(ts, st.selectedTargetId)];
      var here := st.lastPosition.value;
      var there := GeoPoint(t.lat, t.lng);
      var d := geo.distance(here, there);
      var brg := geo.bearing(here, there);
      var rel := RelativeAngle(brg, st.smoothedHeading);
      DirectionMatchesSector(rel, StraightAhead);
      Some(Readout(d, brg, rel, DirectionLabel(rel), st.canVibrate && d < 4.0))
  }

  /** The two copies differ only in the first copy's compass-screen gate. */
  lemma CopiesDifferOnlyInScreenGate(st: NavState, geo: Geo)
    ensures NavUpdate(FirstCopy, st, geo) == if st.currentScreen == "compass" then NavUpdate(SecondCopy, st, geo) else None
  {
  }

  /**
   * There is no arrival latch: while the distance stays under 4 m, every
   * update that runs vibrates again, however often it is repeated.
   */
  lemma VibratesOnEveryUpdateNearby(copy: Copy, st: NavState, geo: Geo)
    requires Proceeds(copy, st) && st.canVibrate
    ensures NavUpdate(copy, st, geo).Some?
    ensures NavUpdate(copy, st, geo).value.vibrate <==> NavUpdate(copy, st, geo).value.distance < 4.0
  {
  }
}
