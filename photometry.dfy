/** The latest-magnitude scan of `query_fritz` (ztf2mmt.py, lines 59-68) over
    the photometry records that the service returned. */
module Photometry {
  import opened Wrappers

  /** One photometry record; `None` is a key that is absent (or, for `mag`,
      a JSON null). */
  datatype PhotPoint = PhotPoint(
    instrumentName: Option<string>,
    origin: Option<string>,
    mjd: Option<real>,
    mag: Option<real>)

  /** `phot.get('instrument_name') == 'ZTF'` and `phot.get('origin', '') != 'alert_fp'`. */
  predicate Qualifies(p: PhotPoint)
  {
    p.instrumentName == Some("ZTF") && p.origin != Some("alert_fp")
  }

  /** `phot.get('mjd', 0)`. */
  function EpochOf(p: PhotPoint): real
  {
    match p.mjd
    case Some(t) => t
    case None => 0.0
  }

  /** Point k is the one the scan selects: it qualifies, its epoch is positive,
      no qualifying point is later, and every earlier qualifying point is
      strictly earlier (the first of equal maxima wins). */
  ghost predicate IsLatest(points: seq<PhotPoint>, k: int)
  {
    && 0 <= k < |points|
    && Qualifies(points[k])
    && EpochOf(points[k]) > 0.0
    && (forall j :: 0 <= j < |points| && Qualifies(points[j]) ==> EpochOf(points[j]) <= EpochOf(points[k]))
    && (forall j :: 0 <= j < k && Qualifies(points[j]) ==> EpochOf(points[j]) < EpochOf(points[k]))
  }

  /** No qualifying point has a positive epoch. */
  ghost predicate NoneQualifies(points: seq<PhotPoint>)
  {
    forall j :: 0 <= j < |points| && Qualifies(points[j]) ==> EpochOf(points[j]) <= 0.0
  }

  /** The epoch the scan has reached after an optional selection (`mjd_max`). */
  function BestEpoch(points: seq<PhotPoint>, k: Option<nat>): real
    requires k.Some? ==> k.value < |points|
  {
    match k
    case Some(i) => EpochOf(points[i])
    case None => 0.0
  }

  /** Index of the record the scan keeps, or `None` when it keeps its initial
      values; defined over ever longer prefixes, as the loop sees them. */
  function LatestIndex(points: seq<PhotPoint>): (r: Option<nat>)
    ensures r.Some? ==> IsLatest(points, r.value)
    ensures r.None? <==> NoneQualifies(points)
  {
    if |points| == 0 then None
    else
      var init := points[..|points| - 1];
      var last := |points| - 1;
      var prev := LatestIndex(init);
      assert forall j :: 0 <= j < last ==> points[j] == init[j];
      if Qualifies(points[last]) && EpochOf(points[last]) > BestEpoch(init, prev) then Some(last)
      else prev
  }

  /** The selection is unique: the scan's result is the only index that is the latest. */
  lemma LatestIndexExact(points: seq<PhotPoint>, k: int)
    ensures IsLatest(points, k) <==> LatestIndex(points) == Some(k)
  {
    if IsLatest(points, k) {
      var r := LatestIndex(points);
      assert r.Some?;
      assert IsLatest(points, r.value);
    }
  }

  /** The magnitude `query_fritz` holds before rounding: the selected record's
      `mag`, or the initial 0 when nothing was selected. */
  function LatestMagnitude(points: seq<PhotPoint>): (m: Option<real>)
    ensures NoneQualifies(points) ==> m == Some(0.0)
    ensures forall k :: IsLatest(points, k) ==> m == points[k].mag
  {
    match LatestIndex(points)
    case None => Some(0.0)
    case Some(k) =>
      assert forall k' :: IsLatest(points, k') ==> k' == k by {
        forall k' | IsLatest(points, k') ensures k' == k { LatestIndexExact(points, k'); }
      }
      points[k].mag
  }

  /** The loop of ztf2mmt.py, lines 59-66: keep the epoch and magnitude of
      every qualifying record strictly later than the best seen so far. */
  method ScanLatest(points: seq<PhotPoint>) returns (mjdMax: real, mag: Option<real>)
    ensures mag == LatestMagnitude(points)
    ensures mjdMax >= 0.0
    ensures mjdMax == BestEpoch(points, LatestIndex(points))
  {
    mjdMax, mag := 0.0, Some(0.0);
    ghost var best: Option<nat> := None;
    var i := 0;
    while i < |points|
      invariant 0 <= i <= |points|
      invariant best == LatestIndex(points[..i])
      invariant best.Some? ==> best.value < i
      invariant mjdMax == BestEpoch(points, best)
      invariant mag == if best.Some? then points[best.value].mag else Some(0.0)
    {
      var phot := points[i];
      assert points[..i + 1][..i] == points[..i];
      if Qualifies(phot) && EpochOf(phot) > mjdMax {
        mjdMax, mag := EpochOf(phot), phot.mag;
        best := Some(i);
      }
      i := i + 1;
    }
    assert points[..i] == points;
  }

  /** A later `alert_fp` point is skipped: the latest science point wins. */
  lemma ExampleSkipsForcedPhotometry()
    ensures LatestMagnitude([
      PhotPoint(Some("ZTF"), Some("science"), Some(100.0), Some(18.0)),
      PhotPoint(Some("ZTF"), Some("alert_fp"), Some(200.0), Some(17.0)),
      PhotPoint(Some("ZTF"), Some("science"), Some(150.0), Some(17.5))]) == Some(17.5)
  {
    var pts := [
      PhotPoint(Some("ZTF"), Some("science"), Some(100.0), Some(18.0)),
      PhotPoint(Some("ZTF"), Some("alert_fp"), Some(200.0), Some(17.0)),
      PhotPoint(Some("ZTF"), Some("science"), Some(150.0), Some(17.5))];
    assert IsLatest(pts, 2);
  }

  /** A kept record without a `mag` (a non-detection) leaves `mag` at `None`,
      which `round(mag, 1)` then rejects. */
  lemma ExampleNonDetection()
    ensures LatestMagnitude([PhotPoint(Some("ZTF"), None, Some(100.0), None)]).None?
  {
    assert IsLatest([PhotPoint(Some("ZTF"), None, Some(100.0), None)], 0);
  }
}
