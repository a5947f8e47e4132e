/** The request side of ztf2mmt.py: what `query_fritz` returns once the two
    service responses are in hand, the slit-width to mask-id table and the
    payload of the `__main__` block, and the text `describe_target` prints. */
module Ztf2Mmt {
  import opened Wrappers
  import opened Strings
  import Decimal
  import Sexagesimal
  import Photometry

  datatype RequestError =
    | DecIndexError         // `dec_dms_parts[0][0]` on an empty degrees field
    | MagTypeError          // `round(mag, 1)` on a kept record without a `mag`
    | KeyError(key: string) // `maskid_map[args.slitwidth]` on an unknown slit width

  /** What `query_fritz` returns: padded coordinates and the latest magnitude
      (before Python's `round(mag, 1)`). */
  datatype Lookup = Lookup(ra: string, dec: string, mag: real)

  /** `query_fritz` after its two requests: `raText` and `decText` are the angle
      library's strings, `points` the photometry list. */
  method QueryFritz(raText: string, decText: string, points: seq<Photometry.PhotPoint>)
    returns (r: Result<Lookup, RequestError>)
    ensures r.Err? <==> Sexagesimal.PadDec(decText).Err? || Photometry.LatestMagnitude(points).None?
    ensures Sexagesimal.PadDec(decText).Err? ==> r == Err(DecIndexError)
    ensures Sexagesimal.PadDec(decText).Ok? && Photometry.LatestMagnitude(points).None? ==>
      r == Err(MagTypeError)
    ensures r.Ok? ==>
      && r.value.ra == Sexagesimal.PadRa(raText)
      && Sexagesimal.PadDec(decText) == Ok(r.value.dec)
      && Photometry.LatestMagnitude(points) == Some(r.value.mag)
  {
    var ra := Sexagesimal.PadRa(raText);
    var dec := Sexagesimal.PadDec(decText);
    if dec.Err? {
      return Err(DecIndexError);
    }
    var _, mag := Photometry.ScanLatest(points);
    if mag.None? {
      return Err(MagTypeError);
    }
    r := Ok(Lookup(ra, dec.value, mag.value));
  }

  /** `maskid_map` (ztf2mmt.py, lines 97-103). */
  const MaskIds: map<string, int> := map[
    "Longslit0_75" := 113,
    "Longslit1" := 111,
    "Longslit1_25" := 131,
    "Longslit1_5" := 114,
    "Longslit5" := 112]

  /** `maskid_map[slitwidth]`: a mask id for the five known slit widths,
      `KeyError` for anything else. */
  function MaskIdFor(slit: string): (r: Result<int, RequestError>)
    ensures r.Ok? <==> slit in MaskIds.Keys
    ensures r.Err? ==> r.error == KeyError(slit)
    ensures r.Ok? ==> r.value in {111, 112, 113, 114, 131}
  {
    if slit in MaskIds then Ok(MaskIds[slit]) else Err(KeyError(slit))
  }

  /** The slit width a mask id belongs to: the inverse of the table. */
  function SlitWidthFor(maskId: int): (r: Option<string>)
    ensures r.Some? ==> r.value in MaskIds.Keys
  {
    if maskId == 113 then Some("Longslit0_75")
    else if maskId == 111 then Some("Longslit1")
    else if maskId == 131 then Some("Longslit1_25")
    else if maskId == 114 then Some("Longslit1_5")
    else if maskId == 112 then Some("Longslit5")
    else None
  }

  /** The table entry by entry. */
  lemma MaskIdTable()
    ensures MaskIdFor("Longslit0_75") == Ok(113)
    ensures MaskIdFor("Longslit1") == Ok(111)
    ensures MaskIdFor("Longslit1_25") == Ok(131)
    ensures MaskIdFor("Longslit1_5") == Ok(114)
    ensures MaskIdFor("Longslit5") == Ok(112)
  {
  }

  /** The table is a bijection between the five slit widths and the five mask
      ids, so a mask id never disagrees with its slit width. */
  lemma MaskIdRoundTrip(slit: string, maskId: int)
    ensures MaskIdFor(slit) == Ok(maskId) <==> SlitWidthFor(maskId) == Some(slit)
  {
  }

  /** The command-line arguments of args.py that the payload reads. */
  datatype Args = Args(
    ztfid: string, exptime: int, numexp: int, prio: int, too: bool, notes: string,
    grating: int, centwav: int, slitwidth: string, filter: string)

  /** The `payload` dictionary (ztf2mmt.py, lines 105-118). */
  datatype Payload = Payload(
    objectid: string, ra: string, dec: string, pa: int,
    exposuretime: int, numberexposures: int, priority: int, targetofopportunity: int,
    magnitude: real, grating: int, centralwavelength: int,
    observationtype: string, filter: string, slitwidth: string, maskid: int,
    visits: int, epoch: real, pmRa: int, pmDec: int, instrumentid: int, notes: string)

  /** The payload built from the arguments and the lookup; fails with
      `KeyError` exactly when the slit width is not in the table. */
  function BuildPayload(args: Args, lookup: Lookup): (r: Result<Payload, RequestError>)
    ensures r.Err? <==> args.slitwidth !in MaskIds.Keys
    ensures r.Err? ==> r.error == KeyError(args.slitwidth)
    ensures r.Ok? ==>
      && MaskIdFor(r.value.slitwidth) == Ok(r.value.maskid)
      && SlitWidthFor(r.value.maskid) == Some(args.slitwidth)
      && r.value.objectid == args.ztfid
      && r.value.ra == lookup.ra && r.value.dec == lookup.dec
      && r.value.magnitude == lookup.mag
      && r.value.exposuretime == args.exptime && r.value.numberexposures == args.numexp
      && r.value.priority == args.prio
      && r.value.targetofopportunity == (if args.too then 1 else 0)
      && r.value.grating == args.grating && r.value.centralwavelength == args.centwav
      && r.value.filter == args.filter && r.value.notes == args.notes
      && r.value.observationtype == "longslit"
      && r.value.pa == 0 && r.value.visits == 1 && r.value.epoch == 2000.0
      && r.value.pmRa == 0 && r.value.pmDec == 0 && r.value.instrumentid == 16
  {
    match MaskIdFor(args.slitwidth)
    case Err(e) => Err(e)
    case Ok(maskId) =>
      MaskIdRoundTrip(args.slitwidth, maskId);
      Ok(Payload(
        objectid := args.ztfid, ra := lookup.ra, dec := lookup.dec, pa := 0,
        exposuretime := args.exptime, numberexposures := args.numexp,
        priority := args.prio, targetofopportunity := if args.too then 1 else 0,
        magnitude := lookup.mag, grating := args.grating, centralwavelength := args.centwav,
        observationtype := "longslit", filter := args.filter,
        slitwidth := args.slitwidth, maskid := maskId,
        visits := 1, epoch := 2000.0, pmRa := 0, pmDec := 0, instrumentid := 16,
        notes := args.notes))
  }

  /** `{n * t}s ({n}x{t}s)` of `describe_target`'s third line. */
  function ExposurePlan(numberexposures: int, exposuretime: int): string
  {
    Decimal.IntToString(numberexposures * exposuretime) + "s" + ExposureCounts(numberexposures, exposuretime)
  }

  /** The ` ({n}x{t}s)` after the total. */
  function ExposureCounts(numberexposures: int, exposuretime: int): string
  {
    " (" + Decimal.IntToString(numberexposures) + "x" + Decimal.IntToString(exposuretime) + "s)"
  }

  /** The first two lines of the details: id with magnitude, then coordinates. */
  function TargetHeader(p: Payload, magText: string): string
  {
    "\n" + p.objectid + " (" + magText + " mag)\n" + p.ra + " " + p.dec + "\n"
  }

  /** The text blocks `describe_target` prints (ztf2mmt.py, lines 71-88): the
      details, then the setup when asked. `magText` is Python's rendering of
      the magnitude, which this model does not reproduce. */
  function DescribeTarget(p: Payload, magText: string, includeSetup: bool): (out: seq<string>)
    ensures |out| == if includeSetup then 2 else 1
    ensures StartsWith(out[0], RequestLead(p, magText))
    ensures EndsWith(out[0], "\n" + p.notes + "\n")
    ensures includeSetup ==> StartsWith(out[1], Decimal.IntToString(p.grating) + " grating at ")
    ensures includeSetup ==> EndsWith(out[1], " filter, " + p.slitwidth + " slit\n")
  {
    if includeSetup then [Details(p, magText), SetupBlock(p)] else [Details(p, magText)]
  }

  /** The first block: header, the request line with the exposure plan, the notes. */
  function Details(p: Payload, magText: string): (d: string)
    ensures StartsWith(d, RequestLead(p, magText))
    ensures EndsWith(d, "\n" + p.notes + "\n")
  {
    var lead := RequestLead(p, magText);
    var tail := "\n" + p.notes + "\n";
    var plan := ExposurePlan(p.numberexposures, p.exposuretime);
    ConcatEnds(lead, plan, tail);
    lead + plan + tail
  }

  /** The second block: grating and central wavelength, then filter and slit. */
  function SetupBlock(p: Payload): (b: string)
    ensures StartsWith(b, Decimal.IntToString(p.grating) + " grating at ")
    ensures EndsWith(b, " filter, " + p.slitwidth + " slit\n")
  {
    var grating := Decimal.IntToString(p.grating) + " grating at ";
    var slit := " filter, " + p.slitwidth + " slit\n";
    var middle := Decimal.IntToString(p.centralwavelength) + " angstroms\n" + p.filter;
    ConcatEnds(grating, middle, slit);
    grating + middle + slit
  }

  /** The details up to the exposure plan: the header, then the observation type. */
  function RequestLead(p: Payload, magText: string): string
  {
    TargetHeader(p, magText) + p.observationtype + " request for "
  }

  /** The total `describe_target` prints after "request for ", up to its 's',
      reads back as `numberexposures * exposuretime`. */
  lemma DescribeTargetTotal(p: Payload, magText: string, includeSetup: bool)
    ensures var out := DescribeTarget(p, magText, includeSetup);
            var lead := RequestLead(p, magText);
            && |lead| <= |out[0]|
            && Decimal.IsIntText(Split(out[0][|lead|..], 's')[0])
            && Decimal.ParseInt(Split(out[0][|lead|..], 's')[0]) == p.numberexposures * p.exposuretime
  {
    var lead := RequestLead(p, magText);
    var rest := ExposurePlan(p.numberexposures, p.exposuretime) + ("\n" + p.notes + "\n");
    DetailsShape(p, magText);
    assert (lead + rest)[|lead|..] == rest;
    PlanTotalBeforeS(p.numberexposures, p.exposuretime, "\n" + p.notes + "\n");
  }

  /** The details are the lead followed by the exposure plan and the notes line. */
  lemma DetailsShape(p: Payload, magText: string)
    ensures Details(p, magText) ==
      RequestLead(p, magText) + (ExposurePlan(p.numberexposures, p.exposuretime) + ("\n" + p.notes + "\n"))
  {
  }

  /** Whatever follows the exposure plan, its total is the first field of a split on 's'. */
  lemma PlanTotalBeforeS(numberexposures: int, exposuretime: int, tail: string)
    ensures var total := Split(ExposurePlan(numberexposures, exposuretime) + tail, 's')[0];
            && Decimal.IsIntText(total)
            && Decimal.ParseInt(total) == numberexposures * exposuretime
  {
    var product := numberexposures * exposuretime;
    var rest := ExposureCounts(numberexposures, exposuretime) + tail;
    assert ExposurePlan(numberexposures, exposuretime) + tail == Decimal.IntToString(product) + ['s'] + rest;
    LeadingIntField(Decimal.IntToString(product), rest);
    Decimal.ParseIntToString(product);
  }

  /** The first word of the setup block reads back as the grating. */
  lemma DescribeTargetGrating(p: Payload, magText: string)
    ensures var out := DescribeTarget(p, magText, true);
            && Decimal.IsIntText(Split(out[1], ' ')[0])
            && Decimal.ParseInt(Split(out[1], ' ')[0]) == p.grating
  {
    var b := SetupBlock(p);
    var g := Decimal.IntToString(p.grating);
    assert (g + " grating at ")[..|g| + 1] == g + [' '];
    assert b[..|g| + 1] == g + [' '];
    LeadingIntWord(g, b);
    Decimal.ParseIntToString(p.grating);
  }

  /** A rendered integer followed by a space is the first word of the text. */
  lemma LeadingIntWord(g: string, b: string)
    requires Decimal.IsIntText(g)
    requires StartsWith(b, g + [' '])
    ensures Split(b, ' ')[0] == g
  {
    assert b == g + [' '] + b[|g| + 1..];
    NoLetterInIntText(g, ' ');
    SplitCons(g, ' ', b[|g| + 1..]);
  }

  /** The total in the exposure plan reads back as `numberexposures * exposuretime`. */
  lemma ExposurePlanTotal(numberexposures: int, exposuretime: int)
    ensures var total := Split(ExposurePlan(numberexposures, exposuretime), 's')[0];
            && Decimal.IsIntText(total)
            && Decimal.ParseInt(total) == numberexposures * exposuretime
  {
    var product := numberexposures * exposuretime;
    var rest := ExposureCounts(numberexposures, exposuretime);
    assert ExposurePlan(numberexposures, exposuretime) == Decimal.IntToString(product) + ['s'] + rest;
    LeadingIntField(Decimal.IntToString(product), rest);
    Decimal.ParseIntToString(product);
  }

  /** A rendered integer followed by 's' is the first field of a split on 's'. */
  lemma LeadingIntField(total: string, rest: string)
    requires Decimal.IsIntText(total)
    ensures Split(total + ['s'] + rest, 's')[0] == total
  {
    NoLetterInIntText(total, 's');
    SplitCons(total, 's', rest);
  }

  /** Rendered integers hold only digits and '-', so no letter splits them. */
  lemma NoLetterInIntText(s: string, c: char)
    requires Decimal.IsIntText(s)
    requires c != '-' && !Decimal.IsDigit(c)
    ensures c !in s
  {
    forall i | 0 <= i < |s| ensures s[i] != c {
      assert i == 0 || Decimal.IsDigit(s[i]);
    }
  }

  /** The `__main__` block up to the third-party target: look the source up,
      then build the payload. */
  method PrepareRequest(args: Args, raText: string, decText: string, points: seq<Photometry.PhotPoint>)
    returns (r: Result<Payload, RequestError>)
    ensures r ==
      if Sexagesimal.PadDec(decText).Err? then Err(DecIndexError)
      else if Photometry.LatestMagnitude(points).None? then Err(MagTypeError)
      else BuildPayload(args, Lookup(Sexagesimal.PadRa(raText), Sexagesimal.PadDec(decText).value,
                                     Photometry.LatestMagnitude(points).value))
    ensures r.Err? <==>
      Sexagesimal.PadDec(decText).Err? || Photometry.LatestMagnitude(points).None? || args.slitwidth !in MaskIds.Keys
  {
    var lookup := QueryFritz(raText, decText, points);
    if lookup.Err? {
      return Err(lookup.error);
    }
    r := BuildPayload(args, lookup.value);
  }
}
