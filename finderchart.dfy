/** fritz_finderchart.py: the `SingleOrList` argument action, the finder and
    offsets request parameters, the cleaning of a starlist response, the
    validation of the command line and the per-source accumulation of the
    starlist. Requests are values; the responses are inputs. */
module FinderChart {
  import opened Wrappers
  import opened Strings

  // ---------------------------------------------------------------------------
  // SingleOrList (lines 14-22)

  /** What argparse hands the action: one value or a list of values. */
  datatype ArgValues = One(item: string) | Many(items: seq<string>)

  /** The list the action stores: a list as it is, a single value wrapped. */
  function AsList(values: ArgValues): (r: seq<string>)
    ensures values.Many? ==> r == values.items
    ensures values.One? ==> r == [values.item]
  {
    match values
    case One(v) => [v]
    case Many(vs) => vs
  }

  /** Storing an already stored list again changes nothing. */
  lemma AsListStable(values: ArgValues)
    ensures AsList(Many(AsList(values))) == AsList(values)
  {
  }

  /** The list-valued attributes of an argparse namespace. */
  class Namespace {
    var lists: map<string, seq<string>>

    constructor ()
      ensures lists == map[]
    {
      lists := map[];
    }
  }

  /** The argparse action; `dest` is the attribute it sets. */
  class SingleOrList {
    const dest: string

    constructor (dest: string)
      ensures this.dest == dest
    {
      this.dest := dest;
    }

    /** `__call__`: `setattr(namespace, self.dest, ...)` with the list form of
        `values`; every other attribute is left as it was. */
    method Call(namespace: Namespace, values: ArgValues)
      modifies namespace
      ensures namespace.lists == old(namespace.lists)[dest := AsList(values)]
      ensures forall k :: k in old(namespace.lists) && k != dest ==>
                k in namespace.lists && namespace.lists[k] == old(namespace.lists)[k]
    {
      if values.Many? {
        namespace.lists := namespace.lists[dest := values.items];
      } else {
        namespace.lists := namespace.lists[dest := [values.item]];
      }
    }
  }

  // ---------------------------------------------------------------------------
  // Request parameters (lines 25-35 and 49-60)

  const ApiSources := "https://fritz.science/api/sources/"

  datatype Request =
    | FinderRequest(endpoint: string, facility: string, imageSource: string,
                    useZtfref: bool, numOffsetStars: int)
    | OffsetsRequest(endpoint: string, facility: string, useZtfref: bool,
                     numOffsetStars: int, obstime: string)

  /** `get_finder`'s request: the facility is always "Keck". */
  function FinderRequestFor(ztfid: string, imageSource: string, useZtfref: bool, numOffsetStars: int): (r: Request)
    ensures r.FinderRequest? && r.facility == "Keck"
    ensures r.imageSource == imageSource && r.useZtfref == useZtfref && r.numOffsetStars == numOffsetStars
    ensures SourceOf(r.endpoint, "/finder") == Some(ztfid)
  {
    var endpoint := ApiSources + ztfid + "/finder";
    SourceOfEndpoint(ztfid, "/finder");
    FinderRequest(endpoint, "Keck", imageSource, useZtfref, numOffsetStars)
  }

  /** `get_starlist`'s request: all four arguments are passed through. */
  function OffsetsRequestFor(ztfid: string, facility: string, useZtfref: bool, numOffsetStars: int, obstime: string): (r: Request)
    ensures r.OffsetsRequest? && r.facility == facility
    ensures r.useZtfref == useZtfref && r.numOffsetStars == numOffsetStars && r.obstime == obstime
    ensures SourceOf(r.endpoint, "/offsets") == Some(ztfid)
  {
    var endpoint := ApiSources + ztfid + "/offsets";
    SourceOfEndpoint(ztfid, "/offsets");
    OffsetsRequest(endpoint, facility, useZtfref, numOffsetStars, obstime)
  }

  /** The source identifier inside an endpoint URL, if it has the API's shape. */
  function SourceOf(endpoint: string, suffix: string): Option<string>
  {
    if |endpoint| >= |ApiSources| + |suffix| && StartsWith(endpoint, ApiSources)
       && endpoint[|endpoint| - |suffix|..] == suffix
    then Some(endpoint[|ApiSources|..|endpoint| - |suffix|])
    else None
  }

  lemma SourceOfEndpoint(ztfid: string, suffix: string)
    ensures SourceOf(ApiSources + ztfid + suffix, suffix) == Some(ztfid)
  {
    var e := ApiSources + ztfid + suffix;
    assert e[..|ApiSources|] == ApiSources;
    assert e[|e| - |suffix|..] == suffix;
    assert e[|ApiSources|..|e| - |suffix|] == ztfid;
  }

  // ---------------------------------------------------------------------------
  // Starlist cleaning (lines 62-71)

  const Nbsp := "&nbsp;"

  /** `w` occurs in `s` at position `i`. */
  predicate OccursAt(s: string, i: nat, w: string)
  {
    i + |w| <= |s| && s[i..i + |w|] == w
  }

  predicate HasNbsp(s: string)
  {
    exists i: nat | i < |s| :: OccursAt(s, i, Nbsp)
  }

  /** Python's `s.replace("&nbsp;", " ")`: leftmost occurrences first, without overlap. */
  function ReplaceNbsp(s: string): string
  {
    if StartsWith(s, Nbsp) then " " + ReplaceNbsp(s[|Nbsp|..])
    else if |s| == 0 then ""
    else [s[0]] + ReplaceNbsp(s[1..])
  }

  /** The first character of the result: a space for a leading "&nbsp;",
      otherwise the first character of the input. */
  lemma ReplaceHead(t: string)
    requires |t| > 0
    ensures |ReplaceNbsp(t)| > 0
    ensures ReplaceNbsp(t)[0] == if StartsWith(t, Nbsp) then ' ' else t[0]
  {
  }

  /** An occurrence one place further into `[c] + x` is an occurrence in `x`. */
  lemma OccursShift(c: char, x: string, i: nat, w: string)
    ensures OccursAt([c] + x, i + 1, w) <==> OccursAt(x, i, w)
  {
    if i + |w| <= |x| {
      assert ([c] + x)[i + 1..i + 1 + |w|] == x[i..i + |w|];
    }
  }

  /** "&nbsp;" starts `[c] + x` exactly when `c` is '&' and "nbsp;" starts `x`. */
  lemma NbspAfterAmp(c: char, x: string)
    ensures StartsWith([c] + x, Nbsp) <==> c == '&' && StartsWith(x, "nbsp;")
  {
    assert Nbsp[0] == '&' && Nbsp[1..] == "nbsp;";
    if |x| >= 5 {
      var y := ([c] + x)[..6];
      assert y == [c] + x[..5];
      assert y[0] == c && y[1..] == x[..5];
    }
  }

  /** Dropping the first character of a text without "&nbsp;" leaves one without it. */
  lemma NoNbspTail(t: string)
    requires |t| > 0 && !HasNbsp(t)
    ensures !HasNbsp(t[1..])
  {
    assert [t[0]] + t[1..] == t;
    forall i: nat | i < |t| - 1
      ensures !OccursAt(t[1..], i, Nbsp)
    {
      OccursShift(t[0], t[1..], i, Nbsp);
    }
  }

  /** A space-free prefix of the result was already a prefix of the input. */
  lemma {:induction false} ReplacePrefixBack(t: string, w: string)
    requires ' ' !in w
    ensures StartsWith(ReplaceNbsp(t), w) ==> StartsWith(t, w)
  {
    if |w| > 0 && StartsWith(ReplaceNbsp(t), w) {
      assert ReplaceNbsp(t)[0] == w[0];
      ReplaceHead(t);
      if !StartsWith(t, Nbsp) {
        var r := ReplaceNbsp(t);
        assert r == [t[0]] + ReplaceNbsp(t[1..]);
        assert ReplaceNbsp(t[1..])[..|w| - 1] == r[1..|w|] == w[1..];
        assert forall k :: 0 <= k < |w| - 1 ==> w[1..][k] == w[k + 1];
        ReplacePrefixBack(t[1..], w[1..]);
        assert t[..|w|] == [t[0]] + t[1..][..|w| - 1];
      }
    }
  }

  /** No "&nbsp;" is left after the replacement. */
  lemma {:induction false} ReplaceLeavesNoNbsp(s: string)
    ensures !HasNbsp(ReplaceNbsp(s))
  {
    if |s| > 0 {
      var r := ReplaceNbsp(s);
      var lead := StartsWith(s, Nbsp);
      var c := if lead then ' ' else s[0];
      var rest := if lead then s[|Nbsp|..] else s[1..];
      var tail := ReplaceNbsp(rest);
      ReplaceLeavesNoNbsp(rest);
      assert r == [c] + tail;
      NbspAfterAmp(c, tail);
      if !lead {
        assert [s[0]] + s[1..] == s;
        NbspAfterAmp(s[0], s[1..]);
        ReplacePrefixBack(s[1..], "nbsp;");
      }
      assert !OccursAt(r, 0, Nbsp);
      forall i: nat | 0 < i < |r|
        ensures !OccursAt(r, i, Nbsp)
      {
        OccursShift(c, tail, i - 1, Nbsp);
      }
    }
  }

  /** A string without "&nbsp;" is left as it is. */
  lemma {:induction false} ReplaceClean(s: string)
    requires !HasNbsp(s)
    ensures ReplaceNbsp(s) == s
  {
    if |s| > 0 {
      assert !OccursAt(s, 0, Nbsp);
      NoNbspTail(s);
      ReplaceClean(s[1..]);
    }
  }

  /** Cleaning twice is cleaning once. */
  lemma ReplaceIdempotent(s: string)
    ensures ReplaceNbsp(ReplaceNbsp(s)) == ReplaceNbsp(s)
  {
    ReplaceLeavesNoNbsp(s);
    ReplaceClean(ReplaceNbsp(s));
  }

  /** Writing the spaces that `esc` selects as "&nbsp;" and keeping every
      other character: on text that holds no "&nbsp;" of its own, the
      cleaning undoes this for every choice of spaces. */
  function EscapeAt(t: string, esc: seq<bool>): string
    requires |esc| == |t|
  {
    if |t| == 0 then ""
    else if t[0] == ' ' && esc[0] then Nbsp + EscapeAt(t[1..], esc[1..])
    else [t[0]] + EscapeAt(t[1..], esc[1..])
  }

  /** An '&'-free prefix of an escaped text was a prefix of the text. */
  lemma {:induction false} EscapePrefixBack(t: string, esc: seq<bool>, w: string)
    requires |esc| == |t|
    requires '&' !in w
    ensures StartsWith(EscapeAt(t, esc), w) ==> StartsWith(t, w)
  {
    if |w| > 0 && StartsWith(EscapeAt(t, esc), w) {
      assert EscapeAt(t, esc)[0] == w[0];
      if !(t[0] == ' ' && esc[0]) {
        var e := EscapeAt(t, esc);
        assert e == [t[0]] + EscapeAt(t[1..], esc[1..]);
        assert e[1..|w|] == e[..|w|][1..];
        assert EscapeAt(t[1..], esc[1..])[..|w| - 1] == e[1..|w|] == w[1..];
        assert forall k :: 0 <= k < |w| - 1 ==> w[1..][k] == w[k + 1];
        EscapePrefixBack(t[1..], esc[1..], w[1..]);
        assert t[..|w|] == [t[0]] + t[1..][..|w| - 1];
      }
    }
  }

  /** Cleaning undoes escaping on text without "&nbsp;", whichever spaces were
      escaped: every "&nbsp;" becomes one space and every other character,
      spaces included, is kept in order. */
  lemma {:induction false} ReplaceEscape(t: string, esc: seq<bool>)
    requires |esc| == |t|
    requires !HasNbsp(t)
    ensures ReplaceNbsp(EscapeAt(t, esc)) == t
  {
    if |t| > 0 {
      NoNbspTail(t);
      ReplaceEscape(t[1..], esc[1..]);
      var e := EscapeAt(t, esc);
      var rest := EscapeAt(t[1..], esc[1..]);
      if t[0] == ' ' && esc[0] {
        assert e == Nbsp + rest;
        assert e[..|Nbsp|] == Nbsp;
        assert e[|Nbsp|..] == rest;
      } else {
        assert e == [t[0]] + rest;
        assert [t[0]] + t[1..] == t;
        assert !OccursAt(t, 0, Nbsp);
        NbspAfterAmp(t[0], t[1..]);
        NbspAfterAmp(t[0], rest);
        EscapePrefixBack(t[1..], esc[1..], "nbsp;");
        assert !StartsWith(e, Nbsp);
        assert e[1..] == rest;
      }
    }
  }

  /** The parts of the offsets response that `get_starlist` reads:
      `r.json().get("data", {}).get("starlist_str", "")`. */
  datatype StarlistField = NoStarlist | StarlistStr(text: string)
  datatype DataField = NoData | Data(starlist: StarlistField)
  datatype Response = Response(status: int, data: DataField)

  /** The starlist text of a response, with the two defaults. */
  function RawStarlist(data: DataField): string
  {
    match data
    case NoData => ""
    case Data(NoStarlist) => ""
    case Data(StarlistStr(s)) => s
  }

  /** `get_starlist` after its request: `None` on a status other than 200 or
      an empty starlist, otherwise the cleaned text and one newline. */
  function GetStarlist(response: Response): (r: Option<string>)
    ensures r.Some? <==> response.status == 200 && RawStarlist(response.data) != ""
    ensures r.Some? ==>
      && |r.value| >= 2 && r.value[|r.value| - 1] == '\n'
      && r.value[..|r.value| - 1] == ReplaceNbsp(RawStarlist(response.data))
      && !HasNbsp(r.value[..|r.value| - 1])
  {
    if response.status != 200 then None
    else
      var starlist := ReplaceNbsp(RawStarlist(response.data));
      if starlist == "" then
        assert RawStarlist(response.data) == "" by { ReplaceNonEmpty(RawStarlist(response.data)); }
        None
      else
        ReplaceLeavesNoNbsp(RawStarlist(response.data));
        assert (starlist + "\n")[..|starlist|] == starlist;
        Some(starlist + "\n")
  }

  /** The replacement empties no non-empty text. */
  lemma ReplaceNonEmpty(s: string)
    ensures ReplaceNbsp(s) == "" <==> s == ""
  {
  }

  // ---------------------------------------------------------------------------
  // Command line (lines 85-111)

  datatype Cli = Cli(sources: seq<string>, imageSource: string, useGaiaPos: bool,
                     numOffsetStars: int, facility: string)

  /** Which `assert` of lines 108-110 fails first. */
  datatype CliError = BadImageSource | BadNumOffsetStars | BadFacility

  datatype Settings = Settings(sources: seq<string>, imageSource: string, useZtfref: bool,
                               numOffsetStars: int, facility: string)

  const ImageSources: set<string> := {"desi", "dss", "ztfref", "ps1"}
  const Facilities: set<string> := {"Keck", "Shane", "P200", "P200-NGPS"}

  /** The three assertions in order, then `use_ztfref = not args.use_gaia_pos`. */
  function Validate(cli: Cli): (r: Result<Settings, CliError>)
    ensures r.Ok? <==> cli.imageSource in ImageSources && 0 <= cli.numOffsetStars <= 4 && cli.facility in Facilities
    ensures r == Err(BadImageSource) <==> cli.imageSource !in ImageSources
    ensures r == Err(BadNumOffsetStars) <==> cli.imageSource in ImageSources && !(0 <= cli.numOffsetStars <= 4)
    ensures r.Ok? ==>
      && r.value.useZtfref == !cli.useGaiaPos
      && r.value.sources == cli.sources && r.value.imageSource == cli.imageSource
      && r.value.numOffsetStars == cli.numOffsetStars && r.value.facility == cli.facility
  {
    if cli.imageSource !in ["desi", "dss", "ztfref", "ps1"] then Err(BadImageSource)
    else if !(cli.numOffsetStars >= 0 && cli.numOffsetStars <= 4) then Err(BadNumOffsetStars)
    else if cli.facility !in ["Keck", "Shane", "P200", "P200-NGPS"] then Err(BadFacility)
    else Ok(Settings(cli.sources, cli.imageSource, !cli.useGaiaPos, cli.numOffsetStars, cli.facility))
  }

  /** The argparse defaults pass validation. */
  lemma DefaultsValid(sources: seq<string>, useGaiaPos: bool)
    ensures Validate(Cli(sources, "ps1", useGaiaPos, 3, "Keck")).Ok?
  {
  }

  // ---------------------------------------------------------------------------
  // Batch accumulation (lines 121-127)

  /** The text of all entries in order. */
  function Concat(entries: seq<string>): string
  {
    if |entries| == 0 then "" else entries[0] + Concat(entries[1..])
  }

  /** `starlist += entry` for every entry in order: `None` when an entry is
      `None` (`str += None` raises `TypeError`). */
  function Aggregate(entries: seq<Option<string>>): (r: Option<string>)
    ensures r.Some? <==> forall i :: 0 <= i < |entries| ==> entries[i].Some?
  {
    if |entries| == 0 then Some("")
    else match (entries[0], Aggregate(entries[1..]))
      case (Some(x), Some(y)) => Some(x + y)
      case _ => None
  }

  lemma {:induction false} ConcatAppend(entries: seq<string>, x: string)
    ensures Concat(entries + [x]) == Concat(entries) + x
  {
    if |entries| > 0 {
      assert (entries + [x])[1..] == entries[1..] + [x];
      ConcatAppend(entries[1..], x);
    }
  }

  /** Accumulating left to right: the aggregate of one more entry. */
  lemma {:induction false} AggregateAppend(entries: seq<Option<string>>, x: Option<string>)
    ensures Aggregate(entries + [x]) ==
      if Aggregate(entries).Some? && x.Some? then Some(Aggregate(entries).value + x.value) else None
  {
    if |entries| > 0 {
      assert (entries + [x])[1..] == entries[1..] + [x];
      assert (entries + [x])[0] == entries[0];
      AggregateAppend(entries[1..], x);
      if entries[0].Some? && Aggregate(entries[1..]).Some? && x.Some? {
        var a, b := entries[0].value, Aggregate(entries[1..]).value;
        assert a + (b + x.value) == (a + b) + x.value;
      }
    } else {
      assert (entries + [x])[1..] == [];
      assert x.Some? ==> x.value + "" == "" + x.value == x.value;
    }
  }

  /** The aggregate, when there is one, is the concatenation of the entries in order. */
  lemma {:induction false} AggregateIsConcat(entries: seq<Option<string>>)
    requires forall i :: 0 <= i < |entries| ==> entries[i].Some?
    ensures Aggregate(entries) == Some(Concat(seq(|entries|, i requires 0 <= i < |entries| => entries[i].value)))
  {
    if |entries| > 0 {
      AggregateIsConcat(entries[1..]);
      var all := seq(|entries|, i requires 0 <= i < |entries| => entries[i].value);
      assert all[1..] == seq(|entries| - 1, i requires 0 <= i < |entries| - 1 => entries[1..][i].value);
    }
  }

  /** Index of the first missing entry, or the number of entries. */
  function FirstMissing(entries: seq<Option<string>>): (k: nat)
    ensures k <= |entries|
    ensures forall i :: 0 <= i < k ==> entries[i].Some?
    ensures k < |entries| ==> entries[k].None?
  {
    if |entries| == 0 || entries[0].None? then 0 else 1 + FirstMissing(entries[1..])
  }

  /** The entry `get_starlist` gives for each response. */
  function Entries(responses: seq<Response>): (es: seq<Option<string>>)
    ensures |es| == |responses|
    ensures forall i :: 0 <= i < |responses| ==> es[i] == GetStarlist(responses[i])
  {
    if |responses| == 0 then []
    else Entries(responses[..|responses| - 1]) + [GetStarlist(responses[|responses| - 1])]
  }

  /** The requests of the first `n` iterations: finder, then offsets, per source. */
  function BatchRequests(settings: Settings, obstimes: seq<string>, n: nat): (rs: seq<Request>)
    requires n <= |settings.sources| && n <= |obstimes|
    ensures |rs| == 2 * n
  {
    if n == 0 then []
    else
      var ztfid := settings.sources[n - 1];
      BatchRequests(settings, obstimes, n - 1)
        + [FinderRequestFor(ztfid, settings.imageSource, settings.useZtfref, settings.numOffsetStars),
           OffsetsRequestFor(ztfid, settings.facility, settings.useZtfref, settings.numOffsetStars, obstimes[n - 1])]
  }

  /** Iteration i issues requests 2i and 2i+1: the finder request of source i,
      always for "Keck", then its offsets request for the chosen facility. */
  lemma {:induction false} BatchRequestAt(settings: Settings, obstimes: seq<string>, n: nat, i: nat)
    requires n <= |settings.sources| && n <= |obstimes| && i < n
    ensures var rs := BatchRequests(settings, obstimes, n);
      && rs[2 * i] == FinderRequestFor(settings.sources[i], settings.imageSource,
                                       settings.useZtfref, settings.numOffsetStars)
      && rs[2 * i + 1] == OffsetsRequestFor(settings.sources[i], settings.facility,
                                            settings.useZtfref, settings.numOffsetStars, obstimes[i])
      && rs[2 * i].facility == "Keck" && rs[2 * i + 1].facility == settings.facility
  {
    if i < n - 1 {
      BatchRequestAt(settings, obstimes, n - 1, i);
    }
  }

  /** The `__main__` loop: for each source, request the finder chart, then
      request the starlist entry and append it. `responses[i]` answers the
      offsets request of source i and `obstimes[i]` is the clock reading of that
      iteration. The loop stops at the first missing entry. Returns the
      requests issued, in order, and the aggregate starlist. */
  method RunBatch(settings: Settings, responses: seq<Response>, obstimes: seq<string>)
    returns (requests: seq<Request>, starlist: Option<string>)
    requires |responses| == |settings.sources| && |obstimes| == |settings.sources|
    ensures starlist == Aggregate(Entries(responses))
    ensures requests == BatchRequests(settings, obstimes,
                          if starlist.Some? then |responses| else FirstMissing(Entries(responses)) + 1)
  {
    ghost var entries := Entries(responses);
    var text := "";
    requests := [];
    var i := 0;
    while i < |settings.sources|
      invariant 0 <= i <= |settings.sources|
      invariant Aggregate(entries[..i]) == Some(text)
      invariant requests == BatchRequests(settings, obstimes, i)
    {
      var ztfid := settings.sources[i];
      var finder := FinderRequestFor(ztfid, settings.imageSource, settings.useZtfref, settings.numOffsetStars);
      var offsets := OffsetsRequestFor(ztfid, settings.facility, settings.useZtfref,
                                       settings.numOffsetStars, obstimes[i]);
      requests := requests + [finder, offsets];
      var entry := GetStarlist(responses[i]);
      assert entry == entries[i];
      if entry.None? {
        FirstMissingAt(entries, i);
        return requests, None;
      }
      AggregateStep(entries, i);
      text := text + entry.value;
      i := i + 1;
    }
    assert entries[..i] == entries;
    starlist := Some(text);
  }

  /** An entry missing after a complete prefix is the first missing one, and
      it loses the aggregate. */
  lemma FirstMissingAt(entries: seq<Option<string>>, i: nat)
    requires i < |entries| && entries[i].None? && Aggregate(entries[..i]).Some?
    ensures FirstMissing(entries) == i && Aggregate(entries) == None
  {
    assert forall j :: 0 <= j < i ==> entries[..i][j].Some?;
    assert forall j :: 0 <= j < i ==> entries[j].Some?;
  }

  /** One more present entry extends the aggregate of the prefix by its text. */
  lemma AggregateStep(entries: seq<Option<string>>, i: nat)
    requires i < |entries| && entries[i].Some? && Aggregate(entries[..i]).Some?
    ensures Aggregate(entries[..i + 1]) == Some(Aggregate(entries[..i]).value + entries[i].value)
  {
    AggregateAppend(entries[..i], entries[i]);
    assert entries[..i + 1] == entries[..i] + [entries[i]];
  }
}
