# ZTF2MMT in Dafny

A model of the logic of ZTF2MMT that runs after the HTTP calls: the tool looks up a
ZTF transient on the Fritz service, pads its coordinates, picks its latest ZTF
magnitude and builds a Binospec long-slit request for the MMT queue. A second script
fetches finder charts and starlist entries for a list of sources. The service
responses and the angle library's output strings are inputs of the model.

Modules, by source file:

- `ztf2mmt.py`:
  - `Sexagesimal`: zero-padding of the RA hours field and of the Dec degrees field after its sign. Python's `str.zfill` is written out.
  - `Photometry`: the loop that keeps the latest qualifying magnitude. It is a method proved against a declarative "latest point" predicate.
  - `Ztf2Mmt`: `query_fritz` after its requests, the slit-width to mask-id table, the payload and the text of `describe_target`.
- `fritz_finderchart.py` (`FinderChart`):
  - the `SingleOrList` argparse action, as a class over a namespace;
  - the finder and offsets request parameters;
  - the cleaning of a starlist response;
  - the validation of the command line;
  - the loop that accumulates the starlist.
- `setup.py` (`Setup`): `get_version` as a loop over `str.splitlines()`, with Python's line boundaries written out.
- Shared helpers:
  - `Strings`: `str.split` and `str.join` on one character, with round-trip lemmas.
  - `Decimal`: `str(int)` and its inverse.
  - `Wrappers`: `Option` for Python's `None`, and `Result` for raised exceptions.

Behaviour of the code worth noting:

- Among qualifying points with equal latest `mjd`, the first one in list order wins. The comparison is a strict `>`.
- When no point qualifies, the magnitude is the initial 0.
- When the kept point has no `mag` (a non-detection), `round(None, 1)` raises `TypeError`. `query_fritz` then fails with `MagTypeError` and no payload is built.
- A `None` starlist entry makes `starlist += None` raise `TypeError`, so the batch stops at that source.
- A failed finder-chart download has no effect on the starlist.

## Model

| member | source | states |
|---|---|---|
| `Strings.Split` | ZTF2MMT/ztf2mmt.py:38 | `split(':')` always gives at least one field, no field holds the separator, and a separator-free string is one field |
| `Strings.JoinSplit` | ZTF2MMT/ztf2mmt.py:38-40 | joining the fields of a split with the same separator gives back the original string |
| `Strings.SplitJoin` | ZTF2MMT/ztf2mmt.py:38-40 | splitting the join of separator-free fields gives back the same fields, so re-joining keeps the field count |
| `Strings.SplitCons` | setup.py:16 | a separator-free first part followed by the separator is exactly the first field of the split |
| `Sexagesimal.ZFill` | ZTF2MMT/ztf2mmt.py:39 | Python `zfill`: the result is at least `width` long; a string already that long is unchanged; otherwise only '0's are added in front, after a leading '+'/'-' when there is one |
| `Sexagesimal.PadRa` | ZTF2MMT/ztf2mmt.py:38-40 | the padded RA has the same number of ':' fields, its first field is the zero-filled hours field, and every later field is unchanged |
| `Sexagesimal.PadDec` | ZTF2MMT/ztf2mmt.py:44-46 | fails (IndexError) exactly when the degrees field is empty; otherwise it keeps the sign character, zero-fills the rest of that field to 2, and leaves the field count and the later fields unchanged |
| `Sexagesimal.PadRaIdempotent` | ZTF2MMT/ztf2mmt.py:38-40 | padding an already padded RA string changes nothing |
| `Sexagesimal.PadDecIdempotent` | ZTF2MMT/ztf2mmt.py:44-46 | padding an already padded Dec string changes nothing |
| `Sexagesimal.PadRaHoursWidth` | ZTF2MMT/ztf2mmt.py:39 | the padded hours field has at least two characters, and exactly two when the library gave at most two |
| `Photometry.LatestIndex` | ZTF2MMT/ztf2mmt.py:59-66 | the record the scan keeps is ZTF, not `alert_fp` (a missing origin qualifies), has mjd > 0, has an mjd no smaller than any other qualifying record, and is strictly later than every earlier qualifying one; none is kept exactly when no qualifying record has mjd > 0 |
| `Photometry.LatestIndexExact` | ZTF2MMT/ztf2mmt.py:59-66 | the latest record is unique: an index satisfies the declarative "latest" predicate if and only if the scan keeps it |
| `Photometry.LatestMagnitude` | ZTF2MMT/ztf2mmt.py:59-68 | the magnitude is the `mag` of the latest qualifying record (`None` when that record has none), or 0 when no record qualifies |
| `Photometry.ScanLatest` | ZTF2MMT/ztf2mmt.py:59-66 | the loop over the records ends with `mag` equal to the latest qualifying magnitude and `mjd_max` equal to its epoch, or 0 |
| `Photometry.ExampleSkipsForcedPhotometry` | ZTF2MMT/ztf2mmt.py:59-68 | for records ZTF/science/100/18.0, ZTF/alert_fp/200/17.0 and ZTF/science/150/17.5 the magnitude is 17.5 |
| `Photometry.ExampleNonDetection` | ZTF2MMT/ztf2mmt.py:61-68 | a single ZTF record with mjd 100 and no `mag` is kept, and leaves `mag` at `None` for `round(mag, 1)` |
| `Ztf2Mmt.QueryFritz` | ZTF2MMT/ztf2mmt.py:36-68 | `query_fritz` fails exactly when Dec padding fails (IndexError) or the kept record has no magnitude (`round(None, 1)` raises TypeError), in that order; otherwise it returns the padded RA, the padded Dec and the latest magnitude |
| `Ztf2Mmt.MaskIdFor` | ZTF2MMT/ztf2mmt.py:97-113 | `maskid_map[slitwidth]` succeeds exactly for the five listed slit widths and raises KeyError with that key otherwise |
| `Ztf2Mmt.MaskIdTable` | ZTF2MMT/ztf2mmt.py:97-103 | Longslit0_75→113, Longslit1→111, Longslit1_25→131, Longslit1_5→114, Longslit5→112 |
| `Ztf2Mmt.MaskIdRoundTrip` | ZTF2MMT/ztf2mmt.py:97-103 | the table is a bijection: a slit width maps to a mask id if and only if the inverse maps that mask id back to the slit width |
| `Ztf2Mmt.BuildPayload` | ZTF2MMT/ztf2mmt.py:105-118 | the payload fails exactly for an unknown slit width; otherwise its `maskid` is the table's value for its `slitwidth`, it passes the arguments and lookup through, and it has the fixed constants (pa 0, longslit, visits 1, epoch 2000.0, zero proper motion, instrument 16) |
| `Ztf2Mmt.DescribeTarget` | ZTF2MMT/ztf2mmt.py:71-88 | `describe_target` prints one block, or two with the setup; the details begin with the object id, magnitude, coordinates and "{observationtype} request for " and end with the notes line; the setup block begins with the grating and ends with the slit |
| `Ztf2Mmt.DescribeTargetTotal` | ZTF2MMT/ztf2mmt.py:76-78 | in the printed details, the total after "request for " up to its 's' reads back as `numberexposures * exposuretime` |
| `Ztf2Mmt.DescribeTargetGrating` | ZTF2MMT/ztf2mmt.py:84-86 | the first word of the printed setup block reads back as the grating |
| `Ztf2Mmt.ExposurePlanTotal` | ZTF2MMT/ztf2mmt.py:76-78 | the total printed before the first 's' of the exposure plan reads back as `numberexposures * exposuretime` |
| `Ztf2Mmt.PrepareRequest` | ZTF2MMT/ztf2mmt.py:91-118 | the `__main__` flow fails with IndexError on an empty Dec degrees field, then with TypeError on a missing magnitude, then with KeyError for an unknown slit width; otherwise it gives the payload built from the padded coordinates and the latest magnitude, whose every field `BuildPayload` fixes |
| `Decimal.ParseIntToString` | ZTF2MMT/ztf2mmt.py:77-78 | reading an integer back from how an f-string prints it gives the same integer |
| `Decimal.IntToStringInjective` | ZTF2MMT/ztf2mmt.py:77-78 | distinct integers print differently |
| `FinderChart.AsList` | ZTF2MMT/fritz_finderchart.py:19-22 | a list value is stored unchanged and a single value is wrapped in a one-element list |
| `FinderChart.SingleOrList.Call` | ZTF2MMT/fritz_finderchart.py:18-22 | `__call__` sets the action's `dest` attribute to the list form of the values and leaves every other attribute alone |
| `FinderChart.FinderRequestFor` | ZTF2MMT/fritz_finderchart.py:25-35 | the finder request always asks for facility "Keck", passes the other three values through, and its endpoint names the source |
| `FinderChart.OffsetsRequestFor` | ZTF2MMT/fritz_finderchart.py:49-59 | the offsets request passes facility, use_ztfref, num_offset_stars and obstime through, and its endpoint names the source |
| `FinderChart.SourceOfEndpoint` | ZTF2MMT/fritz_finderchart.py:29 | the source id can be read back out of the endpoint URL |
| `FinderChart.ReplaceLeavesNoNbsp` | ZTF2MMT/fritz_finderchart.py:64 | after `replace("&nbsp;", " ")` no "&nbsp;" occurs anywhere in the text |
| `FinderChart.ReplaceClean` | ZTF2MMT/fritz_finderchart.py:64 | text without "&nbsp;" is left unchanged |
| `FinderChart.ReplaceIdempotent` | ZTF2MMT/fritz_finderchart.py:64 | cleaning twice is cleaning once |
| `FinderChart.ReplaceEscape` | ZTF2MMT/fritz_finderchart.py:64 | for any text without "&nbsp;" and any choice of its spaces written as "&nbsp;", the cleaning gives the text back: every "&nbsp;" becomes one space and all other characters, plain spaces included, are kept in order |
| `FinderChart.GetStarlist` | ZTF2MMT/fritz_finderchart.py:62-71 | an entry exists exactly when the status is 200 and the starlist (default "") is non-empty; it is then the cleaned text, free of "&nbsp;", followed by exactly one "\n" |
| `FinderChart.Validate` | ZTF2MMT/fritz_finderchart.py:108-111 | the command line is accepted exactly when image_source is desi/dss/ztfref/ps1, 0 ≤ num_offset_stars ≤ 4 and facility is Keck/Shane/P200/P200-NGPS; the first failing assertion is reported; use_ztfref is `not use_gaia_pos` |
| `FinderChart.DefaultsValid` | ZTF2MMT/fritz_finderchart.py:89-104 | the argparse defaults (ps1, 3 stars, Keck) pass validation |
| `FinderChart.Aggregate` | ZTF2MMT/fritz_finderchart.py:121-127 | an aggregate exists exactly when every entry exists |
| `FinderChart.AggregateAppend` | ZTF2MMT/fritz_finderchart.py:124 | appending one entry extends the aggregate by that entry, and a missing entry loses the aggregate |
| `FinderChart.AggregateIsConcat` | ZTF2MMT/fritz_finderchart.py:121-127 | when every entry exists, the aggregate is the concatenation of the entries in input order |
| `FinderChart.BatchRequestAt` | ZTF2MMT/fritz_finderchart.py:122-127 | iteration i issues the finder request of source i for "Keck", then its offsets request for the chosen facility |
| `FinderChart.RunBatch` | ZTF2MMT/fritz_finderchart.py:121-127 | the loop's starlist is the aggregate of the per-source entries, and its requests are those of every source up to and including the first source without an entry |
| `Setup.SplitLinesNoBreak` | setup.py:13 | no line produced by `splitlines()` holds a line boundary |
| `Setup.SplitJoinLines` | setup.py:13 | `splitlines()` of newline-terminated lines gives back those lines |
| `Setup.ParseVersionLine` | setup.py:15-16 | the delimiter is '"' when the line has one, else "'"; the result is the text between the first and second delimiter (or the end), and IndexError is raised exactly when the line has neither quote |
| `Setup.ParseVersionLineRoundTrip` | setup.py:15-16 | parsing `__version__ = "v"` gives back v |
| `Setup.FirstVersionLine` | setup.py:13-14 | finds the first line starting with `__version__`, and finds none exactly when no line does |
| `Setup.VersionOf` | setup.py:12-18 | `get_version` returns the parse of the first `__version__` line and raises RuntimeError exactly when there is none |
| `Setup.GetVersion` | setup.py:12-18 | the loop with its early return and for-else returns what `VersionOf` describes |
| `Setup.VersionIgnoresLaterLines` | setup.py:13-16 | lines after the first `__version__` line do not affect the result |
| `Setup.InitFileVersion` | ZTF2MMT/__init__.py:1-5 | for the text of ZTF2MMT/__init__.py, whatever follows line 5, the version is "0.0.1" |

## Left out

- HTTP requests, status handling and JSON decoding are not modelled. Responses are inputs. A `query_fritz` response that is not `ok` is only printed and then used anyway; the model starts from the decoded `data`.
- The astropy `Angle` degree→HMS/DMS conversion is not modelled, because it is foreign floating-point code. Its output string is the input of `Sexagesimal.PadRa` and `Sexagesimal.PadDec`.
- Photometry.LatestMagnitude: gives the magnitude before Python's `round(mag, 1)`, because float rounding is not modelled. `mjd` and `mag` are reals.
- Photometry.EpochOf: a JSON `null` mjd would make `>` raise `TypeError`. The model only has absent (0) or numeric epochs. The other JSON shapes `get_starlist` could trip on are not modelled either: `data` or `starlist_str` being null or not an object.
- `pymmt.Target` construction, validation and posting are not modelled; they are a third-party library. The commented-out post and upload path is disabled code. `describe_target` reads the target's attributes; the model takes them to be the payload's values.
- Ztf2Mmt.DescribeTarget: takes the magnitude's printed form as an input, because Python's float-to-text conversion is not modelled.
- `send_to_MMT` is not modelled. It is an empty function.
- File and directory writes are not modelled: `os.makedirs`, the PDF, `starlist.txt`, and reading files in `read` and `get_requires`. `get_version` takes the file text as its input.
- Environment-variable API keys and headers are not modelled; they are process globals. `args.py` is not modelled either: it only declares arguments and their defaults. `__init__.py` is only used as the text of `Setup.InitFileVersion`.
- `datetime.now()` is not modelled; each iteration's timestamp is an input. No `print` output is modelled.
- FinderChart.SingleOrList.Call: the namespace is modelled only by its list-valued attributes. The unused `parser` and `option_string` parameters are dropped.
