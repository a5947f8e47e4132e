/** Zero-padding of the leading field of the sexagesimal strings that
    `query_fritz` receives from the angle library (`HH:MM:SS.ss` for right
    ascension, `±DD:MM:SS.ss` for declination). The library's conversion itself
    is not modelled: its output string is the input here. */
module Sexagesimal {
  import opened Wrappers
  import opened Strings

  /** Why Dec padding can fail: Python's `parts[0][0]` on an empty first field. */
  datatype PadError = IndexError

  function Zeros(n: nat): (z: string)
    ensures |z| == n && forall i :: 0 <= i < n ==> z[i] == '0'
  {
    seq(n, _ => '0')
  }

  predicate IsSign(c: char)
  {
    c == '+' || c == '-'
  }

  /** Python's `str.zfill(width)`: left-pad with '0' up to `width`, keeping a
      leading sign in front of the zeros. */
  function ZFill(s: string, width: nat): (r: string)
    ensures |r| == if |s| >= width then |s| else width
    ensures |s| >= width ==> r == s
    ensures (|s| == 0 || !IsSign(s[0])) ==>
              r[|r| - |s|..] == s && forall i :: 0 <= i < |r| - |s| ==> r[i] == '0'
    ensures |s| > 0 && IsSign(s[0]) ==>
              r[0] == s[0] && r[|r| - |s| + 1..] == s[1..] &&
              forall i :: 1 <= i < |r| - |s| + 1 ==> r[i] == '0'
    ensures forall c :: c in r ==> c in s || c == '0'
  {
    if |s| >= width then s
    else if |s| > 0 && IsSign(s[0]) then [s[0]] + Zeros(width - |s|) + s[1..]
    else Zeros(width - |s|) + s
  }

  /** Right ascension (ztf2mmt.py, lines 38-40): split on ':', zero-fill the
      hours field to two characters, join again. */
  function PadRa(hms: string): (r: string)
    ensures |Split(r, ':')| == |Split(hms, ':')|
    ensures Split(r, ':')[0] == ZFill(Split(hms, ':')[0], 2)
    ensures Split(r, ':')[1..] == Split(hms, ':')[1..]
  {
    var parts := Split(hms, ':');
    var padded := parts[0 := ZFill(parts[0], 2)];
    SplitJoin(padded, ':');
    Join(padded, ':')
  }

  /** Declination (ztf2mmt.py, lines 44-46): keep the sign character of the
      degrees field and zero-fill the rest of it to two characters. An empty
      degrees field raises `IndexError`. */
  function PadDec(dms: string): (r: Result<string, PadError>)
    ensures r.Err? <==> |dms| == 0 || dms[0] == ':'
    ensures r.Ok? ==>
      var p, q := Split(dms, ':'), Split(r.value, ':');
      && |q| == |p|
      && q[0] == [p[0][0]] + ZFill(p[0][1..], 2)
      && q[1..] == p[1..]
  {
    var parts := Split(dms, ':');
    if |parts[0]| == 0 then
      assert |dms| == 0 || dms[0] == ':' by { SplitHead(dms, ':'); }
      Err(IndexError)
    else
      assert dms[0] != ':' by { SplitHead(dms, ':'); }
      var padded := parts[0 := [parts[0][0]] + ZFill(parts[0][1..], 2)];
      assert ':' !in padded[0];
      SplitJoin(padded, ':');
      Ok(Join(padded, ':'))
  }

  /** The first field is empty exactly when the string is empty or starts with the separator. */
  lemma SplitHead(s: string, sep: char)
    ensures |Split(s, sep)[0]| == 0 <==> |s| == 0 || s[0] == sep
  {
  }

  /** Padding the right ascension twice is padding it once. */
  lemma {:induction false} PadRaIdempotent(hms: string)
    ensures PadRa(PadRa(hms)) == PadRa(hms)
  {
    var once := PadRa(hms);
    var p := Split(once, ':');
    assert p[0] == ZFill(p[0], 2);
    assert p[0 := ZFill(p[0], 2)] == p;
    JoinSplit(once, ':');
  }

  /** Padding the declination twice is padding it once. */
  lemma {:induction false} PadDecIdempotent(dms: string)
    requires PadDec(dms).Ok?
    ensures PadDec(PadDec(dms).value) == PadDec(dms)
  {
    var once := PadDec(dms).value;
    var p := Split(once, ':');
    assert |p[0]| >= 3;
    assert once[0] != ':' by { SplitHead(once, ':'); }
    assert [p[0][0]] + ZFill(p[0][1..], 2) == p[0];
    assert p[0 := [p[0][0]] + ZFill(p[0][1..], 2)] == p;
    JoinSplit(once, ':');
  }

  /** A padded right ascension always has an hours field of at least two characters,
      and one of exactly two when the library gave one or two digits. */
  lemma PadRaHoursWidth(hms: string)
    ensures |Split(PadRa(hms), ':')[0]| >= 2
    ensures |Split(hms, ':')[0]| <= 2 ==> |Split(PadRa(hms), ':')[0]| == 2
  {
  }
}
