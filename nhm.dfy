/**
 * Fault records of the New Zealand National Seismic Hazard Model file (qcore/nhm.py).
 *
 * A file is a 14-line header, then one entry per fault, entries separated by a blank line. An entry
 * is a fixed sequence of rows: the name, the tectonic and fault types, nine rows of numeric fields,
 * the point count and the fault trace, one (longitude, latitude) point per row.
 *
 * Numbers are reals. Python's `float(token)` and the fixed-width number formats of `write` are not
 * modelled character by character: they are parameters (`parse`, `Formats`). The round trip holds
 * for a fault `Writable` describes: each formatted number is one word that parses back to itself,
 * the second and third numbers of a line are narrower than their column, the name is stripped and
 * holds no newline, and the types are one word each.
 */
module Nhm {
  import opened Wrappers
  import opened PyStr
  import opened Seqs

  /** One fault of the model. */
  datatype Fault = Fault(
    name: string, tectonicType: string, faultType: string,
    length: real, lengthSigma: real,
    dip: real, dipSigma: real, dipDir: real, rake: real,
    dbottom: real, dbottomSigma: real,
    dtop: real, dtopMin: real, dtopMax: real,
    slipRate: real, slipRateSigma: real,
    couplingCoeff: real, couplingCoeffSigma: real,
    mw: real, recurIntMedian: real,
    trace: seq<(real, real)>)

  /*
   * Reading
   */

  /** `list(map(float, tokens))`: None as soon as one token is not a number. */
  function Floats(parse: string -> Option<real>, toks: seq<string>): (r: Option<seq<real>>)
    ensures r.Some? <==> forall i :: 0 <= i < |toks| ==> parse(toks[i]).Some?
    ensures r.Some? ==> |r.value| == |toks| && forall i :: 0 <= i < |toks| ==> r.value[i] == parse(toks[i]).value
  {
    if toks == [] then Some([])
    else
      match (parse(toks[0]), Floats(parse, toks[1..]))
      case (Some(x), Some(xs)) => Some([x] + xs)
      case _ => None
  }

  /** `a, b, ... = str2floats(row)`: the numbers of a row, exactly `n` of them. */
  function Fields(parse: string -> Option<real>, row: string, n: nat): (r: Result<seq<real>>)
    ensures r.Ok? ==> |r.value| == n
  {
    match Floats(parse, Tokens(row))
    case None => Err("could not convert string to float")
    case Some(xs) => if |xs| != n then Err("wrong number of values to unpack") else Ok(xs)
  }

  /** `float(row)` for a row holding a single number. */
  function Single(parse: string -> Option<real>, row: string): Result<real>
  {
    match parse(row)
    case None => Err("could not convert string to float")
    case Some(x) => Ok(x)
  }

  /** Consecutive pairs of an even-length sequence: `reshape((-1, 2))`. */
  function Pairs(xs: seq<real>): (r: seq<(real, real)>)
    requires |xs| % 2 == 0
    ensures |r| * 2 == |xs|
  {
    if xs == [] then [] else [(xs[0], xs[1])] + Pairs(xs[2..])
  }

  /** Each row stripped: `list(map(str.strip, rows))`. */
  function StripAll(rows: seq<string>): (r: seq<string>)
    ensures |r| == |rows| && forall i :: 0 <= i < |rows| ==> r[i] == Strip(rows[i])
  {
    Map(Strip, rows)
  }

  /** The rows of an entry: its lines, stripped. */
  function Rows(entry: string): seq<string>
  {
    StripAll(Split(entry, '\n'))
  }

  /** Rows 12 onward, `rows[12:]`. */
  function TraceRows(rows: seq<string>): seq<string>
  {
    if |rows| > 12 then rows[12..] else []
  }

  /** The IndexError of `rows[k]` past the end. */
  const OutOfRange := "list index out of range"

  /**
   * The fields of one entry, by row position: row 0 is the name, row 1 the two types, rows 2, 3, 6,
   * 8, 9 and 10 pairs of numbers, row 7 three numbers, rows 4 and 5 one number each; row 11, the
   * point count, is not read; the trace is every number of rows 12 onward, taken two by two. Rows
   * are read in the order 1, 2, 3, 6, 7, 8, 9, 10, then 4, 5 and the trace, and the first row that
   * is missing or does not parse decides the error.
   */
  function ParseRows(parse: string -> Option<real>, rows: seq<string>): Result<Fault>
  {
    if |rows| < 2 then Err(OutOfRange)
    else
      var types := Tokens(rows[1]);
      if |types| != 2 then Err("wrong number of values to unpack")
      else if |rows| < 3 then Err(OutOfRange)
      else
        var length :- Fields(parse, rows[2], 2);
        if |rows| < 4 then Err(OutOfRange)
        else
          var dip :- Fields(parse, rows[3], 2);
          if |rows| < 7 then Err(OutOfRange)
          else
            var dbottom :- Fields(parse, rows[6], 2);
            if |rows| < 8 then Err(OutOfRange)
            else
              var dtop :- Fields(parse, rows[7], 3);
              if |rows| < 9 then Err(OutOfRange)
              else
                var slip :- Fields(parse, rows[8], 2);
                if |rows| < 10 then Err(OutOfRange)
                else
                  var coupling :- Fields(parse, rows[9], 2);
                  if |rows| < 11 then Err(OutOfRange)
                  else
                    var mw :- Fields(parse, rows[10], 2);
                    var dipDir :- Single(parse, rows[4]);
                    var rake :- Single(parse, rows[5]);
                    var coords := Floats(parse, Tokens(Join(" ", TraceRows(rows))));
                    if coords.None? then Err("could not convert string to float")
                    else if |coords.value| % 2 != 0 then Err("cannot reshape array into shape (-1, 2)")
                    else
                      Ok(Fault(rows[0], types[0], types[1], length[0], length[1], dip[0], dip[1],
                               dipDir, rake, dbottom[0], dbottom[1], dtop[0], dtop[1], dtop[2],
                               slip[0], slip[1], coupling[0], coupling[1], mw[0], mw[1], Pairs(coords.value)))
  }

  /**
   * The type row is read before any row after it is looked for: an entry whose row 1 does not hold
   * exactly two words fails on that, however short the entry is.
   */
  lemma TypesReadFirst(parse: string -> Option<real>, rows: seq<string>)
    requires |rows| >= 2 && |Tokens(rows[1])| != 2
    ensures ParseRows(parse, rows) == Err("wrong number of values to unpack")
  {
  }

  /** A row that is present but does not parse decides the error before any later row is looked for. */
  lemma EarlierRowDecides(parse: string -> Option<real>, rows: seq<string>)
    requires |rows| >= 3 && |Tokens(rows[1])| == 2 && Fields(parse, rows[2], 2).Err?
    ensures ParseRows(parse, rows) == Err(Fields(parse, rows[2], 2).reason)
  {
  }

  /** One entry of the file. */
  function ParseEntry(parse: string -> Option<real>, entry: string): Result<Fault>
  {
    ParseRows(parse, Rows(entry))
  }

  /**
   * A parsed entry's fields sit at the fixed row positions, and its trace is the numbers of rows 12
   * onward taken two by two, in order.
   */
  lemma ParsedRows(parse: string -> Option<real>, rows: seq<string>)
    requires ParseRows(parse, rows).Ok?
    ensures var f := ParseRows(parse, rows).value;
      && |rows| >= 11 && f.name == rows[0]
      && Tokens(rows[1]) == [f.tectonicType, f.faultType]
      && Fields(parse, rows[2], 2) == Ok([f.length, f.lengthSigma])
      && Fields(parse, rows[3], 2) == Ok([f.dip, f.dipSigma])
      && parse(rows[4]) == Some(f.dipDir) && parse(rows[5]) == Some(f.rake)
      && Fields(parse, rows[6], 2) == Ok([f.dbottom, f.dbottomSigma])
      && Fields(parse, rows[7], 3) == Ok([f.dtop, f.dtopMin, f.dtopMax])
      && Fields(parse, rows[8], 2) == Ok([f.slipRate, f.slipRateSigma])
      && Fields(parse, rows[9], 2) == Ok([f.couplingCoeff, f.couplingCoeffSigma])
      && Fields(parse, rows[10], 2) == Ok([f.mw, f.recurIntMedian])
      && Floats(parse, Tokens(Join(" ", TraceRows(rows)))) == Some(Flatten(f.trace))
  {
    var r := ParseRows(parse, rows);
    ParsedRowsPresent(parse, rows);
    var types := Tokens(rows[1]);
    PairOf(types);
    var length := Fields(parse, rows[2], 2).value;
    PairOf(length);
    var dip := Fields(parse, rows[3], 2).value;
    PairOf(dip);
    var dbottom := Fields(parse, rows[6], 2).value;
    PairOf(dbottom);
    var dtop := Fields(parse, rows[7], 3).value;
    TripleOf(dtop);
    var slip := Fields(parse, rows[8], 2).value;
    PairOf(slip);
    var coupling := Fields(parse, rows[9], 2).value;
    PairOf(coupling);
    var mw := Fields(parse, rows[10], 2).value;
    PairOf(mw);
    var coords := Floats(parse, Tokens(Join(" ", TraceRows(rows))));
    assert r.value == Fault(rows[0], types[0], types[1], length[0], length[1], dip[0], dip[1],
                            parse(rows[4]).value, parse(rows[5]).value, dbottom[0], dbottom[1],
                            dtop[0], dtop[1], dtop[2], slip[0], slip[1], coupling[0], coupling[1],
                            mw[0], mw[1], Pairs(coords.value));
    FlattenPairs(coords.value);
  }

  /** Every row a parsed entry reads is present and converts, and its trace numbers pair up. */
  lemma ParsedRowsPresent(parse: string -> Option<real>, rows: seq<string>)
    requires ParseRows(parse, rows).Ok?
    ensures |rows| >= 11 && |Tokens(rows[1])| == 2
    ensures Fields(parse, rows[2], 2).Ok? && Fields(parse, rows[3], 2).Ok? && Fields(parse, rows[6], 2).Ok?
    ensures Fields(parse, rows[7], 3).Ok? && Fields(parse, rows[8], 2).Ok? && Fields(parse, rows[9], 2).Ok?
    ensures Fields(parse, rows[10], 2).Ok? && parse(rows[4]).Some? && parse(rows[5]).Some?
    ensures var coords := Floats(parse, Tokens(Join(" ", TraceRows(rows))));
      coords.Some? && |coords.value| % 2 == 0
  {
  }

  /** An odd number of trace numbers cannot be shaped into points, and the entry is rejected. */
  lemma OddTraceRejected(parse: string -> Option<real>, rows: seq<string>)
    requires Floats(parse, Tokens(Join(" ", TraceRows(rows)))).Some?
    requires |Tokens(Join(" ", TraceRows(rows)))| % 2 == 1
    ensures ParseRows(parse, rows).Err?
  {
    if ParseRows(parse, rows).Ok? {
      ParsedRowsPresent(parse, rows);
    }
  }

  /**
   * The faults of a file from the parse results of its entries, in order: each stored under its
   * name, a later entry replacing an earlier namesake; the first entry that did not parse decides
   * the error.
   */
  function Collect(results: seq<Result<Fault>>): Result<map<string, Fault>>
  {
    if results == [] then Ok(map[])
    else
      var init :- Collect(results[..|results| - 1]);
      var f :- results[|results| - 1];
      Ok(init[f.name := f])
  }

  /** The parse result of every entry. */
  function ParseEach(parse: string -> Option<real>, entries: seq<string>): seq<Result<Fault>>
  {
    seq(|entries|, i requires 0 <= i < |entries| => ParseEntry(parse, entries[i]))
  }

  /** `f.readlines()[k:]` joined back: the text after its first `k` lines. */
  function DropLines(text: string, k: nat): string
    decreases k
  {
    if k == 0 then text
    else if '\n' in text then DropLines(text[IndexOf(text, '\n') + 1..], k - 1)
    else ""
  }

  /** The position of the first blank-line separator "\n\n" in `s`, if any. */
  function FindBlank(s: string): (r: Option<nat>)
    ensures r.Some? ==> r.value + 1 < |s| && s[r.value] == '\n' && s[r.value + 1] == '\n'
    ensures r.Some? ==> forall i :: 0 <= i < r.value ==> !(s[i] == '\n' && s[i + 1] == '\n')
    ensures r.None? ==> forall i :: 0 <= i < |s| - 1 ==> !(s[i] == '\n' && s[i + 1] == '\n')
  {
    if |s| < 2 then None
    else if s[0] == '\n' && s[1] == '\n' then Some(0)
    else
      match FindBlank(s[1..])
      case None => None
      case Some(i) => Some(i + 1)
  }

  /** No blank-line separator "\n\n" occurs in `s`. */
  predicate NoBlank(s: string)
  {
    forall i :: 0 <= i < |s| - 1 ==> !(s[i] == '\n' && s[i + 1] == '\n')
  }

  /** A piece that a later separator follows: it holds no separator and does not end in "\n". */
  predicate InnerPiece(p: string)
  {
    NoBlank(p) && (p == [] || p[|p| - 1] != '\n')
  }

  /**
   * `s.split("\n\n")`: the pieces between blank-line separators, found left to right. Joined at
   * "\n\n" they give `s` back; no piece holds a separator, and none but the last ends in "\n", so
   * each separator is the leftmost one in what remains.
   */
  function SplitBlank(s: string): (r: seq<string>)
    ensures |r| >= 1 && Join("\n\n", r) == s
    ensures forall j :: 0 <= j < |r| - 1 ==> InnerPiece(r[j])
    ensures NoBlank(r[|r| - 1])
    decreases |s|
  {
    match FindBlank(s)
    case None => [s]
    case Some(i) =>
      var rest := SplitBlank(s[i + 2..]);
      SplitBlankStep(s, i, rest);
      [s[..i]] + rest
  }

  /** The text before the first separator is an inner piece, and the pieces join back. */
  lemma SplitBlankStep(s: string, i: nat, rest: seq<string>)
    requires FindBlank(s) == Some(i)
    requires rest != [] && Join("\n\n", rest) == s[i + 2..]
    ensures Join("\n\n", [s[..i]] + rest) == s
    ensures InnerPiece(s[..i])
  {
    JoinCons("\n\n", s[..i], rest);
    assert s == s[..i] + "\n\n" + s[i + 2..];
    assert forall k :: 0 <= k < i ==> s[..i][k] == s[k];
  }

  /** The separator at `m` is the first one when none occurs before it. */
  lemma FindBlankAt(s: string, m: nat)
    requires m + 1 < |s| && s[m] == '\n' && s[m + 1] == '\n'
    requires forall k :: 0 <= k < m ==> !(s[k] == '\n' && s[k + 1] == '\n')
    ensures FindBlank(s) == Some(m)
  {
  }

  /**
   * Splitting pieces joined at blank lines gives them back, when no piece holds a separator and
   * none but the last ends in "\n".
   */
  lemma {:induction false} SplitBlankJoin(parts: seq<string>)
    requires parts != [] && NoBlank(parts[|parts| - 1])
    requires forall j :: 0 <= j < |parts| - 1 ==> InnerPiece(parts[j])
    ensures SplitBlank(Join("\n\n", parts)) == parts
    decreases |parts|
  {
    var s := Join("\n\n", parts);
    if |parts| == 1 {
      assert FindBlank(s).None?;
    } else {
      var p, rest := parts[0], parts[1..];
      assert parts == [p] + rest;
      JoinCons("\n\n", p, rest);
      assert s == p + "\n\n" + Join("\n\n", rest);
      assert forall k :: 0 <= k < |p| ==> s[k] == p[k];
      assert InnerPiece(p);
      FindBlankAt(s, |p|);
      assert s[..|p|] == p && s[|p| + 2..] == Join("\n\n", rest);
      SplitBlankJoin(rest);
    }
  }

  /** The entries of a file once `skiprows` lines are skipped. */
  function Entries(text: string, skiprows: nat): seq<string>
  {
    SplitBlank(DropLines(text, skiprows))
  }

  /** The header line count plus the blank line that precedes the first entry. */
  const DefaultSkipRows: nat := 15

  /**
   * `load_nhm`: skip `skiprows` lines, split the rest into entries at blank lines and parse each,
   * storing the fault under its name. The first entry that does not parse aborts the load. `text`
   * is the file as Python 3 text mode reads it: decoded, with every "\r\n" and "\r" already read
   * as "\n".
   */
  method LoadNhm(parse: string -> Option<real>, text: string, skiprows: nat) returns (r: Result<map<string, Fault>>)
    ensures r == Collect(ParseEach(parse, Entries(text, skiprows)))
  {
    var entries := SplitBlank(DropLines(text, skiprows));
    ghost var results := ParseEach(parse, entries);
    var faults: map<string, Fault> := map[];
    for i := 0 to |entries|
      invariant Collect(results[..i]) == Ok(faults)
    {
      assert results[..i + 1][..i] == results[..i];
      var f := ParseEntry(parse, entries[i]);
      assert results[i] == f;
      if f.Err? {
        CollectFirstErr(results, i);
        return Err(f.reason);
      }
      faults := faults[f.value.name := f.value];
    }
    assert results[..|entries|] == results;
    r := Ok(faults);
  }

  /** The first entry that does not parse decides the error of the whole load. */
  lemma {:induction false} CollectFirstErr(results: seq<Result<Fault>>, i: nat)
    requires i < |results| && Collect(results[..i]).Ok? && results[i].Err?
    ensures Collect(results) == Err(results[i].reason)
    decreases |results|
  {
    var init := results[..|results| - 1];
    if i == |results| - 1 {
      assert init == results[..i];
    } else {
      assert init[..i] == results[..i];
      CollectFirstErr(init, i);
    }
  }

  /** A load fails exactly when some entry does not parse. */
  lemma {:induction false} CollectErr(results: seq<Result<Fault>>)
    ensures Collect(results).Err? <==> exists i :: 0 <= i < |results| && results[i].Err?
  {
    if results != [] {
      var init := results[..|results| - 1];
      CollectErr(init);
      if Collect(init).Err? {
        var i :| 0 <= i < |init| && init[i].Err?;
        assert results[i] == init[i];
      } else if results[|results| - 1].Ok? {
        forall i | 0 <= i < |results|
          ensures results[i].Ok?
        {
          if i < |init| {
            assert results[i] == init[i];
          }
        }
      }
    }
  }

  /** Last entry wins: the fault stored under a name is the last one parsed with that name. */
  lemma {:induction false} CollectLastWins(results: seq<Result<Fault>>, i: nat)
    requires Collect(results).Ok? && i < |results| && results[i].Ok?
    requires forall j :: i < j < |results| && results[j].Ok? ==> results[j].value.name != results[i].value.name
    ensures results[i].value.name in Collect(results).value
    ensures Collect(results).value[results[i].value.name] == results[i].value
  {
    var init := results[..|results| - 1];
    if i < |results| - 1 {
      assert forall j :: i < j < |init| ==> init[j] == results[j];
      CollectLastWins(init, i);
    }
  }

  /** A name no entry carries is not among the loaded faults. */
  lemma {:induction false} CollectAbsent(results: seq<Result<Fault>>, name: string)
    requires Collect(results).Ok?
    requires forall j :: 0 <= j < |results| && results[j].Ok? ==> results[j].value.name != name
    ensures name !in Collect(results).value
  {
    if results != [] {
      var init := results[..|results| - 1];
      assert forall j :: 0 <= j < |init| ==> init[j] == results[j];
      CollectAbsent(init, name);
    }
  }

  /*
   * Writing
   */

  /** The number formats of `write`: `{:10.3f}`, `{:10.3e}` and `{:10.5f}` without their padding. */
  datatype Formats = Formats(fix3: real -> string, exp3: real -> string, fix5: real -> string)

  /** Right-aligned in ten columns: spaces are added on the left up to ten characters. */
  function Col(s: string): string
    decreases 10 - |s|
  {
    if |s| >= 10 then s else Col([' '] + s)
  }

  /** A column is the text with the padding `format` puts before it. */
  lemma {:induction false} ColPad(s: string)
    ensures Col(s) == PadLeft(s, 10, ' ')
    decreases 10 - |s|
  {
    if |s| < 10 {
      ColPad([' '] + s);
      var k := 10 - |s|;
      assert Repeat(' ', k) == Repeat(' ', k - 1) + [' '];
      assert Repeat(' ', k - 1) + ([' '] + s) == Repeat(' ', k) + s;
    }
  }

  /** Each line followed by a newline, as the file holds it. */
  function Lines(ls: seq<string>): string
  {
    if ls == [] then "" else ls[0] + "\n" + Lines(ls[1..])
  }

  /** Header line `k`, the first one dated `created`. */
  function HeaderLine(created: string, k: nat): string
    requires k < 14
  {
    match k
    case 0 => "FAULT SOURCES - New Zealand National Seismic Hazard Model 2010 (created " + created + ") "
    case 1 => "Row 1: FaultName "
    case 2 => "Row 2: TectonicType , FaultType "
    case 3 => "Row 3: LengthMean , LengthSigma (km) "
    case 4 => "Row 4: DipMean , DipSigma (deg) "
    case 5 => "Row 5: DipDir "
    case 6 => "Row 6: Rake (deg) "
    case 7 => "Row 7: RupDepthMean , RupDepthSigma (km) "
    case 8 => "Row 8: RupTopMean, RupTopMin RupTopMax  (km) "
    case 9 => "Row 9: SlipRateMean , SlipRateSigma (mm/yr) "
    case 10 => "Row 10: CouplingCoeff , CouplingCoeffSigma (mm/yr) "
    case 11 => "Row 11: MwMedian , RecurIntMedian  (yr) "
    case 12 => "Row 12: Num Locations on Fault Surface "
    case 13 => "Row 13+: Location Coordinates (Long, Lat) "
  }

  /** The 14 header lines, in order. */
  function HeaderLines(created: string): (r: seq<string>)
    ensures |r| == 14 && forall k :: 0 <= k < 14 ==> r[k] == HeaderLine(created, k)
  {
    seq(14, k requires 0 <= k < 14 => HeaderLine(created, k))
  }

  /** One trace point: longitude and latitude, each in ten columns, one space apart. */
  function PointLine(fmt: Formats, p: (real, real)): string
  {
    Col(fmt.fix5(p.0)) + " " + Col(fmt.fix5(p.1))
  }

  /** The trace lines, in stored order. */
  function PointLines(fmt: Formats, trace: seq<(real, real)>): (r: seq<string>)
    ensures |r| == |trace| && forall i :: 0 <= i < |trace| ==> r[i] == PointLine(fmt, trace[i])
  {
    if trace == [] then [] else [PointLine(fmt, trace[0])] + PointLines(fmt, trace[1..])
  }

  /**
   * Fixed line `k` of an entry: the name, the types, nine field lines (0 for both rate sigmas)
   * and the point count.
   */
  function FixedLine(fmt: Formats, f: Fault, k: nat): string
    requires k < 12
  {
    match k
    case 0 => f.name
    case 1 => f.tectonicType + " " + f.faultType
    case 2 => Col(fmt.fix3(f.length)) + Col(fmt.fix3(f.lengthSigma))
    case 3 => Col(fmt.fix3(f.dip)) + Col(fmt.fix3(f.dipSigma))
    case 4 => Col(fmt.fix3(f.dipDir))
    case 5 => Col(fmt.fix3(f.rake))
    case 6 => Col(fmt.fix3(f.dbottom)) + Col(fmt.fix3(f.dbottomSigma))
    case 7 => Col(fmt.fix3(f.dtop)) + Col(fmt.fix3(f.dtopMin)) + Col(fmt.fix3(f.dtopMax))
    case 8 => Col(fmt.fix3(f.slipRate)) + Col(fmt.fix3(0.0))
    case 9 => Col(fmt.fix3(f.couplingCoeff)) + Col(fmt.fix3(0.0))
    case 10 => Col(fmt.fix3(f.mw)) + Col(fmt.exp3(f.recurIntMedian))
    case 11 => Col(IntToString(|f.trace|))
  }

  /** The twelve fixed lines of an entry, in order. */
  function FixedLines(fmt: Formats, f: Fault): (r: seq<string>)
    ensures |r| == 12 && forall k :: 0 <= k < 12 ==> r[k] == FixedLine(fmt, f, k)
  {
    seq(12, k requires 0 <= k < 12 => FixedLine(fmt, f, k))
  }

  /** The lines of one entry: the fixed lines, then one line per trace point. */
  function EntryLines(fmt: Formats, f: Fault): seq<string>
  {
    FixedLines(fmt, f) + PointLines(fmt, f.trace)
  }

  /**
   * `NHMFault.write`: the header when asked for, a blank line, then the entry, line by line; the
   * result is the text appended to the file.
   */
  method Write(fmt: Formats, f: Fault, header: bool, created: string) returns (written: string)
    ensures written == (if header then Lines(HeaderLines(created)) else "") + "\n" + Lines(EntryLines(fmt, f))
  {
    written := if header then Lines(HeaderLines(created)) else "";
    written := written + "\n";
    ghost var head := written;
    var fixed := FixedLines(fmt, f);
    written := WriteLines(written, fixed);
    ghost var body := Lines(fixed);
    written := WritePoints(written, fmt, f.trace);
    ghost var points := Lines(PointLines(fmt, f.trace));
    LinesAppend(fixed, PointLines(fmt, f.trace));
    AppendAssoc(head, body, points);
  }

  /** Writes each line and its newline, in order. */
  method WriteLines(text: string, ls: seq<string>) returns (out: string)
    ensures out == text + Lines(ls)
  {
    out := text;
    for i := 0 to |ls|
      invariant out == text + Lines(ls[..i])
    {
      assert ls[..i + 1] == ls[..i] + [ls[i]];
      AppendLine(text, ls[..i], ls[i]);
      out := out + ls[i] + "\n";
    }
    assert ls[..|ls|] == ls;
  }

  /** Writes one line per trace point, in stored order. */
  method WritePoints(text: string, fmt: Formats, trace: seq<(real, real)>) returns (out: string)
    ensures out == text + Lines(PointLines(fmt, trace))
  {
    out := text;
    for i := 0 to |trace|
      invariant out == text + Lines(PointLines(fmt, trace[..i]))
    {
      var p := trace[i];
      assert trace[..i + 1] == trace[..i] + [p];
      PointLinesSnoc(fmt, trace[..i], p);
      AppendLine(text, PointLines(fmt, trace[..i]), PointLine(fmt, p));
      out := out + PointLine(fmt, p) + "\n";
    }
    assert trace[..|trace|] == trace;
  }

  /** Writing one more line after some lines writes the lines with it appended. */
  lemma AppendLine(text: string, ls: seq<string>, l: string)
    ensures text + Lines(ls) + l + "\n" == text + Lines(ls + [l])
  {
    LinesSnoc(ls, l);
    AppendAssoc(text, Lines(ls), l);
    AppendAssoc(text, Lines(ls) + l, "\n");
  }

  lemma {:induction false} LinesAppend(a: seq<string>, b: seq<string>)
    ensures Lines(a + b) == Lines(a) + Lines(b)
  {
    if a != [] {
      assert (a + b)[1..] == a[1..] + b;
      LinesAppend(a[1..], b);
    } else {
      assert a + b == b;
    }
  }

  lemma PointLinesSnoc(fmt: Formats, trace: seq<(real, real)>, p: (real, real))
    ensures PointLines(fmt, trace + [p]) == PointLines(fmt, trace) + [PointLine(fmt, p)]
  {
  }

  /** What `write` emits for some lines is those lines joined at newlines, with a final newline. */
  lemma {:induction false} LinesJoin(ls: seq<string>)
    requires ls != []
    ensures Lines(ls) == Join("\n", ls) + "\n"
    decreases |ls|
  {
    if |ls| == 1 {
      assert ls[1..] == [];
    } else {
      LinesJoin(ls[1..]);
      assert ls == [ls[0]] + ls[1..];
      JoinCons("\n", ls[0], ls[1..]);
    }
  }

  /** Lines without a newline, all but the first non-empty, hold no blank-line separator. */
  lemma {:induction false} LinesNoBlank(ls: seq<string>)
    requires forall i :: 0 <= i < |ls| ==> '\n' !in ls[i]
    requires forall i :: 0 < i < |ls| ==> ls[i] != []
    ensures NoBlank(Lines(ls))
    decreases |ls|
  {
    if ls != [] {
      var head, tail := ls[0], Lines(ls[1..]);
      assert forall i :: 0 <= i < |ls| - 1 ==> ls[1..][i] == ls[i + 1];
      LinesNoBlank(ls[1..]);
      var s := Lines(ls);
      assert s == head + "\n" + tail;
      if |ls| > 1 {
        assert tail == ls[1] + "\n" + Lines(ls[2..]) by {
          assert ls[1..][1..] == ls[2..];
        }
        assert ls[1][0] in ls[1];
      }
      forall k | 0 <= k < |s| - 1
        ensures !(s[k] == '\n' && s[k + 1] == '\n')
      {
        if k < |head| {
          assert s[k] == head[k] && head[k] in head;
        } else if k > |head| {
          assert s[k] == tail[k - |head| - 1] && s[k + 1] == tail[k - |head|];
        } else {
          assert s[k + 1] == tail[0];
        }
      }
    }
  }

  lemma {:induction false} LinesSnoc(ls: seq<string>, l: string)
    ensures Lines(ls + [l]) == Lines(ls) + l + "\n"
  {
    if ls != [] {
      assert (ls + [l])[1..] == ls[1..] + [l];
      LinesSnoc(ls[1..], l);
    }
  }

  /**
   * The layout of a written entry: 12 fixed lines and one line per point, in stored order; the
   * rate sigmas do not reach the file, which holds 0 in their place.
   */
  lemma WriteLayout(fmt: Formats, f: Fault, slipSigma: real, couplingSigma: real)
    ensures |EntryLines(fmt, f)| == 12 + |f.trace|
    ensures forall i :: 0 <= i < |f.trace| ==> EntryLines(fmt, f)[12 + i] == PointLine(fmt, f.trace[i])
    ensures EntryLines(fmt, f) == EntryLines(fmt, f.(slipRateSigma := slipSigma, couplingCoeffSigma := couplingSigma))
  {
  }

  /** Skipping the lines of `ls` leaves what follows them. */
  lemma {:induction false} DropLinesLines(ls: seq<string>, rest: string)
    requires forall i :: 0 <= i < |ls| ==> '\n' !in ls[i]
    ensures DropLines(Lines(ls) + rest, |ls|) == rest
  {
    if ls != [] {
      AppendAssoc(ls[0] + "\n", Lines(ls[1..]), rest);
      DropFirstLine(ls[0], Lines(ls[1..]) + rest, |ls| - 1);
      DropLinesLines(ls[1..], rest);
    }
  }

  /** Skipping a line without a newline and then `k` more skips `k` lines of what follows it. */
  lemma DropFirstLine(head: string, tail: string, k: nat)
    requires '\n' !in head
    ensures DropLines(head + "\n" + tail, k + 1) == DropLines(tail, k)
  {
    var s := head + "\n" + tail;
    AppendParts(head + "\n", tail);
    AppendParts(head, "\n");
    assert s[|head|] == '\n';
    assert IndexOf(s, '\n') == |head|;
  }

  /** The default skip count is the number of header lines and the blank line written after them. */
  lemma DefaultSkipRowsCount(created: string)
    ensures DefaultSkipRows == |HeaderLines(created)| + 1
  {
  }

  /**
   * Skipping one line more than a header leaves what follows the blank line written after it, for
   * header lines without a newline.
   */
  lemma SkipsHeader(hs: seq<string>, body: string)
    requires forall i :: 0 <= i < |hs| ==> '\n' !in hs[i]
    ensures DropLines(Lines(hs) + "\n" + body, |hs| + 1) == body
  {
    var ls := hs + [""];
    assert forall i :: 0 <= i < |ls| ==> '\n' !in ls[i] by {
      forall i | 0 <= i < |ls|
        ensures '\n' !in ls[i]
      {
        if i < |hs| {
          assert ls[i] == hs[i];
        }
      }
    }
    LinesSnoc(hs, "");
    assert Lines(ls) == Lines(hs) + "\n";
    DropLinesLines(ls, body);
  }

  /*
   * Reading back what was written
   */

  /** A number written with `show` is one word, and `parse` reads it back. */
  predicate ReadsBack(show: real -> string, parse: string -> Option<real>, x: real)
  {
    IsWord(show(x)) && parse(show(x)) == Some(x)
  }

  /** A second number on a line is narrower than its column, so padding separates it from the first. */
  predicate Narrow(s: string) { |s| < 10 }

  /** What the round trip needs of the formats and of the fault. */
  predicate Writable(fmt: Formats, parse: string -> Option<real>, f: Fault)
  {
    && '\n' !in f.name && Strip(f.name) == f.name
    && IsWord(f.tectonicType) && IsWord(f.faultType)
    && ReadsBack(fmt.fix3, parse, f.length) && ReadsBack(fmt.fix3, parse, f.lengthSigma)
    && ReadsBack(fmt.fix3, parse, f.dip) && ReadsBack(fmt.fix3, parse, f.dipSigma)
    && ReadsBack(fmt.fix3, parse, f.dipDir) && ReadsBack(fmt.fix3, parse, f.rake)
    && ReadsBack(fmt.fix3, parse, f.dbottom) && ReadsBack(fmt.fix3, parse, f.dbottomSigma)
    && ReadsBack(fmt.fix3, parse, f.dtop) && ReadsBack(fmt.fix3, parse, f.dtopMin)
    && ReadsBack(fmt.fix3, parse, f.dtopMax) && ReadsBack(fmt.fix3, parse, f.slipRate)
    && ReadsBack(fmt.fix3, parse, f.couplingCoeff) && ReadsBack(fmt.fix3, parse, 0.0)
    && ReadsBack(fmt.fix3, parse, f.mw) && ReadsBack(fmt.exp3, parse, f.recurIntMedian)
    && Narrow(fmt.fix3(f.lengthSigma)) && Narrow(fmt.fix3(f.dipSigma))
    && Narrow(fmt.fix3(f.dbottomSigma)) && Narrow(fmt.fix3(f.dtopMin))
    && Narrow(fmt.fix3(f.dtopMax)) && Narrow(fmt.fix3(0.0))
    && Narrow(fmt.exp3(f.recurIntMedian))
    && forall i :: 0 <= i < |f.trace| ==>
      ReadsBack(fmt.fix5, parse, f.trace[i].0) && ReadsBack(fmt.fix5, parse, f.trace[i].1)
  }

  /** The fault as the file holds it: both rate sigmas are 0. */
  function AsWritten(f: Fault): Fault
  {
    f.(slipRateSigma := 0.0, couplingCoeffSigma := 0.0)
  }

  lemma SpaceRun(n: nat)
    ensures AllSpace(Repeat(' ', n))
  {
  }

  /** A padded word splits into the word. */
  lemma TokensCol(w: string)
    requires IsWord(w)
    ensures Tokens(Col(w)) == [w]
  {
    ColPad(w);
    var pad := Repeat(' ', |Col(w)| - |w|);
    assert Col(w) == pad + w;
    SpaceRun(|pad|);
    TokensAppend(pad, w);
    TokensSpace(pad);
    TokensWord(w);
  }

  /** A padded word strips to the word. */
  lemma StripCol(w: string)
    requires IsWord(w)
    ensures Strip(Col(w)) == w
  {
    ColPad(w);
    var pad := Repeat(' ', |Col(w)| - |w|);
    assert Col(w) == pad + w;
    SpaceRun(|pad|);
    StripLeading(pad, w);
  }

  /** A line of two columns splits into its two words when the second is narrower than its column. */
  lemma TokensTwoCols(a: string, b: string, row: string)
    requires IsWord(a) && IsWord(b) && Narrow(b) && row == Strip(Col(a) + Col(b))
    ensures Tokens(row) == [a, b]
  {
    TokensStrip(Col(a) + Col(b));
    ColsTokens(a, b);
  }

  /** Two columns, the second narrow, split into their two words. */
  lemma ColsTokens(a: string, b: string)
    requires IsWord(a) && IsWord(b) && Narrow(b)
    ensures Tokens(Col(a) + Col(b)) == [a, b]
  {
    ColPad(b);
    assert Col(b)[0] == ' ';
    TokensAppend(Col(a), Col(b));
    TokensCol(a);
    TokensCol(b);
  }

  /**
   * Without `Narrow` the layout breaks: a second number that fills its ten columns (such as a
   * recurrence interval of -1, `-1.000e+00`) gets no padding, runs into the first, and the row
   * holds one word where the reader unpacks two.
   */
  lemma WideColumnGlued(parse: string -> Option<real>, a: string, b: string, row: string)
    requires IsWord(a) && IsWord(b) && !Narrow(b) && row == Strip(Col(a) + Col(b))
    ensures Tokens(row) == [a + b]
    ensures Fields(parse, row, 2).Err?
  {
    var line := Col(a) + Col(b);
    ColWide(b);
    GluedTokens(a, b);
    assert Tokens(line) == [a + b];
    TokensStrip(line);
    assert Tokens(row) == [a + b];
    assert Floats(parse, [a + b]).None? || |Floats(parse, [a + b]).value| == 1;
  }

  /** A text of ten characters or more is its own column. */
  lemma ColWide(s: string)
    requires !Narrow(s)
    ensures Col(s) == s
  {
  }

  /** A padded word followed directly by a word splits into the two joined. */
  lemma GluedTokens(a: string, b: string)
    requires IsWord(a) && IsWord(b)
    ensures Tokens(Col(a) + b) == [a + b]
  {
    ColPad(a);
    var pad := Repeat(' ', |Col(a)| - |a|);
    assert Col(a) == pad + a;
    AppendAssoc(pad, a, b);
    SpaceRun(|pad|);
    TokensAppend(pad, a + b);
    TokensSpace(pad);
    assert IsWord(a + b) by {
      forall i | 0 <= i < |a + b|
        ensures !IsSpace((a + b)[i])
      {
        if i >= |a| {
          assert (a + b)[i] == b[i - |a|];
        }
      }
    }
    TokensWord(a + b);
  }

  /** The same for three columns. */
  lemma TokensThreeCols(a: string, b: string, c: string, row: string)
    requires IsWord(a) && IsWord(b) && IsWord(c) && Narrow(b) && Narrow(c)
    requires row == Strip(Col(a) + Col(b) + Col(c))
    ensures Tokens(row) == [a, b, c]
  {
    var ab := Col(a) + Col(b);
    TokensStrip(ab + Col(c));
    ColsTokens(a, b);
    ColPad(c);
    assert Col(c)[0] == ' ';
    TokensAppend(ab, Col(c));
    TokensCol(c);
  }

  /** A row of words read back as numbers gives those numbers. */
  lemma FieldsOf(parse: string -> Option<real>, row: string, ws: seq<string>, xs: seq<real>)
    requires Tokens(row) == ws && |ws| == |xs|
    requires forall i :: 0 <= i < |ws| ==> parse(ws[i]) == Some(xs[i])
    ensures Fields(parse, row, |xs|) == Ok(xs)
  {
    assert Floats(parse, ws).value == xs;
  }

  lemma FieldsPair(parse: string -> Option<real>, row: string, a: string, b: string, x: real, y: real)
    requires Tokens(row) == [a, b] && parse(a) == Some(x) && parse(b) == Some(y)
    ensures Fields(parse, row, 2) == Ok([x, y])
  {
    FieldsOf(parse, row, [a, b], [x, y]);
  }

  lemma FieldsTriple(parse: string -> Option<real>, row: string, a: string, b: string, c: string, x: real, y: real, z: real)
    requires Tokens(row) == [a, b, c] && parse(a) == Some(x) && parse(b) == Some(y) && parse(c) == Some(z)
    ensures Fields(parse, row, 3) == Ok([x, y, z])
  {
    FieldsOf(parse, row, [a, b, c], [x, y, z]);
  }

  /** A row of two columns reads back as the two numbers written in it. */
  lemma PairRow(parse: string -> Option<real>, a: string, b: string, x: real, y: real, row: string)
    requires IsWord(a) && IsWord(b) && Narrow(b) && row == Strip(Col(a) + Col(b))
    requires parse(a) == Some(x) && parse(b) == Some(y)
    ensures Fields(parse, row, 2) == Ok([x, y])
  {
    TokensTwoCols(a, b, row);
    FieldsPair(parse, row, a, b, x, y);
  }

  /** A row of three columns reads back as the three numbers written in it. */
  lemma TripleRow(parse: string -> Option<real>, a: string, b: string, c: string, x: real, y: real, z: real, row: string)
    requires IsWord(a) && IsWord(b) && IsWord(c) && Narrow(b) && Narrow(c)
    requires row == Strip(Col(a) + Col(b) + Col(c))
    requires parse(a) == Some(x) && parse(b) == Some(y) && parse(c) == Some(z)
    ensures Fields(parse, row, 3) == Ok([x, y, z])
  {
    TokensThreeCols(a, b, c, row);
    FieldsTriple(parse, row, a, b, c, x, y, z);
  }

  /** The words of the point lines, longitude then latitude for each point. */
  function PointWords(fmt: Formats, trace: seq<(real, real)>): seq<string>
  {
    if trace == [] then [] else [fmt.fix5(trace[0].0), fmt.fix5(trace[0].1)] + PointWords(fmt, trace[1..])
  }

  /** The numbers of a trace, longitude then latitude for each point. */
  function Flatten(trace: seq<(real, real)>): seq<real>
  {
    if trace == [] then [] else [trace[0].0, trace[0].1] + Flatten(trace[1..])
  }

  /** A flattened trace has an even number of numbers. */
  lemma {:induction false} FlattenEven(trace: seq<(real, real)>)
    ensures |Flatten(trace)| % 2 == 0
  {
    if trace != [] {
      FlattenEven(trace[1..]);
    }
  }

  /** Flattening the pairs of an even-length sequence gives the sequence back. */
  lemma {:induction false} FlattenPairs(xs: seq<real>)
    requires |xs| % 2 == 0
    ensures Flatten(Pairs(xs)) == xs
    decreases |xs|
  {
    if xs != [] {
      FlattenPairs(xs[2..]);
      assert Pairs(xs)[1..] == Pairs(xs[2..]);
      assert xs == [xs[0], xs[1]] + xs[2..];
    }
  }

  /** Pairing up a flattened trace gives the trace back. */
  lemma {:induction false} PairsFlatten(trace: seq<(real, real)>)
    ensures |Flatten(trace)| % 2 == 0 && Pairs(Flatten(trace)) == trace
  {
    FlattenEven(trace);
    if trace != [] {
      PairsFlatten(trace[1..]);
      assert Flatten(trace)[2..] == Flatten(trace[1..]);
    }
  }

  /** The words of every row, in order. */
  function AllTokens(rows: seq<string>): seq<string>
  {
    if rows == [] then [] else Tokens(rows[0]) + AllTokens(rows[1..])
  }

  /** Joining rows with spaces splits into the words of each row, in order. */
  lemma {:induction false} TokensJoin(rows: seq<string>)
    ensures Tokens(Join(" ", rows)) == AllTokens(rows)
  {
    if |rows| == 1 {
      assert Tokens(rows[0]) + AllTokens(rows[1..]) == Tokens(rows[0]);
    } else if |rows| > 1 {
      var rest := Join(" ", rows[1..]);
      TokensJoin(rows[1..]);
      assert Join(" ", rows) == rows[0] + (" " + rest);
      TokensAppend(rows[0], " " + rest);
      TokensAppend(" ", rest);
      TokensSpace(" ");
    }
  }

  /** A point line splits into its two words. */
  lemma PointLineWords(a: string, b: string)
    requires IsWord(a) && IsWord(b)
    ensures Tokens(Col(a) + " " + Col(b)) == [a, b]
  {
    var tail := " " + Col(b);
    assert Col(a) + " " + Col(b) == Col(a) + tail;
    TokensAppend(Col(a), tail);
    TokensAppend(" ", Col(b));
    TokensSpace(" ");
    TokensCol(a);
    TokensCol(b);
  }

  /** A stripped point line splits into its two words. */
  lemma PointLineTokens(fmt: Formats, p: (real, real))
    requires IsWord(fmt.fix5(p.0)) && IsWord(fmt.fix5(p.1))
    ensures Tokens(Strip(PointLine(fmt, p))) == [fmt.fix5(p.0), fmt.fix5(p.1)]
  {
    TokensStrip(PointLine(fmt, p));
    PointLineWords(fmt.fix5(p.0), fmt.fix5(p.1));
  }

  /** The stripped point lines split into the point words. */
  lemma {:induction false} PointTokens(fmt: Formats, trace: seq<(real, real)>)
    requires forall i :: 0 <= i < |trace| ==> IsWord(fmt.fix5(trace[i].0)) && IsWord(fmt.fix5(trace[i].1))
    ensures AllTokens(StripAll(PointLines(fmt, trace))) == PointWords(fmt, trace)
  {
    if trace != [] {
      var rest := trace[1..];
      assert forall i :: 0 <= i < |rest| ==> rest[i] == trace[i + 1];
      PointTokens(fmt, rest);
      PointLineTokens(fmt, trace[0]);
      MapTail(Strip, PointLines(fmt, trace));
    }
  }

  /** The point words read back as the trace's numbers. */
  lemma {:induction false} PointNumbers(fmt: Formats, parse: string -> Option<real>, trace: seq<(real, real)>)
    requires forall i :: 0 <= i < |trace| ==>
      parse(fmt.fix5(trace[i].0)) == Some(trace[i].0) && parse(fmt.fix5(trace[i].1)) == Some(trace[i].1)
    ensures Floats(parse, PointWords(fmt, trace)) == Some(Flatten(trace))
  {
    if trace != [] {
      var rest := trace[1..];
      forall i | 0 <= i < |rest|
        ensures parse(fmt.fix5(rest[i].0)) == Some(rest[i].0) && parse(fmt.fix5(rest[i].1)) == Some(rest[i].1)
      {
        assert rest[i] == trace[i + 1];
      }
      PointNumbers(fmt, parse, rest);
      PointNumbersCons(fmt, parse, trace);
    }
  }

  /** The step of `PointNumbers`: the first point's two words read back in front of the rest. */
  lemma PointNumbersCons(fmt: Formats, parse: string -> Option<real>, trace: seq<(real, real)>)
    requires trace != []
    requires parse(fmt.fix5(trace[0].0)) == Some(trace[0].0) && parse(fmt.fix5(trace[0].1)) == Some(trace[0].1)
    requires Floats(parse, PointWords(fmt, trace[1..])) == Some(Flatten(trace[1..]))
    ensures Floats(parse, PointWords(fmt, trace)) == Some(Flatten(trace))
  {
    var x, y, rest := trace[0].0, trace[0].1, trace[1..];
    var wx, wy, ws := fmt.fix5(x), fmt.fix5(y), PointWords(fmt, rest);
    FloatsCons(parse, wy, ws, y, Flatten(rest));
    FloatsCons(parse, wx, [wy] + ws, x, [y] + Flatten(rest));
    PointWordsCons(fmt, trace);
    FlattenCons(trace);
  }

  /** The first point's two words come first. */
  lemma PointWordsCons(fmt: Formats, trace: seq<(real, real)>)
    requires trace != []
    ensures PointWords(fmt, trace) == [fmt.fix5(trace[0].0)] + ([fmt.fix5(trace[0].1)] + PointWords(fmt, trace[1..]))
  {
  }

  /** The first point's two numbers come first. */
  lemma FlattenCons(trace: seq<(real, real)>)
    requires trace != []
    ensures Flatten(trace) == [trace[0].0] + ([trace[0].1] + Flatten(trace[1..]))
  {
  }

  /** One more word that converts puts its number in front. */
  lemma FloatsCons(parse: string -> Option<real>, w: string, ws: seq<string>, x: real, xs: seq<real>)
    requires parse(w) == Some(x) && Floats(parse, ws) == Some(xs)
    ensures Floats(parse, [w] + ws) == Some([x] + xs)
  {
    assert ([w] + ws)[1..] == ws;
  }

  /** The words of two runs of rows are the words of the first, then of the second. */
  lemma {:induction false} AllTokensAppend(a: seq<string>, b: seq<string>)
    ensures AllTokens(a + b) == AllTokens(a) + AllTokens(b)
    decreases |a|
  {
    if a != [] {
      assert (a + b)[0] == a[0];
      assert (a + b)[1..] == a[1..] + b;
      AllTokensAppend(a[1..], b);
    } else {
      assert a + b == b;
    }
  }

  /** The types row splits into the two types. */
  lemma TypesRow(tt: string, ft: string)
    requires IsWord(tt) && IsWord(ft)
    ensures Tokens(Strip(tt + " " + ft)) == [tt, ft]
  {
    StripTrimmed(tt + " " + ft);
    assert tt + " " + ft == tt + (" " + ft);
    TokensAppend(tt, " " + ft);
    TokensAppend(" ", ft);
    TokensSpace(" ");
    TokensWord(tt);
    TokensWord(ft);
  }

  /**
   * The fixed rows of a written entry read back as the fault, once both rate sigmas are 0: row
   * `k` is the stripped `k`-th fixed line.
   */
  lemma FixedRowsReadBack(fmt: Formats, parse: string -> Option<real>, f: Fault, rows: seq<string>)
    requires Writable(fmt, parse, f) && |rows| >= 12 && rows[..12] == StripAll(FixedLines(fmt, f))
    ensures rows[0] == f.name
    ensures Tokens(rows[1]) == [f.tectonicType, f.faultType]
    ensures Fields(parse, rows[2], 2) == Ok([f.length, f.lengthSigma])
    ensures Fields(parse, rows[3], 2) == Ok([f.dip, f.dipSigma])
    ensures Single(parse, rows[4]) == Ok(f.dipDir) && Single(parse, rows[5]) == Ok(f.rake)
    ensures Fields(parse, rows[6], 2) == Ok([f.dbottom, f.dbottomSigma])
    ensures Fields(parse, rows[7], 3) == Ok([f.dtop, f.dtopMin, f.dtopMax])
    ensures Fields(parse, rows[8], 2) == Ok([f.slipRate, 0.0])
    ensures Fields(parse, rows[9], 2) == Ok([f.couplingCoeff, 0.0])
    ensures Fields(parse, rows[10], 2) == Ok([f.mw, f.recurIntMedian])
  {
    var fix3, exp3 := fmt.fix3, fmt.exp3;
    FixedLinesAt(fmt, f, rows);
    TypesRow(f.tectonicType, f.faultType);
    PairRow(parse, fix3(f.length), fix3(f.lengthSigma), f.length, f.lengthSigma, rows[2]);
    PairRow(parse, fix3(f.dip), fix3(f.dipSigma), f.dip, f.dipSigma, rows[3]);
    StripCol(fix3(f.dipDir));
    StripCol(fix3(f.rake));
    PairRow(parse, fix3(f.dbottom), fix3(f.dbottomSigma), f.dbottom, f.dbottomSigma, rows[6]);
    TripleRow(parse, fix3(f.dtop), fix3(f.dtopMin), fix3(f.dtopMax), f.dtop, f.dtopMin, f.dtopMax, rows[7]);
    PairRow(parse, fix3(f.slipRate), fix3(0.0), f.slipRate, 0.0, rows[8]);
    PairRow(parse, fix3(f.couplingCoeff), fix3(0.0), f.couplingCoeff, 0.0, rows[9]);
    PairRow(parse, fix3(f.mw), exp3(f.recurIntMedian), f.mw, f.recurIntMedian, rows[10]);
  }

  /** The stripped fixed lines, one by one. */
  lemma FixedLinesAt(fmt: Formats, f: Fault, rows: seq<string>)
    requires Strip(f.name) == f.name
    requires |rows| >= 12 && rows[..12] == StripAll(FixedLines(fmt, f))
    ensures rows[0] == f.name
    ensures rows[1] == Strip(f.tectonicType + " " + f.faultType)
    ensures rows[2] == Strip(Col(fmt.fix3(f.length)) + Col(fmt.fix3(f.lengthSigma)))
    ensures rows[3] == Strip(Col(fmt.fix3(f.dip)) + Col(fmt.fix3(f.dipSigma)))
    ensures rows[4] == Strip(Col(fmt.fix3(f.dipDir))) && rows[5] == Strip(Col(fmt.fix3(f.rake)))
    ensures rows[6] == Strip(Col(fmt.fix3(f.dbottom)) + Col(fmt.fix3(f.dbottomSigma)))
    ensures rows[7] == Strip(Col(fmt.fix3(f.dtop)) + Col(fmt.fix3(f.dtopMin)) + Col(fmt.fix3(f.dtopMax)))
    ensures rows[8] == Strip(Col(fmt.fix3(f.slipRate)) + Col(fmt.fix3(0.0)))
    ensures rows[9] == Strip(Col(fmt.fix3(f.couplingCoeff)) + Col(fmt.fix3(0.0)))
    ensures rows[10] == Strip(Col(fmt.fix3(f.mw)) + Col(fmt.exp3(f.recurIntMedian)))
  {
    assert forall i :: 0 <= i < 12 ==> rows[i] == Strip(FixedLine(fmt, f, i)) by {
      forall i | 0 <= i < 12
        ensures rows[i] == Strip(FixedLine(fmt, f, i))
      {
        assert rows[i] == rows[..12][i];
      }
    }
  }

  /**
   * Rows carrying a fault's fields at the fixed positions, and its trace's numbers from row 12 on,
   * parse to that fault.
   */
  lemma ParseRowsOk(parse: string -> Option<real>, rows: seq<string>, f: Fault)
    requires |rows| >= 11 && rows[0] == f.name
    requires Tokens(rows[1]) == [f.tectonicType, f.faultType]
    requires Fields(parse, rows[2], 2) == Ok([f.length, f.lengthSigma])
    requires Fields(parse, rows[3], 2) == Ok([f.dip, f.dipSigma])
    requires Single(parse, rows[4]) == Ok(f.dipDir) && Single(parse, rows[5]) == Ok(f.rake)
    requires Fields(parse, rows[6], 2) == Ok([f.dbottom, f.dbottomSigma])
    requires Fields(parse, rows[7], 3) == Ok([f.dtop, f.dtopMin, f.dtopMax])
    requires Fields(parse, rows[8], 2) == Ok([f.slipRate, f.slipRateSigma])
    requires Fields(parse, rows[9], 2) == Ok([f.couplingCoeff, f.couplingCoeffSigma])
    requires Fields(parse, rows[10], 2) == Ok([f.mw, f.recurIntMedian])
    requires Floats(parse, Tokens(Join(" ", TraceRows(rows)))) == Some(Flatten(f.trace))
    ensures ParseRows(parse, rows) == Ok(f)
  {
    PairsFlatten(f.trace);
  }

  /** The rows of a written entry, given the rows its fixed lines and point lines strip to. */
  lemma RowsReadBack(fmt: Formats, parse: string -> Option<real>, f: Fault, pad: seq<string>)
    requires Writable(fmt, parse, f) && (pad == [] || pad == [""])
    ensures ParseRows(parse, StripAll(FixedLines(fmt, f)) + StripAll(PointLines(fmt, f.trace)) + pad) == Ok(AsWritten(f))
  {
    var fixedRows, pointRows := StripAll(FixedLines(fmt, f)), StripAll(PointLines(fmt, f.trace));
    var rest := pointRows + pad;
    var rows := fixedRows + pointRows + pad;
    AppendAssoc(fixedRows, pointRows, pad);
    AppendParts(fixedRows, rest);
    RowsParse(fmt, parse, f, rows, pad);
  }

  /** Rows whose first twelve are the stripped fixed lines, and the rest the stripped point lines, parse to the fault. */
  lemma RowsParse(fmt: Formats, parse: string -> Option<real>, f: Fault, rows: seq<string>, pad: seq<string>)
    requires Writable(fmt, parse, f) && (pad == [] || pad == [""])
    requires |rows| >= 12 && rows[..12] == StripAll(FixedLines(fmt, f))
    requires rows[12..] == StripAll(PointLines(fmt, f.trace)) + pad
    ensures ParseRows(parse, rows) == Ok(AsWritten(f))
  {
    FixedRowsReadBack(fmt, parse, f, rows);
    assert TraceRows(rows) == rows[12..];
    TraceReadBack(fmt, parse, f.trace, pad);
    WrittenRowsParse(parse, rows, f);
  }

  /** Rows holding a fault's fields with both rate sigmas 0 parse to the fault as written. */
  lemma WrittenRowsParse(parse: string -> Option<real>, rows: seq<string>, f: Fault)
    requires |rows| >= 11 && rows[0] == f.name
    requires Tokens(rows[1]) == [f.tectonicType, f.faultType]
    requires Fields(parse, rows[2], 2) == Ok([f.length, f.lengthSigma])
    requires Fields(parse, rows[3], 2) == Ok([f.dip, f.dipSigma])
    requires Single(parse, rows[4]) == Ok(f.dipDir) && Single(parse, rows[5]) == Ok(f.rake)
    requires Fields(parse, rows[6], 2) == Ok([f.dbottom, f.dbottomSigma])
    requires Fields(parse, rows[7], 3) == Ok([f.dtop, f.dtopMin, f.dtopMax])
    requires Fields(parse, rows[8], 2) == Ok([f.slipRate, 0.0])
    requires Fields(parse, rows[9], 2) == Ok([f.couplingCoeff, 0.0])
    requires Fields(parse, rows[10], 2) == Ok([f.mw, f.recurIntMedian])
    requires Floats(parse, Tokens(Join(" ", TraceRows(rows)))) == Some(Flatten(f.trace))
    ensures ParseRows(parse, rows) == Ok(AsWritten(f))
  {
    ParseRowsOk(parse, rows, AsWritten(f));
  }

  /** The trace rows of a written entry, with or without an empty last row, read back as the trace's numbers. */
  lemma TraceReadBack(fmt: Formats, parse: string -> Option<real>, trace: seq<(real, real)>, pad: seq<string>)
    requires pad == [] || pad == [""]
    requires forall i :: 0 <= i < |trace| ==> ReadsBack(fmt.fix5, parse, trace[i].0) && ReadsBack(fmt.fix5, parse, trace[i].1)
    ensures Floats(parse, Tokens(Join(" ", StripAll(PointLines(fmt, trace)) + pad))) == Some(Flatten(trace))
  {
    var pointRows := StripAll(PointLines(fmt, trace));
    TokensJoin(pointRows + pad);
    AllTokensAppend(pointRows, pad);
    if pad == [""] {
      assert AllTokens(pad) == Tokens("") + AllTokens([]);
    }
    assert AllTokens(pointRows) + AllTokens(pad) == AllTokens(pointRows);
    PointTokens(fmt, trace);
    PointNumbers(fmt, parse, trace);
  }

  /**
   * Round trip of one entry: a written entry, with or without the newline that ends the last entry
   * of a file, parses back to the fault with both rate sigmas 0.
   */
  lemma EntryReadsBack(fmt: Formats, parse: string -> Option<real>, f: Fault, trailing: bool)
    requires Writable(fmt, parse, f)
    ensures ParseEntry(parse, Join("\n", EntryLines(fmt, f)) + (if trailing then "\n" else "")) == Ok(AsWritten(f))
  {
    var pad := if trailing then [""] else [];
    var lines := EntryLines(fmt, f) + pad;
    EntryText(fmt, f, trailing);
    EntryNoNewline(fmt, parse, f, pad);
    SplitJoin(lines, '\n');
    EntryRows(fmt, f, pad);
    RowsReadBack(fmt, parse, f, pad);
  }

  /**
   * `load_nhm` of a new file that `write` created with the header and one writable fault: the file
   * holds that fault alone, under its name, with both rate sigmas 0.
   */
  lemma WrittenFileLoads(fmt: Formats, parse: string -> Option<real>, f: Fault, created: string)
    requires Writable(fmt, parse, f)
    requires forall k :: 0 <= k < 14 ==> '\n' !in HeaderLines(created)[k]
    ensures var text := Lines(HeaderLines(created)) + "\n" + Lines(EntryLines(fmt, f));
      Collect(ParseEach(parse, Entries(text, DefaultSkipRows))) == Ok(map[f.name := AsWritten(f)])
  {
    var body := Lines(EntryLines(fmt, f));
    EntrySplitsAlone(fmt, parse, f);
    OneEntryFile(HeaderLines(created), body);
    EntryReadsAlone(fmt, parse, f);
    CollectOne(parse, body, AsWritten(f));
  }

  /** Past a header without newlines and the blank line after it, a text without separators is the one entry. */
  lemma OneEntryFile(hs: seq<string>, body: string)
    requires |hs| == 14 && forall k :: 0 <= k < |hs| ==> '\n' !in hs[k]
    requires SplitBlank(body) == [body]
    ensures Entries(Lines(hs) + "\n" + body, DefaultSkipRows) == [body]
  {
    SkipsHeader(hs, body);
  }

  /** The text `write` emits for a writable entry, final newline included, parses to the fault as written. */
  lemma EntryReadsAlone(fmt: Formats, parse: string -> Option<real>, f: Fault)
    requires Writable(fmt, parse, f)
    ensures ParseEntry(parse, Lines(EntryLines(fmt, f))) == Ok(AsWritten(f))
  {
    LinesJoin(EntryLines(fmt, f));
    EntryReadsBack(fmt, parse, f, true);
  }

  /** A file of one entry that parses holds its fault under its name. */
  lemma CollectOne(parse: string -> Option<real>, entry: string, g: Fault)
    requires ParseEntry(parse, entry) == Ok(g)
    ensures Collect(ParseEach(parse, [entry])) == Ok(map[g.name := g])
  {
    var results := ParseEach(parse, [entry]);
    assert results == [Ok(g)];
    assert results[..0] == [];
  }

  /** The text `write` emits for a writable entry holds no blank line, so it is one entry of the file. */
  lemma EntrySplitsAlone(fmt: Formats, parse: string -> Option<real>, f: Fault)
    requires Writable(fmt, parse, f)
    ensures SplitBlank(Lines(EntryLines(fmt, f))) == [Lines(EntryLines(fmt, f))]
  {
    var ls := EntryLines(fmt, f);
    EntryNoNewline(fmt, parse, f, []);
    assert ls + [] == ls;
    EntryNonEmpty(fmt, f);
    LinesNoBlank(ls);
    SplitBlankJoin([Lines(ls)]);
  }

  /** Every line of an entry but the name line is non-empty. */
  lemma EntryNonEmpty(fmt: Formats, f: Fault)
    requires IsWord(f.tectonicType)
    ensures forall i :: 0 < i < |EntryLines(fmt, f)| ==> EntryLines(fmt, f)[i] != []
  {
    var fixed, points := FixedLines(fmt, f), PointLines(fmt, f.trace);
    forall s: string
      ensures |Col(s)| >= 10
    {
      ColPad(s);
    }
    forall i | 0 < i < |fixed + points|
      ensures (fixed + points)[i] != []
    {
      if i < 12 {
        assert (fixed + points)[i] == FixedLine(fmt, f, i);
      } else {
        assert (fixed + points)[i] == PointLine(fmt, f.trace[i - 12]);
      }
    }
  }

  /** The text of an entry with its final newline is the join of its lines and an empty last line. */
  lemma EntryText(fmt: Formats, f: Fault, trailing: bool)
    ensures Join("\n", EntryLines(fmt, f)) + (if trailing then "\n" else "")
      == Join("\n", EntryLines(fmt, f) + (if trailing then [""] else []))
  {
    var ls := EntryLines(fmt, f);
    if trailing {
      JoinSnoc(ls, "");
    } else {
      assert ls + [] == ls;
    }
  }

  /** No line of a writable entry holds a newline, nor does the empty last line. */
  lemma EntryNoNewline(fmt: Formats, parse: string -> Option<real>, f: Fault, pad: seq<string>)
    requires Writable(fmt, parse, f) && (pad == [] || pad == [""])
    ensures forall i :: 0 <= i < |EntryLines(fmt, f) + pad| ==> '\n' !in (EntryLines(fmt, f) + pad)[i]
  {
    var fixed, points := FixedLines(fmt, f), PointLines(fmt, f.trace);
    var lines := EntryLines(fmt, f) + pad;
    FixedNoNewline(fmt, parse, f);
    PointsNoNewline(fmt, f.trace);
    forall i | 0 <= i < |lines|
      ensures '\n' !in lines[i]
    {
      if i < 12 {
        assert lines[i] == fixed[i];
      } else if i < 12 + |points| {
        assert lines[i] == points[i - 12];
      } else {
        assert lines[i] == "";
      }
    }
  }

  /** The rows of an entry are its fixed lines, then its point lines, stripped, then the empty last line. */
  lemma EntryRows(fmt: Formats, f: Fault, pad: seq<string>)
    requires pad == [] || pad == [""]
    ensures StripAll(EntryLines(fmt, f) + pad)
      == StripAll(FixedLines(fmt, f)) + StripAll(PointLines(fmt, f.trace)) + pad
  {
    var fixed, points := FixedLines(fmt, f), PointLines(fmt, f.trace);
    StripAllAppend(fixed + points, pad);
    StripAllAppend(fixed, points);
    assert StripAll(pad) == pad;
  }

  /** Stripping the rows of two runs strips each run. */
  lemma StripAllAppend(a: seq<string>, b: seq<string>)
    ensures StripAll(a + b) == StripAll(a) + StripAll(b)
  {
    MapAppend(Strip, a, b);
  }

  lemma {:induction false} JoinSnoc(ls: seq<string>, l: string)
    requires ls != []
    ensures Join("\n", ls + [l]) == Join("\n", ls) + "\n" + l
  {
    if |ls| > 1 {
      assert (ls + [l])[1..] == ls[1..] + [l];
      JoinSnoc(ls[1..], l);
    }
  }

  /** No fixed line of a writable fault holds a newline. */
  lemma FixedNoNewline(fmt: Formats, parse: string -> Option<real>, f: Fault)
    requires Writable(fmt, parse, f)
    ensures forall i :: 0 <= i < 12 ==> '\n' !in FixedLines(fmt, f)[i]
  {
    ColNoNewline(fmt.fix3(f.length));
    ColNoNewline(fmt.fix3(f.lengthSigma));
    ColNoNewline(fmt.fix3(f.dip));
    ColNoNewline(fmt.fix3(f.dipSigma));
    ColNoNewline(fmt.fix3(f.dipDir));
    ColNoNewline(fmt.fix3(f.rake));
    ColNoNewline(fmt.fix3(f.dbottom));
    ColNoNewline(fmt.fix3(f.dbottomSigma));
    ColNoNewline(fmt.fix3(f.dtop));
    ColNoNewline(fmt.fix3(f.dtopMin));
    ColNoNewline(fmt.fix3(f.dtopMax));
    ColNoNewline(fmt.fix3(f.slipRate));
    ColNoNewline(fmt.fix3(f.couplingCoeff));
    ColNoNewline(fmt.fix3(0.0));
    ColNoNewline(fmt.fix3(f.mw));
    ColNoNewline(fmt.exp3(f.recurIntMedian));
    ColNoNewline(IntToString(|f.trace|));
  }

  /** No point line holds a newline, whatever the number formats produce, if they produce no whitespace. */
  lemma PointsNoNewline(fmt: Formats, trace: seq<(real, real)>)
    requires forall i :: 0 <= i < |trace| ==> IsWord(fmt.fix5(trace[i].0)) && IsWord(fmt.fix5(trace[i].1))
    ensures forall i :: 0 <= i < |trace| ==> '\n' !in PointLines(fmt, trace)[i]
  {
    forall i | 0 <= i < |trace|
      ensures '\n' !in PointLines(fmt, trace)[i]
    {
      ColNoNewline(fmt.fix5(trace[i].0));
      ColNoNewline(fmt.fix5(trace[i].1));
    }
  }

  lemma ColNoNewline(w: string)
    requires forall i :: 0 <= i < |w| ==> !IsSpace(w[i])
    ensures '\n' !in Col(w)
  {
    ColPad(w);
    var pad := Repeat(' ', |Col(w)| - |w|);
    assert Col(w) == pad + w;
  }

  /*
   * Sampling
   */

  /** The magnitude scaling relations a fault can be sampled with. */
  datatype Relation = Villamor2007 | Skarlatoudis2016 | HanksBakun2002 | Stirling2008

  /** The tectonic and fault types for which a scaling relation exists. */
  predicate HasRelation(tectonicType: string, faultType: string)
  {
    || tectonicType == "VOLCANIC"
    || (tectonicType == "ACTIVE_SHALLOW" && faultType == "NORMAL_FAULTING")
    || tectonicType == "SUBDUCTION_INTERFACE"
    || faultType == "PLATE_BOUNDARY"
    || faultType == "OTHER_CRUSTAL_FAULTING"
  }

  /** The reason Python 3 gives for `raise` of a tuple. */
  const RaiseTupleReason := "TypeError: exceptions must derive from BaseException"

  /** The relation choice as written: an unknown combination raises a tuple, which is a TypeError. */
  function ScalingRelationAsWritten(tectonicType: string, faultType: string): (r: Result<Relation>)
    ensures r.Err? <==> !HasRelation(tectonicType, faultType)
    ensures r.Err? ==> r.reason == RaiseTupleReason
  {
    if tectonicType == "VOLCANIC" || (tectonicType == "ACTIVE_SHALLOW" && faultType == "NORMAL_FAULTING") then Ok(Villamor2007)
    else if tectonicType == "SUBDUCTION_INTERFACE" then Ok(Skarlatoudis2016)
    else if faultType == "PLATE_BOUNDARY" then Ok(HanksBakun2002)
    else if faultType == "OTHER_CRUSTAL_FAULTING" then Ok(Stirling2008)
    else Err(RaiseTupleReason)
  }

  /** The message meant for an unknown combination. */
  function InvalidCombination(tectonicType: string, faultType: string): string
  {
    "ValueError: Invalid combination of tectonic type: " + tectonicType + " and fault type: " + faultType
  }

  /** The relation choice as intended: an unknown combination raises ValueError naming both types. */
  function ScalingRelation(tectonicType: string, faultType: string): (r: Result<Relation>)
    ensures r.Err? <==> !HasRelation(tectonicType, faultType)
    ensures r.Err? ==> r.reason == InvalidCombination(tectonicType, faultType)
    ensures r.Ok? ==> r == ScalingRelationAsWritten(tectonicType, faultType)
  {
    match ScalingRelationAsWritten(tectonicType, faultType)
    case Ok(rel) => Ok(rel)
    case Err(_) => Err(InvalidCombination(tectonicType, faultType))
  }

  /** The two differ only on unknown combinations, where the error raised is not the ValueError meant. */
  lemma RaiseTupleIsTypeError()
    ensures ScalingRelationAsWritten("ACTIVE_SHALLOW", "REVERSE_FAULTING") == Err(RaiseTupleReason)
    ensures ScalingRelation("ACTIVE_SHALLOW", "REVERSE_FAULTING")
      == Err(InvalidCombination("ACTIVE_SHALLOW", "REVERSE_FAULTING"))
    ensures RaiseTupleReason != InvalidCombination("ACTIVE_SHALLOW", "REVERSE_FAULTING")
  {
    var meant := InvalidCombination("ACTIVE_SHALLOW", "REVERSE_FAULTING");
    assert meant == "ValueError: Invalid combination of tectonic type: " + ("ACTIVE_SHALLOW" + " and fault type: " + "REVERSE_FAULTING");
    assert |RaiseTupleReason| < 60 < |meant|;
  }

  /** The random values one sample draws, in the order drawn. */
  datatype Draws = Draws(u: real, length: real, dbottom: real, dip: real, slipRate: real,
                         couplingCoeff: real, mwPerturbed: real)

  /**
   * The magnitude maths, which is not modelled: the fault width from bottom and top depth and dip,
   * the median magnitude of a relation for a length, width and rake, and the seismic moment of a
   * magnitude.
   */
  datatype Physics = Physics(width: (real, real, real) -> real,
                             mwMedian: (real, real, Relation, real) -> real,
                             moment: real -> real)

  /** The shear modulus used for the moment rate. */
  const Mu: real := 30000000000.0

  /**
   * `sample_2012`: a new fault with the drawn values, every sigma 0 and the top depth collapsed to
   * one value; the magnitude comes from the scaling relation when asked for, and the recurrence
   * interval from the moment rate when that is positive. An unknown type combination fails as
   * written, with the TypeError of raising a tuple.
   */
  function Sample2012(f: Fault, d: Draws, phys: Physics, scaling: bool, perturb: bool): (r: Result<Fault>)
    ensures r.Err? <==> scaling && !HasRelation(f.tectonicType, f.faultType)
    ensures r.Err? ==> r.reason == RaiseTupleReason
    ensures r.Ok? ==> var s := r.value;
      && s.lengthSigma == 0.0 && s.dipSigma == 0.0 && s.dbottomSigma == 0.0
      && s.slipRateSigma == 0.0 && s.couplingCoeffSigma == 0.0
      && s.dtop == TopDepth(f.dtopMin, f.dtopMax, d.u) && s.dtopMin == s.dtop && s.dtopMax == s.dtop
      && s.name == f.name && s.tectonicType == f.tectonicType && s.faultType == f.faultType
      && s.dipDir == f.dipDir && s.rake == f.rake && s.trace == f.trace
      && (!scaling ==> s.mw == f.mw)
  {
    var dtop := TopDepth(f.dtopMin, f.dtopMax, d.u);
    var width := phys.width(d.dbottom, dtop, d.dip);
    var mw :- if !scaling then Ok(f.mw)
      else
        var rel :- ScalingRelationAsWritten(f.tectonicType, f.faultType);
        Ok(if perturb then d.mwPerturbed else phys.mwMedian(d.length, width, rel, f.rake));
    var momentRate := Mu * d.length * width * (d.slipRate * 1000.0) * d.couplingCoeff;
    var recur := if momentRate > 0.0 then phys.moment(mw) / momentRate else f.recurIntMedian;
    Ok(Fault(f.name, f.tectonicType, f.faultType, d.length, 0.0, d.dip, 0.0, f.dipDir, f.rake,
             d.dbottom, 0.0, dtop, dtop, dtop, d.slipRate, 0.0, d.couplingCoeff, 0.0, mw, recur, f.trace))
  }

  /** The top depth drawn uniformly between the minimum and the maximum: `u` is the draw in [0, 1). */
  function TopDepth(dtopMin: real, dtopMax: real, u: real): real
  {
    dtopMin + (dtopMax - dtopMin) * u
  }

  /** The drawn top depth lies between the minimum and the maximum, and below the maximum when they differ. */
  lemma TopDepthInRange(dtopMin: real, dtopMax: real, u: real)
    requires 0.0 <= u < 1.0 && dtopMin <= dtopMax
    ensures dtopMin <= TopDepth(dtopMin, dtopMax, u) <= dtopMax
    ensures dtopMin < dtopMax ==> TopDepth(dtopMin, dtopMax, u) < dtopMax
  {
    var span := dtopMax - dtopMin;
    var offset := span * u;
    Scaled(span, u);
    assert TopDepth(dtopMin, dtopMax, u) == dtopMin + offset;
  }

  /** A fraction in [0, 1) of a non-negative amount is at most the amount, and less when it is positive. */
  lemma Scaled(a: real, u: real)
    requires 0.0 <= a && 0.0 <= u < 1.0
    ensures 0.0 <= a * u <= a && (0.0 < a ==> a * u < a)
  {
    assert a * u <= a * 1.0;
    assert 0.0 < a ==> a * u < a * 1.0;
  }

  /**
   * The recurrence interval: the moment over the moment rate when the rate is positive, otherwise
   * the input's.
   */
  lemma SampledRecurrence(f: Fault, d: Draws, phys: Physics, scaling: bool, perturb: bool)
    requires Sample2012(f, d, phys, scaling, perturb).Ok?
    ensures var s := Sample2012(f, d, phys, scaling, perturb).value;
      var rate := Mu * s.length * phys.width(s.dbottom, s.dtop, s.dip) * (s.slipRate * 1000.0) * s.couplingCoeff;
      && (rate > 0.0 ==> s.recurIntMedian * rate == phys.moment(s.mw))
      && (rate <= 0.0 ==> s.recurIntMedian == f.recurIntMedian)
  {
  }

  /**
   * A sampled fault loses nothing when written and read back: its rate sigmas are already 0, so the
   * file holds exactly the sample.
   */
  lemma SampleReadsBack(fmt: Formats, parse: string -> Option<real>, f: Fault, d: Draws, phys: Physics,
                        scaling: bool, perturb: bool, trailing: bool)
    requires Sample2012(f, d, phys, scaling, perturb).Ok?
    requires Writable(fmt, parse, Sample2012(f, d, phys, scaling, perturb).value)
    ensures var s := Sample2012(f, d, phys, scaling, perturb).value;
      ParseEntry(parse, Join("\n", EntryLines(fmt, s)) + (if trailing then "\n" else "")) == Ok(s)
  {
    var s := Sample2012(f, d, phys, scaling, perturb).value;
    EntryReadsBack(fmt, parse, s, trailing);
    assert AsWritten(s) == s;
  }
}
