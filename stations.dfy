/**
 * The six-line header of a station-value file (plot/plot_stations.py:78-161): a title, a legend
 * title, the colour palette and station marker, the palette range, the column count with a label
 * colour, and the column labels. The file is read as Python 2 bytes: each header line is stripped,
 * and split into words, on the six ASCII whitespace bytes. Property lists are scanned left to
 * right, each matching item overwriting the value set so far.
 */
module Stations {
  import opened Wrappers
  import opened Seqs
  import PyStr
  import opened PyBytes

  /** `p[:len(prefix)] == prefix` */
  predicate StartsWith(p: string, prefix: string)
  {
    |prefix| <= |p| && p[..|prefix|] == prefix
  }

  /** What follows `prefix` in the last item that starts with it, or None when no item does. */
  function LastValue(items: seq<string>, prefix: string): Option<string>
  {
    if items == [] then None
    else if StartsWith(items[|items| - 1], prefix) then Some(items[|items| - 1][|prefix|..])
    else LastValue(items[..|items| - 1], prefix)
  }

  /** A later item with the prefix overrides what came before; any other item leaves it unchanged. */
  lemma LastValueSnoc(items: seq<string>, p: string, prefix: string)
    ensures LastValue(items + [p], prefix)
      == if StartsWith(p, prefix) then Some(p[|prefix|..]) else LastValue(items, prefix)
  {
    assert (items + [p])[..|items|] == items;
  }

  /** No value is found exactly when no item starts with the prefix. */
  lemma {:induction false} LastValueNone(items: seq<string>, prefix: string)
    ensures LastValue(items, prefix).None? <==> forall i :: 0 <= i < |items| ==> !StartsWith(items[i], prefix)
  {
    if items != [] {
      var init := items[..|items| - 1];
      LastValueNone(init, prefix);
      assert forall i :: 0 <= i < |init| ==> init[i] == items[i];
    }
  }

  /** A value found comes from an item with the prefix, and no later item has the prefix. */
  lemma {:induction false} LastValueFound(items: seq<string>, prefix: string)
    requires LastValue(items, prefix).Some?
    ensures exists i :: (0 <= i < |items| && StartsWith(items[i], prefix)
      && LastValue(items, prefix).value == items[i][|prefix|..]
      && forall j :: i < j < |items| ==> !StartsWith(items[j], prefix))
  {
    var last := |items| - 1;
    if !StartsWith(items[last], prefix) {
      var init := items[..last];
      LastValueFound(init, prefix);
      var i :| 0 <= i < |init| && StartsWith(init[i], prefix)
        && LastValue(init, prefix).value == init[i][|prefix|..]
        && forall j :: i < j < |init| ==> !StartsWith(init[j], prefix);
      assert forall j :: i < j < |items| ==> !StartsWith(items[j], prefix) by {
        forall j | i < j < |items|
          ensures !StartsWith(items[j], prefix)
        {
          if j < last {
            assert items[j] == init[j];
          }
        }
      }
      assert items[i] == init[i];
    }
  }

  /**
   * The property list of a token: the text between its first and second ':' split on ',', or
   * nothing when it has no ':' (the IndexError the source catches).
   */
  function Properties(token: string): seq<string>
  {
    var parts := PyStr.Split(token, ':');
    if |parts| > 1 then PyStr.Split(parts[1], ',') else []
  }

  /** A token without ':' has no properties. */
  lemma NoColonNoProperties(token: string)
    requires ':' !in token
    ensures Properties(token) == []
  {
  }

  /** A token with a ':' has at least one property, possibly empty. */
  lemma ColonProperties(token: string)
    requires ':' in token
    ensures |Properties(token)| >= 1
  {
  }

  /**
   * The scan of the palette properties: `t-X` sets the transparency, `fg-X` the foreground and
   * `bg-X` the background colour, each to X; other items are ignored. None is the default: the
   * integer 0 for the transparency, Python `None` for the colours.
   */
  method ScanPaletteProperties(props: seq<string>) returns (transparency: Option<string>, fg: Option<string>, bg: Option<string>)
    ensures transparency == LastValue(props, "t-")
    ensures fg == LastValue(props, "fg-")
    ensures bg == LastValue(props, "bg-")
  {
    transparency, fg, bg := None, None, None;
    for i := 0 to |props|
      invariant transparency == LastValue(props[..i], "t-")
      invariant fg == LastValue(props[..i], "fg-")
      invariant bg == LastValue(props[..i], "bg-")
    {
      var p := props[i];
      assert props[..i + 1] == props[..i] + [p];
      LastValueSnoc(props[..i], p, "t-");
      LastValueSnoc(props[..i], p, "fg-");
      LastValueSnoc(props[..i], p, "bg-");
      if StartsWith(p, "t-") {
        assert p[0] == 't';
        transparency := Some(p[2..]);
      } else if StartsWith(p, "fg-") {
        assert p[0] == 'f';
        fg := Some(p[3..]);
      } else if StartsWith(p, "bg-") {
        bg := Some(p[3..]);
      }
    }
    assert props[..|props|] == props;
  }

  /** A `shape-` item with nothing after it: reading its shape character raises IndexError. */
  predicate IsBareShape(p: string)
  {
    StartsWith(p, "shape-") && |p| == 6
  }

  /** The position of the first bare `shape-` item, or the length when there is none. */
  function FirstBare(items: seq<string>): (k: nat)
    ensures k <= |items|
    ensures forall j :: 0 <= j < k ==> !IsBareShape(items[j])
    ensures k < |items| ==> IsBareShape(items[k])
  {
    if items == [] then 0
    else if IsBareShape(items[0]) then 0
    else 1 + FirstBare(items[1..])
  }

  /**
   * The station properties the scan reaches: the IndexError raised on a bare `shape-` item is
   * caught around the whole loop, so the items from it on are never looked at.
   */
  function Reached(items: seq<string>): seq<string>
  {
    items[..FirstBare(items)]
  }

  /** The character after `shape-` in the last such item that has one, or the default 't'. */
  function LastShape(items: seq<string>): char
  {
    if items == [] then 't'
    else if StartsWith(items[|items| - 1], "shape-") && |items[|items| - 1]| > 6 then items[|items| - 1][6]
    else LastShape(items[..|items| - 1])
  }

  /** Without bare `shape-` items the scan reaches every item. */
  lemma ReachedAll(items: seq<string>)
    requires forall j :: 0 <= j < |items| ==> !IsBareShape(items[j])
    ensures Reached(items) == items
  {
  }

  /** A bare `shape-` item cuts off itself and everything after it. */
  lemma ReachedCut(items: seq<string>, rest: seq<string>)
    requires forall j :: 0 <= j < |items| ==> !IsBareShape(items[j])
    ensures Reached(items + ["shape-"] + rest) == items
  {
    var all := items + ["shape-"] + rest;
    assert all[|items|] == "shape-";
    assert forall j :: 0 <= j < |items| ==> all[j] == items[j];
    assert all[..|items|] == items;
  }

  /**
   * The scan of the station properties: `shape-X` sets the marker to the single character X and
   * `g-X` the grid algorithm to X; the defaults are 't' and None. The scan ends at the first bare
   * `shape-` item.
   */
  method ScanStationProperties(props: seq<string>) returns (shape: char, grid: Option<string>)
    ensures shape == LastShape(Reached(props))
    ensures grid == LastValue(Reached(props), "g-")
  {
    shape, grid := 't', None;
    ghost var stop := FirstBare(props);
    for i := 0 to |props|
      invariant i <= stop
      invariant shape == LastShape(props[..i])
      invariant grid == LastValue(props[..i], "g-")
    {
      var p := props[i];
      assert props[..i + 1] == props[..i] + [p];
      assert (props[..i] + [p])[..i] == props[..i];
      LastValueSnoc(props[..i], p, "g-");
      if StartsWith(p, "shape-") {
        if |p| == 6 {
          // p[6] raises IndexError, caught outside the loop
          assert IsBareShape(props[i]);
          break;
        }
        assert p[0] == 's';
        shape := p[6];
      } else if StartsWith(p, "g-") {
        grid := Some(p[2..]);
      }
      if i == stop {
        assert false;
      }
    }
    assert Reached(props) == props[..stop];
  }

  /** The station marker: its size, its shape character and its grid algorithm, if any. */
  datatype Marker = Marker(size: string, shape: char, grid: Option<string>)

  /**
   * Line 3: the colour palette with its properties, and the station marker if given. Without a
   * marker the header still reads, but the station size, shape and grid stay unbound, and the
   * plotting that follows the header fails when it first uses them.
   */
  datatype Palette = Palette(
    name: string,                  // palette name, or its absolute path when it names a file
    transparency: Option<string>,  // None: the integer default 0
    fg: Option<string>,
    bg: Option<string>,
    invert: bool,                  // 'invert' is one of the palette properties
    marker: Option<Marker>)        // None when line 3 has a single token

  /** Line 4: the palette range, its increment and the tick spacing. */
  datatype Range = Range(min: real, max: real, inc: real, tick: real)

  /** Lines 5 and 6: the column count, the label colour and the column labels. */
  datatype Columns = Columns(ncol: int, labelColour: string, labels: seq<string>)

  /** The plot configuration read from the header. */
  datatype Header = Header(title: string, legend: string, palette: Palette, range: Range, columns: Columns)

  /**
   * The palette as line 3's tokens give it: the name is the first token up to ':', its properties
   * set the transparency and colours, and a second token gives the marker size up to ':' and the
   * marker properties the scan reaches.
   */
  predicate PaletteFrom(tokens: seq<string>, isFile: string -> bool, absPath: string -> string, p: Palette)
    requires tokens != []
  {
    var name := PyStr.Split(tokens[0], ':')[0];
    var props := Properties(tokens[0]);
    && p.name == (if isFile(name) then absPath(name) else name)
    && p.transparency == LastValue(props, "t-")
    && p.fg == LastValue(props, "fg-")
    && p.bg == LastValue(props, "bg-")
    && (p.invert <==> "invert" in props)
    && (p.marker.Some? <==> |tokens| > 1)
    && (|tokens| > 1 ==>
      var markerProps := Reached(Properties(tokens[1]));
      p.marker.value == Marker(PyStr.Split(tokens[1], ':')[0], LastShape(markerProps), LastValue(markerProps, "g-")))
  }

  /** Reads line 3 from its tokens. */
  method ReadPalette(tokens: seq<string>, isFile: string -> bool, absPath: string -> string) returns (p: Palette)
    requires tokens != []
    ensures PaletteFrom(tokens, isFile, absPath, p)
  {
    var parts := PyStr.Split(tokens[0], ':');
    var name := parts[0];
    if isFile(name) {
      // assumed a built-in palette otherwise
      name := absPath(name);
    }
    var props := if |parts| > 1 then PyStr.Split(parts[1], ',') else [];
    var transparency, fg, bg := ScanPaletteProperties(props);
    var marker := None;
    if |tokens| > 1 {
      var markerParts := PyStr.Split(tokens[1], ':');
      var markerProps := if |markerParts| > 1 then PyStr.Split(markerParts[1], ',') else [];
      var shape, grid := ScanStationProperties(markerProps);
      marker := Some(Marker(markerParts[0], shape, grid));
    }
    p := Palette(name, transparency, fg, bg, "invert" in props, marker);
  }

  /** Every number line 4 gives converts. */
  predicate RangeReadable(tokens: seq<string>, parse: string -> Option<real>, dataMax: Option<real>)
  {
    && (|tokens| > 1 ==> parse(tokens[0]).Some? && parse(tokens[1]).Some?)
    && (|tokens| <= 1 ==> dataMax.Some?)
    && (|tokens| > 2 ==> parse(tokens[2]).Some?)
    && (|tokens| > 3 ==> parse(tokens[3]).Some?)
  }

  /**
   * The range as line 4's tokens give it: min and max from the first two tokens when there are two,
   * else max from the data and min its negation when a value is negative, 0 otherwise; the
   * increment from the third token, else max/6; the tick from the fourth, else twice the increment.
   */
  predicate RangeFrom(tokens: seq<string>, parse: string -> Option<real>, dataMax: Option<real>, dataNegative: bool,
                      g: Range)
  {
    && (|tokens| > 1 ==> Some(g.min) == parse(tokens[0]) && Some(g.max) == parse(tokens[1]))
    && (|tokens| <= 1 ==> Some(g.max) == dataMax && g.min == if dataNegative then -g.max else 0.0)
    && (if |tokens| > 2 then Some(g.inc) == parse(tokens[2]) else g.inc == g.max / 6.0)
    && (if |tokens| > 3 then Some(g.tick) == parse(tokens[3]) else g.tick == g.inc * 2.0)
  }

  /**
   * Reads line 4 from its tokens; `dataMax` is the data's 99.5th percentile rounded to two
   * significant figures, None when that percentile is not positive (its `log10` is -inf or nan,
   * which `int` rejects), and `dataNegative` says whether any data value is negative.
   */
  method ReadRange(tokens: seq<string>, parse: string -> Option<real>, dataMax: Option<real>, dataNegative: bool)
    returns (r: Result<Range>)
    ensures r.Ok? <==> RangeReadable(tokens, parse, dataMax)
    ensures r.Ok? ==> RangeFrom(tokens, parse, dataMax, dataNegative, r.value)
  {
    var cptMin, cptMax;
    if |tokens| > 1 {
      var lo, hi := parse(tokens[0]), parse(tokens[1]);
      if lo.None? || hi.None? {
        return Err("line 4: palette limits are not numbers");
      }
      cptMin, cptMax := lo.value, hi.value;
    } else {
      if dataMax.None? {
        return Err("line 4: the data's 99.5th percentile is not positive");
      }
      cptMax := dataMax.value;
      cptMin := if dataNegative then -cptMax else 0.0;
    }
    var cptInc := cptMax / 6.0;
    if |tokens| > 2 {
      var inc := parse(tokens[2]);
      if inc.None? {
        return Err("line 4: palette increment is not a number");
      }
      cptInc := inc.value;
    }
    var cptTick := cptInc * 2.0;
    if |tokens| > 3 {
      var tick := parse(tokens[3]);
      if tick.None? {
        return Err("line 4: tick spacing is not a number");
      }
      cptTick := tick.value;
    }
    r := Ok(Range(cptMin, cptMax, cptInc, cptTick));
  }

  /** The first six lines, stripped. */
  function Head(lines: seq<string>): (h: seq<string>)
    requires |lines| >= 6
    ensures |h| == 6 && forall i :: 0 <= i < 6 ==> h[i] == Strip(lines[i])
  {
    Map(Strip, lines[..6])
  }

  /** Line 6 split on ',' and stripped; a lone empty label means no labels. */
  function Labels(line: string): seq<string>
  {
    var ls := Map(Strip, PyStr.Split(line, ','));
    if ls == [""] then [] else ls
  }

  /** A line with a ',' keeps all its labels, even empty ones. */
  lemma LabelsKept(line: string)
    requires ',' in line
    ensures Labels(line) == Map(Strip, PyStr.Split(line, ',')) && |Labels(line)| >= 2
  {
  }

  /** A blank line has no labels. */
  lemma BlankLabels(line: string)
    requires AllSpace(line)
    ensures Labels(line) == []
  {
    assert !IsSpace(',');
    assert LStrip(line) == [] by {
      AllSpaceLStrip(line);
    }
  }

  lemma {:induction false} AllSpaceLStrip(s: string)
    requires AllSpace(s)
    ensures LStrip(s) == []
  {
    if s != [] {
      AllSpaceLStrip(s[1..]);
    }
  }

  /** Line 5 gives an integer column count, and line 6 no labels or one per column. */
  predicate ColumnsReadable(cols: seq<string>, labelLine: string, parseInt: string -> Option<int>)
  {
    && cols != [] && parseInt(cols[0]).Some?
    && (Labels(labelLine) == [] || |Labels(labelLine)| == parseInt(cols[0]).value)
  }

  /**
   * The columns as line 5's tokens and line 6 give them: the count from the first token, the label
   * colour from the second, else 'black', and the labels of line 6.
   */
  predicate ColumnsFrom(cols: seq<string>, labelLine: string, parseInt: string -> Option<int>, c: Columns)
    requires cols != []
  {
    && Some(c.ncol) == parseInt(cols[0])
    && c.labelColour == (if |cols| > 1 then cols[1] else "black")
    && c.labels == Labels(labelLine)
  }

  /** Reads lines 5 and 6, from the tokens of line 5 and the text of line 6. */
  method ReadColumns(cols: seq<string>, labelLine: string, parseInt: string -> Option<int>) returns (r: Result<Columns>)
    ensures r.Ok? <==> ColumnsReadable(cols, labelLine, parseInt)
    ensures r.Ok? ==> ColumnsFrom(cols, labelLine, parseInt, r.value)
    ensures r.Ok? ==> r.value.labels == [] || |r.value.labels| == r.value.ncol
  {
    if |cols| == 0 {
      return Err("line 5 gives no column count");
    }
    var ncol := parseInt(cols[0]);
    if ncol.None? {
      return Err("line 5: column count is not an integer");
    }
    var labelColour := if |cols| > 1 then cols[1] else "black";
    var labels := Map(Strip, PyStr.Split(labelLine, ','));
    if labels == [""] {
      labels := [];
    }
    if |labels| != ncol.value && |labels| != 0 {
      return Err("column labels do not match the column count");
    }
    r := Ok(Columns(ncol.value, labelColour, labels));
  }

  /** The header is read without error: every field the source converts or indexes is present. */
  predicate Readable(lines: seq<string>, parse: string -> Option<real>, parseInt: string -> Option<int>,
                     dataMax: Option<real>)
  {
    && |lines| >= 6
    && var h := Head(lines);
    && Tokens(h[2]) != []
    && RangeReadable(Tokens(h[3]), parse, dataMax)
    && ColumnsReadable(Tokens(h[4]), h[5], parseInt)
  }

  /**
   * Reads the header from the file's lines. `parse` is Python's `float`, `parseInt` its `int`
   * (None where they raise); `isFile` and `absPath` stand for `os.path.exists` and
   * `os.path.abspath`; `dataMax` and `dataNegative` summarise the data, as `ReadRange` says.
   */
  method ReadHeader(lines: seq<string>, parse: string -> Option<real>, parseInt: string -> Option<int>,
                    isFile: string -> bool, absPath: string -> string, dataMax: Option<real>,
                    dataNegative: bool)
    returns (r: Result<Header>)
    ensures r.Ok? <==> Readable(lines, parse, parseInt, dataMax)
    ensures r.Ok? ==>
      var h, v := Head(lines), r.value;
      && v.title == h[0] && v.legend == h[1]
      && PaletteFrom(Tokens(h[2]), isFile, absPath, v.palette)
      && RangeFrom(Tokens(h[3]), parse, dataMax, dataNegative, v.range)
      && ColumnsFrom(Tokens(h[4]), h[5], parseInt, v.columns)
      && (v.columns.labels == [] || |v.columns.labels| == v.columns.ncol)
  {
    if |lines| < 6 {
      return Err("fewer than six header lines");
    }
    var head := Head(lines);
    // 1st line: title; 2nd line: legend title
    var title, legend := head[0], head[1];
    // 3rd line: palette and station marker
    var paletteInfo := Tokens(head[2]);
    if |paletteInfo| == 0 {
      return Err("line 3 names no colour palette");
    }
    var palette := ReadPalette(paletteInfo, isFile, absPath);
    // 4th line: palette range
    var range :- ReadRange(Tokens(head[3]), parse, dataMax, dataNegative);
    // 5th and 6th lines: columns
    var columns :- ReadColumns(Tokens(head[4]), head[5], parseInt);
    r := Ok(Header(title, legend, palette, range, columns));
  }
}
