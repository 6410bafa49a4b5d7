/**
 * Realisation names and source-file locations of the simulation directory tree
 * (qcore/simulation_structure.py). A realisation is named after its fault; its source files live
 * under the fault's directory, and an absolute path is formed under `root/Data/Sources`.
 */
module SimStructure {
  import opened PyStr
  import opened Seqs

  /** `realisation.split('_')[0]`: the text before the first '_', or all of it. */
  function FaultOf(realisation: string): (fault: string)
    ensures '_' !in fault
    ensures |fault| <= |realisation| && fault == realisation[..|fault|]
    ensures |fault| < |realisation| ==> realisation[|fault|] == '_'
  {
    SplitHead(realisation, '_');
    Split(realisation, '_')[0]
  }

  /** `"{}_REL{:0>2}".format(fault, n)`: the number padded with '0' on the left to two characters. */
  function RealisationName(fault: string, n: int): string
  {
    fault + "_REL" + PadLeft(IntToString(n), 2, '0')
  }

  /** Only a one-digit number gets a leading '0'; every other number is written as `str` writes it. */
  lemma RealisationNumber(fault: string, n: int)
    ensures RealisationName(fault, n) == fault + "_REL" + (if 0 <= n < 10 then "0" else "") + IntToString(n)
  {
    var d := IntToString(n);
    if 0 <= n < 10 {
      assert |d| == 1;
      assert Repeat('0', 1) == "0";
    } else if n >= 10 {
      assert |NatDigits(n / 10)| >= 1;
    }
  }

  /** The fault of a realisation named after a fault without '_' is that fault. */
  lemma FaultOfRealisation(fault: string, n: int)
    requires '_' !in fault
    ensures FaultOf(RealisationName(fault, n)) == fault
  {
    var r := RealisationName(fault, n);
    AppendAssoc(fault, "_REL", PadLeft(IntToString(n), 2, '0'));
    AppendParts(fault, "_REL" + PadLeft(IntToString(n), 2, '0'));
    IndexOfAt(r, '_', |fault|);
    SplitHead(r, '_');
  }

  /**
   * `posixpath.join(a, b)`: an absolute `b` replaces `a`; a separator is added when needed. Joining
   * more components folds this from the left.
   */
  function Join2(a: string, b: string): string
  {
    if |b| > 0 && b[0] == '/' then b
    else if a == [] || a[|a| - 1] == '/' then a + b
    else a + "/" + b
  }

  /** The directory prefix `posixpath.join` puts before a relative component. */
  function Dir(a: string): string
  {
    if a == [] || a[|a| - 1] == '/' then a else a + "/"
  }

  /** The location of a source file: `join(fault, sub, realisation + ext)`. */
  function Location(realisation: string, sub: string, ext: string): (loc: string)
    requires sub != [] && '/' !in sub && ext != [] && ext[0] != '/'
    ensures realisation != [] && realisation[0] == '/' ==> loc == realisation + ext
    ensures realisation == [] || realisation[0] != '/' ==>
      loc == Dir(FaultOf(realisation)) + sub + "/" + realisation + ext
  {
    var fault := FaultOf(realisation);
    assert Join2(fault, sub) == Dir(fault) + sub;
    Join2(Join2(fault, sub), realisation + ext)
  }

  /** `get_srf_location`: `fault/Srf/realisation.srf`. */
  function SrfLocation(realisation: string): string
  {
    Location(realisation, "Srf", ".srf")
  }

  /** `get_stoch_location`: `fault/Stoch/realisation.stoch`. */
  function StochLocation(realisation: string): string
  {
    Location(realisation, "Stoch", ".stoch")
  }

  /** `get_source_params_location`: `fault/Sim_params/realisation.yaml`. */
  function SourceParamsLocation(realisation: string): string
  {
    Location(realisation, "Sim_params", ".yaml")
  }

  /**
   * For a relative realisation name under a non-empty fault without a trailing '/', the three
   * locations are `fault/Srf/r.srf`, `fault/Stoch/r.stoch` and `fault/Sim_params/r.yaml`, all in
   * the fault's directory.
   */
  lemma Locations(realisation: string)
    requires realisation != [] && realisation[0] != '/' && realisation[0] != '_'
    ensures var fault := FaultOf(realisation);
      && fault != [] && fault[0] != '/'
      && (fault[|fault| - 1] != '/' ==>
        && SrfLocation(realisation) == fault + "/" + "Srf" + "/" + realisation + ".srf"
        && StochLocation(realisation) == fault + "/" + "Stoch" + "/" + realisation + ".stoch"
        && SourceParamsLocation(realisation) == fault + "/" + "Sim_params" + "/" + realisation + ".yaml")
  {
    var fault := FaultOf(realisation);
    assert fault[0] == realisation[0];
    if fault[|fault| - 1] != '/' {
      RelativeLocation(realisation, fault, "Srf", ".srf");
      RelativeLocation(realisation, fault, "Stoch", ".stoch");
      RelativeLocation(realisation, fault, "Sim_params", ".yaml");
    }
  }

  /** The location under a fault directory without a trailing '/'. */
  lemma RelativeLocation(realisation: string, fault: string, sub: string, ext: string)
    requires sub != [] && '/' !in sub && ext != [] && ext[0] != '/'
    requires realisation != [] && realisation[0] != '/'
    requires fault == FaultOf(realisation) && fault != [] && fault[|fault| - 1] != '/'
    ensures Location(realisation, sub, ext) == fault + "/" + sub + "/" + realisation + ext
  {
  }

  /** The path of a source file: `join(root, 'Data', 'Sources', location)`. */
  function SourcePath(root: string, loc: string): (p: string)
    ensures loc != [] && loc[0] == '/' ==> p == loc
    ensures (loc == [] || loc[0] != '/') ==> p == Dir(root) + "Data/Sources/" + loc
  {
    SourcesDir(root);
    Join2(Join2(Join2(root, "Data"), "Sources"), loc)
  }

  /** The directory prefix of `root/Data/Sources` is `root/Data/Sources/`. */
  lemma SourcesDir(root: string)
    ensures Dir(Join2(Join2(root, "Data"), "Sources")) == Dir(root) + "Data/Sources/"
  {
    var d := Dir(root);
    var data := d + "Data";
    assert Join2(root, "Data") == data;
    assert data[|data| - 1] == 'a';
    var sources := data + "/" + "Sources";
    assert Join2(data, "Sources") == sources;
    AppendAssoc(d, "Data", "/");
    AppendAssoc(d, "Data/", "Sources");
    assert sources == d + "Data/Sources";
    assert sources[|sources| - 1] == 's';
    AppendAssoc(d, "Data/Sources", "/");
  }

  /** `get_srf_path` */
  function SrfPath(root: string, realisation: string): string
  {
    SourcePath(root, SrfLocation(realisation))
  }

  /** `get_stoch_path` */
  function StochPath(root: string, realisation: string): string
  {
    SourcePath(root, StochLocation(realisation))
  }

  /** `get_source_params_path` */
  function SourceParamsPath(root: string, realisation: string): string
  {
    SourcePath(root, SourceParamsLocation(realisation))
  }

  /**
   * Each path is `root/Data/Sources/` followed by the matching location, for a relative
   * realisation name; an absolute one escapes the tree, as `posixpath.join` drops what precedes it.
   */
  lemma Paths(root: string, realisation: string)
    ensures realisation == [] || realisation[0] != '/' ==>
      && SrfPath(root, realisation) == Dir(root) + "Data/Sources/" + SrfLocation(realisation)
      && StochPath(root, realisation) == Dir(root) + "Data/Sources/" + StochLocation(realisation)
      && SourceParamsPath(root, realisation) == Dir(root) + "Data/Sources/" + SourceParamsLocation(realisation)
    ensures realisation != [] && realisation[0] == '/' ==>
      && SrfPath(root, realisation) == realisation + ".srf"
      && StochPath(root, realisation) == realisation + ".stoch"
      && SourceParamsPath(root, realisation) == realisation + ".yaml"
  {
    if realisation == [] || realisation[0] != '/' {
      var f := FaultOf(realisation);
      assert Dir(f) == [] ==> SrfLocation(realisation)[0] == 'S';
      assert Dir(f) != [] ==> SrfLocation(realisation)[0] == Dir(f)[0];
      assert Dir(f) == [] ==> StochLocation(realisation)[0] == 'S';
      assert Dir(f) != [] ==> StochLocation(realisation)[0] == Dir(f)[0];
      assert Dir(f) == [] ==> SourceParamsLocation(realisation)[0] == 'S';
      assert Dir(f) != [] ==> SourceParamsLocation(realisation)[0] == Dir(f)[0];
      if f != [] {
        assert f[0] == realisation[0];
      }
    }
  }
}
