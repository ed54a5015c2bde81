/**
 * Parameter extraction of `DataToPPT` in nanonis_reader/util.py:
 * `get_sxm_parameters`, `get_dat_parameters` and the dispatcher
 * `get_scan_parameters`. Each builds a dict by fixed header lookups.
 */
module Parameters {
  import opened Wrappers
  import opened Text
  import opened Records
  import opened Dates

  /** Which date helper, if any, a looked-up value goes through. */
  datatype DateStyle = AsIs | SxmDate | DatDate

  /** One entry `name: header[key]` of a dict display. */
  datatype Field = Field(name: string, key: string, style: DateStyle)

  /**
   * The value stored for a field. A date helper given something other
   * than a string fails inside its `try` and hands the value back.
   */
  function Convert(style: DateStyle, v: Value): (r: Value)
    ensures !v.Str? ==> r == v
    ensures r.Str? <==> v.Str?
    ensures style == AsIs ==> r == v
  {
    match style
    case AsIs => v
    case SxmDate => if v.Str? then Str(FormatSxmDate(v.text)) else v
    case DatDate => if v.Str? then Str(FormatDatDate(v.text)) else v
  }

  function Names(fields: seq<Field>): set<string>
  {
    if fields == [] then {} else {fields[0].name} + Names(fields[1..])
  }

  /**
   * A dict display `{name: header[key], ...}` evaluated left to right: the
   * first key missing from the header raises KeyError; otherwise every
   * name is bound, and a name listed twice keeps its later value.
   */
  function Extract(header: map<string, Value>, fields: seq<Field>): (r: Result<map<string, Value>, Exception>)
    ensures r.Ok? <==> forall k | 0 <= k < |fields| :: fields[k].key in header
    ensures r.Ok? ==> r.value.Keys == Names(fields)
    ensures r.Err? ==> r.error.KeyError?
  {
    if fields == [] then Ok(map[])
    else
      var f := fields[0];
      if f.key !in header then Err(KeyError(f.key))
      else
        match Extract(header, fields[1..])
        case Err(e) => Err(e)
        case Ok(rest) => Ok(map[f.name := Convert(f.style, header[f.key])] + rest)
  }

  /** The error raised is the one for the leftmost missing key. */
  lemma {:induction false} ExtractFirstMissing(header: map<string, Value>, fields: seq<Field>, i: nat)
    requires i < |fields| && fields[i].key !in header
    requires forall j | 0 <= j < i :: fields[j].key in header
    ensures Extract(header, fields) == Err(KeyError(fields[i].key))
  {
    if i > 0 {
      ExtractFirstMissing(header, fields[1..], i - 1);
    }
  }

  /** A name's value comes from the last field carrying that name. */
  lemma {:induction false} ExtractLastWins(header: map<string, Value>, fields: seq<Field>, i: nat)
    requires Extract(header, fields).Ok?
    requires i < |fields|
    requires forall j | i < j < |fields| :: fields[j].name != fields[i].name
    ensures fields[i].name in Extract(header, fields).value
    ensures Extract(header, fields).value[fields[i].name] == Convert(fields[i].style, header[fields[i].key])
  {
    var rest := Extract(header, fields[1..]);
    if i == 0 {
      assert fields[0].name !in Names(fields[1..]) by { NamesMember(fields[1..], fields[0].name); }
    } else {
      ExtractLastWins(header, fields[1..], i - 1);
    }
  }

  /** A name is in `Names` exactly when some field carries it. */
  lemma {:induction false} NamesMember(fields: seq<Field>, name: string)
    ensures name in Names(fields) <==> exists k | 0 <= k < |fields| :: fields[k].name == name
  {
    if fields != [] {
      NamesMember(fields[1..], name);
      if name in Names(fields[1..]) {
        var k :| 0 <= k < |fields[1..]| && fields[1..][k].name == name;
        assert fields[k + 1].name == name;
      }
      if exists k | 0 <= k < |fields| :: fields[k].name == name {
        var k :| 0 <= k < |fields| && fields[k].name == name;
        if k > 0 { assert fields[1..][k - 1].name == name; }
      }
    }
  }

  /** The dict of `get_sxm_parameters` (without its aspect ratio). */
  const SxmFields: seq<Field> := [
    Field("pixels", "scan_pixels", AsIs),
    Field("range", "scan_range", AsIs),
    Field("direction", "scan_dir", AsIs),
    Field("angle", "scan_angle", AsIs),
    Field("bias", "bias>bias (v)", AsIs),
    Field("current", "z-controller>setpoint", AsIs),
    Field("scan_time", "rec_time", AsIs),
    Field("scan_date", "rec_date", SxmDate)
  ]

  /** The dict of `get_dat_parameters` for a Z sweep; `sweep_num` is listed twice. */
  const DatZFields: seq<Field> := [
    Field("bias", "Bias>Bias (V)", AsIs),
    Field("current", "Z-Controller>Setpoint", AsIs),
    Field("sweep_num", "Bias Spectroscopy>Number of sweeps", AsIs),
    Field("offset", "Z Spectroscopy>Initial Z-offset (m)", AsIs),
    Field("sweep_z", "Z Spectroscopy>Sweep distance (m)", AsIs),
    Field("sweep_num", "Z Spectroscopy>Number of sweeps", AsIs),
    Field("comment", "Comment01", AsIs),
    Field("saved_date", "Saved Date", DatDate)
  ]

  /** The dict of `get_dat_parameters` for a bias sweep. */
  const DatBiasFields: seq<Field> := [
    Field("bias", "Bias>Bias (V)", AsIs),
    Field("current", "Z-Controller>Setpoint", AsIs),
    Field("sweep_start", "Bias Spectroscopy>Sweep Start (V)", AsIs),
    Field("sweep_end", "Bias Spectroscopy>Sweep End (V)", AsIs),
    Field("sweep_num", "Bias Spectroscopy>Number of sweeps", AsIs),
    Field("comment", "Comment01", AsIs),
    Field("saved_date", "Saved Date", DatDate)
  ]

  /** The signal channel whose presence marks a Z spectroscopy file. */
  const ZRel := "Z rel (m)"

  function SxmParameters(header: map<string, Value>): Result<map<string, Value>, Exception>
  {
    Extract(header, SxmFields)
  }

  function DatParameters(file: LoadedFile): Result<map<string, Value>, Exception>
  {
    if ZRel in file.signals then Extract(file.header, DatZFields)
    else Extract(file.header, DatBiasFields)
  }

  /** `get_scan_parameters`: dispatch on the suffix of the file name. */
  function ScanParameters(file: LoadedFile): Result<map<string, Value>, Exception>
  {
    if EndsWith(file.fname, ".sxm") then SxmParameters(file.header)
    else if EndsWith(file.fname, ".dat") then DatParameters(file)
    else if EndsWith(file.fname, ".3ds") then Ok(map[])
    else Err(ValueError("Unsupported file type: " + file.fname))
  }

  /** Every name of the sxm dict is listed once. */
  lemma SxmNamesDistinct()
    ensures forall a, b | 0 <= a < b < |SxmFields| :: SxmFields[a].name != SxmFields[b].name
  {
  }

  /** In the Z-sweep dict only `sweep_num` (entries 2 and 5) is listed twice. */
  lemma DatZNamesDistinct()
    ensures forall a, b | 0 <= a < b < |DatZFields| && !(a == 2 && b == 5) :: DatZFields[a].name != DatZFields[b].name
    ensures DatZFields[2].name == DatZFields[5].name
  {
  }

  /** Every name of the bias-sweep dict is listed once. */
  lemma DatBiasNamesDistinct()
    ensures forall a, b | 0 <= a < b < |DatBiasFields| :: DatBiasFields[a].name != DatBiasFields[b].name
  {
  }

  /** The Z-sweep dict binds neither bias-sweep bound. */
  lemma DatZLacksBiasBounds()
    ensures "sweep_start" !in Names(DatZFields) && "sweep_end" !in Names(DatZFields)
  {
    DatZLacks("sweep_start");
    DatZLacksSweepEnd();
  }

  /** `sweep_end` and `sweep_num` differ only from their seventh character on. */
  lemma DatZLacksSweepEnd()
    ensures "sweep_end" !in Names(DatZFields)
  {
    var end := "sweep_end";
    assert end[6] == 'e';
    assert DatZFields[2].name[6] == 'n' && DatZFields[5].name[6] == 'n';
    DatZLacks(end);
  }

  /** A name carried by no field of the Z-sweep dict is not bound by it. */
  lemma DatZLacks(name: string)
    requires forall k | 0 <= k < |DatZFields| :: DatZFields[k].name != name
    ensures name !in Names(DatZFields)
  {
    NamesMember(DatZFields, name);
  }

  /** The bias-sweep dict has no `sweep_z`. */
  lemma DatBiasLacksZ()
    ensures "sweep_z" !in Names(DatBiasFields)
  {
    assert forall k | 0 <= k < |DatBiasFields| :: DatBiasFields[k].name != "sweep_z";
    NamesMember(DatBiasFields, "sweep_z");
  }

  /** With no name listed twice, every entry holds its own header value. */
  lemma ExtractDistinct(header: map<string, Value>, fields: seq<Field>)
    requires Extract(header, fields).Ok?
    requires forall a, b | 0 <= a < b < |fields| :: fields[a].name != fields[b].name
    ensures forall k | 0 <= k < |fields| ::
      && fields[k].key in header && fields[k].name in Extract(header, fields).value
      && Extract(header, fields).value[fields[k].name] == Convert(fields[k].style, header[fields[k].key])
  {
    forall k | 0 <= k < |fields|
      ensures fields[k].key in header && fields[k].name in Extract(header, fields).value
      ensures Extract(header, fields).value[fields[k].name] == Convert(fields[k].style, header[fields[k].key])
    {
      ExtractLastWins(header, fields, k);
    }
  }

  /**
   * The sxm parameters are exactly the eight named entries, each the value
   * of its header key, the scan date passed through the sxm date helper.
   */
  lemma SxmParametersContent(header: map<string, Value>)
    requires SxmParameters(header).Ok?
    ensures var m := SxmParameters(header).value;
      && m.Keys == Names(SxmFields)
      && forall k | 0 <= k < |SxmFields| ::
           SxmFields[k].key in header && SxmFields[k].name in m
           && m[SxmFields[k].name] == Convert(SxmFields[k].style, header[SxmFields[k].key])
    ensures var m := SxmParameters(header).value;
      "rec_date" in header && "scan_date" in m && m["scan_date"] == Convert(SxmDate, header["rec_date"])
  {
    SxmNamesDistinct();
    ExtractDistinct(header, SxmFields);
    assert SxmFields[7] == Field("scan_date", "rec_date", SxmDate);
  }

  /** Entry `i` of the Z-sweep dict, other than the overwritten entry 2, holds its header value. */
  lemma DatZField(file: LoadedFile, i: nat)
    requires ZRel in file.signals && DatParameters(file).Ok?
    requires i < |DatZFields| && i != 2
    ensures var f := DatZFields[i];
      && f.key in file.header && f.name in DatParameters(file).value
      && DatParameters(file).value[f.name] == Convert(f.style, file.header[f.key])
  {
    DatZNamesDistinct();
    ExtractLastWins(file.header, DatZFields, i);
  }

  /**
   * With a `Z rel (m)` channel the Z-sweep entries are chosen: `sweep_z`
   * is present, `sweep_num` is the Z-spectroscopy count (the later of the
   * two entries), there are no bias-sweep bounds, and the bias-sweep count
   * must still be in the header, since it is looked up before being
   * overwritten.
   */
  lemma DatZBranch(file: LoadedFile)
    requires ZRel in file.signals && DatParameters(file).Ok?
    ensures var m := DatParameters(file).value;
      && "Z Spectroscopy>Sweep distance (m)" in file.header && "sweep_z" in m
      && m["sweep_z"] == file.header["Z Spectroscopy>Sweep distance (m)"]
      && "Z Spectroscopy>Number of sweeps" in file.header && "sweep_num" in m
      && m["sweep_num"] == file.header["Z Spectroscopy>Number of sweeps"]
      && "sweep_start" !in m && "sweep_end" !in m
      && "Bias Spectroscopy>Number of sweeps" in file.header
      && "Saved Date" in file.header && "saved_date" in m
      && m["saved_date"] == Convert(DatDate, file.header["Saved Date"])
  {
    var m := DatParameters(file).value;
    DatZField(file, 4);
    DatZField(file, 5);
    DatZField(file, 7);
    assert DatZFields[2].key in file.header;
    assert m.Keys == Names(DatZFields);
    DatZLacksBiasBounds();
  }

  /** Entry `i` of the bias-sweep dict holds its header value. */
  lemma DatBiasField(file: LoadedFile, i: nat)
    requires ZRel !in file.signals && DatParameters(file).Ok?
    requires i < |DatBiasFields|
    ensures var f := DatBiasFields[i];
      && f.key in file.header && f.name in DatParameters(file).value
      && DatParameters(file).value[f.name] == Convert(f.style, file.header[f.key])
  {
    DatBiasNamesDistinct();
    ExtractLastWins(file.header, DatBiasFields, i);
  }

  /**
   * Without a `Z rel (m)` channel the bias-sweep entries are chosen:
   * `sweep_start` and `sweep_end` are present and `sweep_z` is not.
   */
  lemma DatBiasBranch(file: LoadedFile)
    requires ZRel !in file.signals && DatParameters(file).Ok?
    ensures var m := DatParameters(file).value;
      && "Bias Spectroscopy>Sweep Start (V)" in file.header && "sweep_start" in m
      && m["sweep_start"] == file.header["Bias Spectroscopy>Sweep Start (V)"]
      && "Bias Spectroscopy>Sweep End (V)" in file.header && "sweep_end" in m
      && m["sweep_end"] == file.header["Bias Spectroscopy>Sweep End (V)"]
      && "Bias Spectroscopy>Number of sweeps" in file.header && "sweep_num" in m
      && m["sweep_num"] == file.header["Bias Spectroscopy>Number of sweeps"]
      && "sweep_z" !in m
      && "Saved Date" in file.header && "saved_date" in m
      && m["saved_date"] == Convert(DatDate, file.header["Saved Date"])
  {
    var m := DatParameters(file).value;
    DatBiasField(file, 2);
    DatBiasField(file, 3);
    DatBiasField(file, 4);
    DatBiasField(file, 6);
    assert m.Keys == Names(DatBiasFields);
    DatBiasLacksZ();
  }

  /**
   * A Z-sweep header lacking the bias-sweep count fails with KeyError on
   * that key, although its value would have been overwritten.
   */
  lemma DatZNeedsBiasSweepCount(file: LoadedFile)
    requires ZRel in file.signals
    requires "Bias>Bias (V)" in file.header && "Z-Controller>Setpoint" in file.header
    requires "Bias Spectroscopy>Number of sweeps" !in file.header
    ensures DatParameters(file) == Err(KeyError("Bias Spectroscopy>Number of sweeps"))
  {
    ExtractFirstMissing(file.header, DatZFields, 2);
  }

  /**
   * The dispatcher raises ValueError exactly for a name ending in none of
   * the three suffixes; a `.sxm` name reaches `SxmParameters` on its
   * header, a `.dat` name reaches `DatParameters`, a `.3ds` name gets the
   * empty parameter dict, and every other failure is a missing header key.
   */
  lemma ScanParametersDispatch(file: LoadedFile)
    ensures var r := ScanParameters(file);
      var known := EndsWith(file.fname, ".sxm") || EndsWith(file.fname, ".dat") || EndsWith(file.fname, ".3ds");
      && (r.Err? && r.error.ValueError? <==> !known)
      && (!known ==> r == Err(ValueError("Unsupported file type: " + file.fname)))
      && (r.Err? && known ==> r.error.KeyError?)
      && (EndsWith(file.fname, ".sxm") ==> r == SxmParameters(file.header))
      && (EndsWith(file.fname, ".dat") ==> r == DatParameters(file))
      && (EndsWith(file.fname, ".3ds") ==> r == Ok(map[]))
  {
    SuffixesExclusive(file.fname);
  }

  /** No name ends in two of the three suffixes. */
  lemma SuffixesExclusive(name: string)
    ensures EndsWith(name, ".sxm") ==> !EndsWith(name, ".dat") && !EndsWith(name, ".3ds")
    ensures EndsWith(name, ".dat") ==> !EndsWith(name, ".3ds")
  {
    var n := |name|;
    if n >= 4 {
      var tail := name[n - 4..];
      assert EndsWith(name, ".sxm") ==> tail[1] == 's';
      assert EndsWith(name, ".dat") ==> tail[1] == 'd';
      assert EndsWith(name, ".3ds") ==> tail[1] == '3';
    }
  }
}
