/** The gamv wrapper end to end (sandbox/gamv.py, lines 102-227): normalise and validate
    the parameters, write the temporary input header and the parameter file, run the
    engine, and turn its output file into the result table. */
module Gamv {
  import opened Wrappers
  import opened Text
  import opened GamvConfig
  import opened ParFile
  import opened GamvOutput

  /** What running the external gamv executable on the parameter file reports: its exit
      code and its standard error, decoded. */
  datatype EngineRun = EngineRun(returncode: int, stderr: string)

  /** A text file the wrapper writes in the working directory, line by line. */
  datatype FileWrite = FileWrite(name: string, lines: seq<string>)

  /** The first check made before the engine runs (lines 106 and 133-144) that the
      parameters fail, in the order the checks are made. */
  function ConfigCheck(p: Parameters): Option<GamvError>
  {
    if !WellShaped(p) then Some(DataNotTwoDimensional)
    else if |p.ivpar| == 0 then Some(EmptyVariogramTable)
    else if |p.ivdir| == 0 then Some(EmptyDirectionTable)
    else if CheckSpecs(p.ivpar, |EffectiveIvar(p)|).Err? then Some(CheckSpecs(p.ivpar, |EffectiveIvar(p)|).error)
    else None
  }

  /** Parameters that pass every check made before the engine runs. */
  predicate ValidConfig(p: Parameters)
  {
    ConfigCheck(p).None?
  }

  /** The files gamv writes for p: the header of the temporary input file when the data is
      an in-memory array, before any table check, and the parameter file, filled in from
      the normalised parameters and the validated table, once every check has passed. */
  ghost predicate WritesFiles(p: Parameters, fmt: real -> string, written: seq<FileWrite>)
  {
    |written| == (if WellShaped(p) && p.datafl.InMemory? then 1 else 0) + (if ValidConfig(p) then 1 else 0) &&
    (WellShaped(p) && p.datafl.InMemory? ==>
       written[0].name == InputName && IsDataHeader(written[0].lines, p.datafl.shape[1])) &&
    (ValidConfig(p) ==>
       written[|written| - 1].name == ParName &&
       exists q :: Normalized(p, q) && q.datafl.DataFile? && q.outfl.Some? &&
         written[|written| - 1].lines == ParFileLines(q, CheckSpecs(p.ivpar, |EffectiveIvar(p)|).value, fmt))
  }

  /** What reading the engine's output gives (lines 181-227): the table has one row per
      kept data line, or pandas refuses the key columns; an output without data lines
      gives nvarg*ndir*L rows of missing statistics; an output file of the expected
      nvarg*ndir blocks always gives the table, each row from its own data line. */
  predicate LoadedTable(res: Result<seq<Row>, GamvError>, outLines: seq<seq<Cell>>, ivpar: seq<VarSpec>,
                        ndir: nat, nlag: nat, wide: bool)
  {
    var n, kept := |ivpar| * ndir * (nlag + 2), DropRows(outLines, SkipRows(|ivpar|, ndir, nlag));
    ndir > 0 &&
    (res.Err? <==> |kept| != 0 && |kept| != n) &&
    (res.Err? ==> res.error == RowCountMismatch(n, |kept|)) &&
    (res.Ok? ==> ResultTable(res.value, FrameLines(kept, n), ivpar, ndir, nlag + 2, wide)) &&
    (|kept| == 0 ==>
       (res.Ok? && |res.value| == n &&
        forall r :: 0 <= r < |res.value| ==> res.value[r].stats == ToRecord([], wide))) &&
    (|outLines| == |ivpar| * ndir * (nlag + 3) ==> res.Ok? && FromDataLines(res.value, outLines, nlag + 2, wide))
  }

  /** The message of the NameError raised on a non-zero exit code (line 173). */
  function EngineMessage(stderr: string): (m: string)
    ensures |m| == 22 + |stderr| && m[..22] == "gslib declus NameError" && m[22..] == stderr
  {
    "gslib declus NameError" + stderr
  }

  /** Lines 102-144: normalises the parameters (producing the header of the temporary
      input file for an in-memory array) and validates both tables. On success, returns
      mypar and the validated variogram table. */
  method CheckParameters(parameters: Parameters)
    returns (res: Result<Parameters, GamvError>, checked: seq<VarSpec>, inputHeader: Option<seq<string>>)
    ensures !WellShaped(parameters) ==> res == Err(DataNotTwoDimensional)
    ensures WellShaped(parameters) && |parameters.ivpar| == 0 ==> res == Err(EmptyVariogramTable)
    ensures (WellShaped(parameters) && |parameters.ivpar| > 0 && |parameters.ivdir| == 0 ==>
      res == Err(EmptyDirectionTable))
    ensures (WellShaped(parameters) && |parameters.ivpar| > 0 && |parameters.ivdir| > 0 &&
      CheckSpecs(parameters.ivpar, |EffectiveIvar(parameters)|).Err?
      ==> res == Err(CheckSpecs(parameters.ivpar, |EffectiveIvar(parameters)|).error))
    ensures res.Ok? <==> ValidConfig(parameters)
    ensures res.Err? ==> res.error == ConfigCheck(parameters).value
    ensures (res.Ok? ==>
      Normalized(parameters, res.value) && checked == CheckSpecs(parameters.ivpar, |EffectiveIvar(parameters)|).value)
    ensures inputHeader.Some? <==> WellShaped(parameters) && parameters.datafl.InMemory?
    ensures inputHeader.Some? ==> IsDataHeader(inputHeader.value, parameters.datafl.shape[1])
  {
    checked := [];
    var prep;
    prep, inputHeader := Prepare(parameters);
    if prep.Err? {
      return Err(prep.error), checked, inputHeader;
    }
    var mypar := prep.value;
    if |mypar.ivpar| == 0 {
      return Err(EmptyVariogramTable), checked, inputHeader;
    }
    if |mypar.ivdir| == 0 {
      return Err(EmptyDirectionTable), checked, inputHeader;
    }
    var table := new VarSpec[|mypar.ivpar|](i requires 0 <= i < |mypar.ivpar| => mypar.ivpar[i]);
    assert table[..] == parameters.ivpar;
    var err := ValidateTable(table, |mypar.ivar|);
    if err.Some? {
      return Err(err.value), checked, inputHeader;
    }
    checked := table[..];
    res := Ok(mypar);
  }

  /** Lines 102-157: the checks above, with the files they lead to: the temporary input
      header (written before any table check) and the parameter file (after all of them). */
  method Configure(parameters: Parameters, fmt: real -> string)
    returns (res: Result<Parameters, GamvError>, checked: seq<VarSpec>, written: seq<FileWrite>)
    ensures res.Ok? <==> ValidConfig(parameters)
    ensures res.Err? ==> res.error == ConfigCheck(parameters).value
    ensures (res.Ok? ==>
      Normalized(parameters, res.value) && checked == CheckSpecs(parameters.ivpar, |EffectiveIvar(parameters)|).value)
    ensures WritesFiles(parameters, fmt, written)
  {
    var header;
    res, checked, header := CheckParameters(parameters);
    written := if header.Some? then [FileWrite(InputName, header.value)] else [];
    if res.Ok? {
      written := written + [FileWrite(ParName, ParFileLines(res.value, checked, fmt))];
    }
  }

  /** Lines 181-227: reads the output file without the block header lines under the
      chosen schema, adds the key columns, joins the metadata of the caller's table ivpar
      and cleans the statistics. */
  method LoadResults(outLines: seq<seq<Cell>>, ivpar: seq<VarSpec>, ndir: nat, nlag: nat, wide: bool)
    returns (res: Result<seq<Row>, GamvError>)
    requires ndir > 0
    ensures LoadedTable(res, outLines, ivpar, ndir, nlag, wide)
  {
    var kept := DropRows(outLines, SkipRows(|ivpar|, ndir, nlag));
    if |outLines| == |ivpar| * ndir * (nlag + 3) {
      HeaderFreeData(outLines, |ivpar|, ndir, nlag);
    }
    var built := BuildRows(ReadRecords(kept, wide), wide, |ivpar|, ndir, nlag + 2);
    if built.Err? {
      return Err(built.error);
    }
    var rows := FinishRows(built.value, ivpar);
    res := Ok(rows);
    FinishedTable(built.value, res.value, kept, ivpar, ndir, nlag + 2, wide);
    if |outLines| == |ivpar| * ndir * (nlag + 3) {
      SkipRowsLayout(|ivpar|, ndir, nlag);
      assert FrameLines(kept, |ivpar| * ndir * (nlag + 2)) == kept;
      KeptRowsAreDataLines(res.value, outLines, SkipRows(|ivpar|, ndir, nlag), nlag + 2, wide);
    }
  }

  /** The validated table selects the wide schema exactly when the caller's does: the
      validation keeps every type. */
  lemma SchemaOfCheckedTable(ivpar: seq<VarSpec>, nvar: nat)
    requires CheckSpecs(ivpar, nvar).Ok?
    ensures HasVarianceColumns(CheckSpecs(ivpar, nvar).value) == HasVarianceColumns(ivpar)
  {
    var checked := CheckSpecs(ivpar, nvar).value;
    if HasVarianceColumns(checked) {
      var i :| 0 <= i < |checked| && checked[i].vtype == 4;
      assert ivpar[i].vtype == 4;
    }
    if HasVarianceColumns(ivpar) {
      var i :| 0 <= i < |ivpar| && ivpar[i].vtype == 4;
      assert checked[i].vtype == 4;
    }
  }

  /** Lines 102-227. The engine's run and the contents of its output file, already split
      into numeric cells, are inputs; the files the wrapper writes are returned in order. */
  method RunGamv(parameters: Parameters, fmt: real -> string, engine: EngineRun, outLines: seq<seq<Cell>>)
    returns (res: Result<seq<Row>, GamvError>, written: seq<FileWrite>)
    ensures ConfigCheck(parameters).Some? ==> res == Err(ConfigCheck(parameters).value)
    ensures (ValidConfig(parameters) && engine.returncode != 0 ==>
      res == Err(EngineFailure(EngineMessage(engine.stderr))))
    ensures (ValidConfig(parameters) && engine.returncode == 0 ==>
      LoadedTable(res, outLines, parameters.ivpar, |parameters.ivdir|, parameters.nlag,
                  HasVarianceColumns(parameters.ivpar)))
    ensures WritesFiles(parameters, fmt, written)
  {
    var config, checked;
    config, checked, written := Configure(parameters, fmt);
    if config.Err? {
      return Err(config.error), written;
    }
    var mypar := config.value;
    if engine.returncode != 0 {
      return Err(EngineFailure(EngineMessage(engine.stderr))), written;
    }
    SchemaOfCheckedTable(parameters.ivpar, |EffectiveIvar(parameters)|);
    res := LoadResults(outLines, parameters.ivpar, |mypar.ivdir|, mypar.nlag, HasVarianceColumns(checked));
  }

  /** The parameter file gamv writes reads back, by position, as the variable columns of
      the normalised parameters, the direction rows and the validated variogram rows. */
  lemma WrittenParFileReadsBack(p: Parameters, fmt: real -> string, written: seq<FileWrite>)
    requires WritesFiles(p, fmt, written) && ValidConfig(p)
    requires forall x: real :: IsToken(fmt(x))
    ensures ReadBack(written[|written| - 1].lines) ==
      Some(ParSummary(EffectiveIvar(p), DirRows(p.ivdir, fmt), VarRows(CheckSpecs(p.ivpar, |EffectiveIvar(p)|).value, fmt)))
  {
    var checked := CheckSpecs(p.ivpar, |EffectiveIvar(p)|).value;
    var q :| Normalized(p, q) && q.datafl.DataFile? && q.outfl.Some? &&
      written[|written| - 1].lines == ParFileLines(q, checked, fmt);
    ParFileRoundTrip(q, checked, fmt);
  }
}
