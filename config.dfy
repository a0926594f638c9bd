/** The caller's parameter dictionary of gamv, its normalisation (default file names,
    synthetic column roles for an in-memory data array) and the validation of the
    variogram table (sandbox/gamv.py, lines 102-144). */
module GamvConfig {
  import opened Wrappers
  import opened NumSeq
  import opened Text

  /** The fixed file names the wrapper uses in the working directory. */
  const InputName: string := "_xxx_.in"
  const OutputName: string := "_xxx_.out"
  const ParName: string := "_xxx_.par"

  /** parameters['datafl']: a path, an in-memory numeric array (only its shape matters
      to the wrapper), or None. */
  datatype DataSource = DataFile(path: string) | InMemory(shape: seq<nat>) | NoData

  /** One row of parameters['ivdir']: azm, atol, bandh, dip, dtol, bandv. */
  datatype Direction = Direction(azm: real, atol: real, bandh: real, dip: real, dtol: real, bandv: real)

  /** One row of parameters['ivpar']: tail and head variable (1-based positions in ivar),
      variogram type (1 to 10) and cut, which only the indicator types 9 and 10 use. */
  datatype VarSpec = VarSpec(tail: int, head: int, vtype: int, cut: Option<real>)

  /** The parameter dictionary, one field per key. */
  datatype Parameters = Parameters(
    datafl: DataSource,
    icolx: int, icoly: int, icolz: int,
    ivar: seq<int>,
    tmin: real, tmax: real,
    outfl: Option<string>,
    nlag: nat, xlag: real, xltol: real,
    ivdir: seq<Direction>,
    standardize: int,
    ivpar: seq<VarSpec>)

  /** What gamv raises. */
  datatype GamvError =
    | DataNotTwoDimensional          // assert at line 106
    | EmptyVariogramTable            // line 133: indexing shape[1] of an empty ivpar list raises
    | EmptyDirectionTable            // line 134: indexing shape[1] of an empty ivdir list raises
    | TailIndexOutOfRange            // assert at line 136
    | HeadIndexOutOfRange            // assert at line 137
    | UnknownVariogramType           // assert at line 138
    | MissingCut(index: nat)         // NameError at line 144, naming the row
    | EngineFailure(message: string) // NameError at line 173, carrying the engine's stderr
    | RowCountMismatch(expected: nat, found: nat) // pandas refuses key columns of another length (line 213)

  /** numpy.arange(4, ncols + 1): the variable columns of an in-memory array, every
      column after X, Y and Z. */
  function SyntheticIvar(ncols: int): (ivar: seq<int>)
    ensures |ivar| == if ncols > 3 then ncols - 3 else 0
    ensures forall k :: 0 <= k < |ivar| ==> ivar[k] == 4 + k
  {
    ArangeAt(4, ncols + 1, 1);
    ArangeLength(4, ncols + 1, 1, if ncols > 3 then ncols - 3 else 0);
    Arange(4, ncols + 1, 1)
  }

  /** The header written before the rows of an in-memory array: a title, the column
      count, then one name per column: x, y, z, v1, v2, ... */
  predicate IsDataHeader(lines: seq<string>, ncols: nat)
  {
    |lines| == 5 + (if ncols > 3 then ncols - 3 else 0) &&
    lines[0] == "temp file " && lines[1] == IntToString(ncols) &&
    lines[2] == "x" && lines[3] == "y" && lines[4] == "z" &&
    forall k :: 5 <= k < |lines| ==> lines[k] == "v" + IntToString(k - 4)
  }

  /** Produces the header lines of the temporary input file for an array of ncols columns. */
  method WriteDataHeader(ncols: nat) returns (lines: seq<string>)
    ensures IsDataHeader(lines, ncols)
  {
    lines := ["temp file ", IntToString(ncols), "x", "y", "z"];
    var i := 3;
    while i < ncols
      invariant 3 <= i && |lines| == 5 + (i - 3)
      invariant i > 3 ==> i <= ncols
      invariant lines[0] == "temp file " && lines[1] == IntToString(ncols)
      invariant lines[2] == "x" && lines[3] == "y" && lines[4] == "z"
      invariant forall k :: 5 <= k < |lines| ==> lines[k] == "v" + IntToString(k - 4)
    {
      lines := lines + ["v" + IntToString(i - 2)];
      i := i + 1;
    }
  }

  /** With at least the three coordinate columns, the header announces the column count,
      names every column once, and variable number j (the index ivpar's tail and head
      use) sits in column ivar[j - 1], which is named "v" followed by j. */
  lemma {:induction false} DataHeaderNamesColumns(lines: seq<string>, ncols: nat)
    requires IsDataHeader(lines, ncols) && ncols >= 3
    ensures ParseInt(lines[1]) == Some(ncols)
    ensures |lines| == 2 + ncols
    ensures forall j :: 1 <= j <= |SyntheticIvar(ncols)| ==>
      lines[1 + SyntheticIvar(ncols)[j - 1]] == "v" + IntToString(j)
  {
    IntToStringRoundTrip(ncols);
    var ivar := SyntheticIvar(ncols);
    forall j | 1 <= j <= |ivar|
      ensures lines[1 + ivar[j - 1]] == "v" + IntToString(j)
    {
      assert 1 + ivar[j - 1] == 4 + j;
    }
  }

  /** The data array is one whose shape gamv accepts (line 106). */
  predicate WellShaped(p: Parameters)
  {
    p.datafl.InMemory? ==> |p.datafl.shape| == 2
  }

  /** mypar['ivar'] after normalisation; its length bounds tail and head indices. */
  function EffectiveIvar(p: Parameters): seq<int>
  {
    if p.datafl.InMemory? && |p.datafl.shape| == 2 then SyntheticIvar(p.datafl.shape[1])
    else p.ivar
  }

  /** q is the copy mypar that lines 102-127 make of p. */
  predicate Normalized(p: Parameters, q: Parameters)
    requires WellShaped(p)
  {
    q.datafl == DataFile(if p.datafl.DataFile? then p.datafl.path else InputName) &&
    q.outfl == Some(if p.outfl.Some? then p.outfl.value else OutputName) &&
    (if p.datafl.InMemory?
     then q.icolx == 1 && q.icoly == 2 && q.icolz == 3
     else q.icolx == p.icolx && q.icoly == p.icoly && q.icolz == p.icolz) &&
    q.ivar == EffectiveIvar(p) &&
    q.tmin == p.tmin && q.tmax == p.tmax && q.nlag == p.nlag && q.xlag == p.xlag &&
    q.xltol == p.xltol && q.ivdir == p.ivdir && q.standardize == p.standardize && q.ivpar == p.ivpar
  }

  /** Lines 102-127: copies the parameters, gives an in-memory array the column roles
      X, Y, Z = 1, 2, 3 with every later column a variable (producing the header of the
      temporary input file), and substitutes the default names for missing file names. */
  method Prepare(parameters: Parameters) returns (res: Result<Parameters, GamvError>, inputHeader: Option<seq<string>>)
    ensures res == Err(DataNotTwoDimensional) <==> !WellShaped(parameters)
    ensures res.Ok? <==> WellShaped(parameters)
    ensures res.Ok? ==> Normalized(parameters, res.value)
    ensures inputHeader.Some? <==> res.Ok? && parameters.datafl.InMemory?
    ensures inputHeader.Some? ==> IsDataHeader(inputHeader.value, parameters.datafl.shape[1])
  {
    var mypar := parameters;
    inputHeader := None;
    if parameters.datafl.InMemory? {
      if |parameters.datafl.shape| != 2 {
        return Err(DataNotTwoDimensional), None;
      }
      var ncols := parameters.datafl.shape[1];
      mypar := mypar.(datafl := DataFile(InputName));
      mypar := mypar.(icolx := 1);
      mypar := mypar.(icoly := 2);
      mypar := mypar.(icolz := 3);
      mypar := mypar.(ivar := SyntheticIvar(ncols));
      var header := WriteDataHeader(ncols);
      inputHeader := Some(header);
    } else if parameters.datafl.NoData? {
      mypar := mypar.(datafl := DataFile(InputName));
    }
    if mypar.outfl.None? {
      mypar := mypar.(outfl := Some(OutputName));
    }
    res := Ok(mypar);
  }

  /** An indicator variogram (type 9 or 10) without a cut. */
  predicate LacksCut(v: VarSpec)
  {
    v.vtype >= 9 && v.cut.None?
  }

  /** One step of the loop at lines 139-144: the cut of a non-indicator type is dropped. */
  function NormalizeCut(v: VarSpec): VarSpec
  {
    if v.vtype < 9 then v.(cut := None) else v
  }

  /** The first row from `from` on that lacks a cut, if any. */
  function FirstLackingCut(ivpar: seq<VarSpec>, from: nat): (r: Option<nat>)
    requires from <= |ivpar|
    ensures r.Some? ==>
      from <= r.value < |ivpar| && LacksCut(ivpar[r.value]) &&
      forall j :: from <= j < r.value ==> !LacksCut(ivpar[j])
    ensures r.None? ==> forall j :: from <= j < |ivpar| ==> !LacksCut(ivpar[j])
    decreases |ivpar| - from
  {
    if from == |ivpar| then None
    else if LacksCut(ivpar[from]) then Some(from)
    else FirstLackingCut(ivpar, from + 1)
  }

  predicate TailsInRange(ivpar: seq<VarSpec>, nvar: nat)
  {
    forall i :: 0 <= i < |ivpar| ==> ivpar[i].tail <= nvar
  }

  predicate HeadsInRange(ivpar: seq<VarSpec>, nvar: nat)
  {
    forall i :: 0 <= i < |ivpar| ==> ivpar[i].head <= nvar
  }

  predicate TypesKnown(ivpar: seq<VarSpec>)
  {
    forall i :: 0 <= i < |ivpar| ==> 1 <= ivpar[i].vtype <= 10
  }

  /** Lines 136-144 as a whole: the checks in the order the source makes them, and on
      success the table with the cut of every non-indicator row set to None. */
  function CheckSpecs(ivpar: seq<VarSpec>, nvar: nat): (r: Result<seq<VarSpec>, GamvError>)
    ensures r.Ok? <==>
      (TailsInRange(ivpar, nvar) && HeadsInRange(ivpar, nvar) && TypesKnown(ivpar) &&
       forall i :: 0 <= i < |ivpar| ==> !LacksCut(ivpar[i]))
    ensures !TailsInRange(ivpar, nvar) ==> r == Err(TailIndexOutOfRange)
    ensures TailsInRange(ivpar, nvar) && !HeadsInRange(ivpar, nvar) ==> r == Err(HeadIndexOutOfRange)
    ensures TailsInRange(ivpar, nvar) && HeadsInRange(ivpar, nvar) && !TypesKnown(ivpar) ==>
      r == Err(UnknownVariogramType)
    ensures (TailsInRange(ivpar, nvar) && HeadsInRange(ivpar, nvar) && TypesKnown(ivpar) &&
             exists i :: 0 <= i < |ivpar| && LacksCut(ivpar[i])) ==>
      r.Err? && r.error.MissingCut?
    ensures r.Err? && r.error.MissingCut? ==>
      var k := r.error.index;
      k < |ivpar| && LacksCut(ivpar[k]) && forall j :: 0 <= j < k ==> !LacksCut(ivpar[j])
    ensures r.Ok? ==> |r.value| == |ivpar| && forall i :: 0 <= i < |ivpar| ==>
      r.value[i].tail == ivpar[i].tail && r.value[i].head == ivpar[i].head &&
      r.value[i].vtype == ivpar[i].vtype &&
      (ivpar[i].vtype < 9 ==> r.value[i].cut.None?) &&
      (ivpar[i].vtype >= 9 ==> r.value[i].cut.Some? && r.value[i].cut == ivpar[i].cut)
  {
    if !TailsInRange(ivpar, nvar) then Err(TailIndexOutOfRange)
    else if !HeadsInRange(ivpar, nvar) then Err(HeadIndexOutOfRange)
    else if !TypesKnown(ivpar) then Err(UnknownVariogramType)
    else match FirstLackingCut(ivpar, 0)
      case Some(k) => Err(MissingCut(k))
      case None => Ok(seq(|ivpar|, i requires 0 <= i < |ivpar| => NormalizeCut(ivpar[i])))
  }

  /** Lines 136-144 on the numpy copy of the table: the three assertions, then the loop
      that overwrites the cut of each non-indicator row in place and raises at the first
      indicator row without a cut, leaving the rows before it already overwritten. */
  method ValidateTable(ivpar: array<VarSpec>, nvar: nat) returns (err: Option<GamvError>)
    modifies ivpar
    ensures CheckSpecs(old(ivpar[..]), nvar).Ok? ==>
      err == None && ivpar[..] == CheckSpecs(old(ivpar[..]), nvar).value
    ensures CheckSpecs(old(ivpar[..]), nvar).Err? ==> err == Some(CheckSpecs(old(ivpar[..]), nvar).error)
    ensures err.Some? && err.value.MissingCut? ==>
      var k := err.value.index;
      k < ivpar.Length &&
      (forall j :: 0 <= j < k ==> ivpar[j] == NormalizeCut(old(ivpar[j]))) &&
      (forall j :: k <= j < ivpar.Length ==> ivpar[j] == old(ivpar[j]))
    ensures err.Some? && !err.value.MissingCut? ==> ivpar[..] == old(ivpar[..])
  {
    if exists i :: 0 <= i < ivpar.Length && ivpar[i].tail > nvar {
      return Some(TailIndexOutOfRange);
    }
    if exists i :: 0 <= i < ivpar.Length && ivpar[i].head > nvar {
      return Some(HeadIndexOutOfRange);
    }
    if exists i :: 0 <= i < ivpar.Length && !(1 <= ivpar[i].vtype <= 10) {
      return Some(UnknownVariogramType);
    }
    for i := 0 to ivpar.Length
      invariant forall j :: 0 <= j < i ==> ivpar[j] == NormalizeCut(old(ivpar[j])) && !LacksCut(old(ivpar[j]))
      invariant forall j :: i <= j < ivpar.Length ==> ivpar[j] == old(ivpar[j])
    {
      if ivpar[i].vtype < 9 {
        ivpar[i] := ivpar[i].(cut := None);
      } else if ivpar[i].cut.None? {
        return Some(MissingCut(i));
      }
    }
    err := None;
    assert FirstLackingCut(old(ivpar[..]), 0).None?;
  }
}
