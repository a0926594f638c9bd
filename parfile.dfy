/** The parameter file handed to the engine (sandbox/gamv.py, lines 13-35 and 148-157):
    a fixed template with one field, or one block of table rows, per line, and a reader
    that takes the fields back by position, as the engine does. */
module ParFile {
  import opened Wrappers
  import opened Text
  import opened GamvConfig

  /** The cut column: a missing cut is printed as pandas prints None. */
  function CutToken(cut: Option<real>, fmt: real -> string): string
  {
    match cut
    case None => "None"
    case Some(c) => fmt(c)
  }

  /** The four cells of one row of the variogram table. */
  function VarRowTokens(v: VarSpec, fmt: real -> string): seq<string>
  {
    [IntToString(v.tail), IntToString(v.head), IntToString(v.vtype), CutToken(v.cut, fmt)]
  }

  /** The six cells of one row of the direction table. */
  function DirRowTokens(d: Direction, fmt: real -> string): seq<string>
  {
    [fmt(d.azm), fmt(d.atol), fmt(d.bandh), fmt(d.dip), fmt(d.dtol), fmt(d.bandv)]
  }

  function VarRows(ivpar: seq<VarSpec>, fmt: real -> string): (rows: seq<seq<string>>)
    ensures |rows| == |ivpar|
  {
    seq(|ivpar|, k requires 0 <= k < |ivpar| => VarRowTokens(ivpar[k], fmt))
  }

  function DirRows(ivdir: seq<Direction>, fmt: real -> string): (rows: seq<seq<string>>)
    ensures |rows| == |ivdir|
  {
    seq(|ivdir|, k requires 0 <= k < |ivdir| => DirRowTokens(ivdir[k], fmt))
  }

  /** mypar['ivar_'] (line 149): the variable columns joined by single blanks. */
  function IvarText(ivar: seq<int>): string
  {
    Join(IntTokens(ivar), " ")
  }

  /** A table printed without index and header (lines 152 and 155), up to the column
      padding: one line per row, its cells separated by blanks. */
  function TableLines(rows: seq<seq<string>>): (lines: seq<string>)
    ensures |lines| == |rows|
  {
    seq(|rows|, k requires 0 <= k < |rows| => Join(rows[k], " "))
  }

  /** A template line whose placeholder expands to several lines: the rest of the
      template line follows the last of them. */
  function BlockLines(rows: seq<string>, rest: string): seq<string>
  {
    if rows == [] then [rest] else rows[..|rows| - 1] + [rows[|rows| - 1] + rest]
  }

  /** n blanks. */
  function Blanks(n: nat): (b: string)
    ensures |b| == n && forall k :: 0 <= k < n ==> b[k] == ' '
  {
    seq(n, _ => ' ')
  }

  /** A template line: its fields separated by single blanks, then the padding and the
      comment the template carries after them. */
  function TemplateLine(fields: seq<string>, gap: nat, comment: string): string
  {
    Join(fields, " ") + Blanks(gap) + comment
  }

  const DirRest: string := Blanks(26) + "-azm,atol,bandh,dip,dtol,bandv (array with shape [ndir,6])"
  const VarRest: string := Blanks(26) + "-tail, head, variogram type, cut (array with shape [nvarg,4])"

  /** Lines 13-26 of the template (the title, then one field per line up to the
      number of directions), filled in from mypar. */
  function HeadLines(mypar: Parameters, fmt: real -> string): seq<string>
    requires mypar.datafl.DataFile? && mypar.outfl.Some?
  {
    [ "                  Parameters for GAMV",
      "                  *******************",
      "",
      "START OF PARAMETERS:",
      TemplateLine([mypar.datafl.path], 26, "-file with data"),
      TemplateLine([IntToString(mypar.icolx), IntToString(mypar.icoly), IntToString(mypar.icolz)], 11,
                   "-   columns for X, Y, Z coordinates"),
      TemplateLine([IntToString(|mypar.ivar|), IvarText(mypar.ivar)], 20, "- number of variables: column numbers"),
      TemplateLine([fmt(mypar.tmin), fmt(mypar.tmax)], 21, "- trimming limits"),
      TemplateLine([mypar.outfl.value], 27, "-file for variogram output"),
      TemplateLine([IntToString(mypar.nlag)], 28, "-number of lags"),
      TemplateLine([fmt(mypar.xlag)], 28, "-lag separation distance"),
      TemplateLine([fmt(mypar.xltol)], 27, "-lag tolerance"),
      TemplateLine([IntToString(|mypar.ivdir|)], 28, "-number of directions") ]
  }

  /** Lines 28-29 of the template: the standardize flag and the number of variograms. */
  function MiddleLines(standardize: int, nvarg: nat): seq<string>
  {
    [ TemplateLine([IntToString(standardize)], 21, "-standardize sill? (0=no, 1=yes)"),
      TemplateLine([IntToString(nvarg)], 27, "-number of variograms") ]
  }

  const TailLines: seq<string> := ["", "", "cut[i] is only required if ivtype[i] == 9 or == 10", ""]

  /** The text of lines 13-35 with the fields of mypar and the validated table filled
      in (line 157), one string per line; fmt is how the caller's floats are printed. */
  function ParFileLines(mypar: Parameters, ivpar: seq<VarSpec>, fmt: real -> string): seq<string>
    requires mypar.datafl.DataFile? && mypar.outfl.Some?
  {
    HeadLines(mypar, fmt)
    + BlockLines(TableLines(DirRows(mypar.ivdir, fmt)), DirRest)
    + MiddleLines(mypar.standardize, |ivpar|)
    + BlockLines(TableLines(VarRows(ivpar, fmt)), VarRest)
    + TailLines
  }

  /** What a positional reader takes back from the file: the variable columns, and the
      leading cells of each direction row and each variogram row. */
  datatype ParSummary = ParSummary(ivar: seq<int>, directions: seq<seq<string>>, variograms: seq<seq<string>>)

  /** The count at the head of a line. */
  function ReadCount(line: string): Option<nat>
  {
    var w := Words(line);
    if |w| == 0 then None
    else match ParseInt(w[0])
      case Some(n) => if n >= 0 then Some(n) else None
      case None => None
  }

  /** The first width tokens of every line; None if a line has fewer. */
  function ReadRows(lines: seq<string>, width: nat): Option<seq<seq<string>>>
  {
    if lines == [] then Some([])
    else
      var w := Words(lines[0]);
      if |w| < width then None
      else match ReadRows(lines[1..], width)
        case None => None
        case Some(rest) => Some([w[..width]] + rest)
  }

  /** Reads a parameter file by position: the variable count and columns on line 6, the
      direction count on line 12 followed by that many direction rows, then the
      standardize line, the variogram count and that many variogram rows. */
  function ReadBack(lines: seq<string>): Option<ParSummary>
  {
    if |lines| < 13 || ReadCount(lines[6]).None? || ReadCount(lines[12]).None? then None
    else
      var w, nvar, ndir := Words(lines[6]), ReadCount(lines[6]).value, ReadCount(lines[12]).value;
      if |w| < 1 + nvar || ParseInts(w[1..1 + nvar]).None? then None
      else if |lines| < 15 + ndir || ReadRows(lines[13..13 + ndir], 6).None? then None
      else if ReadCount(lines[14 + ndir]).None? then None
      else
        var nvarg := ReadCount(lines[14 + ndir]).value;
        if |lines| < 15 + ndir + nvarg || ReadRows(lines[15 + ndir..15 + ndir + nvarg], 4).None? then None
        else Some(ParSummary(ParseInts(w[1..1 + nvar]).value, ReadRows(lines[13..13 + ndir], 6).value,
                             ReadRows(lines[15 + ndir..15 + ndir + nvarg], 4).value))
  }

  /** The tokens of a blank-joined list, a blank, then more text. */
  lemma WordsJoinBlank(ts: seq<string>, s: string)
    requires forall k :: 0 <= k < |ts| ==> IsToken(ts[k])
    ensures Words(Join(ts, " ") + " " + s) == ts + Words(s)
  {
    WordsSplit(Join(ts, " "), s);
    WordsOfJoin(ts);
  }

  /** The tokens of a template line whose fields are tokens. */
  lemma WordsOfTemplateLine(fields: seq<string>, gap: nat, comment: string)
    requires gap > 0 && forall k :: 0 <= k < |fields| ==> IsToken(fields[k])
    ensures |Words(TemplateLine(fields, gap, comment))| >= |fields|
    ensures Words(TemplateLine(fields, gap, comment))[..|fields|] == fields
  {
    var rest := Blanks(gap - 1) + comment;
    assert Blanks(gap) == " " + Blanks(gap - 1);
    assert TemplateLine(fields, gap, comment) == Join(fields, " ") + " " + rest;
    WordsJoinBlank(fields, rest);
  }

  /** ReadRows takes the first width tokens of every line when every line has that many. */
  lemma {:induction false} ReadRowsAt(lines: seq<string>, width: nat)
    requires forall k :: 0 <= k < |lines| ==> |Words(lines[k])| >= width
    ensures ReadRows(lines, width).Some? && |ReadRows(lines, width).value| == |lines|
    ensures forall k :: 0 <= k < |lines| ==> ReadRows(lines, width).value[k] == Words(lines[k])[..width]
  {
    if lines != [] {
      ReadRowsAt(lines[1..], width);
      var rest := ReadRows(lines[1..], width).value;
      assert |Words(lines[0])| >= width;
      assert ReadRows(lines, width) == Some([Words(lines[0])[..width]] + rest);
      forall k | 0 < k < |lines|
        ensures rest[k - 1] == Words(lines[k])[..width]
      {
        assert lines[1..][k - 1] == lines[k];
      }
    }
  }

  /** The rows of a table block read back as the rows that were printed. */
  lemma ReadBlock(rows: seq<seq<string>>, width: nat, rest: string)
    requires |rows| >= 1 && rest != [] && rest[0] == ' '
    requires forall k :: 0 <= k < |rows| ==>
      |rows[k]| == width && forall j :: 0 <= j < width ==> IsToken(rows[k][j])
    ensures ReadRows(BlockLines(TableLines(rows), rest), width) == Some(rows)
  {
    var lines := BlockLines(TableLines(rows), rest);
    assert |lines| == |rows|;
    forall k | 0 <= k < |rows|
      ensures |Words(lines[k])| >= width && Words(lines[k])[..width] == rows[k]
    {
      if k == |rows| - 1 {
        assert rest == " " + rest[1..];
        assert lines[k] == Join(rows[k], " ") + " " + rest[1..];
        WordsJoinBlank(rows[k], rest[1..]);
      } else {
        WordsOfJoin(rows[k]);
      }
    }
    ReadRowsAt(lines, width);
    assert ReadRows(lines, width).value == rows;
  }

  /** The variable line reads back as the count of variables followed by the columns. */
  lemma VariableLine(ivar: seq<int>, gap: nat, comment: string)
    requires gap > 0
    ensures var line := TemplateLine([IntToString(|ivar|), IvarText(ivar)], gap, comment);
      ReadCount(line) == Some(|ivar|) && |Words(line)| >= 1 + |ivar| &&
      ParseInts(Words(line)[1..1 + |ivar|]) == Some(ivar)
  {
    var line := TemplateLine([IntToString(|ivar|), IvarText(ivar)], gap, comment);
    var nvarTok, tokens := IntToString(|ivar|), IntTokens(ivar);
    var rest := Blanks(gap - 1) + comment;
    assert Join([nvarTok, IvarText(ivar)], " ") == nvarTok + " " + IvarText(ivar) by {
      assert [nvarTok, IvarText(ivar)][1..] == [IvarText(ivar)];
    }
    assert Blanks(gap) + comment == " " + rest by {
      assert Blanks(gap) == " " + Blanks(gap - 1);
    }
    assert line == nvarTok + " " + (IvarText(ivar) + " " + rest);
    WordsJoinBlank(tokens, rest);
    WordsSplit(nvarTok, IvarText(ivar) + " " + rest);
    WordsOfJoin([nvarTok]);
    assert Words(line) == [nvarTok] + tokens + Words(rest);
    IntToStringRoundTrip(|ivar|);
    assert Words(line)[1..1 + |ivar|] == tokens;
    IntTokensRoundTrip(ivar);
  }

  /** A count line reads back as its count. */
  lemma CountLine(n: nat, gap: nat, comment: string)
    requires gap > 0
    ensures ReadCount(TemplateLine([IntToString(n)], gap, comment)) == Some(n)
  {
    WordsOfTemplateLine([IntToString(n)], gap, comment);
    IntToStringRoundTrip(n);
  }

  /** The tail, head and type cells of a variogram row read back as the numbers. */
  lemma VarRowIntegers(v: VarSpec, fmt: real -> string)
    ensures ParseInts(VarRowTokens(v, fmt)[..3]) == Some([v.tail, v.head, v.vtype])
  {
    assert VarRowTokens(v, fmt)[..3] == IntTokens([v.tail, v.head, v.vtype]);
    IntTokensRoundTrip([v.tail, v.head, v.vtype]);
  }

  /** Every cell of the variogram table is a token when fmt prints tokens. */
  lemma VarRowsAreTokens(ivpar: seq<VarSpec>, fmt: real -> string)
    requires forall x: real :: IsToken(fmt(x))
    ensures forall k :: 0 <= k < |ivpar| ==>
      |VarRows(ivpar, fmt)[k]| == 4 && forall j :: 0 <= j < 4 ==> IsToken(VarRows(ivpar, fmt)[k][j])
  {
    assert IsToken("None") by {
      assert "None" == ['N', 'o', 'n', 'e'];
    }
  }

  /** Every cell of the direction table is a token when fmt prints tokens. */
  lemma DirRowsAreTokens(ivdir: seq<Direction>, fmt: real -> string)
    requires forall x: real :: IsToken(fmt(x))
    ensures forall k :: 0 <= k < |ivdir| ==>
      |DirRows(ivdir, fmt)[k]| == 6 && forall j :: 0 <= j < 6 ==> IsToken(DirRows(ivdir, fmt)[k][j])
  {
  }

  /** ReadBack succeeds on any file whose count lines and rows read as given. */
  lemma ReadBackOf(lines: seq<string>, ivar: seq<int>, dirs: seq<seq<string>>, vars: seq<seq<string>>)
    requires |lines| >= 15 + |dirs| + |vars|
    requires ReadCount(lines[6]) == Some(|ivar|) && |Words(lines[6])| >= 1 + |ivar|
    requires ParseInts(Words(lines[6])[1..1 + |ivar|]) == Some(ivar)
    requires ReadCount(lines[12]) == Some(|dirs|)
    requires ReadRows(lines[13..13 + |dirs|], 6) == Some(dirs)
    requires ReadCount(lines[14 + |dirs|]) == Some(|vars|)
    requires ReadRows(lines[15 + |dirs|..15 + |dirs| + |vars|], 4) == Some(vars)
    ensures ReadBack(lines) == Some(ParSummary(ivar, dirs, vars))
  {
  }

  /** Any file laid out as the template lays it out, whatever its comments and padding,
      reads back as the variable columns and the rows of its two table blocks. */
  lemma ReadBackLayout(lines: seq<string>, ivar: seq<int>, dirs: seq<seq<string>>, vars: seq<seq<string>>,
                       gaps: seq<nat>, comments: seq<string>, dirRest: string, varRest: string)
    requires |gaps| == 3 && |comments| == 3 && gaps[0] > 0 && gaps[1] > 0 && gaps[2] > 0
    requires dirRest != [] && dirRest[0] == ' ' && varRest != [] && varRest[0] == ' '
    requires |dirs| >= 1 && forall k :: 0 <= k < |dirs| ==>
      |dirs[k]| == 6 && forall j :: 0 <= j < 6 ==> IsToken(dirs[k][j])
    requires |vars| >= 1 && forall k :: 0 <= k < |vars| ==>
      |vars[k]| == 4 && forall j :: 0 <= j < 4 ==> IsToken(vars[k][j])
    requires |lines| >= 15 + |dirs| + |vars|
    requires lines[6] == TemplateLine([IntToString(|ivar|), IvarText(ivar)], gaps[0], comments[0])
    requires lines[12] == TemplateLine([IntToString(|dirs|)], gaps[1], comments[1])
    requires lines[14 + |dirs|] == TemplateLine([IntToString(|vars|)], gaps[2], comments[2])
    requires lines[13..13 + |dirs|] == BlockLines(TableLines(dirs), dirRest)
    requires lines[15 + |dirs|..15 + |dirs| + |vars|] == BlockLines(TableLines(vars), varRest)
    ensures ReadBack(lines) == Some(ParSummary(ivar, dirs, vars))
  {
    VariableLine(ivar, gaps[0], comments[0]);
    CountLine(|dirs|, gaps[1], comments[1]);
    CountLine(|vars|, gaps[2], comments[2]);
    ReadBlock(dirs, 6, dirRest);
    ReadBlock(vars, 4, varRest);
    ReadBackOf(lines, ivar, dirs, vars);
  }

  /** Where the counts, the variable line and the two table blocks stand in the file. */
  lemma ParFileLayout(mypar: Parameters, ivpar: seq<VarSpec>, fmt: real -> string)
    requires mypar.datafl.DataFile? && mypar.outfl.Some?
    ensures var lines, ndir, nvarg := ParFileLines(mypar, ivpar, fmt), |mypar.ivdir|, |ivpar|;
      |lines| == 13 + |BlockLines(TableLines(DirRows(mypar.ivdir, fmt)), DirRest)| + 2 +
                 |BlockLines(TableLines(VarRows(ivpar, fmt)), VarRest)| + 4 &&
      lines[6] == TemplateLine([IntToString(|mypar.ivar|), IvarText(mypar.ivar)], 20,
                               "- number of variables: column numbers") &&
      lines[12] == TemplateLine([IntToString(ndir)], 28, "-number of directions") &&
      (ndir >= 1 ==>
        lines[14 + ndir] == TemplateLine([IntToString(nvarg)], 27, "-number of variograms") &&
        lines[13..13 + ndir] == BlockLines(TableLines(DirRows(mypar.ivdir, fmt)), DirRest) &&
        (nvarg >= 1 ==>
          lines[15 + ndir..15 + ndir + nvarg] == BlockLines(TableLines(VarRows(ivpar, fmt)), VarRest)))
  {
    var nvarg := |ivpar|;
    var head, middle := HeadLines(mypar, fmt), MiddleLines(mypar.standardize, nvarg);
    var dirBlock := BlockLines(TableLines(DirRows(mypar.ivdir, fmt)), DirRest);
    var varBlock := BlockLines(TableLines(VarRows(ivpar, fmt)), VarRest);
    Concat5(head, dirBlock, middle, varBlock, TailLines);
  }

  /** Positions in a file made of five consecutive parts. */
  lemma Concat5<T>(a: seq<T>, b: seq<T>, c: seq<T>, d: seq<T>, e: seq<T>)
    requires |a| == 13 && |c| == 2 && |e| == 4
    ensures var l := a + b + c + d + e;
      |l| == 19 + |b| + |d| && l[6] == a[6] && l[12] == a[12] && l[14 + |b|] == c[1] &&
      l[13..13 + |b|] == b && l[15 + |b|..15 + |b| + |d|] == d
  {
  }

  /** Round trip of the rendering: read back by position, the file gives the variable
      columns, one direction row per direction and one variogram row per variogram, each
      with its cells in field order; the integer cells read back as the numbers. */
  lemma ParFileRoundTrip(mypar: Parameters, ivpar: seq<VarSpec>, fmt: real -> string)
    requires mypar.datafl.DataFile? && mypar.outfl.Some?
    requires |mypar.ivdir| >= 1 && |ivpar| >= 1
    requires forall x: real :: IsToken(fmt(x))
    ensures ReadBack(ParFileLines(mypar, ivpar, fmt)) ==
      Some(ParSummary(mypar.ivar, DirRows(mypar.ivdir, fmt), VarRows(ivpar, fmt)))
    ensures forall k :: 0 <= k < |ivpar| ==>
      ParseInts(VarRows(ivpar, fmt)[k][..3]) == Some([ivpar[k].tail, ivpar[k].head, ivpar[k].vtype])
  {
    var dirs, vars := DirRows(mypar.ivdir, fmt), VarRows(ivpar, fmt);
    ParFileLayout(mypar, ivpar, fmt);
    DirRowsAreTokens(mypar.ivdir, fmt);
    VarRowsAreTokens(ivpar, fmt);
    ReadBackLayout(ParFileLines(mypar, ivpar, fmt), mypar.ivar, dirs, vars, [20, 28, 27],
      ["- number of variables: column numbers", "-number of directions", "-number of variograms"],
      DirRest, VarRest);
    forall k | 0 <= k < |ivpar|
      ensures ParseInts(vars[k][..3]) == Some([ivpar[k].tail, ivpar[k].head, ivpar[k].vtype])
    {
      VarRowIntegers(ivpar[k], fmt);
    }
  }
}
