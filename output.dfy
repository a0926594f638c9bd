/** Turning the engine's output file into the result table (sandbox/gamv.py, lines
    181-227): the positions of the per-block header lines, the column schema, the key
    columns recovered from row positions, the metadata join and the cleanup pass. */
module GamvOutput {
  import opened Wrappers
  import opened NumSeq
  import opened GamvConfig

  /** A numeric cell as the table holds it: a value, or None for a missing value (NaN). */
  type Cell = Option<real>

  /** The two extra columns 'variance tail' and 'variance head'. */
  datatype Variances = Variances(tail: Cell, head: Cell)

  /** One data line under the column names of lines 193-211; variances is present exactly
      when the wide schema was chosen. */
  datatype Record = Record(
    lag: Cell, avgSep: Cell, varFunct: Cell, pairs: Cell, meanTail: Cell, meanHead: Cell,
    variances: Option<Variances>)

  /** One row of the result table: the record, the key columns Variogram and Direction,
      and the metadata columns tail, head, type and cut. */
  datatype Row = Row(stats: Record, variogram: int, direction: int, meta: VarSpec)

  /** The list `ignore` of line 186: numpy.arange(0, nvarg*ndir*L + ndir*nvarg, L + 1)
      with L = nlag + 2 data lines per block. */
  function SkipRows(nvarg: nat, ndir: nat, nlag: nat): seq<int>
  {
    var L := nlag + 2;
    Arange(0, nvarg * ndir * L + ndir * nvarg, L + 1)
  }

  /** numpy.arange(0, B*H, H) lists the B multiples of H below B*H. */
  lemma ArangeMultiples(B: nat, H: nat)
    requires H > 0
    ensures |Arange(0, B * H, H)| == B
    ensures forall k :: 0 <= k < B ==> Arange(0, B * H, H)[k] == k * H
    ensures forall i :: 0 <= i < B * H ==> (i in Arange(0, B * H, H) <==> i % H == 0)
  {
    var s := Arange(0, B * H, H);
    ArangeAt(0, B * H, H);
    if B > 0 {
      MulSub(B, 1, H);
    }
    ArangeLength(0, B * H, H, B);
    forall i | 0 <= i < B * H
      ensures i in s <==> i % H == 0
    {
      if i % H == 0 {
        MultipleIndex(i, B, H);
        assert s[i / H] == i;
      }
      if i in s {
        var k :| 0 <= k < |s| && s[k] == i;
        DivModUnique(i, H, k, 0);
      }
    }
  }

  /** A multiple of H below B*H is k*H for some k below B. */
  lemma MultipleIndex(i: nat, B: nat, H: nat)
    requires H > 0 && i < B * H && i % H == 0
    ensures 0 <= i / H < B && i == (i / H) * H
  {
    var k := i / H;
    if k >= B {
      MulMono(B, k, H);
    }
  }

  /** The skip list has one entry per (variogram, direction) block, the k-th at k*(L+1):
      exactly the first line of every block of 1 + L lines. */
  lemma SkipRowsLayout(nvarg: nat, ndir: nat, nlag: nat)
    ensures |SkipRows(nvarg, ndir, nlag)| == nvarg * ndir
    ensures forall k :: 0 <= k < nvarg * ndir ==> SkipRows(nvarg, ndir, nlag)[k] == k * (nlag + 3)
    ensures forall i :: 0 <= i < nvarg * ndir * (nlag + 3) ==>
      (i in SkipRows(nvarg, ndir, nlag) <==> i % (nlag + 3) == 0)
  {
    var B, L := nvarg * ndir, nlag + 2;
    assert nvarg * ndir * L + ndir * nvarg == B * (L + 1) by {
      assert B * (L + 1) == B * L + B;
    }
    ArangeMultiples(B, L + 1);
  }

  /** The lines of a file whose positions are not in skip: read_csv's skiprows. */
  function DropRows<T>(lines: seq<T>, skip: seq<int>): seq<T>
  {
    if lines == [] then []
    else DropRows(lines[..|lines| - 1], skip) + (if |lines| - 1 in skip then [] else [lines[|lines| - 1]])
  }

  /** How many of the first n lines are data lines, in blocks of one header line and L
      data lines. */
  function KeptCount(n: nat, L: nat): nat
    requires L >= 1
  {
    (n / (L + 1)) * L + (if n % (L + 1) == 0 then 0 else n % (L + 1) - 1)
  }

  /** The position in the file of data line r: line r mod L of block r div L, after the
      block's header line. */
  function DataLine(r: nat, L: nat): nat
    requires L >= 1
  {
    (r / L) * (L + 1) + 1 + r % L
  }

  /** Line n-1 is kept exactly when it is not a block header, and then it is the data
      line numbered by the count before it. */
  lemma KeptStep(n: nat, L: nat)
    requires n >= 1 && L >= 1
    ensures KeptCount(n, L) == KeptCount(n - 1, L) + (if (n - 1) % (L + 1) == 0 then 0 else 1)
    ensures (n - 1) % (L + 1) != 0 ==> DataLine(KeptCount(n - 1, L), L) == n - 1
  {
    var H := L + 1;
    var q, m := (n - 1) / H, (n - 1) % H;
    DivModUnique(n - 1, H, q, m);
    if m == 0 {
      DivModUnique(n, H, q, 1);
    } else {
      if m + 1 < H {
        DivModUnique(n, H, q, m + 1);
      } else {
        DivModUnique(n, H, q + 1, 0);
        assert (q + 1) * L == q * L + L;
      }
      DivModUnique(q * L + (m - 1), L, q, m - 1);
    }
  }

  /** Dropping the first line of every block of L + 1 lines from the first n lines:
      what remains is, in order, the data lines. */
  lemma {:induction false} DropBlockHeaders<T>(lines: seq<T>, skip: seq<int>, L: nat, n: nat)
    requires L >= 1 && n <= |lines|
    requires forall i :: 0 <= i < |lines| ==> (i in skip <==> i % (L + 1) == 0)
    ensures |DropRows(lines[..n], skip)| == KeptCount(n, L)
    ensures forall r :: 0 <= r < KeptCount(n, L) ==>
      DataLine(r, L) < n && DropRows(lines[..n], skip)[r] == lines[DataLine(r, L)]
  {
    if n == 0 {
      assert lines[..0] == [];
    } else {
      DropBlockHeaders(lines, skip, L, n - 1);
      KeptStep(n, L);
      assert lines[..n][..n - 1] == lines[..n - 1];
    }
  }

  /** The output of nvarg*ndir blocks, each a header line and L data lines, with the lines
      of the skip list dropped: exactly the nvarg*ndir*L data lines, in order. */
  lemma {:induction false} HeaderFreeData<T>(lines: seq<T>, nvarg: nat, ndir: nat, nlag: nat)
    requires |lines| == nvarg * ndir * (nlag + 3)
    ensures |DropRows(lines, SkipRows(nvarg, ndir, nlag))| == nvarg * ndir * (nlag + 2)
    ensures forall r :: 0 <= r < |DropRows(lines, SkipRows(nvarg, ndir, nlag))| ==>
      DataLine(r, nlag + 2) < |lines| &&
      DropRows(lines, SkipRows(nvarg, ndir, nlag))[r] == lines[DataLine(r, nlag + 2)]
  {
    var B, L := nvarg * ndir, nlag + 2;
    assert |lines| == B * (L + 1);
    SkipRowsLayout(nvarg, ndir, nlag);
    DropBlockHeaders(lines, SkipRows(nvarg, ndir, nlag), L, |lines|);
    assert lines[..|lines|] == lines;
    KeptAll(B, L);
    assert KeptCount(|lines|, L) == nvarg * ndir * (nlag + 2);
  }

  /** B whole blocks hold B*L data lines. */
  lemma KeptAll(B: nat, L: nat)
    requires L >= 1
    ensures KeptCount(B * (L + 1), L) == B * L
  {
    DivModUnique(B * (L + 1), L + 1, B, 0);
  }

  /** Line 188: the wide schema, with the two variance columns, is chosen for every row
      when any variogram is of type 4. */
  predicate HasVarianceColumns(ivpar: seq<VarSpec>)
  {
    exists i :: 0 <= i < |ivpar| && ivpar[i].vtype == 4
  }

  /** Cell k of a parsed line; a missing trailing cell reads as missing. */
  function CellAt(cells: seq<Cell>, k: nat): Cell
  {
    if k < |cells| then cells[k] else None
  }

  /** A parsed data line under the chosen column names. */
  function ToRecord(cells: seq<Cell>, wide: bool): Record
  {
    Record(CellAt(cells, 0), CellAt(cells, 1), CellAt(cells, 2), CellAt(cells, 3), CellAt(cells, 4), CellAt(cells, 5),
           if wide then Some(Variances(CellAt(cells, 6), CellAt(cells, 7))) else None)
  }

  /** Every kept line under the chosen column names. */
  function ReadRecords(lines: seq<seq<Cell>>, wide: bool): seq<Record>
  {
    seq(|lines|, k requires 0 <= k < |lines| => ToRecord(lines[k], wide))
  }

  /** The column Variogram of line 213: numpy.repeat(range(nvarg), ndir*L). */
  function VariogramColumn(nvarg: nat, ndir: nat, L: nat): (c: seq<int>)
    ensures |c| == nvarg * ndir * L
  {
    RepeatLength(Range(nvarg), ndir * L);
    Repeat(Range(nvarg), ndir * L)
  }

  /** The column Direction of line 214: numpy.tile(numpy.repeat(range(ndir), L), nvarg). */
  function DirectionColumn(nvarg: nat, ndir: nat, L: nat): (c: seq<int>)
    ensures |c| == nvarg * ndir * L
  {
    TileRepeatLength(Range(ndir), L, nvarg);
    Tile(Repeat(Range(ndir), L), nvarg)
  }

  /** Quotients of a row position by the block sizes. */
  lemma RowPosition(r: nat, ndir: nat, L: nat)
    requires ndir > 0 && L > 0
    ensures r / (ndir * L) == (r / L) / ndir
    ensures (r % (ndir * L)) / L == (r / L) % ndir
  {
    var p, u := r / L, r % L;
    var s, t := p / ndir, p % ndir;
    assert r == s * (ndir * L) + (t * L + u) by {
      assert r == p * L + u;
      assert p == s * ndir + t;
      assert p * L == s * (ndir * L) + t * L by {
        assert (s * ndir + t) * L == s * ndir * L + t * L;
      }
    }
    assert t * L + u < ndir * L by {
      MulMono(t, ndir - 1, L);
      MulSub(ndir, 1, L);
    }
    DivModUnique(r, ndir * L, s, t * L + u);
    DivModUnique(t * L + u, L, t, u);
  }

  /** The column Variogram at one row position. */
  lemma VariogramAt(nvarg: nat, ndir: nat, L: nat, r: nat)
    requires r < nvarg * ndir * L
    ensures VariogramColumn(nvarg, ndir, L)[r] == r / (ndir * L) < nvarg
  {
    MulAssoc(nvarg, ndir, L);
    RepeatRangeAt(nvarg, ndir * L, r);
  }

  /** The column Direction at one row position. */
  lemma DirectionAt(nvarg: nat, ndir: nat, L: nat, r: nat)
    requires r < nvarg * ndir * L
    ensures DirectionColumn(nvarg, ndir, L)[r] == (r / L) % ndir < ndir
  {
    var m, ds := ndir * L, Range(ndir);
    var inner := Repeat(ds, L);
    assert ndir > 0 && L > 0;
    RepeatLength(ds, L);
    assert r < |inner| * nvarg;
    TileIndex(inner, nvarg, r);
    var j := r % m;
    QuotientBound(j, ndir, L);
    RepeatIndex(ds, L, j);
    RowPosition(r, ndir, L);
  }

  /** Row r of nvarg*ndir*L data rows belongs to variogram r div (ndir*L) and to direction
      (r div L) mod ndir, both in range. */
  lemma KeyColumns(nvarg: nat, ndir: nat, L: nat)
    ensures forall r :: 0 <= r < nvarg * ndir * L ==>
      0 <= VariogramColumn(nvarg, ndir, L)[r] == r / (ndir * L) < nvarg &&
      0 <= DirectionColumn(nvarg, ndir, L)[r] == (r / L) % ndir < ndir
  {
    forall r | 0 <= r < nvarg * ndir * L
      ensures 0 <= VariogramColumn(nvarg, ndir, L)[r] == r / (ndir * L) < nvarg
      ensures 0 <= DirectionColumn(nvarg, ndir, L)[r] == (r / L) % ndir < ndir
    {
      VariogramAt(nvarg, ndir, L, r);
      DirectionAt(nvarg, ndir, L, r);
    }
  }

  /** Row r lies in the j-th run of L rows exactly when r div L is j. */
  lemma RunOf(r: nat, L: nat, j: int)
    requires L > 0
    ensures r / L == j <==> j * L <= r < (j + 1) * L
  {
    if j * L <= r < (j + 1) * L {
      DivModUnique(r, L, j, r - j * L);
    }
    if r / L == j {
      assert (j + 1) * L == j * L + L;
    }
  }

  /** Quotient and remainder by n determine the number. */
  lemma QuotRem(p: int, n: int, v: int, d: int)
    requires n > 0 && 0 <= d < n
    ensures p / n == v && p % n == d <==> p == v * n + d
  {
    if p == v * n + d {
      DivModUnique(p, n, v, d);
    }
  }

  /** Each (variogram, direction) pair owns exactly L consecutive rows: those from
      (v*ndir + d)*L on. */
  lemma KeyBlock(nvarg: nat, ndir: nat, L: nat, r: nat, v: nat, d: nat)
    requires r < nvarg * ndir * L && d < ndir
    ensures VariogramColumn(nvarg, ndir, L)[r] == v && DirectionColumn(nvarg, ndir, L)[r] == d
      <==> (v * ndir + d) * L <= r < (v * ndir + d + 1) * L
  {
    VariogramAt(nvarg, ndir, L, r);
    DirectionAt(nvarg, ndir, L, r);
    RowPosition(r, ndir, L);
    QuotRem(r / L, ndir, v, d);
    RunOf(r, L, v * ndir + d);
  }

  /** The lines behind the data frame once line 213 has given it its rows: the lines
      read_csv kept or, when it kept none, n lines of missing values, because pandas gives
      a frame without rows the index of the first column assigned to it. */
  function FrameLines(kept: seq<seq<Cell>>, n: nat): seq<seq<Cell>>
  {
    if |kept| == 0 then seq(n, k => []) else kept
  }

  /** Lines 213-218: the key columns from the row positions and the metadata columns at
      their initial values. pandas refuses key columns whose length is not the number of
      rows read, unless no row was read: then the frame takes the keys' nvarg*ndir*L rows,
      every statistic missing. */
  function BuildRows(records: seq<Record>, wide: bool, nvarg: nat, ndir: nat, L: nat): (r: Result<seq<Row>, GamvError>)
    ensures r.Err? <==> |records| != 0 && |records| != nvarg * ndir * L
    ensures r.Err? ==> r.error == RowCountMismatch(nvarg * ndir * L, |records|)
    ensures r.Ok? ==> |r.value| == nvarg * ndir * L && forall k :: 0 <= k < |r.value| ==>
      r.value[k].stats == (if |records| == 0 then ToRecord([], wide) else records[k]) &&
      r.value[k].variogram == k / (ndir * L) && 0 <= r.value[k].variogram < nvarg &&
      r.value[k].direction == (k / L) % ndir && 0 <= r.value[k].direction < ndir &&
      r.value[k].meta == VarSpec(0, 0, 0, None)
  {
    var n := nvarg * ndir * L;
    if |records| != 0 && |records| != n then Err(RowCountMismatch(n, |records|))
    else
      KeyColumns(nvarg, ndir, L);
      var vc, dc := VariogramColumn(nvarg, ndir, L), DirectionColumn(nvarg, ndir, L);
      var stats := if |records| == 0 then seq(n, k => ToRecord([], wide)) else records;
      Ok(seq(n, k requires 0 <= k < n => Row(stats[k], vc[k], dc[k], VarSpec(0, 0, 0, None))))
  }

  /** A row with the metadata of its variogram, when the table has one. */
  function WithMetadata(row: Row, ivpar: seq<VarSpec>): Row
  {
    if 0 <= row.variogram < |ivpar| then row.(meta := ivpar[row.variogram]) else row
  }

  /** Lines 219-223: for each variogram i, the rows whose Variogram is i get tail, head,
      type and cut of row i of the table. */
  method JoinMetadata(vg: array<Row>, ivpar: seq<VarSpec>)
    modifies vg
    ensures forall k :: 0 <= k < vg.Length ==> vg[k] == WithMetadata(old(vg[k]), ivpar)
  {
    for i := 0 to |ivpar|
      invariant forall k :: 0 <= k < vg.Length ==>
        vg[k] == if 0 <= old(vg[k]).variogram < i then WithMetadata(old(vg[k]), ivpar) else old(vg[k])
    {
      for k := 0 to vg.Length
        invariant forall j :: 0 <= j < k ==>
          vg[j] == if 0 <= old(vg[j]).variogram <= i then WithMetadata(old(vg[j]), ivpar) else old(vg[j])
        invariant forall j :: k <= j < vg.Length ==>
          vg[j] == if 0 <= old(vg[j]).variogram < i then WithMetadata(old(vg[j]), ivpar) else old(vg[j])
      {
        if vg[k].variogram == i {
          vg[k] := vg[k].(meta := vg[k].meta.(tail := ivpar[i].tail));
          vg[k] := vg[k].(meta := vg[k].meta.(head := ivpar[i].head));
          vg[k] := vg[k].(meta := vg[k].meta.(vtype := ivpar[i].vtype));
          vg[k] := vg[k].(meta := vg[k].meta.(cut := ivpar[i].cut));
        }
      }
    }
  }

  /** The key and metadata columns of rows: L lags per direction and ndir directions per
      variogram, keyed by position, with the metadata of the variogram's row of ivpar. */
  predicate KeyedRows(rows: seq<Row>, ivpar: seq<VarSpec>, ndir: nat, L: nat)
    requires ndir > 0 && L > 0
  {
    |rows| == |ivpar| * ndir * L &&
    forall r :: 0 <= r < |rows| ==>
      rows[r].variogram == r / (ndir * L) && 0 <= rows[r].variogram < |ivpar| &&
      rows[r].direction == (r / L) % ndir && 0 <= rows[r].direction < ndir &&
      rows[r].meta == ivpar[rows[r].variogram]
  }

  /** Row r of rows holds the cleaned statistics of kept line r. */
  predicate RowStats(rows: seq<Row>, kept: seq<seq<Cell>>, wide: bool)
  {
    |kept| == |rows| && forall r :: 0 <= r < |rows| ==> rows[r].stats == Clean(ToRecord(kept[r], wide))
  }

  /** rows is the result table over the data lines kept. */
  predicate ResultTable(rows: seq<Row>, kept: seq<seq<Cell>>, ivpar: seq<VarSpec>, ndir: nat, L: nat, wide: bool)
    requires ndir > 0 && L > 0
  {
    KeyedRows(rows, ivpar, ndir, L) && RowStats(rows, kept, wide)
  }

  /** Row r of rows holds the cleaned statistics of data line r of the whole output file. */
  predicate FromDataLines(rows: seq<Row>, outLines: seq<seq<Cell>>, L: nat, wide: bool)
    requires L >= 1
  {
    forall r :: 0 <= r < |rows| ==>
      DataLine(r, L) < |outLines| && rows[r].stats == Clean(ToRecord(outLines[DataLine(r, L)], wide))
  }

  /** Once the header line of every block of L + 1 lines is skipped, a table over the kept
      lines reads each row from its own data line of the file. */
  lemma {:induction false} KeptRowsAreDataLines(rows: seq<Row>, outLines: seq<seq<Cell>>, skip: seq<int>, L: nat, wide: bool)
    requires L >= 1
    requires forall i :: 0 <= i < |outLines| ==> (i in skip <==> i % (L + 1) == 0)
    requires RowStats(rows, DropRows(outLines, skip), wide)
    ensures FromDataLines(rows, outLines, L, wide)
  {
    DropBlockHeaders(outLines, skip, L, |outLines|);
    assert outLines[..|outLines|] == outLines;
  }

  /** Line 226: a row without pairs loses its variogram value and both means. */
  function MaskNoPairs(s: Record): Record
  {
    if s.pairs == Some(0.0) then s.(varFunct := None, meanTail := None, meanHead := None) else s
  }

  /** Line 227: a row at average separation zero loses its variogram value. */
  function MaskZeroLag(s: Record): Record
  {
    if s.avgSep == Some(0.0) then s.(varFunct := None) else s
  }

  /** The cleanup pass on one row: the two rules are independent and both may apply. */
  function Clean(s: Record): (c: Record)
    ensures c.lag == s.lag && c.avgSep == s.avgSep && c.pairs == s.pairs && c.variances == s.variances
    ensures s.pairs == Some(0.0) ==> c.varFunct.None? && c.meanTail.None? && c.meanHead.None?
    ensures s.avgSep == Some(0.0) ==> c.varFunct.None?
    ensures s.pairs != Some(0.0) ==> c.meanTail == s.meanTail && c.meanHead == s.meanHead
    ensures s.pairs != Some(0.0) && s.avgSep != Some(0.0) ==> c.varFunct == s.varFunct
  {
    MaskZeroLag(MaskNoPairs(s))
  }

  /** Cleaning an already cleaned row changes nothing. */
  lemma CleanIdempotent(s: Record)
    ensures Clean(Clean(s)) == Clean(s)
  {
  }

  /** Lines 226-227 on the table: first the rows without pairs, then the rows at
      separation zero, masked in place; keys and metadata are untouched. */
  method Cleanup(vg: array<Row>)
    modifies vg
    ensures forall k :: 0 <= k < vg.Length ==> vg[k] == old(vg[k]).(stats := Clean(old(vg[k]).stats))
  {
    for k := 0 to vg.Length
      invariant forall j :: 0 <= j < k ==> vg[j] == old(vg[j]).(stats := MaskNoPairs(old(vg[j]).stats))
      invariant forall j :: k <= j < vg.Length ==> vg[j] == old(vg[j])
    {
      if vg[k].stats.pairs == Some(0.0) {
        vg[k] := vg[k].(stats := vg[k].stats.(varFunct := None, meanTail := None, meanHead := None));
      }
    }
    for k := 0 to vg.Length
      invariant forall j :: 0 <= j < k ==> vg[j] == old(vg[j]).(stats := Clean(old(vg[j]).stats))
      invariant forall j :: k <= j < vg.Length ==> vg[j] == old(vg[j]).(stats := MaskNoPairs(old(vg[j]).stats))
    {
      if vg[k].stats.avgSep == Some(0.0) {
        vg[k] := vg[k].(stats := vg[k].stats.(varFunct := None));
      }
    }
  }

  /** A built row after the metadata join and the cleanup. */
  function Finished(row: Row, ivpar: seq<VarSpec>): Row
  {
    WithMetadata(row, ivpar).(stats := Clean(row.stats))
  }

  /** Lines 219-227 on a built table: the metadata join, then the cleanup, on a data
      frame of its own. */
  method FinishRows(built: seq<Row>, ivpar: seq<VarSpec>) returns (rows: seq<Row>)
    ensures |rows| == |built| && forall k :: 0 <= k < |built| ==> rows[k] == Finished(built[k], ivpar)
  {
    var vg := new Row[|built|](i requires 0 <= i < |built| => built[i]);
    JoinMetadata(vg, ivpar);
    Cleanup(vg);
    rows := vg[..];
  }

  /** The rows built from the kept lines, joined with ivpar and cleaned, are the result
      table over those lines. */
  lemma FinishedTable(built: seq<Row>, rows: seq<Row>, kept: seq<seq<Cell>>, ivpar: seq<VarSpec>,
                      ndir: nat, L: nat, wide: bool)
    requires ndir > 0 && L > 0
    requires BuildRows(ReadRecords(kept, wide), wide, |ivpar|, ndir, L) == Ok(built)
    requires |rows| == |built| && forall k :: 0 <= k < |built| ==> rows[k] == Finished(built[k], ivpar)
    ensures ResultTable(rows, FrameLines(kept, |ivpar| * ndir * L), ivpar, ndir, L, wide)
  {
  }
}
