# gamv wrapper model

A Dafny model of `gamv` in `sandbox/gamv.py`, the pygslib wrapper around the GSLIB
experimental-variogram program. The wrapper takes a parameter dictionary and normalises
it. It writes a temporary input file for an in-memory data array, validates the
variogram table and fills in a fixed parameter-file template. Then it runs the external
`gamv` executable and reads the executable's output file back into a pandas table. That
table has key columns Variogram and Direction, the metadata tail, head, type and cut
copied from the caller's `ivpar`, and a cleanup of degenerate rows.

The model follows the source file by file:

- `config.dfy` (`GamvConfig`) holds the parameter dictionary, the normalisation of
  `mypar`, the temporary input header and the validation of `ivpar`. The validation is
  imperative in the source, a loop that overwrites the numpy copy in place, so it is a
  method over an `array`. A function gives its specification.
- `parfile.dfy` (`ParFile`) renders the template as a list of lines. It also has a
  positional reader, which shows that the file gives back, by position, what was put in.
- `output.dfy` (`GamvOutput`) covers:
  - the skip list of block header lines and the rows read_csv keeps;
  - the column schema;
  - the key columns built with numpy's repeat and tile;
  - the metadata join and the cleanup. Both work in place on the data frame, so they are
    methods over an `array` of rows.
- `gamv.dfy` (`Gamv`) chains the steps. The engine's exit code and standard error, and
  the already tokenised contents of its output file, are inputs. The files the wrapper
  writes are returned as `FileWrite` values, in order.
- `numseq.dfy` (`NumSeq`) and `text.dfy` (`Text`) are the numpy builders (`arange`,
  `range`, `repeat`, `tile`) and the text conventions (`str` of an int, `' '.join`, and
  reading a line as blank-separated tokens).

Where the code and its documentation disagree, the model follows the code:

- **Schema choice.** The wide schema with the two variance columns is chosen when some
  variogram has type 4 (correlogram), as line 188 tests. Type 3 (covariance) does not
  trigger it.
- **Input file timing.** The temporary input file `_xxx_.in` is written before any table
  is validated, so a configuration error can still leave that file behind.
- **Joined metadata.** The join at lines 219-223 copies the caller's original table.
  Rows of a non-indicator type therefore keep the cut the caller gave, not the `None` that
  validation put into the numpy copy.
- **Index bounds.** Tail and head indices are checked only against the number of
  variables (lines 136-137). There is no lower bound.
- **Empty tables.** For an empty `ivpar` or `ivdir` list, `np.array` builds a
  one-dimensional array, and reading `shape[1]` at lines 133-134 raises an IndexError
  before the assertion is evaluated. The model gives these failures their own errors,
  `EmptyVariogramTable` and `EmptyDirectionTable`.
- **Empty output.** When the output file has no data lines, `read_csv` returns a frame
  without rows, and the assignment at line 213 gives it the key column's
  nvarg\*ndir\*(nlag+2) rows. The result is then a table whose statistics are all
  missing, not a length error.

## Model

| member | source | states |
|---|---|---|
| NumSeq.Arange | sandbox/gamv.py:186 | numpy.arange for a positive step; ArangeAt and ArangeLength state its values and its length |
| NumSeq.ArangeAt | sandbox/gamv.py:186 | value k of arange(start, stop, step) is start + k*step and lies below stop; the sequence ends at the first value that would reach stop |
| NumSeq.ArangeLength | sandbox/gamv.py:186 | arange yields exactly n values when the n-th value is the first to reach stop |
| NumSeq.Range | sandbox/gamv.py:213-214 | range(n) has n entries and entry k is k |
| NumSeq.Repeat | sandbox/gamv.py:213-214 | numpy.repeat of a one-dimensional sequence; RepeatLength, RepeatIndex and RepeatAt state its length and entries |
| NumSeq.RepeatLength | sandbox/gamv.py:213-214 | repeat(s, m) has \|s\|*m entries |
| NumSeq.RepeatIndex | sandbox/gamv.py:213-214 | entry k of repeat(s, m) is element k div m of s |
| NumSeq.RepeatAt | sandbox/gamv.py:213-214 | every entry k of repeat(s, m) is element k div m of s |
| NumSeq.RepeatRangeAt | sandbox/gamv.py:213 | entry k of repeat(range(n), m) is k div m, a value below n |
| NumSeq.Tile | sandbox/gamv.py:214 | numpy.tile of a one-dimensional sequence; TileLength, TileIndex and TileAt state its length and entries |
| NumSeq.TileLength | sandbox/gamv.py:214 | tile(s, n) has \|s\|*n entries |
| NumSeq.TileIndex | sandbox/gamv.py:214 | entry k of tile(s, n) is element k mod \|s\| of s |
| NumSeq.TileAt | sandbox/gamv.py:214 | every entry k of tile(s, n) is element k mod \|s\| of s |
| NumSeq.TileRepeatLength | sandbox/gamv.py:214 | tile(repeat(s, m), n) has n*\|s\|*m entries |
| Text.IntToString | sandbox/gamv.py:149 | str() of an integer is a non-empty token without blanks |
| Text.IntTokens | sandbox/gamv.py:149 | map(str, xs) has one token per element, the k-th being str of the k-th element |
| Text.NatToStringRoundTrip | sandbox/gamv.py:149 | the decimal digits of n read back as n |
| Text.IntToStringRoundTrip | sandbox/gamv.py:149 | str(i) parses back to i, negatives included |
| Text.IntTokensRoundTrip | sandbox/gamv.py:149 | the tokens of a list of integers parse back to the list |
| Text.WordsSplit | sandbox/gamv.py:13-35 | the tokens of x, a blank, then y are the tokens of x followed by those of y |
| Text.WordsOfJoin | sandbox/gamv.py:149 | ' '.join of tokens, read as blank-separated tokens, gives the tokens back |
| GamvConfig.SyntheticIvar | sandbox/gamv.py:112 | arange(4, ncols + 1) has ncols - 3 entries (none for ncols <= 3), entry k being 4 + k |
| GamvConfig.WriteDataHeader | sandbox/gamv.py:114-121 | the header is the title, the column count, x, y, z and then v1 to v(ncols-3); x, y and z are written even when the array has fewer than three columns, so such a header names more columns than its count line announces |
| GamvConfig.DataHeaderNamesColumns | sandbox/gamv.py:112-121 | for an array of at least three columns, the header's count line parses as ncols, the header names ncols columns, and variable j (column ivar[j-1]) is named "v" followed by j |
| GamvConfig.Prepare | sandbox/gamv.py:102-127 | fails with the shape error exactly for a non-two-dimensional array; otherwise the result is mypar: default file names substituted, X, Y, Z = 1, 2, 3 and ivar = 4..ncols for an array, every other field copied; the input header is produced exactly for an array |
| GamvConfig.FirstLackingCut | sandbox/gamv.py:139-144 | finds the first indicator row without a cut from a position on, or reports that no later row lacks one |
| GamvConfig.CheckSpecs | sandbox/gamv.py:136-144 | succeeds exactly when tails and heads are at most len(ivar), every type is 1 to 10 and no indicator row lacks a cut; otherwise the first failing check in source order, and for a missing cut the first such row; on success the same rows with the cut of every type below 9 set to None |
| GamvConfig.ValidateTable | sandbox/gamv.py:130-144 | on the array copy, reports exactly the error CheckSpecs reports and otherwise leaves its result in the array; after a missing cut at row k, rows before k are already normalised and the rest untouched; after a failed assertion nothing changed |
| ParFile.IvarText | sandbox/gamv.py:149 | the blank-joined decimal column numbers; WordsOfJoin and IntTokensRoundTrip state that it reads back as ivar, and VariableLine that the variable line does |
| ParFile.VarRows | sandbox/gamv.py:151-152 | one printed row per variogram |
| ParFile.DirRows | sandbox/gamv.py:154-155 | one printed row per direction |
| ParFile.TableLines | sandbox/gamv.py:152-155 | a table printed without index and header has one line per row |
| ParFile.WordsOfTemplateLine | sandbox/gamv.py:18-30 | a template line whose fields are tokens reads back with those fields first |
| ParFile.ReadRowsAt | sandbox/gamv.py:152-155 | reading lines of at least width tokens gives, per line, its first width tokens |
| ParFile.ReadBlock | sandbox/gamv.py:27-30 | a printed table block, with the rest of its template line after the last row, reads back as the table's rows |
| ParFile.VariableLine | sandbox/gamv.py:20 | the variable line reads back as len(ivar) followed by the columns of ivar |
| ParFile.CountLine | sandbox/gamv.py:26-29 | a count line reads back as its count |
| ParFile.VarRowIntegers | sandbox/gamv.py:30 | the tail, head and type cells of a variogram row parse back as those integers |
| ParFile.VarRowsAreTokens | sandbox/gamv.py:152 | each variogram row has four cells, each a token, when the float format prints tokens |
| ParFile.DirRowsAreTokens | sandbox/gamv.py:155 | each direction row has six cells, each a token, when the float format prints tokens |
| ParFile.HeadLines | sandbox/gamv.py:13-26 | the title lines and the fields from the data file to the number of directions; ParFileLayout and ParFileRoundTrip state its layout and what reads back |
| ParFile.MiddleLines | sandbox/gamv.py:28-29 | the standardize and number-of-variograms lines; ParFileLayout places the count line after the direction block |
| ParFile.ParFileLines | sandbox/gamv.py:148-157 | the template of lines 13-35 filled in with mypar and the validated table; ParFileLayout gives its layout and ParFileRoundTrip its read-back |
| ParFile.ReadBackOf | sandbox/gamv.py:13-35 | the positional reader accepts any file whose count lines and table rows read as given |
| ParFile.ReadBackLayout | sandbox/gamv.py:13-35 | any file laid out as the template lays it out, whatever its comments and padding, reads back as its variable columns and the rows of its two table blocks |
| ParFile.ParFileLayout | sandbox/gamv.py:13-35 | the file is 13 head lines, the direction block, 2 lines, the variogram block and 4 closing lines; the variable line is line 6 and the direction count line 12, followed by the direction rows, then the variogram count and the variogram rows |
| ParFile.ParFileRoundTrip | sandbox/gamv.py:148-157 | the filled-in template reads back by position as ivar, the direction rows and the validated variogram rows; their integer cells parse as tail, head and type |
| GamvOutput.SkipRows | sandbox/gamv.py:182-186 | the ignore list of line 186; SkipRowsLayout states that it lists exactly the block header lines |
| GamvOutput.ArangeMultiples | sandbox/gamv.py:186 | arange(0, B*H, H) lists the B multiples of H, and a position below B*H is listed exactly when H divides it |
| GamvOutput.SkipRowsLayout | sandbox/gamv.py:182-186 | the skip list has one entry per (variogram, direction) block, the k-th at k*(nlag+3), and below nvarg*ndir*(nlag+3) it lists exactly the multiples of nlag+3 |
| GamvOutput.DropRows | sandbox/gamv.py:189-211 | read_csv's skiprows, keeping the lines whose position is not listed, in order; DropBlockHeaders, HeaderFreeData and KeptAll state what it keeps |
| GamvOutput.DropBlockHeaders | sandbox/gamv.py:189-211 | with the first line of each block of L+1 skipped, the lines kept among the first n are, in order, the data lines of those blocks |
| GamvOutput.HeaderFreeData | sandbox/gamv.py:182-211 | an output of nvarg*ndir whole blocks leaves nvarg*ndir*(nlag+2) lines after skipping, kept line r being the r-th data line |
| GamvOutput.KeptRowsAreDataLines | sandbox/gamv.py:189-211 | a table over the kept lines reads each row from its own data line of the whole file |
| GamvOutput.HasVarianceColumns | sandbox/gamv.py:188 | the wide schema is chosen exactly when some variogram has type 4; SchemaOfCheckedTable states that validation does not change the choice |
| GamvOutput.VariogramColumn | sandbox/gamv.py:213 | the Variogram column has nvarg*ndir*L entries; VariogramAt and KeyColumns state its entries |
| GamvOutput.DirectionColumn | sandbox/gamv.py:214 | the Direction column has nvarg*ndir*L entries; DirectionAt and KeyColumns state its entries |
| GamvOutput.VariogramAt | sandbox/gamv.py:213 | the Variogram column at row r is r div (ndir*L), below nvarg |
| GamvOutput.DirectionAt | sandbox/gamv.py:214 | the Direction column at row r is (r div L) mod ndir, below ndir |
| GamvOutput.KeyColumns | sandbox/gamv.py:213-214 | every row r gets variogram r div (ndir*L) < nvarg and direction (r div L) mod ndir < ndir |
| GamvOutput.KeyBlock | sandbox/gamv.py:213-214 | a row has key (v, d) exactly when it lies among the L rows from (v*ndir + d)*L on |
| GamvOutput.FrameLines | sandbox/gamv.py:189-213 | the lines read_csv kept or, when it kept none, nvarg*ndir*L empty lines, as pandas indexes an empty frame by the first column assigned; LoadResults states the table over them |
| GamvOutput.BuildRows | sandbox/gamv.py:213-218 | fails with the length mismatch exactly when some records were read but not nvarg*ndir*L of them; with no record the table still has nvarg*ndir*L rows, every statistic missing; otherwise each row keeps its record; every row gets the keys of its position and zeroed metadata |
| GamvOutput.WithMetadata | sandbox/gamv.py:219-223 | a row with the caller's table row of its Variogram as metadata; JoinMetadata states that the join loop gives it to every row |
| GamvOutput.JoinMetadata | sandbox/gamv.py:219-223 | every row whose Variogram indexes the table gets that table row's tail, head, type and cut; other rows are untouched |
| GamvOutput.MaskNoPairs | sandbox/gamv.py:226 | the rule for rows without pairs; Clean states its effect field by field |
| GamvOutput.MaskZeroLag | sandbox/gamv.py:227 | the rule for rows at separation zero; Clean states its effect field by field |
| GamvOutput.Clean | sandbox/gamv.py:226-227 | a row without pairs loses its variogram value and both means; a row at separation zero loses its variogram value; every other cell is kept |
| GamvOutput.CleanIdempotent | sandbox/gamv.py:226-227 | cleaning twice is cleaning once |
| GamvOutput.Cleanup | sandbox/gamv.py:226-227 | in place, each row's statistics become their cleaned form, and keys and metadata are untouched |
| GamvOutput.FinishRows | sandbox/gamv.py:219-227 | the join then the cleanup give each built row its metadata and cleaned statistics |
| GamvOutput.FinishedTable | sandbox/gamv.py:213-227 | the built, joined and cleaned rows are keyed by position, carry their variogram's metadata and hold the cleaned record of their kept line, or missing statistics when no line was kept |
| Gamv.ConfigCheck | sandbox/gamv.py:102-144 | the first failing check in the order of lines 106 and 133-144; CheckParameters and Configure state that they fail with it exactly when it fails |
| Gamv.EngineMessage | sandbox/gamv.py:172-173 | the error message is the fixed prefix "gslib declus NameError" followed by the engine's standard error |
| Gamv.CheckParameters | sandbox/gamv.py:102-144 | the shape, empty-table, index, type and cut checks fail in source order; on success mypar is normalised and the table validated; the input header exists exactly for a well-shaped array |
| Gamv.Configure | sandbox/gamv.py:102-161 | succeeds exactly for valid parameters, failing with the first check that fails; writes the input header for an array even when a later check fails, and the filled-in parameter file only when all checks pass |
| Gamv.LoadResults | sandbox/gamv.py:181-227 | fails exactly when some lines are kept but not nvarg*ndir*(nlag+2) of them; an output without data lines gives nvarg*ndir*(nlag+2) rows of missing statistics; otherwise the table is keyed by position, carries the caller's metadata and holds the cleaned kept lines; a file of whole blocks always loads, row r from data line r |
| Gamv.SchemaOfCheckedTable | sandbox/gamv.py:188 | the validated table selects the wide schema exactly when the caller's table does |
| Gamv.RunGamv | sandbox/gamv.py:102-227 | an invalid configuration fails with its first error, before the engine; a non-zero exit code fails with the engine's message; otherwise the loaded table; the files written are those of Configure |
| Gamv.WrittenParFileReadsBack | sandbox/gamv.py:148-161 | the parameter file written for a valid configuration reads back as the effective variable columns, the direction rows and the validated variogram rows |

## Left out

- The default executable path (lines 96-100) and the subprocess launch (lines 165-170) are not modelled. The engine's exit code, its decoded standard error and its output file are inputs of `RunGamv`.
- Printing the parameter file and the engine's standard output (lines 158 and 175-179) is left out, because it has no effect on the result.
- The model does not write files. The temporary input header and the parameter file are returned as lists of lines.
- The data rows that `numpy.savetxt` appends to the temporary input file (line 122) are left out. An in-memory array is modelled by its shape alone.
- Float formatting is a caller-supplied function `fmt`, assumed to print single tokens where the round trip needs that. This covers the trimming limits, lag sizes, direction angles, cuts and the floats of `DataFrame.to_string`.
- The column padding of `DataFrame.to_string` (lines 152 and 155) is left out. Cells are joined by single blanks, and the positional reader does not depend on padding.
- `read_csv` is left out: splitting on whitespace, parsing floats, and handling blank lines and surplus fields. The output file is given as lines already split into numeric cells, with `None` for a missing value.
- numpy's dtype conversion of `ivpar` (line 130) is left out. The table is treated as an object array whose cut is `None` or a number. An all-integer table would make numpy refuse the `None` of line 141, and a float table would store NaN there.
- Tables of the wrong width (the shape assertions at lines 133-134) cannot be expressed. Typed rows always have four and six fields, so only the empty tables remain as errors.
- `nlag` is a natural number, so a negative lag count is not modelled.
- A zero-row two-dimensional `ivpar` or `ivdir` (shape (0, 4) or (0, 6)) is treated like an empty list. The model rejects it with `EmptyVariogramTable` or `EmptyDirectionTable` and writes no parameter file. The source passes lines 133-134 for such an array, renders a count of 0, writes `_xxx_.par` and runs the engine. A table is a list of rows here, so the model cannot tell the two apart.
- `GamvConfig.DataHeaderNamesColumns` is stated only for arrays with at least three columns. For fewer, lines 117-119 still write x, y and z, and the header names more columns than its count line gives. `IsDataHeader` and `WriteDataHeader` model that case as written.
- The index built by `set_index` (line 228) is left out. The key triple (Variogram, Direction, Lag) is stated as row-position properties.
- The plot (lines 233-236) and the returned figure and axes are left out.
