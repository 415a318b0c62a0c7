# Basis set format conversion: CRYSTAL, libmol and molpro

This project models the format-conversion core of the Basis Set Exchange in Dafny.
The modelled parts are:

- the CRYSTAL reader and writer;
- the Molpro system-library (libmol) reader and writer;
- the Molpro user-input (molpro) reader;
- `sort_basis_dict` and `merge_element_data` from the JSON layer;
- the line normalisation and line comparison helpers used by the regression test against version 0 of the library.

Each reader receives the prepared lines of a file: comments are pruned and each line is already split into tokens.
CRYSTAL and libmol lines are split at whitespace; molpro lines are split at commas.
A reader fills the dictionary `bs_data`, modelled as the class `Basis.BasisData`: element keys in insertion order, and each key's list of electron shells.
Its methods change that object in place, and each method is proved equal to a specification function on values.
Exceptions become the `Error` values of a `Result` (`AssertionError`, `IndexError`, `KeyError`, `ValueError`, `TypeError`, `AttributeError`, `RuntimeError`, `NotImplementedError`, `UnboundLocalError`, `LookupError`, and `FormatError`).
`FormatError` is not a Python class: it stands for the exception that `helpers.partition_lines` and `helpers.parse_line_regex_dict` raise when a line does not match their pattern; that helper module is not part of this model.
The element lookup table (`lut`) and the numeric collaborators reach the model as parameters: the `Lookup`, `CrystalHelpers`, `LibmolHelpers` and `MatrixWriter` records of function values.

Modules, one per file:

- `Basis` (`common.dfy`): shells, elements, the shared text and number grammar, `partition_lines`, `reshape`, zero padding, and the `BasisData` dictionary.
- `CrystalReader`, `CrystalWriter`: the CRYSTAL format. Two reader grammars exist, `AsWritten` and `Intended` (see Findings).
- `LibmolReader`, `LibmolWriter`, `LibmolRoundTrip`: the libmol format, with a proof that a written shell block reads back as the same shell.
- `MolproReader`: the molpro user-input format.
- `JsonValue`, `StableSort`, `BseIo`: JSON values with ordered dictionaries, Python's stable key sort, and the two dictionary operations.
- `V0Compare`: `_process_nwline`, `_process_nwchem` and `_lines_equivalent`.

## Model

| member | source | states |
|---|---|---|
| Basis.Partition | basis_set_exchange/readers/crystal.py:118 | The blocks concatenate back to the input lines. Every block starts at a line the start pattern accepts, holds no other start line, and has at least `min_size` lines. An input whose first line is not a start line is rejected, and so is one whose first block is shorter than `min_size`. |
| Basis.RunLenIs | basis_set_exchange/readers/crystal.py:118 | The run of non-start lines after a block's first line is exactly as long as the lines before the next start line. |
| Basis.PartitionUnique | basis_set_exchange/readers/crystal.py:118 | Any split of the lines into blocks that each begin at a start line, hold no other start line and have at least `min_size` lines is the one the partition returns. |
| Basis.WithEntry | basis_set_exchange/readers/libmol.py:59-64 | The entry for element `z` exists afterwards. An absent key is added last with no shells. A present key leaves the dictionary unchanged. |
| Basis.BasisData.CreateElementData | basis_set_exchange/readers/libmol.py:61-62 | The in-place dictionary becomes `WithEntry` of its old value and stays well formed. |
| Basis.BasisData.AppendShell | basis_set_exchange/readers/libmol.py:116 | The shell is appended to element `z`'s list. No key is added and no other list changes. |
| Basis.ReaderFunctionType | basis_set_exchange/readers/libmol.py:107 | An empty angular momentum raises `IndexError`. Otherwise the type is `gto` exactly when the first angular momentum is below 2, and `gto_spherical` otherwise. |
| Basis.PadInRange | basis_set_exchange/readers/libmol.py:97-101 | For `1 <= start <= end <= nprim`, padding gives `nprim` entries. Positions `start..end` hold the read coefficients and every other position holds `0.0`. |
| Basis.PadLengthIff | basis_set_exchange/readers/molpro.py:79-87 | The padded vector has exactly `nprim` entries if and only if `1 <= start` and `end <= nprim`. This is when the assertion of line 87 holds. |
| Basis.Reshape | basis_set_exchange/writers/libmol.py:61 | The rows concatenate back to the data. Every row has between 1 and `n` entries. |
| Basis.WordsOfJoin | basis_set_exchange/writers/libmol.py:63 | Joining tokens with single spaces and splitting the result at whitespace gives the tokens back. |
| CrystalReader.DecodedColumns | basis_set_exchange/readers/crystal.py:31-38 | Code 1 decodes to the SP shell `[0, 1]`, which has two columns. Code 0 decodes to `[0]`. Any other code `c` decodes to `[c - 1]`. |
| CrystalReader.NonZero | basis_set_exchange/readers/crystal.py:50 | A value is among the filtered factors exactly when it is an input factor other than 0.0. |
| CrystalReader.NonZeroConcat | basis_set_exchange/readers/crystal.py:50 | The filter keeps input order: it maps over concatenation, and a single factor is kept exactly when it is not 0.0. |
| CrystalReader.ScaleMultiplier | basis_set_exchange/readers/crystal.py:50-61 | The multiplier exists if and only if exactly one non-zero factor remains. No factor raises `RuntimeError` and more than one raises `NotImplementedError`. Otherwise the multiplier is the square of an input factor. |
| CrystalReader.UnitFactorNoScaling | basis_set_exchange/readers/crystal.py:60-61 | A single factor of 1.0 or -1.0 gives multiplier 1.0, so no rescaling happens. |
| CrystalReader.TrimSciText | basis_set_exchange/readers/crystal.py:80-84 | On a mantissa with a decimal point, trimming keeps the exponent part. It removes the mantissa's trailing zeros and adds back one `0` exactly when the point would otherwise be last. |
| CrystalReader.TrimIdempotent | basis_set_exchange/readers/crystal.py:80-84 | Trimming an already trimmed exponent changes nothing. |
| CrystalReader.TrimFixed | basis_set_exchange/readers/crystal.py:80-84 | A text already in trimmed form is returned unchanged. |
| CrystalReader.RescaleExponents | basis_set_exchange/readers/crystal.py:73-87 | The loop succeeds if and only if every rescaled exponent can be trimmed. It then returns, position by position, the trimmed rendering of exponent times multiplier. |
| CrystalReader.RescaledPointwise | basis_set_exchange/readers/crystal.py:74-87 | The specification of the rescaling loop fails exactly when some exponent fails to trim. Otherwise each entry is that exponent's trimmed, rescaled text. |
| CrystalReader.AsWrittenWithinIntended | basis_set_exchange/readers/crystal.py:6-8 | Every header or shell line the written `[1-9]` patterns accept is also accepted by the `\d` patterns. |
| CrystalReader.AsWrittenShellFails | basis_set_exchange/readers/crystal.py:27-28 | Under the written shell pattern, every shell block fails with `AssertionError`: its first field is at least 1, never 0. |
| CrystalReader.ShellIntendedContents | basis_set_exchange/readers/crystal.py:27-95 | A shell read under the corrected grammar has: a descriptor whose first field is 0; the decoded angular momentum; the primitive matrix read with `ng` rows and one column per angular momentum; and the function type of that angular momentum. Its exponents are unchanged when the multiplier is 1.0, and otherwise are the trimmed rescaled values. |
| CrystalReader.ParseBlocksAt | basis_set_exchange/readers/crystal.py:25-27 | When all shell blocks parse, result `i` is the shell that block `i` parses to. |
| CrystalReader.SectionExtendsItsElement | basis_set_exchange/readers/crystal.py:17-97 | A section that reads successfully starts with the element number `Z`. Its result keeps the key order of `WithEntry(acc, Z)` and only extends element `Z`'s shell list. |
| CrystalReader.SectionUnknownElement | basis_set_exchange/readers/crystal.py:17-18 | An element number the name lookup does not know raises `LookupError`. |
| CrystalReader.AppendFromBlocks | basis_set_exchange/readers/crystal.py:25-97 | Appending from block `i` on succeeds exactly when the remaining blocks all parse. It then appends their shells, in order, to element `z`. |
| CrystalReader.AppendShells | basis_set_exchange/readers/crystal.py:25-97 | The in-place shell loop succeeds exactly when every block parses. It appends all parsed shells, in block order, to element `z` and changes nothing else. |
| CrystalReader.ParseShellBlockM | basis_set_exchange/readers/crystal.py:27-95 | Reading one shell block gives the shell its specification defines, or the same error. |
| CrystalReader.ParseElectronLines | basis_set_exchange/readers/crystal.py:10-97 | The in-place dictionary becomes the section specification's result, and the method fails exactly when that specification fails. |
| CrystalReader.ReadSpec | basis_set_exchange/readers/crystal.py:113-115 | Empty input gives the empty dictionary. Every result is well formed: distinct element keys, each with a shell list. |
| CrystalReader.ReadCrystal | basis_set_exchange/readers/crystal.py:100-122 | The fresh dictionary equals the specification's result, and the method fails exactly when the specification fails. |
| CrystalReader.ReadCrystalAsWrittenFails | basis_set_exchange/readers/crystal.py:118-120 | With the written patterns, every non-empty input fails. |
| CrystalReader.NonzeroDigitsPositive | basis_set_exchange/readers/crystal.py:8 | A `[1-9]+` field has a value of at least 1. |
| CrystalWriter.NatMarkerDecodes | basis_set_exchange/writers/crystal.py:30-36 | Below 99, the written number is at least 200 exactly when the element has an ECP. Subtracting that offset gives `Z` back. |
| CrystalWriter.EncodeAm | basis_set_exchange/writers/crystal.py:87-97 | Encoding succeeds exactly for one angular momentum or for SP `[0, 1]`. Every other list raises `RuntimeError`. |
| CrystalWriter.DecodeEncode | basis_set_exchange/writers/crystal.py:87-97 | Decoding the written code with the reader's rule gives the angular momentum back. |
| CrystalWriter.EncodeDecode | basis_set_exchange/writers/crystal.py:87-97 | Encoding the decoded angular momentum gives the original code back, for every code. |
| CrystalWriter.RowsUpTo | basis_set_exchange/writers/crystal.py:62-63 | The first `n` ECP rows of a term are `n` rows. |
| CrystalWriter.RowsUpToAt | basis_set_exchange/writers/crystal.py:62-63 | Row `k` of the first `n` is written from the `k`-th exponent, coefficient and r exponent. |
| CrystalWriter.RowsUpToRows | basis_set_exchange/writers/crystal.py:62-63 | Every one of the first `n` rows is written from its own exponent, coefficient and r exponent. |
| CrystalWriter.TermRows | basis_set_exchange/writers/crystal.py:58-64 | A term writes one row per Gaussian exponent. It fails exactly when it has no coefficient vector, or its first vector or its r exponents are shorter than its exponents (the `IndexError` of line 63). |
| CrystalWriter.TermRowsContents | basis_set_exchange/writers/crystal.py:58-64 | Row `k` of a term is written from its `k`-th exponent, the `k`-th coefficient of its first vector and its `k`-th r exponent. |
| CrystalWriter.WriteTermRows | basis_set_exchange/writers/crystal.py:58-64 | The row loop gives the term's rows or the same failure. |
| CrystalWriter.BucketRowsCount | basis_set_exchange/writers/crystal.py:56-65 | Bucket `l` has exactly as many rows as the terms with angular momentum `[l]` have exponents. This is the `n_terms` count that the header prints. |
| CrystalWriter.WriteBucketRows | basis_set_exchange/writers/crystal.py:56-64 | The loop over terms gives the rows of bucket `l` or the same failure. |
| CrystalWriter.BucketsShape | basis_set_exchange/writers/crystal.py:54-65 | There are exactly five buckets, `l = 0..4`, and bucket `k` holds the rows for angular momentum `[l + k]`. |
| CrystalWriter.WriteBuckets | basis_set_exchange/writers/crystal.py:54-65 | The `range(5)` loop gives the five buckets or the first failure. |
| CrystalWriter.MaxEcpAmSpec | basis_set_exchange/writers/crystal.py:47 | No terms raises `ValueError`, and a term with empty angular momentum raises `IndexError`. Otherwise the result is the largest first angular momentum of any term, and some term attains it. |
| CrystalWriter.EcpBlock | basis_set_exchange/writers/crystal.py:42-74 | A missing ECP electron count raises `KeyError`, and a projector above g raises `RuntimeError`. Otherwise the block is `INPUT`, then the header with `Zeff`, `M = 0` and five counts, then every bucket's rows in angular-momentum order. |
| CrystalWriter.EcpBlockCounts | basis_set_exchange/writers/crystal.py:54-74 | A written ECP block has five buckets, bucket `l` holds the primitive count of `l`, and the rows written are the sum of the five counts. |
| CrystalWriter.WriteEcp | basis_set_exchange/writers/crystal.py:42-74 | The ECP loop gives the specified block or the same error. |
| CrystalWriter.PointPlaces | basis_set_exchange/writers/crystal.py:111 | There is one decimal-point column per matrix column. |
| CrystalWriter.PointPlacesStep | basis_set_exchange/writers/crystal.py:111 | Column `k` puts its point at `8k + 15(k - 1)`. The first is at 8, each next one is 23 further, and the columns strictly increase. |
| CrystalWriter.ShellText | basis_set_exchange/writers/crystal.py:78-112 | A shell is written exactly when its angular momentum can be encoded. The text is the descriptor line (type, shell code, primitive count, charge 0, scale 1) followed by the matrix of exponents and coefficient vectors. |
| CrystalWriter.WriteShells | basis_set_exchange/writers/crystal.py:78-112 | The shell loop gives the concatenated shell texts, or the first `RuntimeError`. |
| CrystalWriter.ElementText | basis_set_exchange/writers/crystal.py:26-112 | Elements with `Z >= 99` write nothing. A lighter element without electron shells raises `KeyError` at the header line. Otherwise writing succeeds exactly when the ECP block (if `ecp_potentials` is present) and every shell can be written, and an ECP error is the one raised. A written element is the header `nat nshells`, then the ECP block only when `ecp_potentials` is present (whose counts `EcpBlockCounts` proves), then the shells. |
| CrystalWriter.ElementHeaderReadBack | basis_set_exchange/writers/crystal.py:30-39 | `split()` reads the header line back as two numbers. The first gives `Z` and whether an ECP block follows (over 200 exactly then), and the second is the number of shells written. |
| CrystalWriter.WriteElement | basis_set_exchange/writers/crystal.py:26-112 | One iteration of the element loop gives the element's specified text or error. |
| CrystalWriter.WriteCrystal | basis_set_exchange/writers/crystal.py:8-117 | The writer gives the specified text: the elements in order followed by the terminator. |
| CrystalWriter.CrystalTextEnds | basis_set_exchange/writers/crystal.py:116 | Every written file ends with the terminator line `99 0`. |
| CrystalWriter.HeavyElementsSkipped | basis_set_exchange/writers/crystal.py:30-33 | Inserting an element with `Z >= 99` anywhere in the list does not change the output. |
| CrystalWriter.DescriptorReadBack | basis_set_exchange/writers/crystal.py:108 | The written shell descriptor reads back under the corrected reader grammar: `ityb` 0, the encoded angular momentum that decodes to the shell's own, `ng` primitives, and scale `1.0`. The written reader patterns reject it. |
| CrystalWriter.FixedFields | basis_set_exchange/writers/crystal.py:104-108 | The constant fields `0` and `1.0` are tokens of the number grammar that the reader accepts, and `0` is no `[1-9]+` field. |
| LibmolReader.LastColon | basis_set_exchange/readers/libmol.py:13 | Gives the position of the last `:` token, or -1 when there is none. No later token is a colon. |
| LibmolReader.EntryIsNoHeader | basis_set_exchange/readers/libmol.py:13-15 | A data line is never a shell header, so the loop condition of line 31 is false on it. |
| LibmolReader.HeaderOf | basis_set_exchange/readers/libmol.py:13 | A header carries at least one contraction range. |
| LibmolReader.PieceValuesSpec | basis_set_exchange/readers/libmol.py:57 | `int` succeeds on every piece exactly when every piece is a digit run, and then gives each piece's value. Otherwise it raises `ValueError`. |
| LibmolReader.ParseRangeOfDotted | basis_set_exchange/readers/libmol.py:56-57 | The range `s.e` parses to `[int(s), int(e)]`. |
| LibmolReader.ParseRangeOfNats | basis_set_exchange/readers/libmol.py:56-57 | The text of `m.n` parses back to `[m, n]`. |
| LibmolReader.ParseRangesAt | basis_set_exchange/readers/libmol.py:56-57 | When all ranges parse, entry `i` is range `i` parsed alone. |
| LibmolReader.RangeTotal | basis_set_exchange/readers/libmol.py:68-69 | The width sum exists exactly when every range has at least two pieces. |
| LibmolReader.ToRead | basis_set_exchange/readers/libmol.py:66-69 | The count of values to read exists exactly when every range has two pieces. |
| LibmolReader.CountToRead | basis_set_exchange/readers/libmol.py:66-69 | The counting loop gives `nprim` plus the widths `end - start + 1`. A range with one piece raises `IndexError`, as `r[1]` does. |
| LibmolReader.RangeTotalErrIsIndex | basis_set_exchange/readers/libmol.py:69 | The only way the range sum fails is `IndexError`. |
| LibmolReader.NormalizedFacts | basis_set_exchange/readers/libmol.py:78 | Every normalised value contains a point. A value keeps its text exactly when it had a point, and otherwise gains `.0`. |
| LibmolReader.Collect | basis_set_exchange/readers/libmol.py:72-80 | Reading stops at a line within the file, with at least `need` values. When nothing is needed, it stays on the starting line. |
| LibmolReader.CollectLast | basis_set_exchange/readers/libmol.py:74-76 | When values are needed, the cursor ends on a data line. |
| LibmolReader.CollectDotted | basis_set_exchange/readers/libmol.py:78 | Every collected value contains a decimal point. |
| LibmolReader.ReadValues | basis_set_exchange/readers/libmol.py:71-80 | The data loop gives the values and final cursor that `Collect` specifies, or the same error. |
| LibmolReader.ContractionsSlices | basis_set_exchange/readers/libmol.py:85-104 | Contraction `k` is the slice of the raw data at the running offset, padded to its range. |
| LibmolReader.ContractionsPrefix | basis_set_exchange/readers/libmol.py:85-104 | After `n` iterations, contraction `k < n` is already the padded slice for range `k`. |
| LibmolReader.PaddedSlice | basis_set_exchange/readers/libmol.py:92-101 | The padded vector is the `nentries` values at the offset, with zeros before `start` and after `end`. |
| LibmolReader.BuildContractions | basis_set_exchange/readers/libmol.py:85-104 | The `range(ncontr)` loop gives the contraction vectors that the specification defines, one per range. |
| LibmolReader.ShellAt | basis_set_exchange/readers/libmol.py:31-36 | A header on the last line raises `IndexError` when the comment line is read. Otherwise the shell is read from the line after the header. |
| LibmolReader.ShellBody | basis_set_exchange/readers/libmol.py:35-116 | No primitives, no contractions, or a range count different from `ncontr` raise `AssertionError`. Otherwise a shell has one vector per contraction, an empty region, and the angular momentum and element of its header. Its function type is `gto` below d and `gto_spherical` otherwise. It keeps at most `nprim` exponents, exactly `nprim` whenever the range widths are not negative. |
| LibmolReader.ShellBodyContents | basis_set_exchange/readers/libmol.py:71-104 | A read shell's exponents are the first `nprim` values of the collected stream, and its vectors are the contractions cut from that same stream. The cursor is left where the value collection stopped. |
| LibmolReader.ShellBodyLast | basis_set_exchange/readers/libmol.py:74-76 | After a shell, the cursor is on the comment line or on a data line. |
| LibmolReader.ReadSpec | basis_set_exchange/readers/libmol.py:149-155 | Empty input gives the empty dictionary, and a first line that is no header raises `AssertionError`. Every result is well formed. |
| LibmolReader.OnlyFirstShell | basis_set_exchange/readers/libmol.py:31-76 | As written, once a shell has consumed data lines the element loop ends: the dictionary holds exactly that first shell, whatever lines follow. |
| LibmolReader.ParseFromIntended | basis_set_exchange/readers/libmol.py:31-116 | The corrected loop, which resumes after the last data line, gives well-formed dictionaries. |
| LibmolReader.ShellAtBounds | basis_set_exchange/readers/libmol.py:33-80 | Reading a shell moves the cursor strictly forward and keeps it within the file. |
| LibmolReader.IntendedKeeps | basis_set_exchange/readers/libmol.py:31-116 | The corrected loop only adds keys and appends shells. The earlier keys stay at the head of the key order, and each element's earlier shells stay at the head of its list. |
| LibmolReader.IntendedReadsShell | basis_set_exchange/readers/libmol.py:31-116 | In the corrected loop, the shell of the header under the cursor is stored under its element, right after the shells that element already had. |
| LibmolReader.IntendedReadsNextShell | basis_set_exchange/readers/libmol.py:31-116 | In the corrected loop, a header that follows the first shell's data is read too. Each shell lands right after the shells its element already had, so two shells of one element are stored one after the other. |
| LibmolReader.ReadShell | basis_set_exchange/readers/libmol.py:33-116 | Reading a header gives the specified shell and cursor. The in-place dictionary has gained the element's entry, nothing else. |
| LibmolReader.ReadShellBody | basis_set_exchange/readers/libmol.py:35-116 | Reading the shell body gives the specified shell and cursor, and the element's entry is created. |
| LibmolReader.ParseElectronLines | basis_set_exchange/readers/libmol.py:20-116 | A first line that is no header raises `AssertionError`. Otherwise the in-place dictionary becomes the loop specification's result, and the method fails exactly when that specification fails. |
| LibmolReader.ReadLibmol | basis_set_exchange/readers/libmol.py:130-157 | The fresh dictionary equals the reader specification's result, and the method fails exactly when the specification fails. |
| LibmolWriter.Upper | basis_set_exchange/writers/libmol.py:37 | Upper-casing keeps the length. |
| LibmolWriter.Lower | basis_set_exchange/writers/libmol.py:42 | Lower-casing keeps the length. |
| LibmolWriter.HarmonicType | basis_set_exchange/writers/libmol.py:20-22 | The first line is `cartesian` exactly when `gto_cartesian` is among the function types, and `spherical` otherwise. |
| LibmolWriter.RangeTokenAt | basis_set_exchange/writers/libmol.py:50-52 | Range token `k` is `first+1.last+1` of the non-zero range of coefficient vector `k`. |
| LibmolWriter.SliceAt | basis_set_exchange/writers/libmol.py:53 | Data slice `k` is vector `k` from `first` through `last`. |
| LibmolWriter.DataLines | basis_set_exchange/writers/libmol.py:61-63 | One output line per row of five values. |
| LibmolWriter.ShellText | basis_set_exchange/writers/libmol.py:38-63 | A shell block fails exactly when the element's name is unknown, with `LookupError`. |
| LibmolWriter.ElectronElements | basis_set_exchange/writers/libmol.py:25 | Every selected entry is an element of the dictionary with its key and its electron shells. The selection is empty exactly when no element has shells. |
| LibmolWriter.ElectronElementsComplete | basis_set_exchange/writers/libmol.py:25 | Every element that carries electron shells is selected, with its key and shells. |
| LibmolWriter.ElectronElementsConcat | basis_set_exchange/writers/libmol.py:25 | The selection keeps dictionary order: selecting from two consecutive parts of the dictionary gives the first part's selection followed by the second's. |
| LibmolWriter.ElectronElementsSingle | basis_set_exchange/writers/libmol.py:25 | A single element is selected, with its key and shells, exactly when it has electron shells. |
| LibmolWriter.LibmolText | basis_set_exchange/writers/libmol.py:20-68 | The text starts with the harmonic-type line. With no electron elements it is exactly that line and always succeeds; otherwise `basis={` follows it. |
| LibmolWriter.CollectRanges | basis_set_exchange/writers/libmol.py:48-53 | The range loop gives the space-prefixed range tokens and the exponents followed by every vector's slice. |
| LibmolWriter.WriteRows | basis_set_exchange/writers/libmol.py:61-63 | The row loop gives the text of the five-per-line data lines. |
| LibmolWriter.WriteShell | basis_set_exchange/writers/libmol.py:38-63 | One shell iteration gives the specified header, comment and data lines, or `LookupError`. |
| LibmolWriter.WriteShells | basis_set_exchange/writers/libmol.py:38-63 | The shell loop gives the concatenation of every shell block of the element. |
| LibmolWriter.ElectronElementsIgnoreEcp | basis_set_exchange/writers/libmol.py:25-28 | The electron-element selection depends only on keys and electron shells, not on ECP fields. |
| LibmolWriter.EcpNotWritten | basis_set_exchange/writers/libmol.py:66-68 | ECP data never reaches the output: two bases that differ only in ECP fields give the same text. |
| LibmolWriter.WriteLibmol | basis_set_exchange/writers/libmol.py:11-68 | The writer gives the specified text. |
| LibmolRoundTrip.RangeTokenReads | basis_set_exchange/writers/libmol.py:52 | The written `first+1.last+1` token is a single range token and parses back to `[first + 1, last + 1]`. |
| LibmolRoundTrip.HeaderReads | basis_set_exchange/writers/libmol.py:56 | The written header line is a reader header and gives back symbol, angular-momentum letter, `nprim`, `ncontr` and range tokens. |
| LibmolRoundTrip.CountsRestore | basis_set_exchange/writers/libmol.py:47-53 | The reader's count of values to read equals the number of coefficients written. Slicing and padding restore every vector. |
| LibmolRoundTrip.RangesRestore | basis_set_exchange/writers/libmol.py:48-56 | The written range tokens parse, their width sum is the number of written coefficients, and the contraction vectors rebuilt from them are the shell's. |
| LibmolRoundTrip.VectorRestores | basis_set_exchange/writers/libmol.py:53 | A vector that is zero outside its range is rebuilt exactly from its written slice. |
| LibmolRoundTrip.ContractionsRestore | basis_set_exchange/writers/libmol.py:50-53 | All written slices together rebuild the whole coefficient list. |
| LibmolRoundTrip.ValuesRead | basis_set_exchange/writers/libmol.py:61-63 | The reader's data loop collects exactly the written values and stops on the last written data line. |
| LibmolRoundTrip.ShellRoundTrip | basis_set_exchange/writers/libmol.py:38-63 | A shell block written by the writer is read back by the reader as the same angular momentum, exponents and coefficients, with the reader's function type. The cursor ends on the block's last line. |
| MolproReader.ContractionIsNoShell | basis_set_exchange/readers/molpro.py:17-19 | A contraction line is never a shell line. |
| MolproReader.DigitRun | basis_set_exchange/readers/molpro.py:19 | The leading run of digits is maximal. |
| MolproReader.RangeCutGreedy | basis_set_exchange/readers/molpro.py:19 | A range token is cut with digits on both sides, at the rightmost such cut, which is the one the greedy `start` group takes. |
| MolproReader.ContractionSpec | basis_set_exchange/readers/molpro.py:65-87 | A contraction line succeeds if and only if it has `end - start + 1` coefficients and `1 <= start`, `end <= nprim`, and otherwise raises `AssertionError`. Its vector has `nprim` entries with the coefficients at `start..end` and zeros elsewhere. |
| MolproReader.ContractionsFrom | basis_set_exchange/readers/molpro.py:61-92 | The contraction loop stops on a line after the shell line and within the file. |
| MolproReader.ContractionsFromCount | basis_set_exchange/readers/molpro.py:61-92 | There is one vector per contraction line read, and the loop stops at the first line that is no contraction line. |
| MolproReader.ContractionsFromAt | basis_set_exchange/readers/molpro.py:61-92 | Every line the loop passed is a contraction line, and its vector is the one that line parses to. |
| MolproReader.ContractionsFromPadded | basis_set_exchange/readers/molpro.py:79-87 | Every vector read has exactly `nprim` entries. |
| MolproReader.ContractionLength | basis_set_exchange/readers/molpro.py:87 | A contraction that parses has exactly `nprim` entries. |
| MolproReader.PadWithZeros | basis_set_exchange/readers/molpro.py:78-82 | The in-place padding gives the padded vector. |
| MolproReader.ReadContraction | basis_set_exchange/readers/molpro.py:63-89 | One contraction line gives its specified vector or `AssertionError`. |
| MolproReader.ReadContractions | basis_set_exchange/readers/molpro.py:59-92 | The `while True` loop gives the specified vectors and stop line, or the same error. |
| MolproReader.ShellAt | basis_set_exchange/readers/molpro.py:35-104 | A shell read moves the cursor past the shell line and keeps it within the file. |
| MolproReader.ShellAtSpec | basis_set_exchange/readers/molpro.py:35-104 | A shell has the exponents of its line and one `nprim`-long vector per contraction line. Its element is the symbol's, its region is empty, and its angular momentum comes from its letter. Its type is `gto` exactly below d. Reading resumes at the first line that is no contraction line. |
| MolproReader.ReadShell | basis_set_exchange/readers/molpro.py:35-104 | Reading a shell gives the specified shell and cursor, and only creates the element's entry. |
| MolproReader.ParseFrom | basis_set_exchange/readers/molpro.py:35-104 | The shell loop gives well-formed dictionaries. |
| MolproReader.ReadSpec | basis_set_exchange/readers/molpro.py:138-144 | Every dictionary the reader gives is well formed. |
| MolproReader.ReadSpecStart | basis_set_exchange/readers/molpro.py:31-33 | Empty input gives the empty dictionary, and a single line raises `IndexError`. A second line that is no shell line raises `AssertionError`. |
| MolproReader.ParseFromPadded | basis_set_exchange/readers/molpro.py:35-104 | The shell loop keeps every stored shell padded: each vector has one entry per exponent. |
| MolproReader.AppendPadded | basis_set_exchange/readers/molpro.py:104 | Storing a padded shell keeps the dictionary padded. |
| MolproReader.ReadSpecPadded | basis_set_exchange/readers/molpro.py:79-87 | Every shell the reader returns has vectors of one entry per exponent. |
| MolproReader.ParseElectronLines | basis_set_exchange/readers/molpro.py:24-104 | Fewer than two lines raise `IndexError`, and a second line that is no shell line raises `AssertionError`. Otherwise the in-place dictionary becomes the loop specification's result. |
| MolproReader.ReadMolpro | basis_set_exchange/readers/molpro.py:119-146 | The fresh dictionary equals the reader specification's result, and the method fails exactly when the specification fails. |
| StableSort.LexLessTotal | bse/io.py:76 | Python's `<` on integer lists is total: two keys are equal or one is less. |
| StableSort.ScalarKeys | bse/io.py:35 | On position keys, the order is the order of the integers. |
| StableSort.SortByPermutes | bse/io.py:76 | Sorting is a permutation: the same elements with the same multiplicities. |
| StableSort.SortBySorted | bse/io.py:76 | After sorting, no key is less than a key before it. |
| StableSort.SortByStable | bse/io.py:76 | Sorting is stable: the elements sharing a key keep their order. |
| StableSort.SortByOfSorted | bse/io.py:35 | Sorting an already sorted sequence returns it unchanged. |
| JsonValue.Set | bse/io.py:63 | After `d[k] = v`, the key is present with value `v`. |
| JsonValue.SetOther | bse/io.py:68-69 | Assigning one key keeps every other key's presence and value. |
| JsonValue.Iterate | bse/io.py:42 | Iterating a list yields its items, and only an integer cannot be iterated. |
| BseIo.NameRank | bse/io.py:35 | `keyorder.index` finds the key's position, and fails exactly when the key is not listed. |
| BseIo.RankOrder | bse/io.py:22-33 | A name is ranked exactly when it is in `keyorder`, and an integer exactly when it lies in `0..149`. Every name comes before every element number, and numbers are in numeric order. |
| BseIo.SortedMembers | bse/io.py:35 | Sorting the items keeps their number and yields only items of the dictionary. |
| BseIo.SortBasisDict | bse/io.py:15-44 | The recursive sort gives the specified dictionary or `ValueError`. |
| BseIo.SortEntryValue | bse/io.py:38-42 | One value of the loop is re-sorted as specified: dictionaries recursively, and the `elementElectronShells` list item by item. |
| BseIo.ResortFromAt | bse/io.py:38-42 | The value loop keeps every key and position. It leaves earlier entries as they are and replaces each later value by its sorted form. |
| BseIo.SortedDictKeepsPairs | bse/io.py:35-42 | Every item of the input appears in the output under its key, with its value re-sorted. |
| BseIo.SortedDictFromPairs | bse/io.py:35-42 | Every item of the output comes from an item of the input. |
| BseIo.SortedDictKeepsOthers | bse/io.py:38-42 | An item whose value is not a dictionary, under a key other than `elementElectronShells`, is kept unchanged. |
| BseIo.SortedDictOrdered | bse/io.py:35-36 | The output's keys follow `keyorder`. |
| BseIo.UnknownKeyRaises | bse/io.py:35 | A key that is not in `keyorder` raises `ValueError`. |
| BseIo.SortedShellsItems | bse/io.py:41-42 | The shell list keeps its length, and item `m` becomes the sorted dictionary of item `m`. |
| BseIo.SortedDictIdempotent | bse/io.py:15-44 | Sorting a sorted dictionary changes nothing. |
| BseIo.ExtendList | bse/io.py:61-64 | The extend step gives the specified dictionary or error. |
| BseIo.CopyEcp | bse/io.py:65-69 | The ECP step gives the specified dictionary or error. |
| BseIo.MergeSource | bse/io.py:58-73 | One source is merged as specified. |
| BseIo.SortShellList | bse/io.py:76 | The final sort gives the specified dictionary or error. |
| BseIo.MergeElementData | bse/io.py:53-78 | The merge gives the result of the fold over the sources followed by the shell sort. |
| BseIo.ExtendedItems | bse/io.py:61-64 | Extending a list appends the source's items and leaves every other key as it was. |
| BseIo.FoldedItems | bse/io.py:58-73 | After the loop, the shells and the references are the destination's items followed by every source's items, in source order. |
| BseIo.FoldedOther | bse/io.py:58-73 | A key that no source writes is as it was in the destination. |
| BseIo.MergedShells | bse/io.py:61-76 | The merged shells are the stable sort, by angular momentum, of the destination's shells followed by every source's shells. |
| BseIo.MergedShellsOrder | bse/io.py:76 | The merged shells are a permutation of all input shells, sorted by angular momentum. Shells with equal angular momentum keep their input order. |
| BseIo.MergedReferences | bse/io.py:70-73 | The merged references are the destination's followed by every source's, unsorted. |
| BseIo.MergedKeepsOthers | bse/io.py:56 | Every key other than shells, ECP, ECP electrons and references is copied from the destination. |
| BseIo.MergedKeepsEcp | bse/io.py:56-69 | When no source has an ECP, the destination's ECP fields are kept. |
| BseIo.MergedWithoutShells | bse/io.py:76 | With no shells anywhere the merge fails. When the loop itself succeeds, it fails with `KeyError`. |
| BseIo.EcpClash | bse/io.py:65-67 | A source bringing an ECP into a dictionary that already has one raises `RuntimeError`. |
| BseIo.MergedEcpUnique | bse/io.py:65-67 | In a successful merge, at most one of the destination and the sources has an ECP. |
| BseIo.MergedEcpCopied | bse/io.py:68-69 | The ECP of a source, and its ECP electron count, are copied to the result unchanged. |
| V0Compare.TrimStart | tests/test_v0_bse.py:37 | Removes exactly the leading whitespace. |
| V0Compare.TrimEnd | tests/test_v0_bse.py:37 | Removes exactly the trailing whitespace. |
| V0Compare.Strip | tests/test_v0_bse.py:37 | The result has whitespace at neither end, and a stripped line comes back unchanged. |
| V0Compare.Collapse | tests/test_v0_bse.py:40 | Collapsing never lengthens a line and keeps its first and last characters. |
| V0Compare.CollapseNoDoubleSpace | tests/test_v0_bse.py:40 | After collapsing, no two spaces are adjacent. |
| V0Compare.CollapseFixed | tests/test_v0_bse.py:40 | A line without double spaces is unchanged. |
| V0Compare.CollapseIdempotent | tests/test_v0_bse.py:40 | Collapsing twice is collapsing once. |
| V0Compare.CollapseKeepsText | tests/test_v0_bse.py:40 | Collapsing removes only spaces: every other character stays, in order. |
| V0Compare.StripThenCollapse | tests/test_v0_bse.py:37-40 | A normalised line has no surrounding whitespace and no double spaces. |
| V0Compare.SplitSpaces | tests/test_v0_bse.py:72-73 | Splitting at runs of spaces always gives at least one piece. |
| V0Compare.SplitSpacesCollapse | tests/test_v0_bse.py:72-73 | Splitting at runs of spaces is splitting the collapsed line at single spaces. |
| V0Compare.SplitSpacesPieces | tests/test_v0_bse.py:72 | No piece contains a space. |
| V0Compare.SplitOnPieces | tests/test_v0_bse.py:48 | No piece of a split contains the pattern. |
| V0Compare.ReplaceIsJoin | tests/test_v0_bse.py:48 | `replace` is splitting at the pattern and joining with the substitute. |
| V0Compare.ReplaceAbsent | tests/test_v0_bse.py:48 | Replacing an absent pattern changes nothing. |
| V0Compare.ReplaceRemoves | tests/test_v0_bse.py:48 | When pattern and substitute cannot start inside each other, no occurrence of the pattern is left. |
| V0Compare.ReplaceAllAbsent | tests/test_v0_bse.py:47-48 | A line with none of the old symbols is unchanged by the whole renaming loop. |
| V0Compare.SymbolShape | tests/test_v0_bse.py:32-34 | Every pair renames a systematic `Uu?` symbol to a two-letter symbol not starting with `U`. |
| V0Compare.SymbolMapRenames | tests/test_v0_bse.py:32-34 | Every old symbol is non-empty, so every replacement is defined. |
| V0Compare.RenameRemoves | tests/test_v0_bse.py:47-48 | After one rename step, its old symbol is absent. |
| V0Compare.ExponentMatch | tests/test_v0_bse.py:51 | A match of `(\d)D([+-]?)(\d)` is 3 or 4 characters long: a digit, `D`, an optional sign and a digit. |
| V0Compare.DToE | tests/test_v0_bse.py:51 | The substitution keeps the line's length. |
| V0Compare.DToEChanges | tests/test_v0_bse.py:51 | Only a `D` between a digit and an optionally signed digit can change, and only to `E`. |
| V0Compare.DToEReplaces | tests/test_v0_bse.py:51 | Such a `D` that no earlier match overlaps does become `E`. |
| V0Compare.DToENotOverlapping | tests/test_v0_bse.py:51 | Matches do not overlap: `1D1D1` becomes `1E1D1`. |
| V0Compare.DToEWithoutD | tests/test_v0_bse.py:51 | A line without `D` is unchanged. |
| V0Compare.ProcessNwLine | tests/test_v0_bse.py:36-53 | The method computes the normalised line: strip, collapse, rename, then `D` to `E`. |
| V0Compare.ReplaceEach | tests/test_v0_bse.py:47-48 | The renaming loop applies each pair in order. |
| V0Compare.NwLinePlain | tests/test_v0_bse.py:36-53 | A line with no old symbol and no `D` is only stripped and collapsed. |
| V0Compare.CollapseKeepsOut | tests/test_v0_bse.py:40 | Collapsing introduces no character that was absent. |
| V0Compare.StripKeepsOut | tests/test_v0_bse.py:37 | Stripping introduces no character that was absent. |
| V0Compare.KeptLinesMember | tests/test_v0_bse.py:61 | A line survives the filter exactly when it is in the input, non-empty and not a comment. |
| V0Compare.ProcessNwchemAppend | tests/test_v0_bse.py:56-63 | Processing distributes over concatenation of files. |
| V0Compare.ProcessNwchemMember | tests/test_v0_bse.py:56-63 | A line is in the output exactly when it is the normalised form of some input line and is neither empty nor a comment. |
| V0Compare.LinesEquivalent | tests/test_v0_bse.py:66-89 | The method answers `true` exactly when the lines are identical, or have the same number of space-separated tokens and each token pair matches as numbers or as text. |
| V0Compare.TokenCountsDiffer | tests/test_v0_bse.py:75-76 | Different token counts make lines inequivalent. |
| V0Compare.EquivalentSymmetric | tests/test_v0_bse.py:66-89 | With a symmetric float comparison, equivalence is symmetric. |
| V0Compare.SpacingIgnored | tests/test_v0_bse.py:66-89 | Lines that differ only in runs of spaces are equivalent, provided that none of their numeric tokens compares unequal to itself (no NaN). |
| V0Compare.NaNBreaksSpacing | tests/test_v0_bse.py:66-89 | Two different lines with the same tokens are not equivalent when one numeric token compares unequal to itself, as a NaN does under float `!=`. |

## Left out

- File reading, `helpers.prune_lines` and the regular-expression tokenisation of a line reach the model already done. A line is a sequence of tokens, and the header and shell patterns are predicates on those tokens. Leading and trailing whitespace inside a regex and the exact `\w` character class are not modelled. Whitespace is ASCII space, tab, newline, carriage return, vertical tab and form feed; digits are ASCII `0-9`. Python's other Unicode whitespace (used by `str.strip()` and `str.split()`) and Unicode digits (matched by `\d` and accepted by `int()`) are not modelled.
- The helpers not shown in this repository's source are parameters (`CrystalHelpers`, `LibmolHelpers`, `MatrixWriter`, `Lookup`): `parse_primitive_matrix`, `replace_d` and float parsing of the scale factors, `'{:.16E}'` rendering, `function_type_from_am`, `printing.write_matrix`, `find_range`, `misc.contraction_string` and the `lut` lookups. `partition_lines` and `reshape` are defined in the model, following the contracts the library documents for them.
- `helpers.create_element_data` is modelled as "create the entry when the key is absent, keep it otherwise". The CRYSTAL reader calls it unconditionally, so a key repeated across sections keeps its earlier shells here.
- Floating point is not modelled: exponents and coefficients stay text, and scale factors are `real`s produced by a parameter.
- The `manip.uncontract_*`, `manip.make_general` and `sort.sort_basis` preprocessing in both writers is not part of this model. The writers take the already processed element list.
- The debugging `print` calls of the CRYSTAL writer and the molpro reader are output only and are left out.
- The unreachable ECP section of the libmol writer (after the `return` of line 68) and the empty `_parse_ecp_lines` stubs of the libmol and molpro readers are not modelled; `LibmolWriter.EcpNotWritten` states the visible consequence.
- The loops in `read_libmol` and `read_molpro` that assign a local `_func_type` have no effect on the result, since the assignment is to a new local variable. The model uses the module default `gto_spherical`.
- `merge_element_data`'s result is a shallow copy: extending a list also changes the destination's list. The model works on values, so that aliasing is not captured.
- JSON floats, booleans and null are not values of `JsonValue.Json`; dictionary keys are strings, or integers under `basisSetElements`.
- BseIo.MergedShellsOrder: shells whose `shellAngularMomentum` is not a list of integers make the model's sort fail with `TypeError`, where Python might still compare some mixed values.
- LibmolReader.PieceValuesSpec: Python's `int` also accepts `+`, surrounding whitespace and `_` separators. The model accepts digit runs only.
- LibmolRoundTrip.ShellRoundTrip: the round trip is stated for one shell block, not for a whole file. The reader asserts that line 0 is a shell header, but the writer's line 0 is the harmonic type.
- V0Compare.RenameRemoves: it is stated for a single renaming step. Later steps do not reintroduce an old symbol because no new symbol contains `U`, but the whole-loop statement is only `ReplaceAllAbsent`.
- V0Compare.LinesEquivalent: `float()` parsing and its comparison are the parameters `toNumber` and `differ`.
- The test driver around the helpers (file loading, the version-0 map, pytest parametrisation) is not part of this model.
- CrystalWriter.ShellText: the text of the primitive matrix comes from the `MatrixWriter` parameter, so its contract states which matrix and which precision are written, not the characters of that text.

## Findings

| source | as written | input that shows it | evidently intended | confidence | as-written member | corrected member |
|---|---|---|---|---|---|---|
| basis_set_exchange/readers/crystal.py:6-28 | `element_re` and `shell_re` accept only the digits 1-9 in their integer fields, so `ityb` is at least 1 and the assertion `ityb == 0` of line 28 fails for every shell. In addition, `scaling_factors` (line 46) and `nprim` (line 69) are never bound. | The writer's own descriptor `0 0 3 0 1.0` is rejected by `shell_re`. A line `1 1 3 1 1.0` matches but fails the assertion. | Digit fields `\d+`, the scale factors taken from the fifth field, and `nprim` from the third (`ng`). | not executed | CrystalReader.ReadCrystalAsWrittenFails | CrystalReader.ShellIntendedContents |
| basis_set_exchange/readers/libmol.py:31-76 | After the data loop, `iline` stays on the last data line read (lines 75-76). The loop test of line 31 rejects that line, so only the first shell of a file is read. | Two shells, each a header, a comment and data rows: the dictionary holds only the first shell. | Advance past the last data line before testing for the next header. | not executed | LibmolReader.OnlyFirstShell | LibmolReader.IntendedReadsNextShell |

`CrystalReader.ReadCrystal` and `ParseElectronLines` take the grammar as a parameter. The model proves them correct for both the written and the corrected patterns. The writer's read-back property (`CrystalWriter.DescriptorReadBack`) is stated under the corrected grammar.

`LibmolReader.ReadLibmol` models the code as written. The corrected loop is `LibmolReader.ParseFromIntended`, with `IntendedKeeps` and `IntendedReadsShell` proved about it. The shell-level round trip (`LibmolRoundTrip.ShellRoundTrip`) holds under both loops.
