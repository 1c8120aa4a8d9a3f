# SpikeGLX metadata to Kilosort channel map, in Dafny

`ks_cmap_to_mat` reads a SpikeGLX `.meta` file and writes the channel map
that Kilosort loads as a "Probe Layout". This project models the pipeline
behind it:

- `readMeta` turns the metadata lines into a dictionary. Each line is split
  on every `=`. Field 0, with one leading `~` removed, is the key, and
  field 1 is the value. A later line with the same key overwrites an
  earlier one.
- `ChannelCountsIM` reads the AP, LF and SY channel counts from comma
  fields 0 to 2 of `snsApLfSy`.
- `geomMapToGeom` splits `snsGeomMap` on `)`:
  - piece 0 is the header `(tag,nShank,pitch,width`;
  - every piece between the header and the last one is a record
    `(shank:x:y:connected`;
  - the last piece is dropped by counting.
- `CoordsToKSChanMap` builds the dictionary that would be saved:
  - 0- and 1-based channel indices;
  - `connected` as booleans;
  - x shifted by shank index times shank separation;
  - y unchanged;
  - 1-based shank numbers.
  It saves nothing when `connected` cannot be reshaped to one row per channel.
- `main` chains these steps:
  - it asserts that the file exists;
  - the channel count is the AP count;
  - the header's pitch, not its width, is the shank separation;
  - the map is named after the file's stem and placed beside the file.

Modules:

- `Results` (results.dfy) holds the exceptions as a `Result` type, and a
  first-error fold for loops that stop at the first exception.
- `Strings` (strings.dfy) holds Python's `str.split` for a one-character
  separator, with `join` as its inverse.
- `Numbers` (numbers.dfy) holds `int()` and `float()` on decimal text, with
  exact values, and `str()` of an integer.
- `KsHelpers` (ks_helpers.dfy) models the four helpers. `readMeta` and
  `geomMapToGeom` are imperative methods: a loop that updates a dictionary,
  and four preallocated arrays filled in a loop. Each method is proved equal
  to a specification function (`MetaOf`, `GeomOf`), and the lemmas are
  about those functions.
- `KsCmapToMat` (ks_cmap_to_mat.dfy) models `main` as a function, with
  end-to-end lemmas. One of them works through a small two-shank probe:
  - two shanks 250 apart;
  - channels (0,0,0,1), (1,10,20,0) and (0,5,5,1);
  - resulting xcoords 0, 260, 5 and kcoords 1, 2, 1.

The file system is modelled through parameters: whether the metadata file
exists, its lines, its stem and its parent directory. The result of a run
is either the Python exception it raises or a `SaveOutcome`, which is the
target path plus the dictionary `savemat` would receive, or `NotSaved`.

Behaviours of the code worth knowing, all modelled as the code has them:

- The docstring of `readMeta` speaks of removing any leading `~`
  characters, but the code removes exactly one: `~~k` is stored as `~k`.
- The stored value is the text between the first and the second `=`. Any
  later `=`-separated text is dropped.
- An empty line and a line starting with `=` fail with an IndexError, from
  `csList[0][0]`. A line without `=` fails the same way, from `csList[1]`.
- Extra comma fields in `snsApLfSy` and extra colon or comma fields in
  `snsGeomMap` are ignored.
- There is no check that `connected` is 0 or 1: any value other than 1
  reads as not connected.
- There is no dedicated channel-count mismatch error. The only guard is the
  early return when `connected` cannot be reshaped, so a mismatch saves
  nothing and raises nothing.
- A missing metadata file fails `main`'s assertion. `readMeta` alone would
  return the empty dictionary.
- A map without any `)` fails in `np.zeros` with a negative length
  (`NegativeDimension`), before any record is read.
- The message printed after a run names `<stem>_ksChanMap.mat`, but the
  file that would be written is `<stem>_kilosortChanMap.mat`.
- Records are read before the header, so a bad record wins over a bad header.

## Model

| member | source | states |
|---|---|---|
| Results.AllOk | ks_cmap_to_mat/ks_cmap_to_mat/ks_helpers.py:72-80 | the record loop, stopping at the first exception: when no record raises, it yields one value per record (what those values are is stated by AllOkSpec) |
| Results.AllOkErrorPersists | ks_cmap_to_mat/ks_cmap_to_mat/ks_helpers.py:72-80 | once one record raises, the later records do not change the outcome |
| Results.AllOkSpec | ks_cmap_to_mat/ks_cmap_to_mat/ks_helpers.py:72-80 | a record loop yields values `vs` exactly when there are n of them and record i produced `vs[i]`, for every i |
| Results.AllOkIff | ks_cmap_to_mat/ks_cmap_to_mat/ks_helpers.py:72-80 | a record loop finishes without an exception exactly when no record raises |
| Strings.Split | ks_cmap_to_mat/ks_cmap_to_mat/ks_helpers.py:25 | `str.split(sep)` always returns at least one piece, `[""]` for the empty text |
| Strings.DropFirst | ks_cmap_to_mat/ks_cmap_to_mat/ks_helpers.py:75 | `s[1:len(s)]` drops exactly the first character, and gives the empty text for the empty text |
| Strings.IndexOf | ks_cmap_to_mat/ks_cmap_to_mat/ks_helpers.py:25 | returns the position of the first occurrence of the character; no earlier position holds it |
| Strings.SplitFirstPiece | ks_cmap_to_mat/ks_cmap_to_mat/ks_helpers.py:25 | a text without the separator splits into itself; otherwise the first piece is the text before the first separator, and the remaining pieces are the split of the rest |
| Strings.SplitNoSeparator | ks_cmap_to_mat/ks_cmap_to_mat/ks_helpers.py:25 | a text without the separator is a single piece |
| Strings.SplitAtFirst | ks_cmap_to_mat/ks_cmap_to_mat/ks_helpers.py:25 | `(a + sep + b).split(sep) == [a] + b.split(sep)` when `a` holds no separator |
| Strings.SplitPiecesAvoid | ks_cmap_to_mat/ks_cmap_to_mat/ks_helpers.py:60 | no piece of a split contains the separator |
| Strings.JoinSplit | ks_cmap_to_mat/ks_cmap_to_mat/ks_helpers.py:60 | joining the pieces with the separator gives back the text |
| Strings.SplitJoin | ks_cmap_to_mat/ks_cmap_to_mat/ks_helpers.py:60 | splitting a join of separator-free pieces gives back exactly those pieces |
| Strings.SplitCount | ks_cmap_to_mat/ks_cmap_to_mat/ks_helpers.py:60-65 | a split has one more piece than the text has separators |
| Strings.JoinAvoids | ks_cmap_to_mat/ks_cmap_to_mat/ks_helpers.py:60 | a character that is neither the separator nor in any piece is not in the join |
| Numbers.ParseInt | ks_cmap_to_mat/ks_cmap_to_mat/ks_helpers.py:48-50 | `int()` raises ValueError on a blank text, and a negative result comes from a leading `-` |
| Numbers.UnsignedReal | ks_cmap_to_mat/ks_cmap_to_mat/ks_helpers.py:78-79 | an unsigned decimal number is never negative, and the empty text is not one |
| Numbers.ParseReal | ks_cmap_to_mat/ks_cmap_to_mat/ks_helpers.py:78-79 | `float()` raises ValueError on a blank text, and a negative result comes from a leading `-` |
| Numbers.FormatNatDigits | ks_cmap_to_mat/ks_cmap_to_mat/ks_helpers.py:48-50 | `str(n)` of a natural number consists of digits only |
| Numbers.FormatIntChars | ks_cmap_to_mat/ks_cmap_to_mat/ks_helpers.py:48-50 | `str(n)` is digits, preceded by `-` exactly for negative `n` |
| Numbers.FormatIntAvoids | ks_cmap_to_mat/ks_cmap_to_mat/ks_helpers.py:47 | no separator such as `,` `:` `)` `=` occurs in `str(n)` |
| Numbers.FormatNatValue | ks_cmap_to_mat/ks_cmap_to_mat/ks_helpers.py:48-50 | the digits of `str(n)` have value `n` |
| Numbers.DigitsOnly | ks_cmap_to_mat/ks_cmap_to_mat/ks_helpers.py:78-79 | a text with a digit value contains only digits |
| Numbers.ParseIntFormat | ks_cmap_to_mat/ks_cmap_to_mat/ks_helpers.py:48-50 | `int(str(n)) == n` |
| Numbers.IntParsesAsReal | ks_cmap_to_mat/ks_cmap_to_mat/ks_helpers.py:78-79 | every text `int()` accepts, `float()` accepts, with the same value |
| Numbers.ParseRealFormat | ks_cmap_to_mat/ks_cmap_to_mat/ks_helpers.py:78-79 | `float(str(n)) == n` for an integer `n` |
| KsHelpers.CanonicalKey | ks_cmap_to_mat/ks_cmap_to_mat/ks_helpers.py:26-29 | the key is the left-hand side with exactly one leading `~` removed, or the left-hand side unchanged when it does not start with `~` |
| KsHelpers.ParseLine | ks_cmap_to_mat/ks_cmap_to_mat/ks_helpers.py:25-30 | a line raises only IndexError, and a line that parses is non-empty and does not start with `=` |
| KsHelpers.MetaOf | ks_cmap_to_mat/ks_cmap_to_mat/ks_helpers.py:18-30 | the dictionary the loop builds: empty for a file without lines, and IndexError is the only exception reading a file raises |
| KsHelpers.ReadMeta | ks_cmap_to_mat/ks_cmap_to_mat/ks_helpers.py:6-34 | for a missing file, the empty dictionary without parsing; otherwise the loop's dictionary or first exception equals `MetaOf(lines)` |
| KsHelpers.MetaErrorPersists | ks_cmap_to_mat/ks_cmap_to_mat/ks_helpers.py:24-30 | the first line that raises decides the outcome of the whole file |
| KsHelpers.ParseLineShape | ks_cmap_to_mat/ks_cmap_to_mat/ks_helpers.py:25-30 | for `raw=value[=tail]`: the key is `raw` with exactly one leading `~` removed, or `raw` unchanged; the value is the text between the first and second `=`; an empty `raw` raises IndexError |
| KsHelpers.ParseLineWithoutEquals | ks_cmap_to_mat/ks_cmap_to_mat/ks_helpers.py:25-30 | a line without `=`, the empty line among them, raises IndexError |
| KsHelpers.ParseLineOk | ks_cmap_to_mat/ks_cmap_to_mat/ks_helpers.py:25-30 | a line parses exactly when it contains `=` and does not start with `=` |
| KsHelpers.MetaOkIff | ks_cmap_to_mat/ks_cmap_to_mat/ks_helpers.py:24-30 | an existing file parses exactly when every line is well formed |
| KsHelpers.MetaKeys | ks_cmap_to_mat/ks_cmap_to_mat/ks_helpers.py:24-30 | the dictionary's keys are exactly the canonical keys of the lines |
| KsHelpers.LastWriteWins | ks_cmap_to_mat/ks_cmap_to_mat/ks_helpers.py:30 | a key's stored value is the value from the last line with that key |
| KsHelpers.IntField | ks_cmap_to_mat/ks_cmap_to_mat/ks_helpers.py:48-50 | `int(fields[i])` raises IndexError when field `i` does not exist, and ValueError on exactly that field's text when it does not parse |
| KsHelpers.RealField | ks_cmap_to_mat/ks_cmap_to_mat/ks_helpers.py:78-79 | the same for `float(fields[i])` |
| KsHelpers.IntFieldAt | ks_cmap_to_mat/ks_cmap_to_mat/ks_helpers.py:48-50 | `int(fields[i])` succeeds exactly when field i exists and parses, and then equals its value; a missing field raises IndexError and a bad one raises ValueError on that text |
| KsHelpers.RealFieldAt | ks_cmap_to_mat/ks_cmap_to_mat/ks_helpers.py:78-79 | the same for `float(fields[i])` |
| KsHelpers.ChannelCountsIM | ks_cmap_to_mat/ks_cmap_to_mat/ks_helpers.py:40-52 | without `snsApLfSy` it raises KeyError on that key |
| KsHelpers.ChannelCountsFields | ks_cmap_to_mat/ks_cmap_to_mat/ks_helpers.py:47-52 | the counts are read exactly when comma fields 0, 1 and 2 exist and are integers; they are returned as (AP, LF, SY) in that order, and further fields are ignored |
| KsHelpers.CountsFields | ks_cmap_to_mat/ks_cmap_to_mat/ks_helpers.py:47 | the first three comma fields of `AP,LF,SY` followed by any further fields are the three numbers' texts |
| KsHelpers.ChannelCountsRoundTrip | ks_cmap_to_mat/ks_cmap_to_mat/ks_helpers.py:47-52 | counts written as `AP,LF,SY[,...]` are read back as (AP, LF, SY) |
| KsHelpers.ParseEntry | ks_cmap_to_mat/ks_cmap_to_mat/ks_helpers.py:74-80 | a record raises only IndexError (too few colon fields) or ValueError (a field that does not parse) |
| KsHelpers.ParseEntryFields | ks_cmap_to_mat/ks_cmap_to_mat/ks_helpers.py:74-80 | a record parses exactly when its text after the first character has at least four colon fields, int, float, float, int; the entry holds those values in that order |
| KsHelpers.ParseHeader | ks_cmap_to_mat/ks_cmap_to_mat/ks_helpers.py:83-86 | the header raises only IndexError (too few comma fields) or ValueError (a field that does not parse) |
| KsHelpers.ParseHeaderFields | ks_cmap_to_mat/ks_cmap_to_mat/ks_helpers.py:83-86 | the header parses exactly when comma fields 1 to 3 exist and parse; nShank is field 1, pitch field 2, width field 3, and field 0 is ignored |
| KsHelpers.Records | ks_cmap_to_mat/ks_cmap_to_mat/ks_helpers.py:65-75 | there are `len(pieces) - 2` records, and record i is piece i+1 |
| KsHelpers.GeomOf | ks_cmap_to_mat/ks_cmap_to_mat/ks_helpers.py:55-88 | the four returned arrays have the same length |
| KsHelpers.Assemble | ks_cmap_to_mat/ks_cmap_to_mat/ks_helpers.py:72-88 | the four assembled arrays have the same length |
| KsHelpers.GeomMapToGeom | ks_cmap_to_mat/ks_cmap_to_mat/ks_helpers.py:55-88 | the method's result, arrays and exceptions included, equals `GeomOf(meta)` |
| KsHelpers.FillRecords | ks_cmap_to_mat/ks_cmap_to_mat/ks_helpers.py:67-80 | the loop stops at the first record that raises, with that record's error; otherwise the arrays hold the shank, x, y and connected columns of the records in file order |
| KsHelpers.AssembleOk | ks_cmap_to_mat/ks_cmap_to_mat/ks_helpers.py:72-88 | a geometry holds the header's nShank, pitch and width, and one entry per record in order |
| KsHelpers.AssembleOkIff | ks_cmap_to_mat/ks_cmap_to_mat/ks_helpers.py:72-88 | the geometry is built exactly when the header and every record parse |
| KsHelpers.AssembleRows | ks_cmap_to_mat/ks_cmap_to_mat/ks_helpers.py:72-88 | records that all parse, plus a good header, give the header's values and the records' columns |
| KsHelpers.GeomEntries | ks_cmap_to_mat/ks_cmap_to_mat/ks_helpers.py:60-86 | a parsed map has `len(pieces) - 2` entries, one fewer than its `)` count; entry i is read from piece i+1 and the header from piece 0 |
| KsHelpers.GeomOkIff | ks_cmap_to_mat/ks_cmap_to_mat/ks_helpers.py:60-88 | the map parses exactly when the key is present, there are at least two pieces, and the header and every middle piece parse |
| KsHelpers.GeomWithoutParenthesis | ks_cmap_to_mat/ks_cmap_to_mat/ks_helpers.py:65-67 | a map value without `)` fails with the negative-length error |
| KsHelpers.SiteFieldsAvoid | ks_cmap_to_mat/ks_cmap_to_mat/ks_helpers.py:76 | the texts of a channel's numbers contain no separator |
| KsHelpers.HeaderFieldsAvoid | ks_cmap_to_mat/ks_cmap_to_mat/ks_helpers.py:83 | the header's fields contain no separator that is absent from the tag |
| KsHelpers.SitePieceNoParenthesis | ks_cmap_to_mat/ks_cmap_to_mat/ks_helpers.py:60 | a written record contains no `)` |
| KsHelpers.HeaderPieceNoParenthesis | ks_cmap_to_mat/ks_cmap_to_mat/ks_helpers.py:60 | a written header contains no `)` |
| KsHelpers.GeomMapPieces | ks_cmap_to_mat/ks_cmap_to_mat/ks_helpers.py:60-65 | a written map splits on `)` into the header, one piece per channel and an empty trailing piece |
| KsHelpers.SiteRecords | ks_cmap_to_mat/ks_cmap_to_mat/ks_helpers.py:72-80 | every channel piece of a written map is read back as that channel |
| KsHelpers.SplitSitePiece | ks_cmap_to_mat/ks_cmap_to_mat/ks_helpers.py:75-76 | a written record, without its first character, splits on `:` into the channel's four numbers |
| KsHelpers.ParseSitePiece | ks_cmap_to_mat/ks_cmap_to_mat/ks_helpers.py:74-80 | a written record parses back as its channel |
| KsHelpers.SplitHeaderPiece | ks_cmap_to_mat/ks_cmap_to_mat/ks_helpers.py:83 | a written header splits on `,` into the tag and the three numbers |
| KsHelpers.ParseHeaderPiece | ks_cmap_to_mat/ks_cmap_to_mat/ks_helpers.py:83-86 | a written header parses back as (nShank, pitch, width) |
| KsHelpers.GeomRoundTrip | ks_cmap_to_mat/ks_cmap_to_mat/ks_helpers.py:55-88 | a written map is read back with the header's nShank, pitch and width, and every channel in file order |
| KsHelpers.CoordsToKSChanMap | ks_cmap_to_mat/ks_cmap_to_mat/ks_helpers.py:91-134 | it saves exactly when `connected` has one entry per channel, at `savePath/<baseName>_kilosortChanMap.mat` or at `savePath` itself; then, for each channel i, `chanMap0ind[i] == i`, `chanMap[i] == chanMap0ind[i] + 1`, `connected[i]` holds iff the flag is 1, `xcoords[i] == shankInd[i]*shankSep + x[i]`, `ycoords[i] == y[i]` and `kcoords[i] == shankInd[i] + 1`; `name` is `baseName` |
| KsCmapToMat.Arange | ks_cmap_to_mat/ks_cmap_to_mat/ks_cmap_to_mat.py:15 | `np.arange(AP)` has `max(AP, 0)` elements, element i being i |
| KsCmapToMat.Convert | ks_cmap_to_mat/ks_cmap_to_mat/ks_cmap_to_mat.py:8-17 | a missing file fails the assertion before anything is parsed; otherwise the first exception of reading the file, reading the counts or reading the geometry, in that order, ends the run; a saved map sits beside the metadata file, is named `<stem>_kilosortChanMap.mat`, and its `name` is the stem |
| KsCmapToMat.ConvertOkIff | ks_cmap_to_mat/ks_cmap_to_mat/ks_cmap_to_mat.py:11-16 | a run raises nothing exactly when the file exists and the reading, the counts and the geometry all succeed |
| KsCmapToMat.ConvertSavedIff | ks_cmap_to_mat/ks_cmap_to_mat/ks_cmap_to_mat.py:14-17 | a map is saved exactly when every step succeeds and the size of `np.arange(AP)` equals the number of geometry entries |
| KsCmapToMat.ConvertMismatch | ks_cmap_to_mat/ks_cmap_to_mat/ks_cmap_to_mat.py:14-17 | when the AP count differs from the number of geometry entries, the run raises nothing and saves nothing |
| KsCmapToMat.ConvertChanMap | ks_cmap_to_mat/ks_cmap_to_mat/ks_cmap_to_mat.py:14-17 | a saved map has one row per AP channel; x is shifted by shank index times the header's pitch, not its width; y, 1-based shank numbers and the connected flags come from the geometry in file order |
| KsCmapToMat.ConvertWithoutCounts | ks_cmap_to_mat/ks_cmap_to_mat/ks_cmap_to_mat.py:13-14 | a readable file without an `snsApLfSy` line, the empty file among them, fails with KeyError on `snsApLfSy` |
| KsCmapToMat.ConvertWithoutGeometry | ks_cmap_to_mat/ks_cmap_to_mat/ks_cmap_to_mat.py:14-16 | a file with readable counts but no `snsGeomMap` line fails with KeyError on `snsGeomMap` |
| KsCmapToMat.GeomMapTextAvoids | ks_cmap_to_mat/ks_cmap_to_mat/ks_helpers.py:25 | a written map contains no `=` when its tag has none, so its line splits into key and value only |
| KsCmapToMat.MetaLinesRead | ks_cmap_to_mat/ks_cmap_to_mat/ks_helpers.py:24-30 | the lines `snsApLfSy=...` and `~snsGeomMap=...` are read as those two keys, the `~` dropped, with the written texts as values |
| KsCmapToMat.ConvertRoundTrip | ks_cmap_to_mat/ks_cmap_to_mat/ks_cmap_to_mat.py:8-17 | for written counts and geometry the run raises nothing; it saves exactly when `max(AP, 0)` equals the number of channels; the saved map holds every channel in order, with x shifted by shank times pitch |
| KsCmapToMat.TwoShankExample | ks_cmap_to_mat/ks_cmap_to_mat/ks_cmap_to_mat.py:8-17 | for nShank 2, pitch 250 and channels (0,0,0,1), (1,10,20,0), (0,5,5,1): xcoords 0, 260, 5; ycoords 0, 20, 5; kcoords 1, 2, 1; connected true, false, true; chanMap0ind 0, 1, 2; chanMap 1, 2, 3 |

## Left out

- `scipy.io.savemat` and the `.mat` format are not modelled. The model stops at the dictionary and the target path that `savemat` would receive.
- File access is not modelled: `Path.exists`, `open`, `read` and `splitlines`. The existence flag, the list of lines, `meta_file.stem` and `meta_file.parent` are parameters, and a path is a directory text plus a file name.
- `Path` construction in `main` (turning a `str` into a `Path`) is not modelled, because the model takes the path's parts directly.
- `cli_main`, `sys.argv`, `sys.exit` and every `print` are console I/O and are not modelled. This includes the "no meta file" message of `readMeta` and the reshape error message.
- numpy's `(nChan, 1)` column shape and the float64 dtype are not modelled. Arrays are sequences with one element per channel, and the numeric ones are exact `real` values.
- IEEE rounding in `float()` is not modelled. Coordinates are exact, so `shankInd*shankSep + x` is exact too.
- Numbers.ParseInt: does not model the limit of Python 3.11 and later on integer texts longer than 4300 digits, where `int()` raises ValueError; the model accepts integer texts of any length.
- Numbers.ParseInt: accepts white space as `str.isspace()` defines it on ASCII (space, 9 to 13 and 28 to 31), an optional sign and decimal digits. It rejects what Python's `int()` also accepts beyond that: underscores between digits, non-ASCII digits and non-ASCII white space.
- Numbers.ParseReal: accepts the same white space, an optional sign, and decimal digits with an optional fraction. It rejects what Python's `float()` also accepts beyond that: exponents, `inf`, `infinity` and `nan` in any case, underscores between digits, non-ASCII digits and non-ASCII white space.
- KsHelpers.CoordsToKSChanMap: requires `xCoord`, `yCoord` and `connected` to have as many entries as `shankInd`, which holds for every geometry `geomMapToGeom` returns. numpy broadcasting of unequal arrays is not modelled.
- KsHelpers.CoordsToKSChanMap: the `metadict` parameter is not modelled, because the source never reads it.
- KsHelpers.CoordsToKSChanMap: the values of `chans` are not modelled; only its size matters to the source.
- KsHelpers.GeomMapToGeom: `shankInd` and `connected` are stored as exact integers. numpy stores them as float64, which would round integers beyond 2^53; that rounding is not modelled.
- KsHelpers.GeomMapToGeom: does not model the OverflowError raised when an `int()` result of magnitude 2^1024 or more is stored into the float64 arrays `shankInd` and `connected`; for such a record the model returns the entry where Python raises.
- KsCmapToMat.Arange: numpy's limits on array size are not modelled. For an AP count too large for numpy, `np.arange(AP)` raises MemoryError, or ValueError/OverflowError from 2^63 on, where the model returns AP elements.
- KsCmapToMat.Convert: for the same reason, the model does not raise the `np.arange` exception that comes after the counts are read and before the geometry. A run with such an AP count gives the geometry's outcome instead. ConvertOkIff, ConvertSavedIff, ConvertMismatch and ConvertRoundTrip state that the run raises nothing under the same assumption.
