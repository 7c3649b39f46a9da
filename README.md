# hbase-utils in Dafny

A model of the logic in gbif/hbase-utils, a set of command-line tools around an HBase
cluster, with the cluster itself replaced by plain values:

- **ResultReader**: typed getters over one row. A row is a map from (family, column) to
  the latest cell, which holds its value bytes and timestamp. Each getter returns the
  caller's default when the cell is absent; otherwise it decodes the bytes as a string,
  int, long or raw bytes. `getTimestamp` has no default.
- **HBaseSplitCounter**: lists a table's regions and writes one decimal line per region
  that has a non-empty end key, to a file it recreates first. Each line is the key read
  as a 4-byte big-endian int.
- **TableSplitReader**: writes every start key but the first, read as an int, to
  `<table>_splits.txt`.
- **TableCreator**: reads a splits file of decimal ints and encodes each as 4 big-endian
  bytes. It builds a descriptor with one column family (SNAPPY, FAST_DIFF, one
  version) and an optional maximum region size given in MB. It then asks the store to
  create the table with or without split keys.
- **TableCloneCreator**: creates a table with another table's column families, maximum
  file size and start keys minus the first.

Modules:

- `Bytes`: `Bytes.toBytes` / `toInt` / `toLong` as two's complement over base-256
  digits, and Java int wrap-around.
- `Decimal`: `Integer.toString` and `Integer.valueOf`.
- `HBase`: regions, descriptors, the create request, and the descriptor builder as a
  class.
- `SplitFile`: the shared line format, a file being written as a class, and the
  specification of an extraction run (`WriteKeys`).
- One module per tool.
- `SplitPipeline`: how the tools compose. The headline result is that the end keys
  HBaseSplitCounter writes, read back by TableCreator, become exactly the new table's
  split keys.

The loops of the Java code are loops here, each proved against a specification function:
- the per-region loop of `generateSplitsFile`;
- the start-key loop of `readIntSplits`;
- the `reader.ready()` loop and the `byteSplits` array loop of `createPreSplitTable`.

The `ror` builder is a class with `modifies` clauses.

## Model

| member | source | states |
|---|---|---|
| Bytes.IntBytesRoundTrip | src/main/java/org/gbif/hbase/util/TableCreator.java:80-83 | an int encoded by Bytes.toBytes(int) decodes back to the same int under Bytes.toInt |
| Bytes.BytesIntRoundTrip | src/main/java/org/gbif/hbase/util/HBaseSplitCounter.java:61-64 | any 4 bytes decoded by Bytes.toInt re-encode to the same 4 bytes, so no key is lost by going through an int |
| Bytes.LongBytesRoundTrip | src/main/java/org/gbif/hbase/util/ResultReader.java:71-74 | a long encoded by Bytes.toBytes(long) decodes back to the same long under Bytes.toLong |
| Bytes.BytesLongRoundTrip | src/main/java/org/gbif/hbase/util/ResultReader.java:71-74 | any 8 bytes decoded by Bytes.toLong re-encode to the same 8 bytes |
| Bytes.IntToBytes | src/main/java/org/gbif/hbase/util/TableCreator.java:82 | Bytes.toBytes(int): always 4 bytes, big-endian two's complement; IntBytesRoundTrip and BytesIntRoundTrip make it a bijection with BytesToInt |
| Bytes.BytesToInt | src/main/java/org/gbif/hbase/util/HBaseSplitCounter.java:63 | Bytes.toInt on a 4-byte key: the Int32 whose encoding the key is (BytesIntRoundTrip) |
| Bytes.LongToBytes | src/main/java/org/gbif/hbase/util/ResultReader.java:71-74 | Bytes.toBytes(long): always 8 bytes, big-endian two's complement; inverted by BytesToLong (LongBytesRoundTrip, BytesLongRoundTrip) |
| Bytes.BytesToLong | src/main/java/org/gbif/hbase/util/ResultReader.java:71-74 | Bytes.toLong on an 8-byte value: the Int64 whose encoding the value is (BytesLongRoundTrip) |
| Bytes.DecodeInt | src/main/java/org/gbif/hbase/util/ResultReader.java:56-59 | decoding succeeds exactly for 4-byte values and yields the int whose encoding is those bytes; any other width is a WidthMismatch naming both widths |
| Bytes.DecodeLong | src/main/java/org/gbif/hbase/util/ResultReader.java:71-74 | decoding succeeds exactly for 8-byte values and yields the long whose encoding is those bytes; any other width is a WidthMismatch |
| Bytes.WrapInt32 | src/main/java/org/gbif/hbase/util/TableCreator.java:101 | the Java int result of an int expression: the Int32 congruent to the exact value modulo 2^32 |
| Decimal.NatToStringMeaning | src/main/java/org/gbif/hbase/util/HBaseSplitCounter.java:63-65 | the text of n is decimal digits whose value is n, with no leading zero unless n is 0 |
| Decimal.IntToString | src/main/java/org/gbif/hbase/util/HBaseSplitCounter.java:63-65 | the text of an int is non-empty and starts with '-' exactly when the int is negative |
| Decimal.ParseInt | src/main/java/org/gbif/hbase/util/TableCreator.java:64-67 | a line is accepted exactly when it is an optional sign followed by one or more digits whose signed value fits in an int, and the result is that value; the empty line is a NumberFormatException, and the exception carries the line |
| Decimal.ParseIntToString | src/main/java/org/gbif/hbase/util/TableCreator.java:64-67 | Integer.valueOf reads the text of every int back as that int |
| Decimal.IntToStringInjective | src/main/java/org/gbif/hbase/util/HBaseSplitCounter.java:63-65 | different ints are never written as the same line |
| HBase.StartKeys | src/main/java/org/gbif/hbase/util/TableSplitReader.java:58 | getStartKeys lists one start key per region, in region order |
| HBase.TableDescriptorBuilder.SetColumnFamily | src/main/java/org/gbif/hbase/util/TableCreator.java:96-98 | the family is added after those already set and the max file size is untouched |
| HBase.TableDescriptorBuilder.SetMaxFileSize | src/main/java/org/gbif/hbase/util/TableCreator.java:100-102 | the max file size becomes the given long and the families are untouched |
| ResultReader.GetString | src/main/java/org/gbif/hbase/util/ResultReader.java:41-44 | the default exactly when no cell is at (family, column); otherwise the UTF-8 decoding of the stored bytes |
| ResultReader.GetInteger | src/main/java/org/gbif/hbase/util/ResultReader.java:56-59 | the default when absent; when present, success exactly for a 4-byte value, and then the int whose big-endian encoding is the stored value |
| ResultReader.GetLong | src/main/java/org/gbif/hbase/util/ResultReader.java:71-74 | the default when absent; when present, success exactly for an 8-byte value, and then the long whose big-endian encoding is the stored value |
| ResultReader.GetBytes | src/main/java/org/gbif/hbase/util/ResultReader.java:116-119 | the stored bytes unchanged when present, the default otherwise |
| ResultReader.GetTimestamp | src/main/java/org/gbif/hbase/util/ResultReader.java:121-125 | null (None) exactly when there is no latest cell, with no default; otherwise that cell's timestamp |
| ResultReader.StoredIntReadBack | src/test/java/org/gbif/hbase/util/ResultReaderTest.java:128-137 | an int stored as Bytes.toBytes(int) is read back by getInteger unchanged, whatever the default |
| ResultReader.StoredLongReadBack | src/test/java/org/gbif/hbase/util/ResultReaderTest.java:140-149 | a long stored as Bytes.toBytes(long) is read back by getLong unchanged, whatever the default |
| ResultReader.OtherCoordinatesUnaffected | src/test/java/org/gbif/hbase/util/ResultReaderTest.java:105-112 | writing a cell at one (family, column) changes nothing any getter reads at another, in particular the same column of another family |
| ResultReader.TwoFamilyFixture | src/test/java/org/gbif/hbase/util/ResultReaderTest.java:128-149 | in the two-family fixture each family's int and long columns read back that family's value, and a missing column yields the given default |
| SplitFile.KeyLineParses | src/main/java/org/gbif/hbase/util/HBaseSplitCounter.java:63-65 | Integer.valueOf reads the line written for a key back as Bytes.toInt of the key |
| SplitFile.KeyLine | src/main/java/org/gbif/hbase/util/HBaseSplitCounter.java:63-65 | the line written for a 4-byte key, `Bytes.toInt(key) + "\n"`; KeyLineParses reads it back as the key's int |
| SplitFile.KeyLines | src/main/java/org/gbif/hbase/util/HBaseSplitCounter.java:60-69 | one line per key |
| SplitFile.KeyLinesAt | src/main/java/org/gbif/hbase/util/HBaseSplitCounter.java:60-69 | the i-th line is the decimal text of the i-th key read as an int |
| SplitFile.WriteFromNext | src/main/java/org/gbif/hbase/util/HBaseSplitCounter.java:63-66 | proof step for the loops: a 4-byte key whose write does not fail adds its line and the run continues with the next key |
| SplitFile.WriteFromMeaning | src/main/java/org/gbif/hbase/util/HBaseSplitCounter.java:58-77 | from any point where the file holds the lines of the keys so far, the run ends with the lines of a longer prefix; how it ends is as in WriteKeysMeaning |
| SplitFile.WriteKeys | src/main/java/org/gbif/hbase/util/HBaseSplitCounter.java:58-77 | the specification of an extraction run over split keys into a truncated file; WriteKeysMeaning states what it means |
| SplitFile.WriteKeysMeaning | src/main/java/org/gbif/hbase/util/HBaseSplitCounter.java:58-77 | the file holds the lines of a prefix of the keys; the run finishes exactly when every key is 4 bytes wide and no write fails, and then it holds every key's line; a failed write or an undecodable key stops at the first key whose line is missing |
| SplitFile.LineFile.Truncate | src/main/java/org/gbif/hbase/util/HBaseSplitCounter.java:40-45 | the recreated file is empty |
| SplitFile.LineFile.AppendLine | src/main/java/org/gbif/hbase/util/HBaseSplitCounter.java:65-66 | a flushed write adds exactly one line at the end |
| HBaseSplitCounter.EndKeySplits | src/main/java/org/gbif/hbase/util/HBaseSplitCounter.java:59-69 | there are never more split points than regions |
| HBaseSplitCounter.EndKeySplitsMembers | src/main/java/org/gbif/hbase/util/HBaseSplitCounter.java:61-62 | every split point is the non-empty end key of some region |
| HBaseSplitCounter.EndKeySplitsPrefix | src/main/java/org/gbif/hbase/util/HBaseSplitCounter.java:60-69 | the split points of the first n regions are a prefix of all split points |
| HBaseSplitCounter.EndKeySplitsAt | src/main/java/org/gbif/hbase/util/HBaseSplitCounter.java:61-64 | a region with a non-empty end key contributes that key, right after the keys of the regions before it |
| HBaseSplitCounter.EndKeySplitsSkipsUnbounded | src/main/java/org/gbif/hbase/util/HBaseSplitCounter.java:61-62 | a region with an empty end key (the last, unbounded one) contributes nothing |
| HBaseSplitCounter.EndKeySplitsOrder | src/main/java/org/gbif/hbase/util/HBaseSplitCounter.java:60-69 | split points keep the relative order of their regions in the listing |
| HBaseSplitCounter.EndKeySplitsCount | src/main/java/org/gbif/hbase/util/HBaseSplitCounter.java:59-70 | the number of split points is the number of regions with a non-empty end key |
| HBaseSplitCounter.GenerateSplitsFile | src/main/java/org/gbif/hbase/util/HBaseSplitCounter.java:47-77 | the recreated file and the way the run ends are exactly WriteKeys over the end-key split points with the given failing write |
| HBaseSplitCounter.GenerateSplitsFileComplete | src/main/java/org/gbif/hbase/util/HBaseSplitCounter.java:58-70 | with every end key 4 bytes wide and no failing write, the run finishes with one line per bounded region in listing order, and goodSplits is the number of such regions |
| HBaseSplitCounter.ParseArgs | src/main/java/org/gbif/hbase/util/HBaseSplitCounter.java:80-86 | accepted exactly for 2 arguments (table, output file); otherwise the usage error |
| TableSplitReader.SplitsFileName | src/main/java/org/gbif/hbase/util/TableSplitReader.java:47-50 | the name is the table name followed by "_splits.txt" |
| TableSplitReader.SplitsFileNameInjective | src/main/java/org/gbif/hbase/util/TableSplitReader.java:47-50 | different tables never share a splits file |
| TableSplitReader.StartKeySplits | src/main/java/org/gbif/hbase/util/TableSplitReader.java:59-61 | max(0, n - 1) split points, the i-th being start key i + 1 |
| TableSplitReader.ReadIntSplits | src/main/java/org/gbif/hbase/util/TableSplitReader.java:51-62 | the truncated file and the way the run ends are exactly WriteKeys over the start keys after the first, with no failing write |
| TableSplitReader.ReadIntSplitsMeaning | src/main/java/org/gbif/hbase/util/TableSplitReader.java:51-62 | the run never ends in a caught write failure; it finishes exactly when every start key after the first is 4 bytes wide, and then the file holds max(0, n - 1) lines in start-key order |
| TableSplitReader.ParseArgs | src/main/java/org/gbif/hbase/util/TableSplitReader.java:38-44 | accepted exactly for 1 argument, giving the table and its splits file name; otherwise the usage error |
| TableCreator.ParsedSplitsOk | src/main/java/org/gbif/hbase/util/TableCreator.java:64-67 | a read that succeeds yields the int of every line, in file order |
| TableCreator.ParsedSplitsErr | src/main/java/org/gbif/hbase/util/TableCreator.java:64-67 | a read that fails names a line that is not an int, after lines that all are |
| TableCreator.ParsedSplitsMeaning | src/main/java/org/gbif/hbase/util/TableCreator.java:64-67 | the read succeeds exactly when every line is an int (the empty line is not), yields those ints in file order, and otherwise stops at the first bad line |
| TableCreator.ParsedSplits | src/main/java/org/gbif/hbase/util/TableCreator.java:64-67 | the file's lines through Integer.valueOf in file order, stopping at the first that fails; ParsedSplitsMeaning states what it means |
| TableCreator.ReadSplits | src/main/java/org/gbif/hbase/util/TableCreator.java:60-67 | the `reader.ready()` loop computes ParsedSplits of the file's lines |
| TableCreator.ParsedSplitsStopsAt | src/main/java/org/gbif/hbase/util/TableCreator.java:64-67 | once the lines so far parse and the next does not, the whole read fails on that line |
| TableCreator.EncodedSplits | src/main/java/org/gbif/hbase/util/TableCreator.java:80-83 | byteSplits has the length of splits, and each entry is 4 bytes that Bytes.toInt reads as the corresponding split |
| TableCreator.EncodeSplits | src/main/java/org/gbif/hbase/util/TableCreator.java:80-83 | the loop fills a fresh array with exactly EncodedSplits |
| TableCreator.RegionSizeBytesAsWritten | src/main/java/org/gbif/hbase/util/TableCreator.java:101 | `regionSize * 1048576` as written is the exact product reduced to a Java int |
| TableCreator.RegionSizeBytes | src/main/java/org/gbif/hbase/util/TableCreator.java:100-102 | the intended size in bytes: a whole number of MB equal to the given size |
| TableCreator.RegionSizeAsWrittenCorrectIff | src/main/java/org/gbif/hbase/util/TableCreator.java:101 | the int product is right exactly for sizes from -2048 up to 2047 MB |
| TableCreator.RegionSizeExamples | src/main/java/org/gbif/hbase/util/TableCreator.java:101 | 256 MB gives 268435456 both ways; as written, 2048 MB gives -2147483648 and 4096 MB gives 0 |
| TableCreator.DescriptorFor | src/main/java/org/gbif/hbase/util/TableCreator.java:90-102 | the table's name; one family with SNAPPY, FAST_DIFF and max versions 1; a max file size only for a positive region size, stored as the int product of line 101: congruent to size * 2^20 modulo 2^32 and within int range, a whole number of MB equal to the size below 2048 MB, and wrong from 2048 MB on |
| TableCreator.IntendedDescriptorFor | src/main/java/org/gbif/hbase/util/TableCreator.java:90-102 | the descriptor with the intended conversion: the same name and family, and a max file size only for a positive region size, always a whole number of MB equal to it |
| TableCreator.DescriptorAsWrittenCorrectIff | src/main/java/org/gbif/hbase/util/TableCreator.java:100-102 | the descriptor as built equals the intended one exactly when no region size of 2048 MB or more is given |
| TableCreator.FamilyFor | src/main/java/org/gbif/hbase/util/TableCreator.java:90-95 | the one column family: the given name, SNAPPY, FAST_DIFF, one version |
| TableCreator.BuildDescriptor | src/main/java/org/gbif/hbase/util/TableCreator.java:90-102 | the builder calls, with setMaxFileSize given the int product, produce exactly DescriptorFor |
| TableCreator.CreatePreSplitTable | src/main/java/org/gbif/hbase/util/TableCreator.java:54-114 | a missing splits file, a bad line and a store failure are each their own error, checked in that order, and success happens exactly when none occurs; without a splits file the request has no splits; with one it has exactly the file's ints as 4-byte keys; the descriptor is DescriptorFor |
| TableCreator.ParseArgs | src/main/java/org/gbif/hbase/util/TableCreator.java:116-124 | fewer than 2 arguments is the usage error; a splits file exactly when there are more than 2; a region size only with exactly 4, read by Integer.valueOf, whose failure is the error |
| TableCreator.Run | src/main/java/org/gbif/hbase/util/TableCreator.java:116-128 | a table is created exactly when there are at least 2 arguments, a 4th argument (if given) parses, a splits file (if given) exists and parses, and the store does not fail; otherwise the error is, in that order, Usage, BadRegionSize, SplitsFileNotFound, the bad line, StoreFailure; the created table is named by the first argument, has the second as its family, has splits exactly when a third argument is given, and has a max size exactly when a fourth one parses to a positive int, that size being the int product of line 101 |
| TableCloneCreator.CloneSplits | src/main/java/org/gbif/hbase/util/TableCloneCreator.java:58-60 | copyOfRange fails exactly on no start keys; otherwise n - 1 split points, the i-th being start key i + 1, kept as raw bytes |
| TableCloneCreator.CloneRequest | src/main/java/org/gbif/hbase/util/TableCloneCreator.java:49-63 | the new table has the new name, the existing max file size and families in order, and the existing start keys minus the first as its splits |
| TableCloneCreator.CloneSplitsAreNonEmptyStartKeys | src/main/java/org/gbif/hbase/util/TableCloneCreator.java:58-60 | for a healthy table (contiguous regions starting at the empty key) the clone's split points are non-empty and are exactly the non-empty start keys |
| TableCloneCreator.ParseArgs | src/main/java/org/gbif/hbase/util/TableCloneCreator.java:40-47 | accepted exactly for 2 arguments (existing table, new table); otherwise the usage error |
| SplitPipeline.IntLinesRoundTrip | src/main/java/org/gbif/hbase/util/TableCreator.java:64-67 | any list of ints written one per line is read back as the same list |
| SplitPipeline.KeyLinesRoundTrip | src/main/java/org/gbif/hbase/util/TableCreator.java:64-83 | 4-byte keys written as lines, parsed and encoded again are the very same keys |
| SplitPipeline.EndKeysSurviveSplitsFile | src/main/java/org/gbif/hbase/util/HBaseSplitCounter.java:58-70 | the end keys HBaseSplitCounter writes become, through TableCreator, exactly the new table's split keys |
| SplitPipeline.EndKeySplitsAllBounded | src/main/java/org/gbif/hbase/util/HBaseSplitCounter.java:60-69 | when every region has an end key, every region contributes its end key |
| SplitPipeline.EndKeySplitsAreStartKeySplits | src/main/java/org/gbif/hbase/util/TableSplitReader.java:58-61 | for a healthy table the end-key split points, the start-key split points and the clone's split points coincide |
| SplitPipeline.CloneAgreesWithSplitsFile | src/main/java/org/gbif/hbase/util/TableCloneCreator.java:58-62 | a clone and a table created from the end-key splits file of the same healthy table get the same split keys |
| SplitPipeline.ThreeRegionSplits | src/main/java/org/gbif/hbase/util/HBaseSplitCounter.java:60-69 | regions ending at a, b and the unbounded end give the split points a, b |
| SplitPipeline.ThreeRegionLines | src/main/java/org/gbif/hbase/util/HBaseSplitCounter.java:60-69 | the same three regions give the file holding a's int and then b's |
| SplitPipeline.ThreeRegionExample | src/main/java/org/gbif/hbase/util/HBaseSplitCounter.java:60-69 | end keys holding 100 and 200 give the file "100", "200" |

## Left out

- The HBase client, as inputs and outputs. This covers connections, `Admin.createTable`, `RegionLocator`, `Table.getDescriptor` and `Result` internals. A row is a map, a region listing is a sequence, an existing descriptor is a value, and a created table is the `CreateRequest` value.
- How the store turns N split keys into N + 1 regions. This happens in HBase, outside these tools.
- `getFloat` and `getDouble`: floating point.
- `Bytes.toString` and UTF-8 decoding. GetString takes the decoder as its parameter `utf8`.
- What `Bytes.toInt` and `Bytes.toLong` do on a value of the wrong width. That lives in the HBase library.
  - The getters return an explicit `DecodeError`.
  - The two extractors stop the run at such a key with `UndecodableKey`. The source does not check the width, and what it then writes (an exception, or an int read from some of the bytes) depends on the library.
- The file system and the process.
  - A file is its sequence of lines; the "\n" terminator is implicit.
  - A failing file creation, a `FileNotFoundException` in HBaseSplitCounter, and an `UnsupportedEncodingException` or `IOException` while reading the splits file are not modelled. TableCreator's missing splits file is an error result, and `System.exit(1)` is an error result.
  - Logging is left out.
- `reader.ready()` buffering and '\r' line terminators. The splits file is read as its lines.
- HBaseSplitCounter.GenerateSplitsFile: an `IOException` on a write is modelled only as the failure of one whole, flushed line. The parameter `failingWrite` names which write fails. A partly written line is not modelled.
- TableSplitReader.ReadIntSplits: an `IOException` on a write is not modelled. It would end the run and propagate.
- Decimal.ParseInt accepts ASCII digits only. Integer.valueOf also accepts other Unicode decimal digits.
- The builder's check against adding a family name twice. The tools only ever add one family, or the existing table's families.
- Compression and data-block encoding semantics. Both are recorded as tags.
- Choosing the cluster through build profiles. The cluster is not part of the model.
- How the store represents a maximum file size that was never set. The descriptor holds `None`, and the clone copies whatever value the existing descriptor has.
- TableCloneCreator.CloneSplits: the clone drops the first start key, whatever it is. The model does not require that key to be empty. Only the healthy-table lemmas assume it.

## Findings

| source | as written | input that shows it | evidently intended | confidence | as-written member | corrected member |
|---|---|---|---|---|---|---|
| src/main/java/org/gbif/hbase/util/TableCreator.java:101 | `regionSize * 1048576` is an int product, which wraps modulo 2^32 before `setMaxFileSize(long)` widens it | a region size of 2048 MB gives -2147483648 bytes, and 4096 MB gives 0 | the size in MB times 2^20 as an exact long, as the doc comment ("translated into bytes") and the inline comment say | not executed | TableCreator.RegionSizeBytesAsWritten | TableCreator.RegionSizeBytes |

The descriptor the tool builds (`TableCreator.DescriptorFor` and `TableCreator.BuildDescriptor`,
hence `CreatePreSplitTable` and `Run`) stores the as-written value, as line 101 does.
`TableCreator.IntendedDescriptorFor` builds with `TableCreator.RegionSizeBytes` instead.
`TableCreator.RegionSizeAsWrittenCorrectIff` proves that the two sizes agree exactly for sizes
below 2048 MB in absolute value, and `TableCreator.DescriptorAsWrittenCorrectIff` that the
two descriptors agree exactly when no region size of 2048 MB or more is given.
