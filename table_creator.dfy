/** TableCreator: creates a table with one column family, pre-split at the ints
    listed in a splits file, with an optional maximum region size in MB. */
module TableCreator {
  import opened Wrappers
  import opened Bytes
  import opened Decimal
  import opened HBase

  /** Every way a run stops short of a created table. */
  datatype CreatorError =
    | Usage                                                 // fewer than 2 arguments: exit 1
    | BadRegionSize(error: NumberFormatError)               // Integer.valueOf(args[3]) throws
    | SplitsFileNotFound(fileName: string)                  // exit 1
    | BadSplitLine(index: nat, error: NumberFormatError)    // Integer.valueOf(line) throws
    | StoreFailure                                          // IOException from the store: exit 1

  /** 1 MB = 2^20 bytes. */
  const MEGABYTE: int := 1048576

  /** The splits file read line by line, each line through Integer.valueOf, in
      file order; the first line that is not an int stops the read. */
  function ParsedSplits(lines: seq<string>): Result<seq<Int32>, CreatorError>
  {
    if lines == [] then Ok([])
    else
      var n := |lines| - 1;
      match ParsedSplits(lines[..n])
      case Err(e) => Err(e)
      case Ok(splits) =>
        match ParseInt(lines[n])
        case Err(e) => Err(BadSplitLine(n, e))
        case Ok(x) => Ok(splits + [x])
  }

  /** A read that succeeds yields the int of every line, in file order. */
  lemma {:induction false} ParsedSplitsOk(lines: seq<string>)
    ensures var r := ParsedSplits(lines);
      r.Ok? ==> |r.value| == |lines| && forall i :: 0 <= i < |lines| ==> ParseInt(lines[i]) == Ok(r.value[i])
  {
    if lines != [] {
      var n := |lines| - 1;
      ParsedSplitsOk(lines[..n]);
      assert forall i :: 0 <= i < n ==> lines[..n][i] == lines[i];
    }
  }

  /** A read that fails names a line that is not an int, after lines that all are. */
  lemma {:induction false} ParsedSplitsErr(lines: seq<string>)
    ensures var r := ParsedSplits(lines);
      r.Err? ==>
        && r.error.BadSplitLine?
        && r.error.index < |lines|
        && ParseInt(lines[r.error.index]) == Err(r.error.error)
        && forall j :: 0 <= j < r.error.index ==> ParseInt(lines[j]).Ok?
  {
    if lines != [] {
      var n := |lines| - 1;
      ParsedSplitsErr(lines[..n]);
      ParsedSplitsOk(lines[..n]);
      assert forall i :: 0 <= i < n ==> lines[..n][i] == lines[i];
    }
  }

  /** The read succeeds exactly when every line is an int, and then yields those
      ints in file order; otherwise it names the first line that is not one. */
  lemma ParsedSplitsMeaning(lines: seq<string>)
    ensures var r := ParsedSplits(lines);
      && (r.Ok? <==> forall i :: 0 <= i < |lines| ==> ParseInt(lines[i]).Ok?)
      && (r.Ok? ==> |r.value| == |lines|)
      && (r.Ok? ==> forall i :: 0 <= i < |lines| ==> ParseInt(lines[i]) == Ok(r.value[i]))
      && (r.Err? ==>
           && r.error.BadSplitLine?
           && r.error.index < |lines|
           && ParseInt(lines[r.error.index]) == Err(r.error.error)
           && forall j :: 0 <= j < r.error.index ==> ParseInt(lines[j]).Ok?)
  {
    ParsedSplitsOk(lines);
    ParsedSplitsErr(lines);
  }

  /** The `while (reader.ready())` loop of createPreSplitTable over the file's lines. */
  method ReadSplits(lines: seq<string>) returns (r: Result<seq<Int32>, CreatorError>)
    ensures r == ParsedSplits(lines)
  {
    var splits: seq<Int32> := [];
    var i := 0;
    while i < |lines|
      invariant 0 <= i <= |lines|
      invariant ParsedSplits(lines[..i]) == Ok(splits)
    {
      var line := lines[i];
      assert lines[..i + 1][..i] == lines[..i];
      match ParseInt(line)
      case Err(e) =>
        ParsedSplitsStopsAt(lines, i);
        return Err(BadSplitLine(i, e));
      case Ok(x) =>
        splits := splits + [x];
        i := i + 1;
    }
    assert lines[..i] == lines;
    r := Ok(splits);
  }

  /** Once a prefix of the file fails to parse, the whole file fails the same way. */
  lemma {:induction false} ParsedSplitsStopsAt(lines: seq<string>, i: nat)
    requires i < |lines| && ParsedSplits(lines[..i]).Ok? && ParseInt(lines[i]).Err?
    ensures ParsedSplits(lines) == Err(BadSplitLine(i, ParseInt(lines[i]).error))
    decreases |lines|
  {
    var n := |lines| - 1;
    var front := lines[..n];
    if i < n {
      assert front[..i] == lines[..i] && front[i] == lines[i];
      ParsedSplitsStopsAt(front, i);
      assert ParsedSplits(front).Err?;
    } else {
      assert front == lines[..i];
    }
  }

  /** byteSplits: each split as its 4 big-endian bytes, in the same order. */
  function EncodedSplits(splits: seq<Int32>): (byteSplits: seq<seq<Byte>>)
    ensures |byteSplits| == |splits|
    ensures forall i :: 0 <= i < |splits| ==>
      |byteSplits[i]| == INT_BYTES && BytesToInt(byteSplits[i]) == splits[i]
  {
    seq(|splits|, i requires 0 <= i < |splits| => IntToBytes(splits[i]))
  }

  /** The loop filling the byteSplits array in place with Bytes.toBytes(int). */
  method EncodeSplits(splits: seq<Int32>) returns (byteSplits: array<seq<Byte>>)
    ensures fresh(byteSplits)
    ensures byteSplits[..] == EncodedSplits(splits)
  {
    byteSplits := new seq<Byte>[|splits|];
    for i := 0 to |splits|
      invariant forall j :: 0 <= j < i ==> byteSplits[j] == IntToBytes(splits[j])
    {
      byteSplits[i] := IntToBytes(splits[i]);
    }
  }

  /** `regionSize * 1048576` as written: an int product, which wraps modulo 2^32
      before setMaxFileSize widens it to long. */
  function RegionSizeBytesAsWritten(regionSize: Int32): (bytes: Int32)
    ensures (bytes - regionSize * MEGABYTE) % TWO_POW_32 == 0
  {
    WrapInt32(regionSize * MEGABYTE)
  }

  /** The intended conversion: the size in MB as an exact number of bytes, in long
      arithmetic (every int size fits). */
  function RegionSizeBytes(regionSize: Int32): (bytes: Int64)
    ensures bytes / MEGABYTE == regionSize && bytes % MEGABYTE == 0
  {
    regionSize * MEGABYTE
  }

  /** The int product is right exactly for sizes from -2048 MB up to 2047 MB. */
  lemma RegionSizeAsWrittenCorrectIff(regionSize: Int32)
    ensures RegionSizeBytesAsWritten(regionSize) == RegionSizeBytes(regionSize)
        <==> -2048 <= regionSize < 2048
  {
    var x := regionSize * MEGABYTE;
    if -2048 <= regionSize < 2048 {
      assert -0x8000_0000 <= x < 0x8000_0000;
      assert WrapInt32(x) == x;
    }
  }

  /** 256 MB is 268435456 bytes both ways; 2048 MB wraps to a negative size and
      4096 MB to zero. */
  lemma RegionSizeExamples()
    ensures RegionSizeBytes(256) == RegionSizeBytesAsWritten(256) == 268435456
    ensures RegionSizeBytes(2048) == 2147483648 && RegionSizeBytesAsWritten(2048) == -2147483648
    ensures RegionSizeBytes(4096) == 4294967296 && RegionSizeBytesAsWritten(4096) == 0
  {
  }

  /** The only column family the tool creates: SNAPPY compression, FAST_DIFF
      encoding, one version kept. */
  function FamilyFor(colFamily: string): ColumnFamily
  {
    ColumnFamily(colFamily, Snappy, FastDiff, 1)
  }

  /** The descriptor createPreSplitTable builds. A positive region size is stored
      as line 101 computes it, an int product widened to long only afterwards: a
      whole number of MB equal to the size below 2048 MB, and wrapped from there. */
  function DescriptorFor(tableName: string, colFamily: string, regionSize: Option<Int32>)
    : (d: TableDescriptor)
    ensures d.name == tableName
    ensures d.families == [ColumnFamily(colFamily, Snappy, FastDiff, 1)]
    ensures d.maxFileSize.Some? <==> regionSize.Some? && regionSize.value > 0
    ensures d.maxFileSize.Some? ==>
      (d.maxFileSize.value - regionSize.value * MEGABYTE) % TWO_POW_32 == 0
      && -0x8000_0000 <= d.maxFileSize.value < 0x8000_0000
    ensures d.maxFileSize.Some? && regionSize.value < 2048 ==>
      d.maxFileSize.value / MEGABYTE == regionSize.value && d.maxFileSize.value % MEGABYTE == 0
    ensures d.maxFileSize.Some? && regionSize.value >= 2048 ==>
      d.maxFileSize.value != regionSize.value * MEGABYTE
  {
    if regionSize.Some? && regionSize.value > 0 then
      RegionSizeAsWrittenCorrectIff(regionSize.value);
      TableDescriptor(tableName, [FamilyFor(colFamily)],
        Some(RegionSizeBytesAsWritten(regionSize.value) as int))
    else TableDescriptor(tableName, [FamilyFor(colFamily)], None)
  }

  /** The descriptor with the evidently intended conversion of line 101: the size
      in MB as an exact number of bytes. */
  function IntendedDescriptorFor(tableName: string, colFamily: string, regionSize: Option<Int32>)
    : (d: TableDescriptor)
    ensures d.name == tableName
    ensures d.families == [ColumnFamily(colFamily, Snappy, FastDiff, 1)]
    ensures d.maxFileSize.Some? <==> regionSize.Some? && regionSize.value > 0
    ensures d.maxFileSize.Some? ==>
      d.maxFileSize.value / MEGABYTE == regionSize.value && d.maxFileSize.value % MEGABYTE == 0
  {
    TableDescriptor(tableName, [FamilyFor(colFamily)],
      if regionSize.Some? && regionSize.value > 0 then Some(RegionSizeBytes(regionSize.value) as int)
      else None)
  }

  /** The descriptor as written is the intended one exactly when no positive
      region size of 2048 MB or more is given. */
  lemma DescriptorAsWrittenCorrectIff(tableName: string, colFamily: string, regionSize: Option<Int32>)
    ensures DescriptorFor(tableName, colFamily, regionSize)
         == IntendedDescriptorFor(tableName, colFamily, regionSize)
        <==> regionSize.None? || regionSize.value < 2048
  {
    if regionSize.Some? && regionSize.value > 0 {
      RegionSizeAsWrittenCorrectIff(regionSize.value);
    }
  }

  /** The `ror` builder: one column family, and the max file size only for a
      positive region size, passed as the int product of line 101. */
  method BuildDescriptor(tableName: string, colFamily: string, regionSize: Option<Int32>)
    returns (d: TableDescriptor)
    ensures d == DescriptorFor(tableName, colFamily, regionSize)
  {
    var ror := new TableDescriptorBuilder(tableName);
    ror.SetColumnFamily(FamilyFor(colFamily));
    if regionSize.Some? && regionSize.value > 0 {
      ror.SetMaxFileSize(RegionSizeBytesAsWritten(regionSize.value));
    }
    d := ror.Build();
  }

  /** createPreSplitTable. The file system is `files` (name to lines); whether the
      store's createTable raises an IOException is `storeFails`. Without a splits
      file byteSplits stays null and the table is created unsplit; with one, the
      table is created with exactly the file's ints as 4-byte keys. */
  method CreatePreSplitTable(tableName: string, colFamily: string, splitsFileName: Option<string>,
                             regionSize: Option<Int32>, files: map<string, seq<string>>,
                             storeFails: bool)
    returns (r: Result<CreateRequest, CreatorError>)
    ensures splitsFileName.Some? && splitsFileName.value !in files ==>
      r == Err(SplitsFileNotFound(splitsFileName.value))
    ensures (splitsFileName.Some? && splitsFileName.value in files
             && ParsedSplits(files[splitsFileName.value]).Err?) ==>
      r == Err(ParsedSplits(files[splitsFileName.value]).error)
    ensures r.Ok? <==>
      && !storeFails
      && (splitsFileName.Some? ==>
           splitsFileName.value in files && ParsedSplits(files[splitsFileName.value]).Ok?)
    ensures r.Err? && !(r.error.SplitsFileNotFound? || r.error.BadSplitLine?) ==>
      r.error == StoreFailure
    ensures storeFails && (splitsFileName.Some? ==>
              splitsFileName.value in files && ParsedSplits(files[splitsFileName.value]).Ok?) ==>
      r == Err(StoreFailure)
    ensures r.Ok? ==> r.value.descriptor == DescriptorFor(tableName, colFamily, regionSize)
    ensures r.Ok? ==> (r.value.splits.None? <==> splitsFileName.None?)
    ensures r.Ok? && splitsFileName.Some? ==>
      r.value.splits == Some(EncodedSplits(ParsedSplits(files[splitsFileName.value]).value))
  {
    var byteSplits: Option<seq<seq<Byte>>> := None;
    if splitsFileName.Some? {
      if splitsFileName.value !in files {
        return Err(SplitsFileNotFound(splitsFileName.value));
      }
      var parsed := ReadSplits(files[splitsFileName.value]);
      ParsedSplitsMeaning(files[splitsFileName.value]);
      if parsed.Err? {
        return Err(parsed.error);
      }
      var encoded := EncodeSplits(parsed.value);
      byteSplits := Some(encoded[..]);
    }
    var descriptor := BuildDescriptor(tableName, colFamily, regionSize);
    if storeFails {
      return Err(StoreFailure);
    }
    r := Ok(CreateRequest(descriptor, byteSplits));
  }

  /** main's reading of its arguments. */
  datatype CreatorArgs = CreatorArgs(
    tableName: string,
    colFamily: string,
    splitsFile: Option<string>,
    regionSize: Option<Int32>)

  /** main: at least table name and column family; a third argument is the splits
      file; a region size is read only when there are exactly four. */
  function ParseArgs(args: seq<string>): (r: Result<CreatorArgs, CreatorError>)
    ensures r == Err(Usage) <==> |args| < 2
    ensures r.Ok? ==> r.value.tableName == args[0] && r.value.colFamily == args[1]
    ensures r.Ok? ==> (r.value.splitsFile.Some? <==> |args| > 2)
    ensures r.Ok? && |args| > 2 ==> r.value.splitsFile.value == args[2]
    ensures r.Ok? ==> (r.value.regionSize.Some? <==> |args| == 4)
    ensures r.Ok? && |args| == 4 ==> ParseInt(args[3]) == Ok(r.value.regionSize.value)
    ensures r.Err? && |args| >= 2 ==>
      |args| == 4 && ParseInt(args[3]).Err? && r.error == BadRegionSize(ParseInt(args[3]).error)
  {
    if |args| < 2 then Err(Usage)
    else
      var splitsFile := if |args| > 2 then Some(args[2]) else None;
      if |args| == 4 then
        match ParseInt(args[3])
        case Err(e) => Err(BadRegionSize(e))
        case Ok(size) => Ok(CreatorArgs(args[0], args[1], splitsFile, Some(size)))
      else Ok(CreatorArgs(args[0], args[1], splitsFile, None))
  }

  /** main followed by createPreSplitTable. */
  method Run(args: seq<string>, files: map<string, seq<string>>, storeFails: bool)
    returns (r: Result<CreateRequest, CreatorError>)
    ensures |args| < 2 ==> r == Err(Usage)
    ensures r.Ok? <==>
      && |args| >= 2
      && (|args| == 4 ==> ParseInt(args[3]).Ok?)
      && (|args| > 2 ==> args[2] in files && ParsedSplits(files[args[2]]).Ok?)
      && !storeFails
    ensures |args| == 4 && ParseInt(args[3]).Err? ==> r == Err(BadRegionSize(ParseInt(args[3]).error))
    ensures |args| > 2 && (|args| == 4 ==> ParseInt(args[3]).Ok?) && args[2] !in files ==>
      r == Err(SplitsFileNotFound(args[2]))
    ensures |args| > 2 && (|args| == 4 ==> ParseInt(args[3]).Ok?) && args[2] in files
            && ParsedSplits(files[args[2]]).Err? ==>
      r == Err(ParsedSplits(files[args[2]]).error)
    ensures |args| >= 2 && (|args| == 4 ==> ParseInt(args[3]).Ok?)
            && (|args| > 2 ==> args[2] in files && ParsedSplits(files[args[2]]).Ok?) && storeFails ==>
      r == Err(StoreFailure)
    ensures r.Ok? ==> r.value.descriptor.name == args[0]
    ensures r.Ok? ==> r.value.descriptor.families == [FamilyFor(args[1])]
    ensures r.Ok? ==> (r.value.splits.Some? <==> |args| > 2)
    ensures r.Ok? ==> (r.value.descriptor.maxFileSize.Some? <==>
                       |args| == 4 && ParseInt(args[3]).Ok? && ParseInt(args[3]).value > 0)
    ensures r.Ok? && r.value.descriptor.maxFileSize.Some? ==>
      r.value.descriptor.maxFileSize.value == RegionSizeBytesAsWritten(ParseInt(args[3]).value) as int
    ensures r.Ok? && |args| > 2 ==>
      && args[2] in files
      && ParsedSplits(files[args[2]]).Ok?
      && r.value.splits == Some(EncodedSplits(ParsedSplits(files[args[2]]).value))
  {
    var parsed := ParseArgs(args);
    if parsed.Err? {
      return Err(parsed.error);
    }
    var a := parsed.value;
    r := CreatePreSplitTable(a.tableName, a.colFamily, a.splitsFile, a.regionSize, files, storeFails);
  }
}
