/** How the tools compose: a splits file written by the extractors and read back
    by TableCreator reproduces the original 4-byte keys, and for a healthy table
    the end-key extractor, the start-key extractor and the clone agree. */
module SplitPipeline {
  import opened Wrappers
  import opened Bytes
  import opened Decimal
  import opened HBase
  import opened SplitFile
  import HBaseSplitCounter
  import TableSplitReader
  import TableCreator
  import TableCloneCreator

  /** Any list of ints written one per line is read back as the same list. */
  lemma IntLinesRoundTrip(xs: seq<Int32>)
    ensures TableCreator.ParsedSplits(seq(|xs|, i requires 0 <= i < |xs| => IntToString(xs[i])))
         == Ok(xs)
  {
    var lines := seq(|xs|, i requires 0 <= i < |xs| => IntToString(xs[i]));
    forall i | 0 <= i < |xs|
      ensures ParseInt(lines[i]) == Ok(xs[i])
    {
      ParseIntToString(xs[i]);
    }
    TableCreator.ParsedSplitsMeaning(lines);
    var r := TableCreator.ParsedSplits(lines);
    assert r.value == xs;
  }

  /** Split keys written as decimal lines, parsed by Integer.valueOf and encoded by
      Bytes.toBytes(int), come back as the very same 4-byte keys. */
  lemma KeyLinesRoundTrip(keys: seq<seq<Byte>>)
    requires AllIntKeys(keys)
    ensures TableCreator.ParsedSplits(KeyLines(keys)).Ok?
    ensures TableCreator.EncodedSplits(TableCreator.ParsedSplits(KeyLines(keys)).value) == keys
  {
    var parsed := TableCreator.ParsedSplits(KeyLines(keys));
    TableCreator.ParsedSplitsMeaning(KeyLines(keys));
    KeyLinesAt(keys);
    forall i | 0 <= i < |keys|
      ensures ParseInt(KeyLines(keys)[i]) == Ok(BytesToInt(keys[i]))
    {
      KeyLineParses(keys[i]);
    }
    var encoded := TableCreator.EncodedSplits(parsed.value);
    forall i | 0 <= i < |keys|
      ensures encoded[i] == keys[i]
    {
      assert parsed.value[i] == BytesToInt(keys[i]);
      BytesIntRoundTrip(keys[i]);
    }
  }

  /** The headline round trip: the end keys that HBaseSplitCounter writes, once
      TableCreator has read the file, are the split keys of the new table. */
  lemma EndKeysSurviveSplitsFile(regions: seq<Region>)
    requires AllIntKeys(HBaseSplitCounter.EndKeySplits(regions))
    ensures var lines := KeyLines(HBaseSplitCounter.EndKeySplits(regions));
      && TableCreator.ParsedSplits(lines).Ok?
      && TableCreator.EncodedSplits(TableCreator.ParsedSplits(lines).value)
         == HBaseSplitCounter.EndKeySplits(regions)
  {
    KeyLinesRoundTrip(HBaseSplitCounter.EndKeySplits(regions));
  }

  /** While every end key is set, the end-key splits are all the end keys. */
  lemma {:induction false} EndKeySplitsAllBounded(regions: seq<Region>)
    requires forall i :: 0 <= i < |regions| ==> regions[i].endKey != []
    ensures HBaseSplitCounter.EndKeySplits(regions)
         == seq(|regions|, i requires 0 <= i < |regions| => regions[i].endKey)
  {
    if regions != [] {
      var n := |regions| - 1;
      EndKeySplitsAllBounded(regions[..n]);
    }
  }

  /** For a healthy table, the split points taken from the end keys are those taken
      from the start keys, so HBaseSplitCounter and TableSplitReader write the same
      file, and the clone uses the same split points. */
  lemma EndKeySplitsAreStartKeySplits(regions: seq<Region>)
    requires Contiguous(regions)
    ensures TableCloneCreator.CloneSplits(StartKeys(regions)).Some?
    ensures HBaseSplitCounter.EndKeySplits(regions)
         == TableSplitReader.StartKeySplits(StartKeys(regions))
         == TableCloneCreator.CloneSplits(StartKeys(regions)).value
  {
    var n := |regions| - 1;
    EndKeySplitsAllBounded(regions[..n]);
    HBaseSplitCounter.EndKeySplitsSkipsUnbounded(regions, n);
    assert regions[..n + 1] == regions;
  }

  /** A clone and a table created from the end-key splits file of the same healthy
      source get the same split keys. */
  lemma CloneAgreesWithSplitsFile(existing: TableDescriptor, regions: seq<Region>, newTable: string)
    requires Contiguous(regions)
    requires AllIntKeys(HBaseSplitCounter.EndKeySplits(regions))
    ensures var lines := KeyLines(HBaseSplitCounter.EndKeySplits(regions));
      && TableCreator.ParsedSplits(lines).Ok?
      && TableCloneCreator.CloneRequest(existing, StartKeys(regions), newTable).Some?
      && TableCloneCreator.CloneRequest(existing, StartKeys(regions), newTable).value.splits
         == Some(TableCreator.EncodedSplits(TableCreator.ParsedSplits(lines).value))
  {
    EndKeysSurviveSplitsFile(regions);
    EndKeySplitsAreStartKeySplits(regions);
  }

  /** Three regions ending at a, b and the unbounded end give the splits a, b. */
  lemma ThreeRegionSplits(a: seq<Byte>, b: seq<Byte>)
    requires a != [] && b != []
    ensures HBaseSplitCounter.EndKeySplits([Region([], a), Region(a, b), Region(b, [])]) == [a, b]
  {
    var regions := [Region([], a), Region(a, b), Region(b, [])];
    assert regions[..1][..0] == [];
    assert HBaseSplitCounter.EndKeySplits(regions[..1]) == [a];
    assert regions[..2][..1] == regions[..1];
    assert HBaseSplitCounter.EndKeySplits(regions[..2]) == [a, b];
    assert regions[..2] == regions[..|regions| - 1];
  }

  /** Regions ending at 4-byte keys a, b and the unbounded end give the file
      holding a's int and then b's. */
  lemma ThreeRegionLines(a: seq<Byte>, b: seq<Byte>)
    requires |a| == INT_BYTES && |b| == INT_BYTES
    ensures var keys := HBaseSplitCounter.EndKeySplits([Region([], a), Region(a, b), Region(b, [])]);
      AllIntKeys(keys) && KeyLines(keys) == [IntToString(BytesToInt(a)), IntToString(BytesToInt(b))]
  {
    ThreeRegionSplits(a, b);
    assert AllIntKeys([a, b]);
    assert [a, b][..1] == [a] && [a][..0] == [];
  }

  /** Regions whose end keys hold the ints 100, 200 and then the unbounded end give
      the file "100", "200", in that order. */
  lemma ThreeRegionExample(a: seq<Byte>, b: seq<Byte>)
    requires |a| == INT_BYTES && BytesToInt(a) == 100
    requires |b| == INT_BYTES && BytesToInt(b) == 200
    ensures var keys := HBaseSplitCounter.EndKeySplits([Region([], a), Region(a, b), Region(b, [])]);
      AllIntKeys(keys) && KeyLines(keys) == ["100", "200"]
  {
    ThreeRegionLines(a, b);
    assert NatToString(1) == "1" && NatToString(2) == "2";
    assert NatToString(10) == "10" && NatToString(20) == "20";
    assert IntToString(100) == "100" && IntToString(200) == "200";
  }
}
