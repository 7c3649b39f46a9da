/** HBaseSplitCounter: writes a table's split points, taken from the regions' end
    keys, to a text file, one decimal int per line. */
module HBaseSplitCounter {
  import opened Wrappers
  import opened Bytes
  import opened Decimal
  import opened HBase
  import opened SplitFile

  /** The split points taken from a region listing: the end key of every region
      that has a non-empty one, in listing order. */
  function EndKeySplits(regions: seq<Region>): (keys: seq<seq<Byte>>)
    ensures |keys| <= |regions|
  {
    if regions == [] then []
    else
      var front, last := regions[..|regions| - 1], regions[|regions| - 1];
      EndKeySplits(front) + (if last.endKey != [] then [last.endKey] else [])
  }

  /** Every split point is the non-empty end key of some listed region. */
  lemma {:induction false} EndKeySplitsMembers(regions: seq<Region>)
    ensures forall k :: k in EndKeySplits(regions) ==>
      k != [] && exists i :: 0 <= i < |regions| && regions[i].endKey == k
  {
    if regions != [] {
      var front := regions[..|regions| - 1];
      EndKeySplitsMembers(front);
      assert forall i :: 0 <= i < |front| ==> front[i] == regions[i];
    }
  }

  /** The split points of a prefix of the listing are a prefix of all split points. */
  lemma {:induction false} EndKeySplitsPrefix(regions: seq<Region>, n: nat)
    requires n <= |regions|
    ensures EndKeySplits(regions[..n]) <= EndKeySplits(regions)
    decreases |regions| - n
  {
    if n < |regions| {
      EndKeySplitsPrefix(regions, n + 1);
      assert regions[..n + 1][..n] == regions[..n];
    } else {
      assert regions[..n] == regions;
    }
  }

  /** A region with a non-empty end key contributes that key, at the position
      after the keys of the regions listed before it. */
  lemma EndKeySplitsAt(regions: seq<Region>, i: nat)
    requires i < |regions| && regions[i].endKey != []
    ensures EndKeySplits(regions[..i + 1]) == EndKeySplits(regions[..i]) + [regions[i].endKey]
    ensures |EndKeySplits(regions[..i])| < |EndKeySplits(regions)|
    ensures EndKeySplits(regions)[|EndKeySplits(regions[..i])|] == regions[i].endKey
  {
    assert regions[..i + 1][..i] == regions[..i];
    EndKeySplitsPrefix(regions, i + 1);
  }

  /** A region whose end key is empty (the last, unbounded one) contributes nothing. */
  lemma EndKeySplitsSkipsUnbounded(regions: seq<Region>, i: nat)
    requires i < |regions| && regions[i].endKey == []
    ensures EndKeySplits(regions[..i + 1]) == EndKeySplits(regions[..i])
  {
    assert regions[..i + 1][..i] == regions[..i];
  }

  /** Split points keep the relative order of their regions in the listing. */
  lemma EndKeySplitsOrder(regions: seq<Region>, i: nat, j: nat)
    requires i < j < |regions|
    requires regions[i].endKey != [] && regions[j].endKey != []
    ensures |EndKeySplits(regions[..i])| < |EndKeySplits(regions[..j])|
  {
    EndKeySplitsAt(regions, i);
    assert regions[..j][..i + 1] == regions[..i + 1];
    EndKeySplitsPrefix(regions[..j], i + 1);
  }

  /** The number of split points is the number of regions with a non-empty end key. */
  lemma {:induction false} EndKeySplitsCount(regions: seq<Region>)
    ensures |EndKeySplits(regions)| == |set i | 0 <= i < |regions| && regions[i].endKey != []|
  {
    if regions != [] {
      var n := |regions| - 1;
      var front := regions[..n];
      EndKeySplitsCount(front);
      var before := set i | 0 <= i < n && front[i].endKey != [];
      var all := set i | 0 <= i < |regions| && regions[i].endKey != [];
      assert before == set i | 0 <= i < n && regions[i].endKey != [];
      if regions[n].endKey != [] {
        assert all == before + {n};
      } else {
        assert all == before;
      }
    }
  }

  /** generateSplitsFile, after the table's regions have been listed. The file is
      recreated first; then each region with a non-empty end key has that key
      decoded by Bytes.toInt and written as one flushed line. failingWrite is the
      index of the write that raises an IOException, if one does: the exception is
      only logged, so the file keeps the lines written before it. A key that is not
      4 bytes wide stops the run with the lines before it written. */
  method GenerateSplitsFile(regions: seq<Region>, out: LineFile, failingWrite: Option<nat>)
    returns (outcome: ExtractOutcome)
    modifies out
    ensures Run(out.lines, outcome) == WriteKeys(EndKeySplits(regions), failingWrite)
  {
    out.Truncate();
    ghost var keys := EndKeySplits(regions);
    var goodSplits := 0;
    for i := 0 to |regions|
      invariant goodSplits == |EndKeySplits(regions[..i])| <= |keys|
      invariant WriteKeys(keys, failingWrite) == WriteFrom(keys, goodSplits, out.lines, failingWrite)
    {
      var endKey := regions[i].endKey;
      if |endKey| > 0 {
        EndKeySplitsAt(regions, i);
        if |endKey| != INT_BYTES {
          return UndecodableKey(endKey);
        }
        var goodKey := BytesToInt(endKey);
        var written := goodSplits;
        goodSplits := goodSplits + 1;
        if failingWrite.Some? && failingWrite.value == written {
          return WriteFailed(written);
        }
        WriteFromNext(keys, written, out.lines, failingWrite);
        out.AppendLine(IntToString(goodKey));
      } else {
        EndKeySplitsSkipsUnbounded(regions, i);
      }
      EndKeySplitsPrefix(regions, i + 1);
    }
    assert regions[..|regions|] == regions;
    return Finished(goodSplits);
  }

  /** When every split point is 4 bytes wide and no write fails, the run finishes
      with one line per region that has an end key, in listing order, and goodSplits
      counts those regions. */
  lemma GenerateSplitsFileComplete(regions: seq<Region>)
    requires AllIntKeys(EndKeySplits(regions))
    ensures var r := WriteKeys(EndKeySplits(regions), None);
      && r.outcome.Finished?
      && r.file == KeyLines(EndKeySplits(regions))
      && r.outcome.lineCount == |set i | 0 <= i < |regions| && regions[i].endKey != []|
  {
    var keys := EndKeySplits(regions);
    WriteKeysMeaning(keys, None);
    assert keys[..|keys|] == keys;
    EndKeySplitsCount(regions);
  }

  /** main's argument rule: exactly a table name and an output file name. */
  datatype CounterArgs = CounterArgs(tableName: string, outputFileName: string)

  const USAGE: string := "Usage: HBaseSplitCounter <tableName> <outputFileName>"

  /** main: any argument count but 2 is a usage error (System.exit(1)). */
  function ParseArgs(args: seq<string>): (r: Result<CounterArgs, string>)
    ensures r.Ok? <==> |args| == 2
    ensures r.Ok? ==> r.value.tableName == args[0] && r.value.outputFileName == args[1]
    ensures r.Err? ==> r.error == USAGE
  {
    if |args| != 2 then Err(USAGE) else Ok(CounterArgs(args[0], args[1]))
  }
}
