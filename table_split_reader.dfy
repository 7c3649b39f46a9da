/** TableSplitReader: writes an existing table's split points, taken from its
    regions' start keys, to `<table>_splits.txt`, one decimal int per line. */
module TableSplitReader {
  import opened Wrappers
  import opened Bytes
  import opened Decimal
  import opened SplitFile

  const SPLITS_SUFFIX: string := "_splits.txt"

  /** splitsFile: the output file name, the table name followed by "_splits.txt". */
  function SplitsFileName(tableName: string): (name: string)
    ensures |name| == |tableName| + |SPLITS_SUFFIX|
    ensures name[..|tableName|] == tableName && name[|tableName|..] == SPLITS_SUFFIX
  {
    tableName + SPLITS_SUFFIX
  }

  /** Different tables never share a splits file. */
  lemma SplitsFileNameInjective(a: string, b: string)
    requires SplitsFileName(a) == SplitsFileName(b)
    ensures a == b
  {
    assert a == SplitsFileName(a)[..|a|];
  }

  /** The split points taken from getStartKeys: every start key but the first
      (the first region's empty lower bound), in order. */
  function StartKeySplits(startKeys: seq<seq<Byte>>): (keys: seq<seq<Byte>>)
    ensures |keys| == if startKeys == [] then 0 else |startKeys| - 1
    ensures forall i :: 0 <= i < |keys| ==> keys[i] == startKeys[i + 1]
  {
    if startKeys == [] then [] else startKeys[1..]
  }

  /** readIntSplits, after the start keys have been fetched: the FileWriter
      truncates the file, then each start key from index 1 on is decoded by
      Bytes.toInt and written as one line. A key that is not 4 bytes wide stops
      the run; closing the writer keeps the lines written before it. */
  method ReadIntSplits(startKeys: seq<seq<Byte>>, out: LineFile) returns (outcome: ExtractOutcome)
    modifies out
    ensures Run(out.lines, outcome) == WriteKeys(StartKeySplits(startKeys), None)
  {
    out.Truncate();
    ghost var keys := StartKeySplits(startKeys);
    var i := 1;
    while i < |startKeys|
      invariant 1 <= i && i - 1 <= |keys|
      invariant WriteKeys(keys, None) == WriteFrom(keys, i - 1, out.lines, None)
    {
      if |startKeys[i]| != INT_BYTES {
        return UndecodableKey(startKeys[i]);
      }
      out.AppendLine(IntToString(BytesToInt(startKeys[i])));
      i := i + 1;
    }
    return Finished(i - 1);
  }

  /** readIntSplits catches no IOException, so a run never ends in a failed write;
      it finishes exactly when every start key after the first is 4 bytes wide, and
      then the file holds one line per such key, in start-key order. */
  lemma ReadIntSplitsMeaning(startKeys: seq<seq<Byte>>)
    ensures var r := WriteKeys(StartKeySplits(startKeys), None);
      && !r.outcome.WriteFailed?
      && (r.outcome.Finished? <==> AllIntKeys(StartKeySplits(startKeys)))
      && (r.outcome.Finished? ==>
           && |r.file| == (if startKeys == [] then 0 else |startKeys| - 1)
           && r.file == KeyLines(StartKeySplits(startKeys)))
  {
    var keys := StartKeySplits(startKeys);
    WriteKeysMeaning(keys, None);
    assert keys[..|keys|] == keys;
  }

  /** main's argument rule: exactly the existing table's name. */
  const USAGE: string := "Usage: org.gbif.hbase.util.TableSplitReader <existing table>"

  /** main: any argument count but 1 is a usage error (System.exit(1)); otherwise
      the table to read and the file it is written to. */
  function ParseArgs(args: seq<string>): (r: Result<(string, string), string>)
    ensures r.Ok? <==> |args| == 1
    ensures r.Ok? ==> r.value == (args[0], SplitsFileName(args[0]))
    ensures r.Err? ==> r.error == USAGE
  {
    if |args| != 1 then Err(USAGE) else Ok((args[0], SplitsFileName(args[0])))
  }
}
