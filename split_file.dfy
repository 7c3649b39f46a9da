/** The split-file format shared by the tools: one line per split point, each the
    decimal text of a 4-byte key read as an int, and the local text file the
    extracting tools write it to. A file is its sequence of lines; the "\n" that
    ends each line is implicit. */
module SplitFile {
  import opened Wrappers
  import opened Bytes
  import opened Decimal

  /** Every key is 4 bytes wide, the width Bytes.toInt decodes. */
  predicate AllIntKeys(keys: seq<seq<Byte>>)
  {
    forall i :: 0 <= i < |keys| ==> |keys[i]| == INT_BYTES
  }

  /** The line written for one split key: `Bytes.toInt(key) + "\n"`. */
  function KeyLine(key: seq<Byte>): string
    requires |key| == INT_BYTES
  {
    IntToString(BytesToInt(key))
  }

  /** Integer.valueOf reads a key's line back as the key's int. */
  lemma KeyLineParses(key: seq<Byte>)
    requires |key| == INT_BYTES
    ensures ParseInt(KeyLine(key)) == Ok(BytesToInt(key))
  {
    ParseIntToString(BytesToInt(key));
  }

  /** The lines written for a list of split keys, in order. */
  function KeyLines(keys: seq<seq<Byte>>): (lines: seq<string>)
    requires AllIntKeys(keys)
    ensures |lines| == |keys|
  {
    if keys == [] then []
    else
      var n := |keys| - 1;
      assert AllIntKeys(keys[..n]) by {
        assert forall i :: 0 <= i < n ==> keys[..n][i] == keys[i];
      }
      KeyLines(keys[..n]) + [KeyLine(keys[n])]
  }

  /** The i-th line is the line of the i-th key. */
  lemma {:induction false} KeyLinesAt(keys: seq<seq<Byte>>)
    requires AllIntKeys(keys)
    ensures forall i :: 0 <= i < |keys| ==> KeyLines(keys)[i] == KeyLine(keys[i])
  {
    if keys != [] {
      var n := |keys| - 1;
      assert AllIntKeys(keys[..n]) by {
        assert forall i :: 0 <= i < n ==> keys[..n][i] == keys[i];
      }
      KeyLinesAt(keys[..n]);
    }
  }

  /** How an extraction run ended: all lines written; an IOException on a write
      (caught and logged); or a key that is not 4 bytes wide. What Bytes.toInt
      yields for such a key is up to the HBase library; the model stops there. */
  datatype ExtractOutcome =
    | Finished(lineCount: nat)
    | WriteFailed(written: nat)
    | UndecodableKey(key: seq<Byte>)

  /** The file an extraction run leaves behind, and how the run ended. */
  datatype Run = Run(file: seq<string>, outcome: ExtractOutcome)

  /** The first n lines of a file are the lines of the first n keys, which are all
      4 bytes wide. */
  ghost predicate HoldsKeyLines(file: seq<string>, keys: seq<seq<Byte>>, n: nat)
  {
    n <= |file| && n <= |keys|
    && forall j :: 0 <= j < n ==> |keys[j]| == INT_BYTES && file[j] == KeyLine(keys[j])
  }

  /** The run of writing split keys one line each, from the n-th key on, after the
      lines already written: a key that is not 4 bytes wide stops the run, and so does
      the write that failingWrite names; otherwise the key's line is appended and
      the run goes on with the next key. */
  function WriteFrom(keys: seq<seq<Byte>>, n: nat, lines: seq<string>, failingWrite: Option<nat>): Run
    requires n <= |keys|
    decreases |keys| - n
  {
    if n == |keys| then Run(lines, Finished(n))
    else if |keys[n]| != INT_BYTES then Run(lines, UndecodableKey(keys[n]))
    else if failingWrite == Some(n) then Run(lines, WriteFailed(n))
    else WriteFrom(keys, n + 1, lines + [KeyLine(keys[n])], failingWrite)
  }

  /** The run of writing all split keys to a freshly truncated file. */
  function WriteKeys(keys: seq<seq<Byte>>, failingWrite: Option<nat>): Run
  {
    WriteFrom(keys, 0, [], failingWrite)
  }

  /** A 4-byte key whose write does not fail adds its line and the run goes on. */
  lemma WriteFromNext(keys: seq<seq<Byte>>, n: nat, lines: seq<string>, failingWrite: Option<nat>)
    requires n < |keys| && |keys[n]| == INT_BYTES
    requires failingWrite.None? || failingWrite.value != n
    ensures WriteFrom(keys, n, lines, failingWrite)
         == WriteFrom(keys, n + 1, lines + [IntToString(BytesToInt(keys[n]))], failingWrite)
  {
  }

  /** What a run that has written the first n keys goes on to produce. */
  lemma {:induction false} WriteFromMeaning(
    keys: seq<seq<Byte>>, n: nat, lines: seq<string>, failingWrite: Option<nat>)
    requires |lines| == n && HoldsKeyLines(lines, keys, n)
    requires failingWrite.None? || failingWrite.value >= n
    ensures var r := WriteFrom(keys, n, lines, failingWrite);
      && n <= |r.file| <= |keys|
      && HoldsKeyLines(r.file, keys, |r.file|)
      && (r.outcome.Finished? <==>
          AllIntKeys(keys) && (failingWrite.None? || failingWrite.value >= |keys|))
      && (r.outcome.Finished? ==> r.outcome.lineCount == |r.file| == |keys|)
      && (r.outcome.WriteFailed? ==>
          && r.outcome.written == |r.file| < |keys|
          && failingWrite == Some(|r.file|)
          && |keys[|r.file|]| == INT_BYTES)
      && (r.outcome.UndecodableKey? ==>
          && |r.file| < |keys|
          && r.outcome.key == keys[|r.file|]
          && |r.outcome.key| != INT_BYTES
          && (failingWrite.None? || failingWrite.value >= |r.file|))
    decreases |keys| - n
  {
    if n == |keys| {
    } else if |keys[n]| != INT_BYTES {
    } else if failingWrite == Some(n) {
    } else {
      var next := lines + [KeyLine(keys[n])];
      assert HoldsKeyLines(next, keys, n + 1);
      WriteFromMeaning(keys, n + 1, next, failingWrite);
    }
  }

  /** Writing split keys leaves the file holding the lines of a prefix of the keys;
      the run finishes exactly when every key is 4 bytes wide and no write fails,
      and then the file holds every key's line. A failed write or an undecodable
      key stops the run at the first key whose line is missing. */
  lemma WriteKeysMeaning(keys: seq<seq<Byte>>, failingWrite: Option<nat>)
    ensures var r := WriteKeys(keys, failingWrite);
      && |r.file| <= |keys|
      && AllIntKeys(keys[..|r.file|])
      && r.file == KeyLines(keys[..|r.file|])
      && (r.outcome.Finished? <==>
          AllIntKeys(keys) && (failingWrite.None? || failingWrite.value >= |keys|))
      && (r.outcome.Finished? ==> r.outcome.lineCount == |r.file| == |keys|)
      && (r.outcome.WriteFailed? ==>
          && r.outcome.written == |r.file| < |keys|
          && failingWrite == Some(|r.file|)
          && |keys[|r.file|]| == INT_BYTES)
      && (r.outcome.UndecodableKey? ==>
          && |r.file| < |keys|
          && r.outcome.key == keys[|r.file|]
          && |r.outcome.key| != INT_BYTES
          && (failingWrite.None? || failingWrite.value >= |r.file|))
  {
    WriteFromMeaning(keys, 0, [], failingWrite);
    var r := WriteKeys(keys, failingWrite);
    var prefix := keys[..|r.file|];
    assert AllIntKeys(prefix);
    KeyLinesAt(prefix);
  }

  /** A local text file being written line by line. */
  class LineFile {
    var lines: seq<string>

    constructor (lines: seq<string>)
      ensures this.lines == lines
    {
      this.lines := lines;
    }

    /** Delete if it exists and create it afresh (or open a FileWriter on it). */
    method Truncate()
      modifies this
      ensures lines == []
    {
      lines := [];
    }

    /** writer.write(line + "\n"), flushed. */
    method AppendLine(line: string)
      modifies this
      ensures lines == old(lines) + [line]
    {
      lines := lines + [line];
    }
  }
}
