/** TableCloneCreator: creates a new table with an existing table's column
    families, maximum file size and region boundaries. */
module TableCloneCreator {
  import opened Wrappers
  import opened Bytes
  import opened HBase

  /** The split points of the clone: Arrays.copyOfRange(startKeys, 1, n), the
      existing table's start keys without the first, which for a healthy table is
      the first region's empty lower bound; the keys stay in their binary form.
      With no start keys at all copyOfRange throws (None). */
  function CloneSplits(startKeys: seq<seq<Byte>>): (splits: Option<seq<seq<Byte>>>)
    ensures splits.None? <==> startKeys == []
    ensures splits.Some? ==> |splits.value| == |startKeys| - 1
    ensures splits.Some? ==> forall i :: 0 <= i < |splits.value| ==> splits.value[i] == startKeys[i + 1]
  {
    if startKeys == [] then None else Some(startKeys[1..])
  }

  /** createPreSplitFromExisting: the request for the new table, given the
      existing table's descriptor and start keys; None where copyOfRange throws. */
  function CloneRequest(existing: TableDescriptor, startKeys: seq<seq<Byte>>, newTable: string)
    : (r: Option<CreateRequest>)
    ensures r.None? <==> startKeys == []
    ensures r.Some? ==>
      && r.value.descriptor.name == newTable
      && r.value.descriptor.maxFileSize == existing.maxFileSize
      && r.value.descriptor.families == existing.families
      && r.value.splits.Some? && |r.value.splits.value| == |startKeys| - 1
      && forall i :: 0 <= i < |startKeys| - 1 ==> r.value.splits.value[i] == startKeys[i + 1]
  {
    match CloneSplits(startKeys)
    case None => None
    case Some(splits) =>
      Some(CreateRequest(TableDescriptor(newTable, existing.families, existing.maxFileSize), Some(splits)))
  }

  /** For a healthy source table the clone's split points are exactly its non-empty
      start keys, in region order. */
  lemma CloneSplitsAreNonEmptyStartKeys(regions: seq<Region>)
    requires Contiguous(regions)
    ensures CloneSplits(StartKeys(regions)).Some?
    ensures var splits := CloneSplits(StartKeys(regions)).value;
      && (forall i :: 0 <= i < |splits| ==> splits[i] != [])
      && (forall k :: k in splits <==> k in StartKeys(regions) && k != [])
  {
    var keys := StartKeys(regions);
    var splits := CloneSplits(keys).value;
    forall i | 0 <= i < |splits|
      ensures splits[i] != []
    {
      assert splits[i] == regions[i].endKey;
    }
    forall k | k in keys && k != []
      ensures k in splits
    {
      var j :| 0 <= j < |keys| && keys[j] == k;
      assert splits[j - 1] == k;
    }
  }

  /** main's argument rule: exactly the existing table and the new table. */
  const USAGE: string :=
    "Usage: org.gbif.hbase.util.TableCloneCreator <existing table> <new table to create>"

  /** main: any argument count but 2 is a usage error (System.exit(1)). */
  function ParseArgs(args: seq<string>): (r: Result<(string, string), string>)
    ensures r.Ok? <==> |args| == 2
    ensures r.Ok? ==> r.value == (args[0], args[1])
    ensures r.Err? ==> r.error == USAGE
  {
    if |args| != 2 then Err(USAGE) else Ok((args[0], args[1]))
  }
}
