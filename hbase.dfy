/** The HBase values the tools read and produce, with the store itself left out:
    regions as (startKey, endKey) pairs, table and column-family descriptors,
    and the createTable request a tool issues. */
module HBase {
  import opened Wrappers
  import opened Bytes

  /** A region's key range [startKey, endKey); an empty endKey means unbounded. */
  datatype Region = Region(startKey: seq<Byte>, endKey: seq<Byte>)

  /** Compression.Algorithm, recorded as a tag. */
  datatype Compression = NoCompression | Gz | Lzo | Lz4 | Snappy | Zstd

  /** DataBlockEncoding, recorded as a tag. */
  datatype DataBlockEncoding = NoEncoding | Prefix | Diff | FastDiff | RowIndexV1

  datatype ColumnFamily = ColumnFamily(
    name: string,
    compression: Compression,
    encoding: DataBlockEncoding,
    maxVersions: int)

  /** A table descriptor; maxFileSize is None when it was never set. */
  datatype TableDescriptor = TableDescriptor(
    name: string,
    families: seq<ColumnFamily>,
    maxFileSize: Option<int>)

  /** Admin.createTable(descriptor) when splits is None,
      Admin.createTable(descriptor, splits) otherwise. */
  datatype CreateRequest = CreateRequest(descriptor: TableDescriptor, splits: Option<seq<seq<Byte>>>)

  /** RegionLocator.getStartKeys: the start key of every region, in listing order. */
  function StartKeys(regions: seq<Region>): (keys: seq<seq<Byte>>)
    ensures |keys| == |regions|
    ensures forall i :: 0 <= i < |regions| ==> keys[i] == regions[i].startKey
  {
    seq(|regions|, i requires 0 <= i < |regions| => regions[i].startKey)
  }

  /** What a region listing of a healthy table looks like: the regions are
      contiguous, the first starts at the empty key, only the last is unbounded. */
  ghost predicate Contiguous(regions: seq<Region>)
  {
    && |regions| > 0
    && regions[0].startKey == []
    && regions[|regions| - 1].endKey == []
    && (forall i :: 0 <= i < |regions| - 1 ==> regions[i].endKey != [])
    && (forall i :: 0 <= i < |regions| - 1 ==> regions[i].endKey == regions[i + 1].startKey)
  }

  /** TableDescriptorBuilder: the mutable builder the provisioning tool configures. */
  class TableDescriptorBuilder {
    const name: string
    var families: seq<ColumnFamily>
    var maxFileSize: Option<int>

    /** TableDescriptorBuilder.newBuilder(name). */
    constructor (name: string)
      ensures this.name == name && families == [] && maxFileSize == None
    {
      this.name := name;
      families := [];
      maxFileSize := None;
    }

    /** setColumnFamily: one more family, after those already set. */
    method SetColumnFamily(family: ColumnFamily)
      modifies this
      ensures families == old(families) + [family]
      ensures maxFileSize == old(maxFileSize)
    {
      families := families + [family];
    }

    /** setMaxFileSize(long). */
    method SetMaxFileSize(size: Int64)
      modifies this
      ensures maxFileSize == Some(size as int)
      ensures families == old(families)
    {
      maxFileSize := Some(size as int);
    }

    /** build(). */
    function Build(): TableDescriptor
      reads this
    {
      TableDescriptor(name, families, maxFileSize)
    }
  }
}
