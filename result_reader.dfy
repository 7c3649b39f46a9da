/** ResultReader: typed getters over one HBase row. Each getter looks up the latest
    cell at (family, column) and returns the caller's default when there is none,
    otherwise the cell's bytes decoded as the requested type. */
module ResultReader {
  import opened Wrappers
  import opened Bytes

  /** The latest cell at one coordinate: its value bytes and write timestamp. */
  datatype Cell = Cell(value: seq<Byte>, timestamp: Int64)

  /** An HBase Result as the getters see it: the latest cell per (family, column).
      Coordinates are the Strings the getters take, here Dafny strings (sequences
      of Unicode scalar values), on which the UTF-8 encoding of Bytes.toBytes(String)
      is injective; Java strings with a lone surrogate are not modelled. */
  type Row = map<(string, string), Cell>

  /** Result.getValue(family, column): the latest value, or None for null. */
  function Value(row: Row, family: string, column: string): Option<seq<Byte>>
  {
    if (family, column) in row then Some(row[(family, column)].value) else None
  }

  /** getString; Bytes.toString (a UTF-8 decoder of the HBase library) is the
      parameter utf8. */
  function GetString(row: Row, family: string, column: string, default: Option<string>,
                     utf8: seq<Byte> -> string): (r: Option<string>)
    ensures (family, column) !in row ==> r == default
    ensures (family, column) in row ==> r == Some(utf8(row[(family, column)].value))
  {
    match Value(row, family, column)
    case None => default
    case Some(raw) => Some(utf8(raw))
  }

  /** getInteger: the default when absent, else the int whose 4 big-endian bytes
      are stored; a value of another width is a DecodeError. */
  function GetInteger(row: Row, family: string, column: string, default: Option<Int32>)
    : (r: Result<Option<Int32>, DecodeError>)
    ensures (family, column) !in row ==> r == Ok(default)
    ensures (family, column) in row ==>
      (r.Ok? <==> |row[(family, column)].value| == INT_BYTES)
    ensures (family, column) in row && r.Ok? ==>
      r.value.Some? && IntToBytes(r.value.value) == row[(family, column)].value
  {
    match Value(row, family, column)
    case None => Ok(default)
    case Some(raw) =>
      match DecodeInt(raw)
      case Ok(x) => Ok(Some(x))
      case Err(e) => Err(e)
  }

  /** getLong: the default when absent, else the long whose 8 big-endian bytes
      are stored; a value of another width is a DecodeError. */
  function GetLong(row: Row, family: string, column: string, default: Option<Int64>)
    : (r: Result<Option<Int64>, DecodeError>)
    ensures (family, column) !in row ==> r == Ok(default)
    ensures (family, column) in row ==>
      (r.Ok? <==> |row[(family, column)].value| == LONG_BYTES)
    ensures (family, column) in row && r.Ok? ==>
      r.value.Some? && LongToBytes(r.value.value) == row[(family, column)].value
  {
    match Value(row, family, column)
    case None => Ok(default)
    case Some(raw) =>
      match DecodeLong(raw)
      case Ok(x) => Ok(Some(x))
      case Err(e) => Err(e)
  }

  /** getBytes: the stored bytes themselves, or the default when absent. */
  function GetBytes(row: Row, family: string, column: string, default: Option<seq<Byte>>)
    : (r: Option<seq<Byte>>)
    ensures (family, column) !in row ==> r == default
    ensures (family, column) in row ==> r == Some(row[(family, column)].value)
  {
    match Value(row, family, column)
    case None => default
    case Some(raw) => Some(raw)
  }

  /** getTimestamp: the latest cell's timestamp, or None (null); there is no default. */
  function GetTimestamp(row: Row, family: string, column: string): (r: Option<Int64>)
    ensures r.None? <==> (family, column) !in row
    ensures r.Some? ==> r.value == row[(family, column)].timestamp
  {
    if (family, column) in row then Some(row[(family, column)].timestamp) else None
  }

  /** The row after a newer cell is written at (family, column). */
  function Put(row: Row, family: string, column: string, value: seq<Byte>, timestamp: Int64): Row
  {
    row[(family, column) := Cell(value, timestamp)]
  }

  /** An int stored as Bytes.toBytes(int) is read back unchanged, whatever the default. */
  lemma StoredIntReadBack(row: Row, family: string, column: string, x: Int32, timestamp: Int64,
                          default: Option<Int32>)
    ensures GetInteger(Put(row, family, column, IntToBytes(x), timestamp), family, column, default)
         == Ok(Some(x))
  {
    var r := GetInteger(Put(row, family, column, IntToBytes(x), timestamp), family, column, default);
    IntBytesRoundTrip(x);
    IntBytesRoundTrip(r.value.value);
  }

  /** A long stored as Bytes.toBytes(long) is read back unchanged, whatever the default. */
  lemma StoredLongReadBack(row: Row, family: string, column: string, x: Int64, timestamp: Int64,
                           default: Option<Int64>)
    ensures GetLong(Put(row, family, column, LongToBytes(x), timestamp), family, column, default)
         == Ok(Some(x))
  {
    var r := GetLong(Put(row, family, column, LongToBytes(x), timestamp), family, column, default);
    LongBytesRoundTrip(x);
    LongBytesRoundTrip(r.value.value);
  }

  /** Lookup is keyed by (family, column): writing one coordinate changes what no
      getter reads at any other, in particular the same column of another family. */
  lemma OtherCoordinatesUnaffected(row: Row, family: string, column: string,
                                   otherFamily: string, otherColumn: string,
                                   value: seq<Byte>, timestamp: Int64)
    requires (family, column) != (otherFamily, otherColumn)
    ensures var row' := Put(row, otherFamily, otherColumn, value, timestamp);
      && Value(row', family, column) == Value(row, family, column)
      && GetTimestamp(row', family, column) == GetTimestamp(row, family, column)
      && (forall d :: GetInteger(row', family, column, d) == GetInteger(row, family, column, d))
      && (forall d :: GetLong(row', family, column, d) == GetLong(row, family, column, d))
      && (forall d :: GetBytes(row', family, column, d) == GetBytes(row, family, column, d))
  {
  }

  /** The fixture of the getters' unit test, for any stored values: two families
      holding the same columns with different values (1111 / 4444 and
      33333333333333 / 66666666666666666 in the test); each read yields its own
      family's value, and a missing column yields the default. */
  lemma TwoFamilyFixture(int1: Int32, int2: Int32, long1: Int64, long2: Int64,
                         intDefault: Int32, longDefault: Int64)
    ensures var row := Put(Put(Put(Put(map[],
                          "1", "a", IntToBytes(int1), 0),
                          "2", "a", IntToBytes(int2), 0),
                          "1", "c", LongToBytes(long1), 0),
                          "2", "c", LongToBytes(long2), 0);
      && GetInteger(row, "1", "a", None) == Ok(Some(int1))
      && GetInteger(row, "2", "a", None) == Ok(Some(int2))
      && GetInteger(row, "1", "fake col", Some(intDefault)) == Ok(Some(intDefault))
      && GetLong(row, "1", "c", None) == Ok(Some(long1))
      && GetLong(row, "2", "c", None) == Ok(Some(long2))
      && GetLong(row, "1", "fake col", Some(longDefault)) == Ok(Some(longDefault))
  {
    var r1 := Put(map[], "1", "a", IntToBytes(int1), 0);
    var r2 := Put(r1, "2", "a", IntToBytes(int2), 0);
    var r3 := Put(r2, "1", "c", LongToBytes(long1), 0);
    var row := Put(r3, "2", "c", LongToBytes(long2), 0);
    StoredIntReadBack(map[], "1", "a", int1, 0, None);
    StoredIntReadBack(r1, "2", "a", int2, 0, None);
    StoredLongReadBack(r2, "1", "c", long1, 0, None);
    StoredLongReadBack(r3, "2", "c", long2, 0, None);
    OtherCoordinatesUnaffected(r2, "1", "a", "1", "c", LongToBytes(long1), 0);
    OtherCoordinatesUnaffected(r3, "1", "a", "2", "c", LongToBytes(long2), 0);
    OtherCoordinatesUnaffected(r3, "2", "a", "2", "c", LongToBytes(long2), 0);
    OtherCoordinatesUnaffected(r2, "2", "a", "1", "c", LongToBytes(long1), 0);
    OtherCoordinatesUnaffected(r1, "1", "a", "2", "a", IntToBytes(int2), 0);
    OtherCoordinatesUnaffected(row, "1", "c", "2", "c", LongToBytes(long2), 0);
  }
}
