/**
 * Identifier and address types of the catalog (`data_types2`) as the adapter
 * uses them. Every id is a newtype over the integer width the catalog stores.
 */
module DataTypes {
  import opened Wrappers
  import opened Numerics
  import opened Uuids

  datatype NamespaceId = NamespaceId(get: i32)
  datatype TableId = TableId(get: i32)
  datatype SequencerId = SequencerId(get: i16)
  datatype PartitionId = PartitionId(get: i64)
  datatype ParquetFileId = ParquetFileId(get: i64)
  datatype SequenceNumber = SequenceNumber(get: i64)

  /** The catalog's record of one persisted parquet file. */
  datatype ParquetFile = ParquetFile(
    id: ParquetFileId,
    sequencerId: SequencerId,
    tableId: TableId,
    partitionId: PartitionId,
    objectStoreId: Uuid,
    minSequenceNumber: SequenceNumber,
    maxSequenceNumber: SequenceNumber,
    fileSizeBytes: i64,
    parquetMetadata: seq<byte>)

  /** Old-generation chunk id: a UUID. */
  datatype ChunkId = ChunkId(uuid: Uuid)

  /** Old-generation chunk address. */
  datatype ChunkAddr = ChunkAddr(dbName: string, tableName: string, partitionKey: string, chunkId: ChunkId)

  /** A non-zero 32-bit chunk order (`NonZeroU32`). */
  newtype ChunkOrder = x: int | 1 <= x < 0x1_0000_0000 witness 1

  /** `ChunkOrder::new`: `None` exactly for zero. */
  function ChunkOrderNew(v: u32): (r: Option<ChunkOrder>)
    ensures r.Some? <==> v != 0
    ensures r.Some? ==> r.value as int == v as int
  {
    if v == 0 then None else Some(v as int as ChunkOrder)
  }

  /** `ChunkAddr`'s display form, `Chunk('db':'table':'partition':uuid)`. */
  function ChunkAddrToString(a: ChunkAddr): (s: string)
    requires WellFormed(a.chunkId.uuid)
    ensures |s| >= 7 + 37 && s[..7] == "Chunk('" && s[|s| - 1] == ')'
    ensures s[|s| - 39..|s| - 37] == "':" && s[|s| - 37..|s| - 1] == Hyphenated(a.chunkId.uuid)
  {
    "Chunk('" + a.dbName + "':'" + a.tableName + "':'" + a.partitionKey + "':" + Hyphenated(a.chunkId.uuid) + ")"
  }
}
