/**
 * The parquet-file collaborators of the adapter (`parquet_file`,
 * `iox_object_store`). Their codecs and the chunk reader are foreign: they are
 * given as functions that may fail, and the model only fixes what the adapter
 * passes to them and keeps from them.
 */
module ParquetFiles {
  import opened Wrappers
  import opened Numerics
  import opened Uuids
  import opened DataTypes

  /** Parquet metadata as thrift bytes (`IoxParquetMetaData::from_thrift_bytes` only wraps them). */
  datatype IoxParquetMetaData = IoxParquetMetaData(thriftBytes: seq<byte>)

  /** The decoded parquet metadata; its contents belong to the codec. */
  datatype DecodedIoxParquetMetaData = DecodedIoxParquetMetaData(handle: nat)

  /** Nanoseconds since the epoch. */
  datatype Time = Time(timestampNanos: i64)

  /** The IOx metadata written into the file; only the fields the adapter reads. */
  datatype IoxMetadata = IoxMetadata(
    objectStoreId: Uuid,
    timeOfFirstWrite: Time,
    timeOfLastWrite: Time,
    namespaceId: NamespaceId,
    tableId: TableId,
    sequencerId: SequencerId,
    partitionId: PartitionId,
    minSequenceNumber: SequenceNumber)

  /** The foreign metadata codec. */
  datatype Codec = Codec(
    decode: IoxParquetMetaData -> Option<DecodedIoxParquetMetaData>,
    readIoxMetadataNew: DecodedIoxParquetMetaData -> Option<IoxMetadata>)

  /** New-generation object-store location; it keeps exactly the five ids it is built from. */
  datatype ParquetFilePath = NewGen(
    namespaceId: NamespaceId,
    tableId: TableId,
    sequencerId: SequencerId,
    partitionId: PartitionId,
    objectStoreId: Uuid)

  /** Column summaries and schema, read by the chunk from the file's metadata. */
  datatype TableSummary = TableSummary(columns: seq<string>)
  datatype Schema = Schema(columns: seq<string>)

  /** What `ParquetChunk::new` is given. */
  datatype ChunkRequest = ChunkRequest(
    path: ParquetFilePath,
    fileSizeBytes: usize,
    parquetMetadata: IoxParquetMetaData,
    tableName: string,
    partitionKey: string)

  /** What `ParquetChunk::new` reads from the store and the metadata. */
  datatype ChunkContents = ChunkContents(tableSummary: TableSummary, schema: Schema)

  /** `ParquetChunk::new` over an object store: `None` is its error. */
  type ChunkReader = ChunkRequest -> Option<ChunkContents>

  /** A scan-able parquet chunk. */
  datatype ParquetChunk = ParquetChunk(
    path: ParquetFilePath,
    fileSizeBytes: usize,
    parquetMetadata: IoxParquetMetaData,
    tableName: string,
    partitionKey: string,
    tableSummary: TableSummary,
    schema: Schema)

  /** `ParquetChunk::new`: a chunk that keeps what it was given, with the contents the reader found. */
  function ParquetChunkNew(reader: ChunkReader, req: ChunkRequest): (r: Option<ParquetChunk>)
    ensures r.Some? <==> reader(req).Some?
    ensures r.Some? ==> && r.value.path == req.path
                        && r.value.fileSizeBytes == req.fileSizeBytes
                        && r.value.parquetMetadata == req.parquetMetadata
                        && r.value.tableName == req.tableName
                        && r.value.partitionKey == req.partitionKey
                        && ChunkContents(r.value.tableSummary, r.value.schema) == reader(req).value
  {
    var contents :- reader(req);
    Some(ParquetChunk(req.path, req.fileSizeBytes, req.parquetMetadata, req.tableName, req.partitionKey,
                      contents.tableSummary, contents.schema))
  }
}
