/**
 * The querier's adapter from a new-generation catalog `ParquetFile` record to
 * an old-generation `CatalogChunk`: decode the embedded metadata, resolve names
 * through the catalog cache, build the underlying parquet chunk, derive the
 * old-generation address and a chunk order, and assemble the result.
 *
 * Every `expect` and every cache miss of the program is a `Failure` carrying
 * the `Panic` that names it; a `Success` is the chunk the program returns.
 */
module Chunk {
  import opened Wrappers
  import opened Numerics
  import opened Uuids
  import opened DataTypes
  import opened ParquetFiles
  import opened Cache

  datatype Panic =
    | ParquetMetadataBroken           // `decode().expect(..)`
    | CannotReadIoxMetadata           // `read_iox_metadata_new().expect(..)`
    | UnknownTable(table: TableId)
    | UnknownNamespace(namespace: NamespaceId)
    | UnknownPartition(partition: PartitionId)
    | CannotCreateChunk               // `ParquetChunk::new(..).expect(..)`
    | AddWithOverflow                 // `1 + x` overflowing in a debug build
    | OrderIsZero                     // `ChunkOrder::new(..).expect(..)`

  /** Which meaning Rust gives to an overflowing `+`. */
  datatype BuildProfile = Debug | Release

  /** A parquet file together with its decoded metadata. */
  datatype DecodedParquetFile = DecodedParquetFile(
    parquetFile: ParquetFile,
    parquetMetadata: IoxParquetMetaData,
    decodedMetadata: DecodedIoxParquetMetaData,
    ioxMetadata: IoxMetadata)

  /** The adapter's state: the catalog cache and the object store its chunks read from. */
  datatype ParquetChunkAdapter = ParquetChunkAdapter(catalogCache: CatalogCache, ioxObjectStore: ChunkReader)

  /** Deleted rows, synchronised into a chunk by another process. */
  datatype DeletePredicate = DeletePredicate(expr: string)

  datatype SortKey = SortKey(columns: seq<string>)

  datatype ChunkMetadata = ChunkMetadata(
    tableSummary: TableSummary,
    schema: Schema,
    deletePredicates: seq<DeletePredicate>,
    timeOfFirstWrite: Time,
    timeOfLastWrite: Time,
    sortKey: Option<SortKey>)

  /** An object-store-only catalog chunk. */
  datatype CatalogChunk = CatalogChunk(addr: ChunkAddr, order: ChunkOrder, metadata: ChunkMetadata, chunk: ParquetChunk)

  // ------------------------------------------------------------ decoding

  /** `DecodedParquetFile::new`: decode once, fail fast, no partial result. */
  function NewDecodedParquetFile(codec: Codec, parquetFile: ParquetFile): (r: Result<DecodedParquetFile, Panic>)
    ensures var md := IoxParquetMetaData(parquetFile.parquetMetadata);
      && (codec.decode(md).None? ==> r == Failure(ParquetMetadataBroken))
      && (codec.decode(md).Some? && codec.readIoxMetadataNew(codec.decode(md).value).None? ==>
            r == Failure(CannotReadIoxMetadata))
      && (r.Success? <==> codec.decode(md).Some? && codec.readIoxMetadataNew(codec.decode(md).value).Some?)
    ensures r.Success? ==>
      && r.value.parquetFile == parquetFile
      && r.value.parquetMetadata.thriftBytes == parquetFile.parquetMetadata
      && codec.decode(r.value.parquetMetadata) == Some(r.value.decodedMetadata)
      && codec.readIoxMetadataNew(r.value.decodedMetadata) == Some(r.value.ioxMetadata)
  {
    var parquetMetadata := IoxParquetMetaData(parquetFile.parquetMetadata);
    var decodedMetadata :- codec.decode(parquetMetadata).ToResult(ParquetMetadataBroken);
    var ioxMetadata :- codec.readIoxMetadataNew(decodedMetadata).ToResult(CannotReadIoxMetadata);
    Success(DecodedParquetFile(parquetFile, parquetMetadata, decodedMetadata, ioxMetadata))
  }

  // ------------------------------------------------------------ underlying chunk

  /** `ParquetFilePath::new_new_gen` over the ids embedded in the file. */
  function StoragePath(iox: IoxMetadata): (p: ParquetFilePath)
    ensures p.namespaceId == iox.namespaceId && p.tableId == iox.tableId && p.sequencerId == iox.sequencerId
    ensures p.partitionId == iox.partitionId && p.objectStoreId == iox.objectStoreId
  {
    NewGen(iox.namespaceId, iox.tableId, iox.sequencerId, iox.partitionId, iox.objectStoreId)
  }

  /** The request `new_parquet_chunk` hands to `ParquetChunk::new`. */
  function ChunkRequestFor(d: DecodedParquetFile, tableName: string, partitionKey: string): ChunkRequest {
    ChunkRequest(StoragePath(d.ioxMetadata), I64AsUsize(d.parquetFile.fileSizeBytes), d.parquetMetadata,
                 tableName, partitionKey)
  }

  /** `ParquetChunkAdapter::new_parquet_chunk`. */
  function NewParquetChunk(adapter: ParquetChunkAdapter, d: DecodedParquetFile): (r: Result<ParquetChunk, Panic>)
    ensures var cache := adapter.catalogCache;
      var pf := d.parquetFile;
      && (pf.tableId !in cache.tableNames ==> r == Failure(UnknownTable(pf.tableId)))
      && (pf.tableId in cache.tableNames && pf.partitionId !in cache.oldGenPartitionKeys ==>
            r == Failure(UnknownPartition(pf.partitionId)))
      && (r.Success? <==>
            && pf.tableId in cache.tableNames
            && pf.partitionId in cache.oldGenPartitionKeys
            && adapter.ioxObjectStore(ChunkRequestFor(d, cache.tableNames[pf.tableId],
                                                      cache.oldGenPartitionKeys[pf.partitionId])).Some?)
      && (r.Failure? && pf.tableId in cache.tableNames && pf.partitionId in cache.oldGenPartitionKeys ==>
            r.error == CannotCreateChunk)
    ensures r.Success? ==>
      && r.value.path == StoragePath(d.ioxMetadata)
      && r.value.fileSizeBytes == I64AsUsize(d.parquetFile.fileSizeBytes)
      && r.value.parquetMetadata == d.parquetMetadata
      && r.value.tableName == adapter.catalogCache.tableNames[d.parquetFile.tableId]
      && r.value.partitionKey == adapter.catalogCache.oldGenPartitionKeys[d.parquetFile.partitionId]
  {
    var cache := adapter.catalogCache;
    var pf := d.parquetFile;
    var tableName :- cache.TableName(pf.tableId).ToResult(UnknownTable(pf.tableId));
    var partitionKey :- cache.OldGenPartitionKey(pf.partitionId).ToResult(UnknownPartition(pf.partitionId));
    var chunk :- ParquetChunkNew(adapter.ioxObjectStore, ChunkRequestFor(d, tableName, partitionKey))
                   .ToResult(CannotCreateChunk);
    Success(chunk)
  }

  // ------------------------------------------------------------ address

  /** `ChunkId::from(Uuid::from_u128(id.get() as _))`. */
  function ChunkIdFromFileId(id: ParquetFileId): (c: ChunkId)
    ensures WellFormed(c.uuid)
    ensures AsU128(c.uuid) == I64AsU128(id.get)
    ensures 0 <= id.get ==> AsU128(c.uuid) as int == id.get as int
  {
    ChunkId(FromU128(I64AsU128(id.get)))
  }

  /** Distinct file ids give distinct chunk ids. */
  lemma ChunkIdInjective(a: ParquetFileId, b: ParquetFileId)
    ensures ChunkIdFromFileId(a) == ChunkIdFromFileId(b) ==> a == b
  {
    if ChunkIdFromFileId(a) == ChunkIdFromFileId(b) {
      FromU128Injective(I64AsU128(a.get), I64AsU128(b.get));
      I64AsU128Injective(a.get, b.get);
    }
  }

  /** File id 1 is chunk `00000000-0000-0000-0000-000000000001`. */
  lemma ChunkIdOfFileOne()
    ensures Hyphenated(ChunkIdFromFileId(ParquetFileId(1)).uuid) == "00000000-0000-0000-0000-000000000001"
  {
    assert ChunkIdFromFileId(ParquetFileId(1)).uuid == FromU128(1);
    FromU128OfOne();
    HyphenatedOfOne(FromU128(1));
  }

  /** `ParquetChunkAdapter::old_gen_chunk_addr`; lookups in the order the struct literal evaluates them. */
  function OldGenChunkAddr(cache: CatalogCache, pf: ParquetFile): (r: Result<ChunkAddr, Panic>)
    ensures pf.tableId !in cache.tableNamespaceIds ==> r == Failure(UnknownTable(pf.tableId))
    ensures pf.tableId in cache.tableNamespaceIds && cache.tableNamespaceIds[pf.tableId] !in cache.namespaceNames ==>
      r == Failure(UnknownNamespace(cache.tableNamespaceIds[pf.tableId]))
    ensures r.Success? <==>
      && pf.tableId in cache.tableNamespaceIds
      && cache.tableNamespaceIds[pf.tableId] in cache.namespaceNames
      && pf.tableId in cache.tableNames
      && pf.partitionId in cache.oldGenPartitionKeys
    ensures r.Success? ==>
      && r.value.dbName == cache.namespaceNames[cache.tableNamespaceIds[pf.tableId]]
      && r.value.tableName == cache.tableNames[pf.tableId]
      && r.value.partitionKey == cache.oldGenPartitionKeys[pf.partitionId]
      && r.value.chunkId == ChunkIdFromFileId(pf.id)
  {
    var namespaceId :- cache.TableNamespaceId(pf.tableId).ToResult(UnknownTable(pf.tableId));
    var dbName :- cache.NamespaceName(namespaceId).ToResult(UnknownNamespace(namespaceId));
    var tableName :- cache.TableName(pf.tableId).ToResult(UnknownTable(pf.tableId));
    var partitionKey :- cache.OldGenPartitionKey(pf.partitionId).ToResult(UnknownPartition(pf.partitionId));
    Success(ChunkAddr(dbName, tableName, partitionKey, ChunkIdFromFileId(pf.id)))
  }

  /** Two files with the same chunk address are the same file id. */
  lemma AddressDeterminesFileId(cache: CatalogCache, a: ParquetFile, b: ParquetFile)
    requires OldGenChunkAddr(cache, a).Success? && OldGenChunkAddr(cache, b).Success?
    requires OldGenChunkAddr(cache, a).value == OldGenChunkAddr(cache, b).value
    ensures a.id == b.id
  {
    ChunkIdInjective(a.id, b.id);
  }

  // ------------------------------------------------------------ order

  /** `ChunkOrder::new(1 + min_sequence_number.get() as u32).expect(..)`. */
  function DeriveOrder(profile: BuildProfile, minSequenceNumber: SequenceNumber): (r: Result<ChunkOrder, Panic>)
    ensures r.Success? <==> I64AsU32(minSequenceNumber.get) != U32_MAX
    ensures r.Success? ==> r.value as int == 1 + I64AsU32(minSequenceNumber.get) as int
    ensures r.Failure? ==> r.error == (if profile == Debug then AddWithOverflow else OrderIsZero)
  {
    var low := I64AsU32(minSequenceNumber.get);
    match profile
    case Debug =>
      var sum :- CheckedAddU32(1, low).ToResult(AddWithOverflow);
      ChunkOrderNew(sum).ToResult(OrderIsZero)
    case Release =>
      ChunkOrderNew(WrappingAddU32(1, low)).ToResult(OrderIsZero)
  }

  /** Debug and release builds produce the same order, and fail on the same sequence numbers. */
  lemma DeriveOrderProfilesAgree(s: SequenceNumber)
    ensures DeriveOrder(Debug, s).Success? <==> DeriveOrder(Release, s).Success?
    ensures DeriveOrder(Debug, s).Success? ==> DeriveOrder(Debug, s).value == DeriveOrder(Release, s).value
  {
  }

  /** A sequence number whose low 32 bits are all ones has no order: 2^32 - 1, and also -1. */
  lemma DeriveOrderFailsAtU32Max(profile: BuildProfile)
    ensures DeriveOrder(profile, SequenceNumber(0xFFFF_FFFF)).Failure?
    ensures DeriveOrder(profile, SequenceNumber(-1)).Failure?
  {
  }

  /** Only the low 32 bits matter: 0 and 2^32 get the same order. */
  lemma DeriveOrderWrapsAt2To32(profile: BuildProfile)
    ensures DeriveOrder(profile, SequenceNumber(0)) == DeriveOrder(profile, SequenceNumber(0x1_0000_0000))
    ensures DeriveOrder(profile, SequenceNumber(0)) == Success(1)
  {
  }

  // ------------------------------------------------------------ assembly

  /** `ParquetChunkAdapter::new_catalog_chunk`. */
  function NewCatalogChunk(adapter: ParquetChunkAdapter, codec: Codec, profile: BuildProfile, parquetFile: ParquetFile)
    : (r: Result<CatalogChunk, Panic>)
    ensures r.Success? ==>
      && NewDecodedParquetFile(codec, parquetFile).Success?
      && var d := NewDecodedParquetFile(codec, parquetFile).value;
      && var c := r.value;
      && OldGenChunkAddr(adapter.catalogCache, parquetFile) == Success(c.addr)
      && NewParquetChunk(adapter, d) == Success(c.chunk)
      && c.addr.tableName == c.chunk.tableName
      && c.addr.partitionKey == c.chunk.partitionKey
      && c.order as int == 1 + I64AsU32(d.ioxMetadata.minSequenceNumber.get) as int
      && c.metadata.tableSummary == c.chunk.tableSummary
      && c.metadata.schema == c.chunk.schema
      && c.metadata.deletePredicates == []
      && c.metadata.timeOfFirstWrite == d.ioxMetadata.timeOfFirstWrite
      && c.metadata.timeOfLastWrite == d.ioxMetadata.timeOfLastWrite
      && c.metadata.sortKey == None
  {
    var decoded :- NewDecodedParquetFile(codec, parquetFile);
    var chunk :- NewParquetChunk(adapter, decoded);
    var addr :- OldGenChunkAddr(adapter.catalogCache, decoded.parquetFile);
    var iox := decoded.ioxMetadata;
    var order :- DeriveOrder(profile, iox.minSequenceNumber);
    var metadata := ChunkMetadata(chunk.tableSummary, chunk.schema, [], iox.timeOfFirstWrite, iox.timeOfLastWrite, None);
    Success(CatalogChunk(addr, order, metadata, chunk))
  }

  /** All or nothing: a chunk comes out exactly when every step succeeds. */
  lemma NewCatalogChunkAllOrNothing(adapter: ParquetChunkAdapter, codec: Codec, profile: BuildProfile, pf: ParquetFile)
    ensures NewCatalogChunk(adapter, codec, profile, pf).Success? <==>
      && NewDecodedParquetFile(codec, pf).Success?
      && NewParquetChunk(adapter, NewDecodedParquetFile(codec, pf).value).Success?
      && OldGenChunkAddr(adapter.catalogCache, pf).Success?
      && DeriveOrder(profile, NewDecodedParquetFile(codec, pf).value.ioxMetadata.minSequenceNumber).Success?
  {
  }

  /** Failing to decode aborts before any lookup or chunk is attempted. */
  lemma DecodeFailureAborts(adapter: ParquetChunkAdapter, codec: Codec, profile: BuildProfile, pf: ParquetFile)
    requires NewDecodedParquetFile(codec, pf).Failure?
    ensures NewCatalogChunk(adapter, codec, profile, pf) == Failure(NewDecodedParquetFile(codec, pf).error)
    ensures NewCatalogChunk(adapter, codec, profile, pf).error in {ParquetMetadataBroken, CannotReadIoxMetadata}
  {
  }

  /** An unknown table aborts construction before the chunk is built: the object store plays no part. */
  lemma UnknownTableAbortsBeforeChunk(cache: CatalogCache, store1: ChunkReader, store2: ChunkReader,
                                      codec: Codec, profile: BuildProfile, pf: ParquetFile)
    requires NewDecodedParquetFile(codec, pf).Success?
    requires pf.tableId !in cache.tableNames
    ensures NewCatalogChunk(ParquetChunkAdapter(cache, store1), codec, profile, pf) == Failure(UnknownTable(pf.tableId))
    ensures NewCatalogChunk(ParquetChunkAdapter(cache, store2), codec, profile, pf) == Failure(UnknownTable(pf.tableId))
  {
  }

  /**
   * The storage path depends on the five ids embedded in the file and on
   * nothing the catalog record says about itself.
   */
  lemma StoragePathFromEmbeddedIds(adapter: ParquetChunkAdapter, d1: DecodedParquetFile, d2: DecodedParquetFile)
    requires NewParquetChunk(adapter, d1).Success? && NewParquetChunk(adapter, d2).Success?
    ensures NewParquetChunk(adapter, d1).value.path == NewParquetChunk(adapter, d2).value.path <==>
      && d1.ioxMetadata.namespaceId == d2.ioxMetadata.namespaceId
      && d1.ioxMetadata.tableId == d2.ioxMetadata.tableId
      && d1.ioxMetadata.sequencerId == d2.ioxMetadata.sequencerId
      && d1.ioxMetadata.partitionId == d2.ioxMetadata.partitionId
      && d1.ioxMetadata.objectStoreId == d2.ioxMetadata.objectStoreId
  {
  }

  /** The order comes from the embedded minimum sequence number, not from the record's own. */
  lemma OrderFromEmbeddedSequenceNumber(adapter: ParquetChunkAdapter, codec: Codec, profile: BuildProfile,
                                        pf: ParquetFile, other: SequenceNumber)
    requires NewCatalogChunk(adapter, codec, profile, pf).Success?
    ensures NewCatalogChunk(adapter, codec, profile, pf.(minSequenceNumber := other)).Success?
    ensures NewCatalogChunk(adapter, codec, profile, pf.(minSequenceNumber := other)).value.order ==
            NewCatalogChunk(adapter, codec, profile, pf).value.order
  {
    var pf' := pf.(minSequenceNumber := other);
    assert IoxParquetMetaData(pf'.parquetMetadata) == IoxParquetMetaData(pf.parquetMetadata);
  }

  /** Two chunks built from one cache with equal addresses come from the same file id. */
  lemma CatalogChunkAddressDeterminesFileId(adapter: ParquetChunkAdapter, codec1: Codec, codec2: Codec,
                                            profile: BuildProfile, a: ParquetFile, b: ParquetFile)
    requires NewCatalogChunk(adapter, codec1, profile, a).Success?
    requires NewCatalogChunk(adapter, codec2, profile, b).Success?
    requires NewCatalogChunk(adapter, codec1, profile, a).value.addr == NewCatalogChunk(adapter, codec2, profile, b).value.addr
    ensures a.id == b.id
  {
    AddressDeterminesFileId(adapter.catalogCache, a, b);
  }

  // ------------------------------------------------------------ the test scenario

  /** A catalog with namespace "ns", its table "table", and partition "part" of sequencer 1. */
  function TestCache(ns: NamespaceId, table: TableId, partition: PartitionId): CatalogCache {
    CatalogCache(map[table := "table"], map[table := ns], map[ns := "ns"], map[partition := "1-part"])
  }

  /** `test_create_record`: file 1 of that partition gets the address the test expects. */
  lemma TestCreateRecord(ns: NamespaceId, table: TableId, partition: PartitionId, store: ChunkReader,
                         codec: Codec, profile: BuildProfile, pf: ParquetFile)
    requires pf.id == ParquetFileId(1) && pf.tableId == table && pf.partitionId == partition
    requires NewDecodedParquetFile(codec, pf).Success?
    requires I64AsU32(NewDecodedParquetFile(codec, pf).value.ioxMetadata.minSequenceNumber.get) != U32_MAX
    requires forall req :: store(req).Some?
    ensures var r := NewCatalogChunk(ParquetChunkAdapter(TestCache(ns, table, partition), store), codec, profile, pf);
      && r.Success?
      && ChunkAddrToString(r.value.addr) == "Chunk('ns':'table':'1-part':" + "00000000-0000-0000-0000-000000000001" + ")"
  {
    var adapter := ParquetChunkAdapter(TestCache(ns, table, partition), store);
    var r := NewCatalogChunk(adapter, codec, profile, pf);
    var d := NewDecodedParquetFile(codec, pf).value;
    assert NewParquetChunk(adapter, d).Success?;
    assert r.Success?;
    var addr := r.value.addr;
    assert addr == ChunkAddr("ns", "table", "1-part", ChunkIdFromFileId(ParquetFileId(1)));
    ChunkIdOfFileOne();
    TestAddrString(addr);
  }

  lemma TestAddrString(a: ChunkAddr)
    requires a.dbName == "ns" && a.tableName == "table" && a.partitionKey == "1-part"
    requires WellFormed(a.chunkId.uuid) && Hyphenated(a.chunkId.uuid) == "00000000-0000-0000-0000-000000000001"
    ensures ChunkAddrToString(a) == "Chunk('ns':'table':'1-part':" + "00000000-0000-0000-0000-000000000001" + ")"
  {
    var s := "Chunk('" + a.dbName;
    assert s == "Chunk('ns";
    s := s + "':'" + a.tableName;
    assert s == "Chunk('ns':'table";
    s := s + "':'" + a.partitionKey;
    assert s == "Chunk('ns':'table':'1-part";
    s := s + "':";
    assert s == "Chunk('ns':'table':'1-part':";
  }
}
