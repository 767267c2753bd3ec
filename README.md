# Querier parquet chunk adapter, modelled in Dafny

This project models the querier's `ParquetChunkAdapter` (`querier/src/chunk.rs`),
which turns a new-generation catalog `ParquetFile` record into an old-generation,
object-store-only `CatalogChunk`. The adapter:

1. decodes the file's embedded parquet metadata and reads the IOx metadata from it,
   failing at once on a bad blob (`DecodedParquetFile::new`);
2. builds the underlying `ParquetChunk` from a storage path made of the five ids
   embedded in the file, the file size, the table name and the old-generation
   partition key (`new_parquet_chunk`);
3. builds the old-generation address `ChunkAddr { db_name, table_name,
   partition_key, chunk_id }` (`old_gen_chunk_addr`);
4. derives a non-zero 32-bit chunk order `1 + (min_sequence_number as u32)`;
5. assembles the `CatalogChunk` with an empty delete-predicate list, no sort key
   and the write times of the embedded metadata (`new_catalog_chunk`).

The model is pure. Every `expect` and every cache miss becomes a `Failure` whose
`Panic` tag names the failing step, and a `Success` is the value the program returns.
The collaborators that are not part of this model are given to it as follows:

- The catalog cache is four fixed partial maps (`Cache.CatalogCache`). A missing
  key is a failure. Fixed maps also stand for the memoization: the two lookups of
  a table name agree, and so do the two lookups of a partition key.
- The metadata codec (`decode`, `read_iox_metadata_new`) is a pair of functions
  that may return `None` (`ParquetFiles.Codec`).
- `ParquetChunk::new` over the object store is a function from the request it is
  given to the summary and schema it reads, or `None` (`ParquetFiles.ChunkReader`).
  The model fixes what the chunk keeps from its request.
- `ParquetFilePath::new_new_gen` is a datatype constructor over its five ids.
- The `uuid` crate is modelled for what the address needs: `Uuid::from_u128` as
  sixteen big-endian bytes, and the hyphenated lower-case display form. A parser
  for the display form is the inverse that the display is proved against.
- Integer widths follow `data_types2`, which is not part of this model. Table and
  namespace ids are `i32`, partition ids, file ids and sequence numbers `i64`, and
  sequencer ids `i16`. The casts `i64 as u32` (truncation), `i64 as u128` (sign
  extension) and `i64 as usize` (wrap on a 64-bit target) are written out.
- The `+ 1` of the order is modelled under both build profiles. In a debug build
  the checked add panics. In a release build it wraps to 0 and `ChunkOrder::new`
  returns `None`, so the `expect` fires.

The model follows these details of the code:

- The code truncates the sequence number to 32 bits and then adds one. It does not
  widen first.
- The code resolves names in sequence, not concurrently, and it looks up the table
  name and the partition key twice. The model keeps that order exactly, so the
  first failing lookup decides the `Panic`.
- The partition key is whatever the cache holds for the partition id. It is not
  formatted by the adapter.

Both calls with the same inputs give the same result because every member is a
function. The model therefore needs no separate idempotence or determinism lemma.

## Model

| member | source | states |
|---|---|---|
| Chunk.NewDecodedParquetFile | querier/src/chunk.rs:22-38 | Succeeds exactly when both the parquet decode and the IOx metadata read succeed. A failed decode is `ParquetMetadataBroken` and a failed IOx read is `CannotReadIoxMetadata`. On success it keeps the record and the thrift bytes, and holds what the codec returned for them |
| Chunk.StoragePath | querier/src/chunk.rs:81-88 | The path carries exactly the embedded namespace, table, sequencer, partition and object-store ids |
| Chunk.NewParquetChunk | querier/src/chunk.rs:80-109 | An unknown table fails first, then an unknown partition, then the chunk reader (`CannotCreateChunk`). Success happens exactly when all three succeed. The chunk keeps the embedded-id path, the file size cast to usize, the shared metadata, the cached table name and the cached partition key |
| Chunk.StoragePathFromEmbeddedIds | querier/src/chunk.rs:81-88 | Two built chunks have the same path if and only if their five embedded ids agree; the record's own ids play no part |
| Chunk.UnknownTableAbortsBeforeChunk | querier/src/chunk.rs:92-108 | After a good decode, an unknown table id aborts with `UnknownTable` whatever the object store does |
| Chunk.ChunkIdFromFileId | querier/src/chunk.rs:173 | The chunk id is a 16-byte UUID whose u128 value is the file id sign-extended to 128 bits, and so the file id itself for every non-negative id |
| Chunk.ChunkIdInjective | querier/src/chunk.rs:173 | Distinct file ids give distinct chunk ids |
| Chunk.ChunkIdOfFileOne | querier/src/chunk.rs:213-216 | File id 1 displays as `00000000-0000-0000-0000-000000000001` |
| Chunk.OldGenChunkAddr | querier/src/chunk.rs:151-175 | `db_name` is the name of the namespace of the record's table, a two-step lookup. A missing table-to-namespace entry fails with `UnknownTable` and a missing namespace fails with `UnknownNamespace`. Success happens exactly when all four lookups succeed. The address carries the cached names and the widened chunk id |
| Chunk.AddressDeterminesFileId | querier/src/chunk.rs:158-174 | Two records with equal addresses have equal file ids |
| Chunk.DeriveOrder | querier/src/chunk.rs:125-128 | Succeeds exactly when the low 32 bits of the minimum sequence number are not `u32::MAX`. The order is then one more than those bits, and is never zero. Failure is the overflow panic in a debug build and the zero-order panic in a release build |
| Chunk.DeriveOrderProfilesAgree | querier/src/chunk.rs:127-128 | Debug and release builds fail on the same sequence numbers and otherwise give the same order |
| Chunk.DeriveOrderFailsAtU32Max | querier/src/chunk.rs:127-128 | Sequence numbers 2^32-1 and -1 both fail to give an order |
| Chunk.DeriveOrderWrapsAt2To32 | querier/src/chunk.rs:125-127 | Sequence number 0 gives order 1; 2^32 gives the same order as 0 |
| Chunk.NewCatalogChunk | querier/src/chunk.rs:111-149 | On success the decode succeeded. The address is the one `old_gen_chunk_addr` gives, and the chunk is the one `new_parquet_chunk` gives. The address and the chunk agree on table name and partition key. The order is `1 + (embedded min sequence number as u32)`. The metadata copies the chunk's summary and schema and the embedded write times, and has no delete predicates and no sort key |
| Chunk.NewCatalogChunkAllOrNothing | querier/src/chunk.rs:112-128 | A catalog chunk is produced exactly when decode, chunk construction, address and order all succeed |
| Chunk.DecodeFailureAborts | querier/src/chunk.rs:23-30 | A failed decode is the whole result, and the error is a metadata error |
| Chunk.OrderFromEmbeddedSequenceNumber | querier/src/chunk.rs:123-128 | Changing the record's own minimum sequence number changes neither the success nor the order; the embedded one is used |
| Chunk.CatalogChunkAddressDeterminesFileId | querier/src/chunk.rs:112-118 | Two catalog chunks built from one cache with equal addresses come from the same file id |
| Chunk.TestCreateRecord | querier/src/chunk.rs:189-216 | Namespace "ns", table "table" and partition key "1-part", with file id 1, give the address string `Chunk('ns':'table':'1-part':00000000-0000-0000-0000-000000000001)` |
| DataTypes.ChunkAddrToString | querier/src/chunk.rs:213-216 | The display form starts with `Chunk('`, ends with `)`, and the hyphenated chunk UUID fills the 36 characters after the last `':` |
| Chunk.TestAddrString | querier/src/chunk.rs:213-216 | The display form of an address with those names and that UUID is the expected string |
| Cache.CatalogCache.TableName | querier/src/chunk.rs:92 | The table name is found exactly when the table id is known |
| Cache.CatalogCache.TableNamespaceId | querier/src/chunk.rs:163-165 | The table's namespace id is found exactly when the table id is known |
| Cache.CatalogCache.NamespaceName | querier/src/chunk.rs:160-167 | The namespace name is found exactly when the namespace id is known |
| Cache.CatalogCache.OldGenPartitionKey | querier/src/chunk.rs:93-96 | The partition key is found exactly when the partition id is known |
| ParquetFiles.ParquetChunkNew | querier/src/chunk.rs:99-108 | The chunk exists exactly when the reader succeeds. It keeps the path, size, metadata, table name and partition key it was given |
| DataTypes.ChunkOrderNew | querier/src/chunk.rs:127-128 | `ChunkOrder::new` is `None` exactly for zero, and otherwise keeps the value |
| Numerics.I64AsU32 | querier/src/chunk.rs:127 | The result is congruent to the input modulo 2^32. It is the input itself when the input is in range, and the input plus 2^32 for small negative inputs |
| Numerics.WrappingAddU32 | querier/src/chunk.rs:127 | The sum when it fits in 32 bits, otherwise the sum minus 2^32 |
| Numerics.CheckedAddU32 | querier/src/chunk.rs:127 | `None` exactly when the sum does not fit in 32 bits |
| Numerics.I64AsU128 | querier/src/chunk.rs:173 | Non-negative ids are kept. A negative id becomes the id plus 2^128 (sign extension), which lies in the top 2^63 values |
| Numerics.U128AsI64 | querier/src/chunk.rs:173 | The result is congruent to the input modulo 2^64 |
| Numerics.I64AsU128RoundTrip | querier/src/chunk.rs:173 | Truncating the widened id back to i64 gives the id |
| Numerics.I64AsU128Injective | querier/src/chunk.rs:173 | Widening an i64 to u128 is injective |
| Numerics.I64AsUsize | querier/src/chunk.rs:91 | Non-negative sizes are kept. Negative sizes wrap by 2^64 |
| Uuids.FromU128 | querier/src/chunk.rs:173 | `Uuid::from_u128` gives a 16-byte UUID whose u128 value is the input |
| Uuids.FromAsU128 | querier/src/chunk.rs:173 | Every 16-byte UUID is `from_u128` of its value |
| Uuids.FromU128Injective | querier/src/chunk.rs:173 | Distinct u128 values give distinct UUIDs |
| Uuids.FromToBytesBE | querier/src/chunk.rs:173 | Reading back the big-endian bytes of a value gives the value |
| Uuids.ToFromBytesBE | querier/src/chunk.rs:173 | Writing out the value of a byte sequence gives the bytes |
| Uuids.FromU128OfOne | querier/src/chunk.rs:173 | The UUID of 1 has fifteen zero bytes followed by a one |
| Uuids.HexRoundTrip | querier/src/chunk.rs:213-216 | Hex decoding inverts lower-case hex encoding |
| Uuids.Hyphenated | querier/src/chunk.rs:213-216 | The display form has 36 characters, with hyphens at positions 8, 13, 18 and 23 |
| Uuids.HyphenatedRoundTrip | querier/src/chunk.rs:213-216 | Parsing the display form gives the UUID back |
| Uuids.HyphenatedInjective | querier/src/chunk.rs:213-216 | Distinct UUIDs display differently |
| Uuids.HyphenatedOfOne | querier/src/chunk.rs:215 | A UUID of fifteen zero bytes and a one displays as `00000000-0000-0000-0000-000000000001` |

## Left out

- `ParquetChunkAdapter::new` (querier/src/chunk.rs:59-77) is the datatype constructor `Chunk.ParquetChunkAdapter`. Its random `Uuid::new_v4()` root path is dropped, because it is nondeterministic and the object store never uses it.
- Metrics: the `metric::Registry`, `ParquetChunkMetrics` and `CatalogChunkMetrics` are opaque pass-throughs and are not modelled.
- `TimeProvider`: it is an opaque pass-through and is not modelled.
- `Arc` sharing is modelled as plain values. The shared metadata handle is the same value in the decoded file and in the chunk.
- `async`/`await` is modelled as sequential evaluation in the program's own order.
- The internals of the catalog cache (fetching from the catalog, memoization, the `"{sequencer}-{partition}"` formatting) are not part of this model. The cache is given as maps.
- The internals of the thrift and parquet metadata codec are foreign. They are an oracle that may fail.
- The internals of `ParquetChunk::new` and `IoxObjectStore` are foreign. They are an oracle from the request to a summary and schema.
- The encoding of `ParquetFilePath::new_new_gen` as an object-store key is foreign. The path is its five ids.
- `ChunkAddr`'s `Display` implementation is not part of this model. `DataTypes.ChunkAddrToString` follows the format in the test's assertion at querier/src/chunk.rs:213-216.
- The `read_filter` check of the test (querier/src/chunk.rs:218-247) is scan execution and data I/O, and is left out.
- `TableSummary`, `Schema` and the decoded parquet metadata are placeholders whose contents belong to the collaborators. The model only carries them through.
- `ParquetFile` carries the fields the adapter reads plus the record's own sequencer, object-store and sequence-number fields. Its time range and deletion flag are left out, because the adapter never reads them.
- Chunk.NewCatalogChunk: does not name the metrics handle or the time provider that `CatalogChunk::new_object_store_only` also receives, because neither is modelled.
