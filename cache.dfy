/**
 * The catalog cache the adapter resolves names through, as the four fixed
 * partial maps it memoizes. A key the catalog does not know is a failure.
 */
module Cache {
  import opened Wrappers
  import opened DataTypes

  datatype CatalogCache = CatalogCache(
    tableNames: map<TableId, string>,
    tableNamespaceIds: map<TableId, NamespaceId>,
    namespaceNames: map<NamespaceId, string>,
    oldGenPartitionKeys: map<PartitionId, string>)
  {
    function TableName(id: TableId): (r: Option<string>)
      ensures r.Some? <==> id in tableNames
      ensures r.Some? ==> r.value == tableNames[id]
    {
      if id in tableNames then Some(tableNames[id]) else None
    }

    function TableNamespaceId(id: TableId): (r: Option<NamespaceId>)
      ensures r.Some? <==> id in tableNamespaceIds
      ensures r.Some? ==> r.value == tableNamespaceIds[id]
    {
      if id in tableNamespaceIds then Some(tableNamespaceIds[id]) else None
    }

    function NamespaceName(id: NamespaceId): (r: Option<string>)
      ensures r.Some? <==> id in namespaceNames
      ensures r.Some? ==> r.value == namespaceNames[id]
    {
      if id in namespaceNames then Some(namespaceNames[id]) else None
    }

    /** The `"{sequencer}-{partition}"` key the cache keeps for a partition. */
    function OldGenPartitionKey(id: PartitionId): (r: Option<string>)
      ensures r.Some? <==> id in oldGenPartitionKeys
      ensures r.Some? ==> r.value == oldGenPartitionKeys[id]
    {
      if id in oldGenPartitionKeys then Some(oldGenPartitionKeys[id]) else None
    }
  }
}
