/** The message the cache hands to the replication relay (pkg/model/common.go). */
module Model {

  /** `CacheRelayMessage`: namespace, key and the base64 text of the JSON-encoded value. */
  datatype CacheRelayMessage = CacheRelayMessage(cacheName: string, cacheKey: string, cacheValue: string)
}
