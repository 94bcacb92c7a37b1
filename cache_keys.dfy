/**
 * Keys and elements handled by the disk cache.
 *
 * A key of the cache region is any Serializable object; the disk cache
 * distinguishes three kinds of keys: plain String names, GroupAttrName keys
 * (an attribute of a named group) and GroupId objects.
 */
module CacheKeys {

  /** A group of a cache region (org.apache.jcs.engine.control.group.GroupId). */
  datatype GroupId = GroupId(cacheName: string, groupName: string)

  datatype CacheKey =
    | NameKey(name: string)                        // a String key
    | AttrKey(groupId: GroupId, attrName: string)  // a GroupAttrName key
    | GroupIdKey(id: GroupId)                      // a GroupId used as a key

  /** A cache element as the disk cache sees it: its key and an opaque payload. */
  datatype CacheElement = CacheElement(key: CacheKey, payload: seq<int>)

  /**
   * What one serialized object in the data file decodes to: either an
   * element or a serialized null reference.
   */
  datatype Record = NullRecord | ElementRecord(element: CacheElement)

  /** CacheConstants.NAME_COMPONENT_DELIMITER. */
  const NameComponentDelimiter: string := ":"

  predicate StartsWith(s: string, prefix: string)
  {
    |prefix| <= |s| && s[..|prefix|] == prefix
  }

  predicate EndsWith(s: string, suffix: string)
  {
    |suffix| <= |s| && s[|s| - |suffix|..] == suffix
  }
}
