/**
 * The request/response boundary the module works against: an inbound request
 * (query parameters and the `Referer` header) and an outbound response whose
 * headers and cacheable metadata can be changed in place.
 */
module Http {

  import opened Wrappers

  /** What the module reads from an inbound request. */
  datatype Request = Request(query: map<string, string>, referer: Option<string>)

  /** Cacheable metadata of a response: its cache contexts and cache tags. */
  datatype CacheMetadata = CacheMetadata(contexts: set<string>, tags: set<string>)

  /** `new CacheableMetadata()`: no contexts, no tags. */
  const NoMetadata := CacheMetadata({}, {})

  /** Adding a dependency unions its contexts and tags into the response's. */
  function Merge(into: CacheMetadata, dependency: CacheMetadata): (m: CacheMetadata)
    ensures m.contexts == into.contexts + dependency.contexts
    ensures m.tags == into.tags + dependency.tags
  {
    CacheMetadata(into.contexts + dependency.contexts, into.tags + dependency.tags)
  }

  /**
   * An outbound response. `cacheable` says whether it carries cacheable metadata at all
   * (implements the cacheable-response interface). Header names are stored lower-cased,
   * as Symfony's header bag keeps them.
   */
  class Response {
    const cacheable: bool
    var headers: map<string, seq<string>>
    var cacheMetadata: CacheMetadata

    constructor (cacheable: bool, headers: map<string, seq<string>>)
      ensures this.cacheable == cacheable && this.headers == headers
      ensures cacheMetadata == NoMetadata
    {
      this.cacheable := cacheable;
      this.headers := headers;
      cacheMetadata := NoMetadata;
    }

    /** `addCacheableDependency`: merges the dependency's metadata; headers are untouched. */
    method AddCacheableDependency(dependency: CacheMetadata)
      requires cacheable
      modifies this
      ensures cacheMetadata == Merge(old(cacheMetadata), dependency)
      ensures headers == old(headers)
    {
      cacheMetadata := Merge(cacheMetadata, dependency);
    }

    /** `headers->remove($key)` for a lower-cased header key: drops that one header. */
    method RemoveHeader(key: string)
      modifies this
      ensures headers == old(headers) - {key}
      ensures cacheMetadata == old(cacheMetadata)
    {
      headers := headers - {key};
    }
  }
}
