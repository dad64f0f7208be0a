/**
 * The `referer` cache context: responses vary by the host of the request's
 * `Referer` header. `parse_url` is the parameter `hostOf`, whose `None` stands for
 * both of PHP's no-host results, `null` and `false`; either becomes "" in a cache key.
 */
module RefererCache {

  import opened Wrappers
  import Php
  import opened Http

  /** The id under which the context is registered and added to responses. */
  const CONTEXT_ID: string := "referer"

  /** `$referer = headers->get('referer')` passes `if (!$referer)`: present and truthy. */
  predicate RefererPresent(referer: Option<string>) {
    referer.Some? && !Php.Falsy(referer.value)
  }

  /**
   * `getContext()`: the empty string without a (truthy) referer, otherwise the referer's
   * host component and nothing else of the URL.
   */
  function GetContext(referer: Option<string>, hostOf: string -> Option<string>): (value: Option<string>)
    ensures !RefererPresent(referer) ==> value == Some("")
    ensures RefererPresent(referer) ==> value == hostOf(referer.value)
  {
    if !RefererPresent(referer) then Some("") else hostOf(referer.value)
  }

  /** The context value as it is written into a cache key: PHP turns null into "". */
  function CacheKeyPart(value: Option<string>): (part: string) {
    value.GetOr("")
  }

  /** Referers with the same host give the same context value, whatever their paths. */
  lemma SameHostSameContext(referer1: string, referer2: string, hostOf: string -> Option<string>)
    requires !Php.Falsy(referer1) && !Php.Falsy(referer2)
    requires hostOf(referer1) == hostOf(referer2)
    ensures GetContext(Some(referer1), hostOf) == GetContext(Some(referer2), hostOf)
  {
  }

  /** `getCacheableMetadata()`: the context adds no metadata of its own to any response. */
  function GetCacheableMetadata(): (m: CacheMetadata)
    ensures forall into :: Merge(into, m) == into
  {
    NoMetadata
  }
}
