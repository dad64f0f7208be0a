# iframe_helper — token authentication and frame-embedding policy, modelled in Dafny

This project models the core of the Drupal module `iframe_helper`. The module lets a
site be embedded in third-party iframes, where browsers often block cookies. It has
two independent parts.

**Token lifecycle.** After an interactive login, `LoginAlternate::submitForm` creates
one new session record (`iframe_session`, class `ParamSession`) owned by the user who
logged in. The record carries a public `uuid` and a secret `session_key` that
`preCreate` generates. The form redirects to the user's page with the token
`<uuid>:<session_key>` in the query parameter `iSession`. On a later request the
authentication provider `UrlParameters` works in two steps:
- `applies` splits the token at its first `:`, refuses a falsy secret, and looks the
  record up by uuid.
- `authenticate` checks, in order, that the record exists, that its owner id is
  non-zero, that the user row exists and that the user is active. It then builds the
  account with its roles and seeds the CSRF token from the record's key.

**Frame-embedding policy.** `AllowIframeSubscriber::onResponse` runs on every response:
- it makes a cacheable response vary by the `referer` cache context;
- when a truthy `Referer` header is present, it adds the allow-list configuration as a
  cache dependency;
- it removes `X-Frame-Options` when some line of the allow-list matches the referer's
  host.

`RefererCacheContext::getContext` gives that context's value: `''` without a referer,
otherwise the referer's host.

The Dafny modules follow these source files:

| module | file | what |
|---|---|---|
| `Php` | `php.dfy` | PHP string truthiness; `explode(':', $s, 2)` |
| `Http` | `http.dfy` | request, response with headers and cacheable metadata |
| `ParamSessionEntity` | `param_session.dfy` | `ParamSession` class, `preCreate`, the entity storage |
| `UrlParametersAuth` | `url_parameters.dfy` | token split, lookup, `applies`, `authenticate` |
| `LoginAlternateForm` | `login_alternate.dfy` | post-login issuance and the cross-file round trip |
| `RefererCache` | `referer_cache_context.dfy` | the `referer` cache context |
| `AllowIframe` | `allow_iframe_subscriber.dfy` | allow-list split, match loop, `onResponse` |

Modelling choices:
- **Session store.** The storage is a sequence of record objects in id order. The
  property query `loadByProperties(['uuid' => …])` is the filter `LoadByUuid`, and
  `current()` is its first element.
- **User tables.** The user and role tables are sequences of rows. `fetchAssoc()` takes
  the first row that fits; `fetchCol()` takes every fitting role id in table order.
- **Uninterpreted functions.** Regular-expression matching is the function parameter
  `matches(pattern, subject)` and `parse_url($url, PHP_URL_HOST)` is `hostOf(url)`.
  Its `None` stands for both of PHP's "no host" results: `null` for a URL without a
  host, and `false` for a URL too malformed to parse. Both become `""` where they are
  used, as the `preg_match` subject and as the cache-key part. The two frame-policy
  files share these functions.
- **Falsy strings.** PHP's `!$x` and `empty($x)` on a string hold for `""` and `"0"`.
  The model keeps this everywhere the source tests a string that way: the secret, the
  owner's `status`, the referer, the allow-list and the supplied `session_key`.
- **Randomness and generated uuids.** The values `Crypt::randomBytesBase64(32)` and the
  storage's uuid generator produce are inputs. A key is assumed to have the shape of
  32 random bytes in URL-safe base64: 43 characters of `[A-Za-z0-9_-]`.

Three behaviours of the code a reader may not expect:
- **`"0"` secret.** `paramCorrect` refuses a secret of `"0"` like an empty one, because
  PHP's `!$secret` holds for both (`web/modules/custom/iframe_helper/src/Authentication/Provider/UrlParameters.php:82`).
- **No lower-casing.** The cache-context value is the host exactly as `parse_url`
  returns it (`web/modules/custom/iframe_helper/src/Cache/Context/RefererCacheContext.php:30`).
  No lower-casing is applied before it becomes part of a cache key.
- **Token without `:`.** `authenticate` on such a token does not decline
  (`web/modules/custom/iframe_helper/src/Authentication/Provider/UrlParameters.php:92-93`). The secret
  is then `null`, and passing it to `getSession(string, string)` raises a `TypeError`.
  The model has this as the outcome `TypeErrorThrown`.
  `AppliesAgreesWithAuthentication` shows it cannot happen once `applies` held.

Two proved consequences of the code as written are worth a reader's attention:
- **Shared cache key.** An absent referer and a present referer without a host give
  the same cache-key value `""` (`HostlessRefererSharesKeyWithAbsent`). Only the
  second is matched against the allow-list, though: against the subject `""`.
- **Blank lines.** A blank line in a CR LF allow-list, or a trailing line break,
  becomes an empty pattern (`BlankLineAllowsFraming`). An empty regular expression
  matches every host, so such an allow-list allows framing from any referer.

## Model

| member | source | states |
|---|---|---|
| `Php.ExplodeColon` | web/modules/custom/iframe_helper/src/Authentication/Provider/UrlParameters.php:81 | the first part holds no `:`; without a `:` the second part is null and the first is the whole string; otherwise the string is first + `:` + second |
| `Php.ExplodeColonOfJoin` | web/modules/custom/iframe_helper/src/Authentication/Provider/UrlParameters.php:81 | splitting `u:k` with `u` free of `:` gives back exactly `u` and `k`, even when `k` contains `:` |
| `UrlParametersAuth.FirstWithUuid` | web/modules/custom/iframe_helper/src/Authentication/Provider/UrlParameters.php:177 | the index of the first record with the uuid: every earlier record has another uuid |
| `UrlParametersAuth.LoadByUuid` | web/modules/custom/iframe_helper/src/Authentication/Provider/UrlParameters.php:172-173 | the result holds exactly the stored records with that uuid, and its head is the first such record |
| `UrlParametersAuth.GetSession` | web/modules/custom/iframe_helper/src/Authentication/Provider/UrlParameters.php:171-182 | a record is returned iff the first record with the uuid exists and its key equals the given key exactly; it is that record |
| `UrlParametersAuth.ParamCorrect` | web/modules/custom/iframe_helper/src/Authentication/Provider/UrlParameters.php:80-86 | a correct parameter contains `:` and is `uuid:key` of some stored record; the exact characterisation is `ParamCorrectIffIssuedToken` |
| `UrlParametersAuth.ParamCorrectIffIssuedToken` | web/modules/custom/iframe_helper/src/Authentication/Provider/UrlParameters.php:80-86 | a parameter is correct iff it is `uuid:key` of a stored record that is first with its uuid and whose uuid holds no `:` |
| `UrlParametersAuth.AppliesTo` | web/modules/custom/iframe_helper/src/Authentication/Provider/UrlParameters.php:63-66 | `applies` holds only when the parameter is present and contains `:`; `AppliesRejectsMalformed` and `AppliesAgreesWithAuthentication` state the rest |
| `UrlParametersAuth.AppliesRejectsMalformed` | web/modules/custom/iframe_helper/src/Authentication/Provider/UrlParameters.php:63-66 | `applies` is false for a missing parameter, one without `:`, or one whose secret is `""` or `"0"` |
| `UrlParametersAuth.FetchUser` | web/modules/custom/iframe_helper/src/Authentication/Provider/UrlParameters.php:104-107 | a returned row is in the table, has that uid and the default language; none is returned only when no row fits |
| `UrlParametersAuth.FetchRoles` | web/modules/custom/iframe_helper/src/Authentication/Provider/UrlParameters.php:114-116 | a role id is in the result iff the role table pairs it with the uid |
| `UrlParametersAuth.Authentication` | web/modules/custom/iframe_helper/src/Authentication/Provider/UrlParameters.php:91-122 | a TypeError exactly when the token has no `:`; an account only for a stored record and an existing user row, with `authenticated` as first role; `AuthenticationSound` and `AuthenticationFailsClosed` state the full conditions |
| `UrlParametersAuth.AuthenticationSound` | web/modules/custom/iframe_helper/src/Authentication/Provider/UrlParameters.php:92-121 | an account implies a stored record whose uuid and key are the token's two halves, owned by a non-zero uid whose row exists, is in the default language and is active; roles are `authenticated` followed by the uid's role ids |
| `UrlParametersAuth.AuthenticationFailsClosed` | web/modules/custom/iframe_helper/src/Authentication/Provider/UrlParameters.php:93-112 | with a well-formed token the result is NULL when the lookup fails, the owner is unset or 0, the user row is missing, or the status is falsy |
| `UrlParametersAuth.AppliesAgreesWithAuthentication` | web/modules/custom/iframe_helper/src/Authentication/Provider/UrlParameters.php:63-93 | when `applies` holds `authenticate` does not raise; when `authenticate` yields an account `applies` holds |
| `UrlParametersAuth.OnlyTheStoredSecretAuthenticates` | web/modules/custom/iframe_helper/src/Authentication/Provider/UrlParameters.php:92-96 | if `uuid:secret` authenticates, `uuid:other` with any other secret is declined |
| `UrlParametersAuth.MetadataBag.SetCsrfTokenSeed` | web/modules/custom/iframe_helper/src/Authentication/Provider/UrlParameters.php:119 | the seed becomes the given value |
| `UrlParametersAuth.UrlParameters.Applies` | web/modules/custom/iframe_helper/src/Authentication/Provider/UrlParameters.php:63-66 | the result is "parameter present and correct", and the method changes no state |
| `UrlParametersAuth.UrlParameters.Authenticate` | web/modules/custom/iframe_helper/src/Authentication/Provider/UrlParameters.php:91-122 | the outcome is the specified authentication of the current store and tables; on success the CSRF seed is the record's key; on every other outcome the seed is unchanged |
| `UrlParametersAuth.UrlParameters.AppliesThenAuthenticate` | web/modules/custom/iframe_helper/src/Authentication/Provider/UrlParameters.php:63-122 | `applies` then `authenticate` gives the same outcome and seed as `authenticate` alone, and never raises once `applies` held |
| `ParamSessionEntity.RandomKeyIsTruthyAndColonFree` | web/modules/custom/iframe_helper/src/Entity/ParamSession.php:107 | a generated key is neither `""` nor `"0"` and holds no `:` |
| `ParamSessionEntity.ParamSession.constructor` | web/modules/custom/iframe_helper/src/Entity/ParamSession.php:67-71 | the record holds the given uuid, owner and truthy key, fixed for its lifetime, and no data |
| `ParamSessionEntity.ParamSession.PreCreate` | web/modules/custom/iframe_helper/src/Entity/ParamSession.php:105-108 | a supplied non-empty key is kept; a missing, `""` or `"0"` key is replaced by the generated one; the result always has a non-empty key; the uid is untouched |
| `ParamSessionEntity.ParamSession.GetData` | web/modules/custom/iframe_helper/src/Entity/ParamSession.php:82-84 | the empty map when no data is stored, the stored map otherwise |
| `ParamSessionEntity.ParamSession.SetData` | web/modules/custom/iframe_helper/src/Entity/ParamSession.php:89-93 | only the data field changes; afterwards `GetData` returns the map just set; the record itself is returned |
| `ParamSessionEntity.SessionStorage.Create` | web/modules/custom/iframe_helper/src/Entity/ParamSession.php:105-110 | a fresh, unsaved record with the generated uuid, the given owner, the kept or generated key and no data; the store is unchanged |
| `ParamSessionEntity.SessionStorage.Save` | web/modules/custom/iframe_helper/src/Form/LoginAlternate.php:42 | an unsaved record is appended; a stored one leaves the store as it was |
| `LoginAlternateForm.LoginAlternate.SubmitForm` | web/modules/custom/iframe_helper/src/Form/LoginAlternate.php:30-50 | without a uid nothing changes; otherwise exactly one fresh record owned by the uid is appended, earlier records stay as they were, and the redirect goes to that uid's canonical page with `iSession` = uuid `:` key |
| `LoginAlternateForm.FirstWithUuidAppend` | web/modules/custom/iframe_helper/src/Form/LoginAlternate.php:39-42 | appending a record leaves the first match of a uuid where it was, or puts it at the new record |
| `LoginAlternateForm.IssuedTokenAccepted` | web/modules/custom/iframe_helper/src/Form/LoginAlternate.php:47-48 | for a fresh, colon-free uuid the minted token splits back into uuid and key, `getSession` returns the new record, and `paramCorrect` and `applies` hold |
| `LoginAlternateForm.IssuedTokenAuthenticates` | web/modules/custom/iframe_helper/src/Form/LoginAlternate.php:39-48 | the minted token authenticates the record's owner with the owner's row, `authenticated` plus the owner's roles, and the new record, when the owner is active |
| `LoginAlternateForm.AppendKeepsLookups` | web/modules/custom/iframe_helper/src/Form/LoginAlternate.php:42 | after a save, every lookup of another uuid or of a uuid already stored gives what it gave before |
| `LoginAlternateForm.EarlierTokensStayValid` | web/modules/custom/iframe_helper/src/Form/LoginAlternate.php:39-42 | a token that authenticated before a new login still authenticates to the same account after it |
| `RefererCache.GetContext` | web/modules/custom/iframe_helper/src/Cache/Context/RefererCacheContext.php:25-31 | `''` when the referer is missing or falsy, otherwise the referer's host component and nothing else |
| `RefererCache.SameHostSameContext` | web/modules/custom/iframe_helper/src/Cache/Context/RefererCacheContext.php:30 | two referers with the same host give the same context value |
| `RefererCache.GetCacheableMetadata` | web/modules/custom/iframe_helper/src/Cache/Context/RefererCacheContext.php:36-38 | merging the context's metadata into any response's leaves it unchanged |
| `AllowIframe.SplitAllowList` | web/modules/custom/iframe_helper/src/EventSubscriber/AllowIframeSubscriber.php:77 | at least one piece, and no piece contains CR or LF |
| `AllowIframe.SplitAfterPlainPrefix` | web/modules/custom/iframe_helper/src/EventSubscriber/AllowIframeSubscriber.php:77 | a leading run of text without line breaks becomes the start of the first piece |
| `AllowIframe.SplitJoinCrLf` | web/modules/custom/iframe_helper/src/EventSubscriber/AllowIframeSubscriber.php:77 | lines without breaks joined by CR LF split back into exactly those lines, empty ones included |
| `AllowIframe.SplitJoinLf` | web/modules/custom/iframe_helper/src/EventSubscriber/AllowIframeSubscriber.php:77 | lines joined by LF split back into those lines when no inner line is empty |
| `AllowIframe.LineEndingsAgree` | web/modules/custom/iframe_helper/src/EventSubscriber/AllowIframeSubscriber.php:77 | `a\r\nb` and `a\nb` both split into `[a, b]` |
| `AllowIframe.AnyMatchOrderFree` | web/modules/custom/iframe_helper/src/EventSubscriber/AllowIframeSubscriber.php:77-81 | reordering the allow-list lines does not change whether one of them matches |
| `AllowIframe.ScanAllowList` | web/modules/custom/iframe_helper/src/EventSubscriber/AllowIframeSubscriber.php:76-81 | the flag is set iff some line matches the subject |
| `AllowIframe.AllowIframeSubscriber.OnResponse` | web/modules/custom/iframe_helper/src/EventSubscriber/AllowIframeSubscriber.php:55-85 | a cacheable response always gains the `referer` context and gains the config tag exactly when a referer is present; `X-Frame-Options` is removed exactly when a referer is present, the allow-list is set and some line matches the host; no other header changes |
| `AllowIframe.FrameAllowed` | web/modules/custom/iframe_helper/src/EventSubscriber/AllowIframeSubscriber.php:64-84 | framing is allowed only with a truthy referer and a truthy allow-list; `FrameDeniedByDefault` and `OnResponse` state the decision and the header effect |
| `AllowIframe.FrameDeniedByDefault` | web/modules/custom/iframe_helper/src/EventSubscriber/AllowIframeSubscriber.php:64-74 | with no or falsy referer, or an empty or falsy allow-list, the header is not removed |
| `AllowIframe.MatchSubject` | web/modules/custom/iframe_helper/src/EventSubscriber/AllowIframeSubscriber.php:75-78 | for a truthy referer the subject is the `referer` cache context's key value; a referer without a host gives `""`; `CacheContextDeterminesDecision` states the consequence |
| `AllowIframe.CacheContextDeterminesDecision` | web/modules/custom/iframe_helper/src/EventSubscriber/AllowIframeSubscriber.php:75-82 | with a referer present, the subject matched is the cache-key value of the `referer` context, so referers sharing that value share the header decision |
| `AllowIframe.HostlessRefererSharesKeyWithAbsent` | web/modules/custom/iframe_helper/src/Cache/Context/RefererCacheContext.php:27-30 | an absent referer and a hostless one share the key `""`; the absent one never allows framing, the hostless one does iff a line matches `""` |
| `AllowIframe.BlankLineAllowsFraming` | web/modules/custom/iframe_helper/src/EventSubscriber/AllowIframeSubscriber.php:77-79 | a CR LF allow-list with an empty line allows framing for every referer whose subject the empty pattern matches |

## Left out

- Regular-expression semantics: `preg_match` is the parameter `matches`. This covers an invalid pattern, which then simply does not match. It also covers the `/` delimiters wrapped around each pattern: a pattern containing `/` is whatever `matches` says it is.
- URL parsing: `parse_url` is the parameter `hostOf`. The model adds no normalisation because the code applies none.
- Storage and SQL: entity storage, `loadByProperties` and the two SQL queries become sequences and filters. Database faults, which would propagate as exceptions, are not modelled.
- Randomness: the generated key and the generated uuid are inputs. Uniqueness of a new uuid is a hypothesis of the issuance lemmas, not something the model enforces.
- Timing: the key comparison is modelled as equality. Constant-time behaviour cannot be expressed.
- `UrlParameters::getUserFromSession`: it is never called by the modelled code.
- `AllowedFrameReferers`: only its `CONFIG_NAME` and the `allowed_domains` value are used. The form itself is not part of this model.
- The parent `UserLoginForm::submitForm` is out (password check, flood control), and so is loading the account: the account's id is taken to be the form state's uid.
- Routing, redirect objects, translation, entity annotations and base-field definitions are not modelled. The `created`/`changed` timestamps are not modelled.
- `ParamSession.ownerId`: the owner is fixed at creation (a `const`), because nothing in the modelled code calls `setOwnerId`.
- `ParamSessionEntity.ParamSession.SetData`: the round trip `GetData() == d` holds in the model for every string-keyed map, but not in the source for every such map. PHP turns a key written as a decimal integer (such as `"7"`) into an integer key. The field item list also reads an array whose first key is numeric as a list of items rather than as one value. Maps with such keys are inside the model's domain but do not round-trip through the source's map field. Values are modelled as strings only.
- `ParamSession.GetSessionKey`: a plain getter of the `const` field `sessionKey`. It has no contract of its own: the field's read-only nature is its type.
- Header names: the response's header map is keyed by lower-cased names, as the header bag stores them. `onResponse` therefore removes the key `x-frame-options`; case folding itself is not modelled.
- Max-age and the other parts of cacheable metadata are not modelled; only contexts and tags are.
- Query parameters are strings; array-valued query parameters are not modelled.
- `UrlParametersAuth.LoadByUuid`: uuids are compared by exact string equality. Drupal's uuid field is case-insensitive by default, so a store may also return a record whose uuid differs from the token's only in letter case. `UrlParametersAuth.ParamCorrectIffIssuedToken` and the lemmas built on it are about a store that matches exactly.
- Concurrency and transactions: each operation is modelled as one atomic step on the store and tables.
