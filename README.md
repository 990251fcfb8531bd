# EVERNET cache layer, modelled in Dafny

EVERNET's browser-side cache management has three parts:

- `sw.js` is a service worker. It precaches a fixed asset list on install. On activate it deletes cache buckets by name prefix. It answers GET requests cache-first with a background refresh, goes to the network on a miss, and falls back to the root page or a 503 page when offline. It also answers `CLEAR_CACHE`, `GET_CACHE_STATUS` and `CHECK_FOR_UPDATES` messages and turns push payloads into notifications.
- `version-manager.js` compares a stored version with the build's `1.0.1`. On a mismatch it clears the caches and session storage, records the new version and reloads when online. It also appends a version parameter to URLs.
- `evernet-cache.js` clears both storages and every bucket, then navigates to the page's address with a `forceReload` timestamp. On load it strips that query again.

The model keeps Cache Storage as an ordered list of bucket names plus a map from each name to a bucket. A bucket maps a request URL to a response (status, status text, body). `Browser.Store` is that state as a value. `Browser.CacheStorage` is the same state as an object whose methods (`Delete`, `Open`, `Put`, `AddAll`, `DeleteAll`) update it in place. `Browser.Window` adds local storage, session storage, whether the Cache API exists, the address and a reload counter.

Each event handler is one atomic step:

- It is written as a function from the old state and its inputs to its result and the new state (`OnFetch`, `OnMessage`, `Installed`, `Activated`, `OnPush`).
- The imperative handlers (`Activate`, `HandleFetch`, `HandleMessage`, `Install`, `CheckForUpdates`, `QuickCacheBuster`, `OnLoad`) are proved equal to those functions or state the new state outright.

The network outcome, `navigator.onLine` and `Date.now()` are inputs. A reload is a counter and a navigation is a new `href`.

Files: `strings.dfy` (string helpers), `browser.dfy` (the browser state), `service_worker.dfy`, `version_manager.dfy`, `evernet_cache.dfy`.

## Model

| member | source | states |
|---|---|---|
| Strings.BeforeFirst | evernet-cache.js:28 | `split(c)[0]` is the longest prefix without `c`: it is a prefix, it holds no `c`, and it stops only at a `c` or at the end |
| Strings.AfterFirst | evernet-cache.js:35 | when `c` occurs, the input is the part before the first `c`, then `c`, then the result; otherwise the result is empty |
| Strings.StartsWith | sw.js:87 | `startsWith`; definition only, its meaning for the cleanup test is stated by `ServiceWorker.CurrentNamesNotKept` and for the skip test by `ServiceWorker.FetchPassThrough` |
| Strings.Contains | sw.js:107-108 | `includes`, as some position where the part occurs; definition only, used by `ServiceWorker.Skipped` and stated by `ServiceWorker.FetchPassThrough` |
| Strings.BeforeFirstAppend | evernet-cache.js:28 | a `c`-free prefix survives `split(c)[0]` of any extension intact |
| Strings.Decimal | evernet-cache.js:28 | the timestamp is rendered as at least one decimal digit and nothing else, with no leading zero unless the number is 0 |
| Strings.DecimalRoundTrip | evernet-cache.js:28 | reading the rendered digits back gives the timestamp |
| Browser.Remove | sw.js:89 | deleting a name removes exactly that name and keeps names distinct |
| Browser.FirstMatch | sw.js:113 | `caches.match` finds nothing exactly when no bucket has the URL; otherwise it returns the entry of the first bucket, in creation order, that has it |
| Browser.Store.Opened | sw.js:61 | opening an existing bucket changes nothing; a new bucket is empty and listed last; validity is kept |
| Browser.Store.Put | sw.js:128-131 | after open and put, the bucket answers the URL with the response; every other entry of every bucket is unchanged; no entry is lost |
| Browser.Store.Without | sw.js:89 | deleting a bucket removes its name and contents; the remaining names are `Remove(names, name)`, in their order; other buckets keep their contents |
| Browser.PutThenLookup | sw.js:126-131 | once a URL that no bucket held is put, the next lookup of that URL returns the stored response |
| Browser.CacheStorage.Delete | sw.js:89 | `caches.delete` reports whether the bucket existed, and the new state is `Without(name)` |
| Browser.CacheStorage.Open | sw.js:61 | the new state is `Opened(name)` |
| Browser.Store.AddAll | sw.js:64-67 | every entry is stored in the open bucket; every entry the bucket held before is still there, and those not added keep their response; the names and the other buckets are unchanged; validity is kept |
| Browser.CacheStorage.AddAll | sw.js:64-67 | the in-place bulk store leaves exactly `Store.AddAll` of the old storage |
| ServiceWorker.AssetEntries | sw.js:64-67 | the bulk store holds exactly the asset URLs, each with the response fetched for it |
| Browser.CacheStorage.Put | sw.js:155-158 | the new state is `Put(name, url, response)` |
| Browser.CacheStorage.DeleteAll | sw.js:195-200 | deleting every listed name leaves no names and no buckets |
| ServiceWorker.Installed | sw.js:60-76 | install always opens `evernet-v1.0.8`, so the names are those after opening it (a new bucket is listed last); if every asset was fetched, each asset URL is stored under its response, every entry the bucket held before is still there and every non-asset entry keeps its response, otherwise nothing is added; other buckets are untouched |
| ServiceWorker.Install | sw.js:58-77 | the install handler reports whether the bulk store succeeded, and the new state is `Installed` |
| ServiceWorker.Filter | sw.js:85-90 | the kept names are exactly the input names passing the test; they stay distinct |
| ServiceWorker.Prune | sw.js:85-90 | a bucket survives exactly when its name passes the test, and keeps its contents; the remaining names are `Filter(names, keep)`, in their original order |
| ServiceWorker.KeptOnActivate | sw.js:87 | the written cleanup test, two `startsWith` prefixes `evernet-v1.0.2` and `evernet-dynamic-v1.0.2`; definition only, stated by `ActivateDeletes` and `CurrentNamesNotKept` |
| ServiceWorker.Activated | sw.js:83-92 | the storage after the written cleanup, `Prune` by `KeptOnActivate`; definition only, stated by `ActivateDeletes`, `ActivateIdempotent`, `ActivateDeletesCurrentCaches` and proved equal to the loop by `Activate` |
| ServiceWorker.FilterAppend | sw.js:85 | the cleanup keeps the relative order of bucket names |
| ServiceWorker.ActivateDeletes | sw.js:87 | activate keeps a bucket exactly when its name starts with `evernet-v1.0.2` or `evernet-dynamic-v1.0.2`; survivors keep contents and order |
| ServiceWorker.ActivateIdempotent | sw.js:83-92 | activating twice gives the same storage as activating once |
| ServiceWorker.CurrentNamesNotKept | sw.js:2-3 | neither current bucket name passes the cleanup test |
| ServiceWorker.ActivateDeletesCurrentCaches | sw.js:87 | after activate, neither `evernet-v1.0.8` nor `evernet-dynamic-v1.0.8` exists, whatever storage held |
| ServiceWorker.ActivateDiscardsPrecache | sw.js:58-92 | after a successful install on empty storage, activate leaves every asset URL unanswered from cache |
| ServiceWorker.IsCurrent | sw.js:86 | the corrected test, a name equal to one of the two current bucket names; definition only, stated by `IntendedActivateKeepsCurrent` |
| ServiceWorker.ActivatedIntended | sw.js:83-92 | the cleanup with the corrected test; definition only, stated by `IntendedActivateKeepsCurrent` and `IntendedActivateKeepsPrecache` |
| ServiceWorker.IntendedActivateKeepsCurrent | sw.js:86 | with the corrected test, exactly the current buckets survive, with their contents, and cleanup is idempotent |
| ServiceWorker.IntendedActivateKeepsPrecache | sw.js:58-92 | with the corrected test, every precached asset is still a cache hit after activation |
| ServiceWorker.Activate | sw.js:82-92 | the activate loop over `caches.keys()` gives exactly `Activated` of the old storage |
| ServiceWorker.CleanupOne | sw.js:85-90 | one turn on the live storage: a name the test rejects is deleted, a kept one leaves storage as it was |
| ServiceWorker.CleanupStep | sw.js:85-90 | one loop turn moves the name into the kept part or deletes it |
| ServiceWorker.CleanupTurn | sw.js:85-90 | one loop turn keeps the loop invariant: storage valid, decided names filtered, surviving buckets untouched |
| ServiceWorker.CleanedInv | sw.js:84-91 | after any number of turns the loop invariant holds |
| ServiceWorker.RemoveOnce | sw.js:89 | deleting a name listed once takes out just that entry of the list |
| ServiceWorker.Skipped | sw.js:105-108 | the four conditions under which the handler returns without `respondWith`; definition only, stated by `OnFetch` and `FetchPassThrough` |
| ServiceWorker.Refreshed | sw.js:150-164 | the background refresh on values: a 200 response is put into `evernet-dynamic-v1.0.8`, anything else leaves storage as it was; definition only, stated by `FetchHit` and `FetchAndCache` |
| ServiceWorker.OnFetch | sw.js:104-147 | the handler passes a request through exactly when it is skipped; storage stays valid |
| ServiceWorker.FetchPassThrough | sw.js:105-110 | a non-GET request, a `chrome-extension://` URL, or a URL containing `browser-sync` or `live-reload` gets no answer and leaves storage alone |
| ServiceWorker.FetchHit | sw.js:116-120 | on a hit the page gets the cached entry; storage changes only when the refresh is a 200: then the dynamic bucket holds the response at the request's URL, the names are those after opening the dynamic bucket, every earlier entry is still there, and every other entry keeps its response |
| ServiceWorker.FetchMissOnline | sw.js:123-133 | on a miss the network response is returned unchanged; a 200 is stored in the dynamic bucket and becomes the next lookup's answer, the names are those after opening the dynamic bucket, every earlier entry is still there, and every other entry keeps its response; any other status leaves storage alone |
| ServiceWorker.FetchMissOffline | sw.js:135-143 | on a miss with the network down, a document gets the cached lookup of `/`; anything else gets 503 `Service Unavailable` with body `EVERNET is offline`; storage is unchanged |
| ServiceWorker.FetchAndCache | sw.js:150-164 | the background refresh stores only a 200 response, in the dynamic bucket |
| ServiceWorker.HandleFetch | sw.js:101-147 | the imperative handler returns `OnFetch`'s outcome and leaves `OnFetch`'s storage |
| ServiceWorker.OnMessage | sw.js:186-222 | `CLEAR_CACHE` leaves no buckets and replies `{success: true}`; `GET_CACHE_STATUS` reports the count, the names and `1.0.2` and changes nothing; `CHECK_FOR_UPDATES` replies `{checking: true}`; `SKIP_WAITING` and unknown types reply nothing; only `CLEAR_CACHE` changes storage; nothing is replied without a port |
| ServiceWorker.StatusAfterClear | sw.js:194-213 | a status request after a clear reports zero caches and no names |
| ServiceWorker.HandleMessage | sw.js:186-222 | the imperative handler gives `OnMessage`'s reply and storage |
| ServiceWorker.OrDefault | sw.js:231 | the JavaScript default `value or fallback`: a missing or empty string gives the fallback |
| ServiceWorker.OnPush | sw.js:226-252 | no data gives no notification; otherwise title, body and url are defaulted to `EVERNET`, `New update from EVERNET` and `/`, with the fixed icon, badge, vibration pattern and two actions |
| VersionManagement.VersionManager.constructor | version-manager.js:3-6 | the current version is `1.0.1` and the storage key is `evernet-version` |
| VersionManagement.VersionManager.IsStale | version-manager.js:10-12 | the stored version is missing or differs from the current one; definition only, stated by `CheckForUpdates` and `CheckForUpdatesTwice` |
| VersionManagement.VersionManager.ClearCaches | version-manager.js:31-51 | with the Cache API every bucket is deleted, without it the caches are untouched; session storage is emptied; local storage is kept |
| VersionManagement.VersionManager.CheckForUpdates | version-manager.js:9-28 | the result is true exactly when the stored version is missing or differs from `1.0.1`; afterwards the stored version is `1.0.1` and no other key changed; on a mismatch session storage and (if present) the caches are emptied; on a match nothing changes; one reload happens exactly on a mismatch while online |
| VersionManagement.VersionManager.CheckForUpdatesTwice | version-manager.js:12-22 | a second check right after the first reports no update, and the two together reload at most once |
| VersionManagement.VersionManager.VersionUrl | version-manager.js:54-58 | the result is `url + "&v=1.0.1"` when `url` contains `?`, else `url + "?v=1.0.1"` |
| VersionManagement.VersionUrlExtends | version-manager.js:56-57 | the versioned URL starts with the original and contains a `?` |
| VersionManagement.VersionUrlKeepsAddress | version-manager.js:56-57 | versioning leaves the text before the first `?` unchanged |
| EvernetCache.CleanUrl | evernet-cache.js:40 | the clean address is the prefix of `href` up to the first `?`, and holds no `?` |
| EvernetCache.Search | evernet-cache.js:35 | the query after the first `?`; definition only, stated by `BustUrlShape` |
| EvernetCache.ParamNames | evernet-cache.js:35-36 | the parameter names of a query; definition only, stated by `ForceReloadQuery` and `LoadIdempotent` |
| EvernetCache.ForceReloadRequested | evernet-cache.js:35-36 | `has('forceReload')`; definition only, stated by `BustUrlShape` and `LoadIdempotent` |
| EvernetCache.BustUrl | evernet-cache.js:28 | the navigation target of the cache buster; definition only, stated by `BustUrlShape`, `BustRoundTrip` and `LoadAfterBust` |
| EvernetCache.LoadedHref | evernet-cache.js:36-41 | the address after the load handler; definition only, stated by `LoadAfterBust`, `LoadIdempotent` and `OnLoad` |
| EvernetCache.BustUrlShape | evernet-cache.js:28 | the bust address starts with the clean address, its query is `forceReload=<timestamp>`, it holds exactly one `?`, and the load handler recognises it |
| EvernetCache.ForceReloadQuery | evernet-cache.js:35-36 | the query `forceReload=<digits>` holds the one parameter `forceReload` |
| EvernetCache.BustRoundTrip | evernet-cache.js:28-40 | cleaning the bust address gives the same string as cleaning the original address |
| EvernetCache.LoadAfterBust | evernet-cache.js:28-41 | after a bust and a load, the page sits on the clean original address |
| EvernetCache.LoadIdempotent | evernet-cache.js:36-41 | a cleaned address carries no `forceReload`, so a second load leaves it alone |
| EvernetCache.QuickCacheBuster | evernet-cache.js:10-31 | both storages are emptied; with the Cache API every bucket is deleted, without it caches are untouched; the address becomes the bust address |
| EvernetCache.OnLoad | evernet-cache.js:34-43 | with a `forceReload` parameter the address becomes the clean address; without one nothing changes |

## Findings

| source | as written | input that shows it | evidently intended | confidence | as-written member | corrected member |
|---|---|---|---|---|---|---|
| sw.js:87 | the activate cleanup keeps only names starting with `evernet-v1.0.2` or `evernet-dynamic-v1.0.2`, while the worker's own buckets are `evernet-v1.0.8` and `evernet-dynamic-v1.0.8` (sw.js:2-3) | storage holding `evernet-v1.0.8` just after a successful install: activate deletes it, so no asset is served from cache | keep the current buckets (the comment says "Delete any cache that's not current") and delete all others | high (not executed) | ServiceWorker.ActivateDeletesCurrentCaches | ServiceWorker.IntendedActivateKeepsCurrent |

The imperative `ServiceWorker.Activate` follows the code as written. The corrected test is `ServiceWorker.IsCurrent`, and its cleanup is `ServiceWorker.ActivatedIntended`. `IntendedActivateKeepsPrecache` shows that the corrected cleanup keeps the precache, and `ActivateDiscardsPrecache` shows that the written one loses it.

## Left out

- Asynchrony: each handler is one atomic step. The unawaited background refresh, the unawaited `cache.put` on a miss and the unawaited `caches.delete` calls before navigation are taken as done when the step ends. Races between writes (last writer wins) are not modelled.
- Browser internals: `fetch`, `response.clone()` and URL resolution are left out. `caches.match` is modelled as an exact lookup of the URL string across buckets in creation order, with no method, `Vary` or query matching. Keys are URL strings as written, so `/` is the key used both by install and by the offline fallback.
- `cache.addAll`: its all-or-nothing behaviour is kept, with success meaning every asset URL has a fetched response. Why real requests fail (`no-cors` opaque responses, non-ok statuses) is not modelled.
- Service-worker lifecycle calls (`skipWaiting`, `clients.claim`, `registration.update`) have no modelled effect. `SKIP_WAITING` is a no-op on storage. `CHECK_FOR_UPDATES` only replies `{checking: true}`.
- `CLEAR_CACHE`, `GET_CACHE_STATUS` and `CHECK_FOR_UPDATES` fail when no reply port is supplied (sw.js:202, 213, 220); `SKIP_WAITING` never uses the port. A failure is modelled as no reply, with any deletion already done. A message without `data` raises an error in the source and is not modelled.
- Background sync (sw.js:167-183), `showNotification` and the `notificationclick` handler (sw.js:250-273) are left out. The push handler is modelled up to the notification it would show.
- Push payload fields are modelled as strings or absent. For non-string values in the JSON, JavaScript `||` would test truthiness, and that is not modelled. Invalid JSON, where `event.data.json()` throws, is not modelled either.
- `URLSearchParams` is modelled as `&`-separated pieces, each named by the text before its first `=`. Percent-decoding and `+` are not handled. Address fragments (`#…`) are assumed absent.
- `window.location.reload` is a reload counter. Assigning `location.href` and calling `history.replaceState` become a new `href`. The page reload that assigning `href` causes is not modelled.
- Exceptions from browser APIs, including the error swallowed by the `try/catch` in `clearCaches`, and all console logging are left out.
