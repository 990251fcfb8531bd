/**
 * The page-side version check (version-manager.js): compare the version kept
 * in local storage with the build's version; on a mismatch clear the caches
 * and session storage, record the new version, and reload when online.
 * `navigator.onLine` is a parameter; the reload is counted in `Window.reloads`.
 */
module VersionManagement {
  import opened Strings
  import opened Browser

  const CurrentVersion: string := "1.0.1"
  const StorageKey: string := "evernet-version"

  class VersionManager {
    const currentVersion: string := CurrentVersion
    const storageKey: string := StorageKey

    constructor ()
      ensures currentVersion == CurrentVersion && storageKey == StorageKey
    {
    }

    /** `localStorage.getItem(storageKey) !== currentVersion`: a missing item (`null`) never matches. */
    predicate IsStale(localStorage: map<string, string>) {
      storageKey !in localStorage || localStorage[storageKey] != currentVersion
    }

    /**
     * `clearCaches`: every bucket is deleted when the Cache API is present,
     * and session storage is emptied. Local storage is kept.
     */
    method ClearCaches(w: Window)
      requires w.caches.Valid()
      modifies w, w.caches
      ensures w.caches.Valid()
      ensures w.cachesAvailable ==> w.caches.names == [] && w.caches.buckets == map[]
      ensures !w.cachesAvailable ==> w.caches.Value() == old(w.caches.Value())
      ensures w.sessionStorage == map[]
      ensures w.localStorage == old(w.localStorage)
      ensures w.href == old(w.href) && w.reloads == old(w.reloads)
    {
      if w.cachesAvailable {
        w.caches.DeleteAll();
      }
      w.sessionStorage := map[];
    }

    /**
     * `checkForUpdates`: reports whether the stored version was stale. In
     * either case the stored version is the current one afterwards.
     */
    method CheckForUpdates(w: Window, online: bool) returns (updated: bool)
      requires w.caches.Valid()
      modifies w, w.caches
      ensures w.caches.Valid()
      ensures updated <==> IsStale(old(w.localStorage))
      ensures w.localStorage == old(w.localStorage)[storageKey := currentVersion]
      ensures updated ==> w.sessionStorage == map[]
      ensures updated && w.cachesAvailable ==> w.caches.names == [] && w.caches.buckets == map[]
      ensures !(updated && w.cachesAvailable) ==> w.caches.Value() == old(w.caches.Value())
      ensures !updated ==> w.localStorage == old(w.localStorage) && w.sessionStorage == old(w.sessionStorage)
      ensures w.reloads == old(w.reloads) + (if updated && online then 1 else 0)
      ensures w.href == old(w.href)
    {
      updated := IsStale(w.localStorage);
      if updated {
        ClearCaches(w);
        w.localStorage := w.localStorage[storageKey := currentVersion];
        if online {
          w.reloads := w.reloads + 1;
        }
      } else {
        assert w.localStorage == w.localStorage[storageKey := currentVersion];
      }
    }

    /** A second check right after the first finds nothing to do: at most one reload per change of version. */
    method CheckForUpdatesTwice(w: Window, online: bool) returns (first: bool, second: bool)
      requires w.caches.Valid()
      modifies w, w.caches
      ensures first <==> IsStale(old(w.localStorage))
      ensures !second
      ensures w.reloads <= old(w.reloads) + 1
      ensures w.localStorage == old(w.localStorage)[storageKey := currentVersion]
    {
      first := CheckForUpdates(w, online);
      second := CheckForUpdates(w, online);
    }

    /** `VersionManager.versionUrl`: append `v=<currentVersion>` with `&` or `?` as the URL requires. */
    static function VersionUrl(url: string): (r: string)
      ensures '?' in url ==> r == url + "&v=1.0.1"
      ensures '?' !in url ==> r == url + "?v=1.0.1"
    {
      var separator := if '?' in url then "&" else "?";
      url + separator + "v=" + CurrentVersion
    }
  }

  /** The versioned URL extends the original and always carries a query. */
  lemma VersionUrlExtends(url: string)
    ensures StartsWith(VersionManager.VersionUrl(url), url)
    ensures '?' in VersionManager.VersionUrl(url)
  {
    var r := VersionManager.VersionUrl(url);
    assert r[..|url|] == url;
    if '?' !in url {
      assert r[|url|] == '?';
    } else {
      var i :| 0 <= i < |url| && url[i] == '?';
      assert r[i] == '?';
    }
  }

  /** Versioning changes only the query: the text before the first `?` is that of the original. */
  lemma VersionUrlKeepsAddress(url: string)
    ensures BeforeFirst(VersionManager.VersionUrl(url), '?') == BeforeFirst(url, '?')
  {
    if '?' in url {
      BeforeFirstExtend(url, '?', "&v=1.0.1");
    } else {
      var tail := "?v=1.0.1";
      BeforeFirstAppend(url, '?', tail);
      assert tail[0] == '?';
    }
  }
}
