/**
 * The cache-busting utility (evernet-cache.js): `quickCacheBuster` clears
 * both storages and every cache bucket and navigates to the page's address
 * with a `forceReload=<timestamp>` query; the load handler strips that query
 * off again. `Date.now()` is a parameter.
 */
module EvernetCache {
  import opened Strings
  import opened Browser

  /** `href.split('?')[0]`: the address without its query. */
  function CleanUrl(href: string): (r: string)
    ensures '?' !in r
    ensures StartsWith(href, r)
    ensures |r| < |href| ==> href[|r|] == '?'
  {
    BeforeFirst(href, '?')
  }

  /** The query of an address, after its first `?` (what `location.search` holds past the `?`). */
  function Search(href: string): string {
    AfterFirst(href, '?')
  }

  /** The parameter names `URLSearchParams` finds: `&`-separated, non-empty pieces, each up to its first `=`. */
  function ParamNames(query: string): seq<string>
    decreases |query|
  {
    var piece := BeforeFirst(query, '&');
    var here := if piece == [] then [] else [BeforeFirst(piece, '=')];
    if |piece| < |query| then here + ParamNames(query[|piece| + 1..]) else here
  }

  /** `new URLSearchParams(location.search).has('forceReload')` */
  predicate ForceReloadRequested(href: string) {
    "forceReload" in ParamNames(Search(href))
  }

  /** The address `quickCacheBuster` navigates to. */
  function BustUrl(href: string, now: nat): string {
    CleanUrl(href) + "?forceReload=" + Decimal(now)
  }

  /** The address after the load handler has run. */
  function LoadedHref(href: string): string {
    if ForceReloadRequested(href) then CleanUrl(href) else href
  }

  /**
   * The bust address: the clean address, then a query consisting of
   * `forceReload` and the timestamp; it holds exactly one `?` and it is
   * recognised as a force reload.
   */
  lemma BustUrlShape(href: string, now: nat)
    ensures StartsWith(BustUrl(href, now), CleanUrl(href))
    ensures Search(BustUrl(href, now)) == "forceReload=" + Decimal(now)
    ensures Occurrences(BustUrl(href, now), '?') == 1
    ensures ForceReloadRequested(BustUrl(href, now))
  {
    var r, clean, query := BustUrl(href, now), CleanUrl(href), "forceReload=" + Decimal(now);
    BustUrlParts(href, now, query);
    ForceReloadQuery(Decimal(now), query);
    BustSearch(clean, query, r);
    BustQueryCount(clean, query, r);
  }

  lemma BustUrlParts(href: string, now: nat, query: string)
    requires query == "forceReload=" + Decimal(now)
    ensures BustUrl(href, now) == CleanUrl(href) + ['?'] + query
  {
    assert "?forceReload=" == ['?'] + "forceReload=";
  }

  /** Behind a `?`-free address, the query is everything after the `?` that follows it. */
  lemma BustSearch(clean: string, query: string, r: string)
    requires '?' !in clean && r == clean + ['?'] + query
    ensures StartsWith(r, clean)
    ensures CleanUrl(r) == clean
    ensures Search(r) == query
  {
    assert r[..|clean|] == clean;
    BeforeFirstAppend(clean, '?', ['?'] + query);
    assert r == clean + (['?'] + query);
    assert BeforeFirst(r, '?') == clean;
  }

  lemma BustQueryCount(clean: string, query: string, r: string)
    requires '?' !in clean && '?' !in query && r == clean + ['?'] + query
    ensures Occurrences(r, '?') == 1
  {
    OccurrencesNone(clean, '?');
    OccurrencesNone(query, '?');
    OccurrencesAppend(clean + ['?'], query, '?');
    OccurrencesAppend(clean, ['?'], '?');
  }

  /** `forceReload=<digits>` has the one parameter `forceReload`, and no `?`. */
  lemma ForceReloadQuery(digits: string, query: string)
    requires forall i :: 0 <= i < |digits| ==> IsDigit(digits[i])
    requires query == "forceReload=" + digits
    ensures '?' !in query
    ensures ParamNames(query) == ["forceReload"]
  {
    var name := "forceReload";
    assert '&' !in name && '?' !in name && '=' !in name;
    assert '&' !in digits && '?' !in digits by {
      forall i | 0 <= i < |digits| ensures digits[i] != '&' && digits[i] != '?' {
        assert IsDigit(digits[i]);
      }
    }
    assert query == name + ("=" + digits);
    SingleParam(name, digits, query);
  }

  /** A query without `&` names one parameter: the text before its first `=`. */
  lemma SingleParam(name: string, value: string, query: string)
    requires name != [] && '=' !in name && '&' !in name && '&' !in value
    requires query == name + ("=" + value)
    ensures ParamNames(query) == [name]
  {
    assert '&' !in query;
    NoAmpersand(query);
    BeforeFirstAppend(name, '=', "=" + value);
  }

  lemma NoAmpersand(query: string)
    requires '&' !in query && query != []
    ensures ParamNames(query) == [BeforeFirst(query, '=')]
  {
    assert BeforeFirst(query, '&') == query;
  }

  /** Cleaning the bust address gives what cleaning the original address gives. */
  lemma BustRoundTrip(href: string, now: nat)
    ensures CleanUrl(BustUrl(href, now)) == CleanUrl(href)
  {
    var query := "forceReload=" + Decimal(now);
    BustUrlParts(href, now, query);
    BustSearch(CleanUrl(href), query, BustUrl(href, now));
  }

  /** Bust then load: the page ends on its clean address. */
  lemma LoadAfterBust(href: string, now: nat)
    ensures LoadedHref(BustUrl(href, now)) == CleanUrl(href)
  {
    BustUrlShape(href, now);
    BustRoundTrip(href, now);
  }

  /** A cleaned address has no query, so loading it again changes nothing. */
  lemma LoadIdempotent(href: string)
    ensures '?' !in LoadedHref(href) ==> !ForceReloadRequested(LoadedHref(href))
    ensures ForceReloadRequested(href) ==> LoadedHref(LoadedHref(href)) == LoadedHref(href)
  {
    var r := LoadedHref(href);
    if '?' !in r {
      assert Search(r) == [];
      assert ParamNames([]) == [];
    }
  }

  /** `quickCacheBuster`, with `Date.now()` as `now`. */
  method QuickCacheBuster(w: Window, now: nat)
    requires w.caches.Valid()
    modifies w, w.caches
    ensures w.caches.Valid()
    ensures w.localStorage == map[] && w.sessionStorage == map[]
    ensures w.cachesAvailable ==> w.caches.names == [] && w.caches.buckets == map[]
    ensures !w.cachesAvailable ==> w.caches.Value() == old(w.caches.Value())
    ensures w.href == BustUrl(old(w.href), now)
    ensures w.reloads == old(w.reloads)
  {
    w.localStorage := map[];
    w.sessionStorage := map[];
    if w.cachesAvailable {
      w.caches.DeleteAll();
    }
    w.href := CleanUrl(w.href) + "?forceReload=" + Decimal(now);
  }

  /** The load handler: a `forceReload` query is replaced by the clean address; otherwise nothing changes. */
  method OnLoad(w: Window)
    modifies w
    ensures w.href == LoadedHref(old(w.href))
    ensures w.localStorage == old(w.localStorage) && w.sessionStorage == old(w.sessionStorage)
    ensures w.reloads == old(w.reloads)
  {
    if "forceReload" in ParamNames(Search(w.href)) {
      w.href := CleanUrl(w.href);
    }
  }
}
