/**
 * The browser state the scripts act on, reduced to what they read and write.
 *
 * Cache Storage is an ordered list of bucket names (in creation order, as
 * `caches.keys()` reports them) and, for each name, a bucket mapping a request
 * URL to a stored response. `Store` is that state as a value; `CacheStorage`
 * is the object the scripts update through `caches.open`, `cache.put` and
 * `caches.delete`. `Window` adds the page's local and session storage, its
 * address and a count of the reloads the page has asked for.
 */
module Browser {

  datatype Option<T> = None | Some(value: T)

  /** A response, reduced to what the worker inspects or builds. */
  datatype Response = Response(status: int, statusText: string, body: string)

  /** One cache bucket: request URL to stored response. */
  type Bucket = map<string, Response>

  predicate Distinct(s: seq<string>) {
    forall i, j :: 0 <= i < j < |s| ==> s[i] != s[j]
  }

  /** Dropping the head of a list of distinct names leaves distinct names, none equal to the head. */
  lemma DistinctTail(s: seq<string>)
    requires s != []
    ensures Distinct(s) ==> Distinct(s[1..]) && s[0] !in s[1..]
  {
    if Distinct(s) {
      forall i, j | 0 <= i < j < |s| - 1 ensures s[1..][i] != s[1..][j] {
        assert s[1..][i] == s[i + 1] && s[1..][j] == s[j + 1];
      }
    }
  }

  /** `s` with every occurrence of `x` taken out; `ServiceWorker.RemoveOnce` shows that the rest keep their order. */
  function Remove(s: seq<string>, x: string): (r: seq<string>)
    ensures forall y :: y in r <==> y in s && y != x
    ensures Distinct(s) ==> Distinct(r)
    ensures x !in s ==> r == s
  {
    if s == [] then []
    else if s[0] == x then Remove(s[1..], x)
    else
      var rest := Remove(s[1..], x);
      DistinctTail(s);
      [s[0]] + rest
  }

  /** Bucket `name` exists and holds an entry for `url`. */
  predicate Stores(buckets: map<string, Bucket>, name: string, url: string) {
    name in buckets && url in buckets[name]
  }

  /**
   * `caches.match(url)`: the entry for `url` in the first bucket, in creation
   * order, that has one; `None` when no bucket has one.
   */
  function FirstMatch(names: seq<string>, buckets: map<string, Bucket>, url: string): (r: Option<Response>)
    ensures r.None? <==> forall i :: 0 <= i < |names| ==> !Stores(buckets, names[i], url)
    ensures r.Some? ==>
      exists i :: 0 <= i < |names| && Stores(buckets, names[i], url) && r.value == buckets[names[i]][url] &&
        forall j :: 0 <= j < i ==> !Stores(buckets, names[j], url)
  {
    if names == [] then None
    else if Stores(buckets, names[0], url) then Some(buckets[names[0]][url])
    else
      var rest := FirstMatch(names[1..], buckets, url);
      assert forall i :: 1 <= i < |names| ==> names[i] == names[1..][i - 1];
      rest
  }

  /** The contents of Cache Storage as a value. */
  datatype Store = Store(names: seq<string>, buckets: map<string, Bucket>) {

    /** Names are listed once each, and exactly the listed names have a bucket. */
    ghost predicate Valid() {
      Distinct(names) && forall n :: n in buckets <==> n in names
    }

    function Lookup(url: string): Option<Response> {
      FirstMatch(names, buckets, url)
    }

    /** `caches.open(name)`: an existing bucket is left as it is; a new one is empty and listed last. */
    function Opened(name: string): (r: Store)
      ensures Valid() ==> r.Valid()
      ensures name in r.buckets
      ensures name in buckets ==> r == this
      ensures name !in buckets ==> r.names == names + [name] && r.buckets == buckets[name := map[]]
    {
      if name in buckets then this else Store(names + [name], buckets[name := map[]])
    }

    /**
     * `caches.open(name)` followed by `cache.put(url, response)`: afterwards the
     * bucket answers `url` with `response`; no other entry of any bucket changes.
     */
    function Put(name: string, url: string, response: Response): (r: Store)
      ensures Valid() ==> r.Valid()
      ensures r.names == Opened(name).names
      ensures Stores(r.buckets, name, url) && r.buckets[name][url] == response
      ensures forall n, u :: Stores(buckets, n, u) ==> Stores(r.buckets, n, u)
      ensures forall n, u :: Stores(r.buckets, n, u) && (n != name || u != url) ==>
                Stores(buckets, n, u) && r.buckets[n][u] == buckets[n][u]
      ensures forall n :: n in r.buckets <==> n in buckets || n == name
    {
      var o := Opened(name);
      Store(o.names, o.buckets[name := o.buckets[name][url := response]])
    }

    /** `cache.addAll` on the open bucket `name`: every entry is stored; nothing else changes. */
    function AddAll(name: string, entries: Bucket): (r: Store)
      requires name in buckets
      ensures Valid() ==> r.Valid()
      ensures r.names == names
      ensures forall u :: u in entries ==> Stores(r.buckets, name, u) && r.buckets[name][u] == entries[u]
      ensures forall u :: Stores(buckets, name, u) ==> Stores(r.buckets, name, u)
      ensures forall u :: Stores(r.buckets, name, u) && u !in entries ==> Stores(buckets, name, u) && r.buckets[name][u] == buckets[name][u]
      ensures forall n :: n in r.buckets <==> n in buckets
      ensures forall n :: n in buckets && n != name ==> r.buckets[n] == buckets[n]
    {
      Store(names, buckets[name := buckets[name] + entries])
    }

    /** `caches.delete(name)`: the bucket and its name are gone; the rest keep contents and order. */
    function Without(name: string): (r: Store)
      ensures Valid() ==> r.Valid()
      ensures r.names == Remove(names, name)
      ensures name !in r.names && name !in r.buckets
      ensures forall n :: n in r.buckets <==> n in buckets && n != name
      ensures forall n :: n in r.buckets ==> r.buckets[n] == buckets[n]
    {
      Store(Remove(names, name), buckets - {name})
    }
  }

  /** After a put of `url` that no bucket answered before, the lookup of `url` finds the new entry. */
  lemma PutThenLookup(s: Store, name: string, url: string, response: Response)
    requires s.Valid() && s.Lookup(url).None?
    ensures s.Put(name, url, response).Lookup(url) == Some(response)
  {
    var t := s.Put(name, url, response);
    assert name in t.names;
    var k :| 0 <= k < |t.names| && t.names[k] == name;
    assert Stores(t.buckets, t.names[k], url);
    var i :| 0 <= i < |t.names| && Stores(t.buckets, t.names[i], url) && t.Lookup(url).value == t.buckets[t.names[i]][url];
    if t.names[i] != name {
      assert false;
    }
  }

  /** Cache Storage as an object that the scripts update in place. */
  class CacheStorage {
    var names: seq<string>
    var buckets: map<string, Bucket>

    function Value(): Store
      reads this
    {
      Store(names, buckets)
    }

    ghost predicate Valid()
      reads this
    {
      Value().Valid()
    }

    constructor ()
      ensures Valid() && names == [] && buckets == map[]
    {
      names := [];
      buckets := map[];
    }

    /** `caches.delete(name)`, which reports whether there was such a bucket. */
    method Delete(name: string) returns (deleted: bool)
      requires Valid()
      modifies this
      ensures Valid()
      ensures deleted <==> name in old(names)
      ensures Value() == old(Value()).Without(name)
    {
      deleted := name in buckets;
      names := Remove(names, name);
      buckets := buckets - {name};
    }

    /** `caches.open(name)`. */
    method Open(name: string)
      requires Valid()
      modifies this
      ensures Valid()
      ensures Value() == old(Value()).Opened(name)
    {
      if name !in buckets {
        names := names + [name];
        buckets := buckets[name := map[]];
      }
    }

    /** `cache.addAll` on an open bucket, once every response is in hand: all entries at once. */
    method AddAll(name: string, entries: Bucket)
      requires Valid() && name in buckets
      modifies this
      ensures Valid()
      ensures Value() == old(Value()).AddAll(name, entries)
    {
      buckets := buckets[name := buckets[name] + entries];
    }

    /** `caches.open(name)` then `cache.put(url, response)`. */
    method Put(name: string, url: string, response: Response)
      requires Valid()
      modifies this
      ensures Valid()
      ensures Value() == old(Value()).Put(name, url, response)
    {
      if name !in buckets {
        names := names + [name];
        buckets := buckets[name := map[]];
      }
      buckets := buckets[name := buckets[name][url := response]];
    }

    /** `caches.keys()` followed by `caches.delete` of every name it listed. */
    method DeleteAll()
      requires Valid()
      modifies this
      ensures Valid() && names == [] && buckets == map[]
    {
      var cacheNames := names;
      var i := 0;
      while i < |cacheNames|
        invariant 0 <= i <= |cacheNames|
        invariant Valid()
        invariant names == cacheNames[i..]
      {
        assert cacheNames[i..] == [cacheNames[i]] + cacheNames[i + 1..];
        var _ := Delete(cacheNames[i]);
        i := i + 1;
      }
      assert buckets.Keys == {};
    }
  }

  /**
   * The page side: `localStorage`, `sessionStorage`, whether the Cache API is
   * present (`'caches' in window`), the event target's address
   * (`window.location.href`) and how many reloads the page has triggered.
   */
  class Window {
    var localStorage: map<string, string>
    var sessionStorage: map<string, string>
    const cachesAvailable: bool
    const caches: CacheStorage
    var href: string
    var reloads: nat

    constructor (cachesAvailable: bool, caches: CacheStorage, href: string,
                 localStorage: map<string, string>, sessionStorage: map<string, string>)
      ensures this.cachesAvailable == cachesAvailable && this.caches == caches && this.href == href
      ensures this.localStorage == localStorage && this.sessionStorage == sessionStorage
      ensures reloads == 0
    {
      this.cachesAvailable := cachesAvailable;
      this.caches := caches;
      this.href := href;
      this.localStorage := localStorage;
      this.sessionStorage := sessionStorage;
      reloads := 0;
    }
  }
}
