/**
 * The service worker (sw.js): install-time precaching, activate-time cleanup,
 * the fetch strategy (cache first with background refresh, network on a
 * miss, an offline fallback), the message commands and the push defaults.
 *
 * Every handler is one atomic step. The network is an input: the outcome of
 * the one `fetch` the fetch handler issues (the background refresh on a hit,
 * the foreground request on a miss), and for install the responses fetched
 * for the asset list.
 */
module ServiceWorker {
  import opened Strings
  import opened Browser

  const CacheName: string := "evernet-v1.0.8"
  const DynamicCache: string := "evernet-dynamic-v1.0.8"

  /** The version reported by `GET_CACHE_STATUS`. */
  const ReportedVersion: string := "1.0.2"

  /** The asset list precached on install. */
  const StaticAssets: seq<string> := [
    "/", "/index.html",
    "/dashboard/", "/dashboard/index.html",
    "/about/", "/about/index.html",
    "/sign-in/", "/sign-in/index.html",
    "/sign-up/", "/sign-up/index.html",
    "/music/", "/music/index.html",
    "/learn-more/", "/learn-more/index.html",
    "/terms-of-service/", "/terms-of-service/index.html",
    "/privacy-policy/", "/privacy-policy/index.html",
    "/creator-agreement/", "/creator-agreement/index.html",
    "/admin/", "/admin/index.html",
    "/manifest.json", "/favicon.ico", "/icon-192.png", "/icon-512.png",
    "https://cdnjs.cloudflare.com/ajax/libs/font-awesome/6.4.0/css/all.min.css",
    "https://fonts.googleapis.com/css2?family=Poppins:wght@300;400;500;600;700&family=Montserrat:wght@700;800;900&display=swap",
    "https://www.gstatic.com/firebasejs/9.22.0/firebase-app-compat.js",
    "https://www.gstatic.com/firebasejs/9.22.0/firebase-auth-compat.js",
    "https://www.gstatic.com/firebasejs/9.22.0/firebase-firestore-compat.js"
  ]

  // ---------------------------------------------------------------- install

  /** The bulk store succeeds only when every asset was fetched. */
  predicate AllFetched(fetched: map<string, Response>) {
    forall u :: u in StaticAssets ==> u in fetched
  }

  /** The responses `cache.addAll(STATIC_ASSETS)` stores, one per asset URL. */
  function AssetEntries(fetched: map<string, Response>): (m: Bucket)
    requires AllFetched(fetched)
    ensures forall u :: u in m <==> u in StaticAssets
    ensures forall u :: u in m ==> m[u] == fetched[u]
  {
    map u | u in StaticAssets :: fetched[u]
  }

  /**
   * Install: `caches.open(CACHE_NAME)` always happens; the asset responses are
   * added all together or, when one of them could not be fetched, not at all.
   */
  function Installed(s: Store, fetched: map<string, Response>): (r: Store)
    ensures s.Valid() ==> r.Valid()
    ensures CacheName in r.buckets
    ensures AllFetched(fetched) ==>
      forall u :: u in StaticAssets ==> Stores(r.buckets, CacheName, u) && r.buckets[CacheName][u] == fetched[u]
    ensures !AllFetched(fetched) ==> r == s.Opened(CacheName)
    ensures forall n :: n in s.buckets && n != CacheName ==> n in r.buckets && r.buckets[n] == s.buckets[n]
    ensures forall n :: n in r.buckets ==> n in s.buckets || n == CacheName
    ensures r.names == s.Opened(CacheName).names
    ensures AllFetched(fetched) ==> forall u :: Stores(s.buckets, CacheName, u) ==> Stores(r.buckets, CacheName, u)
    ensures AllFetched(fetched) ==> forall u :: Stores(r.buckets, CacheName, u) && u !in StaticAssets ==>
      Stores(s.buckets, CacheName, u) && r.buckets[CacheName][u] == s.buckets[CacheName][u]
  {
    var o := s.Opened(CacheName);
    if AllFetched(fetched) then o.AddAll(CacheName, AssetEntries(fetched)) else o
  }

  /** The install handler on the live storage; `ok` tells whether the bulk store succeeded. */
  method Install(c: CacheStorage, fetched: map<string, Response>) returns (ok: bool)
    requires c.Valid()
    modifies c
    ensures c.Valid()
    ensures ok <==> AllFetched(fetched)
    ensures c.Value() == Installed(old(c.Value()), fetched)
  {
    c.Open(CacheName);
    ok := AllFetched(fetched);
    if ok {
      c.AddAll(CacheName, AssetEntries(fetched));
    }
  }

  // --------------------------------------------------------------- activate

  /** The cleanup test as written: a bucket survives activation only under one of these two prefixes. */
  predicate KeptOnActivate(name: string) {
    StartsWith(name, "evernet-v1.0.2") || StartsWith(name, "evernet-dynamic-v1.0.2")
  }

  /** The names satisfying `keep`, in their original order. */
  function Filter(names: seq<string>, keep: string -> bool): (r: seq<string>)
    ensures forall n :: n in r <==> n in names && keep(n)
    ensures Distinct(names) ==> Distinct(r)
  {
    if names == [] then []
    else
      var rest := Filter(names[1..], keep);
      DistinctTail(names);
      if keep(names[0]) then [names[0]] + rest else rest
  }

  /** Delete every bucket `keep` rejects; the others keep their contents and their order. */
  function Prune(s: Store, keep: string -> bool): (r: Store)
    ensures s.Valid() ==> r.Valid()
    ensures r.names == Filter(s.names, keep)
    ensures forall n :: n in r.buckets <==> n in s.buckets && keep(n)
    ensures forall n :: n in r.buckets ==> r.buckets[n] == s.buckets[n]
  {
    Store(Filter(s.names, keep), map n | n in s.buckets && keep(n) :: s.buckets[n])
  }

  /** The storage after the activate handler, as written. */
  function Activated(s: Store): Store {
    Prune(s, KeptOnActivate)
  }

  /** Filtering commutes with concatenation, which is what "keeps the order" means. */
  lemma {:induction false} FilterAppend(a: seq<string>, b: seq<string>, keep: string -> bool)
    ensures Filter(a + b, keep) == Filter(a, keep) + Filter(b, keep)
  {
    if a == [] {
      assert a + b == b;
    } else {
      assert (a + b)[1..] == a[1..] + b;
      FilterAppend(a[1..], b, keep);
    }
  }

  lemma {:induction false} FilterTwice(names: seq<string>, keep: string -> bool)
    ensures Filter(Filter(names, keep), keep) == Filter(names, keep)
  {
    if names != [] {
      FilterTwice(names[1..], keep);
      if keep(names[0]) {
        assert ([names[0]] + Filter(names[1..], keep))[1..] == Filter(names[1..], keep);
      }
    }
  }

  /**
   * Activate deletes a bucket exactly when its name has neither kept prefix;
   * survivors keep their contents. For any split of the name list into a
   * front part `a` and a back part `b`, the surviving names of `a` come before
   * those of `b`, each part in its own order: survivors keep their relative order.
   */
  lemma ActivateDeletes(s: Store, a: seq<string>, b: seq<string>)
    requires s.names == a + b
    ensures forall n :: n in Activated(s).buckets <==>
      n in s.buckets && (StartsWith(n, "evernet-v1.0.2") || StartsWith(n, "evernet-dynamic-v1.0.2"))
    ensures forall n :: n in Activated(s).buckets ==> Activated(s).buckets[n] == s.buckets[n]
    ensures Activated(s).names == Filter(a, KeptOnActivate) + Filter(b, KeptOnActivate)
  {
    FilterAppend(a, b, KeptOnActivate);
  }

  /** Running the cleanup a second time changes nothing. */
  lemma ActivateIdempotent(s: Store)
    ensures Activated(Activated(s)) == Activated(s)
  {
    FilterTwice(s.names, KeptOnActivate);
  }

  /** Neither of the worker's own bucket names carries a kept prefix. */
  lemma CurrentNamesNotKept()
    ensures !KeptOnActivate(CacheName) && !KeptOnActivate(DynamicCache)
  {
    assert CacheName[13] != "evernet-v1.0.2"[13];
    assert DynamicCache[..14][8] != "evernet-v1.0.2"[8];
    assert DynamicCache[21] != "evernet-dynamic-v1.0.2"[21];
  }

  /** Activation deletes the worker's own current buckets, whatever storage held. */
  lemma ActivateDeletesCurrentCaches(s: Store)
    ensures CacheName !in Activated(s).buckets && DynamicCache !in Activated(s).buckets
    ensures CacheName !in Activated(s).names && DynamicCache !in Activated(s).names
  {
    CurrentNamesNotKept();
  }

  /** Consequence: what install has just precached is gone once the worker activates. */
  lemma ActivateDiscardsPrecache(fetched: map<string, Response>, url: string)
    requires AllFetched(fetched) && url in StaticAssets
    ensures Stores(Installed(Store([], map[]), fetched).buckets, CacheName, url)
    ensures Activated(Installed(Store([], map[]), fetched)).Lookup(url) == None
  {
    var t := Activated(Installed(Store([], map[]), fetched));
    ActivateDeletesCurrentCaches(Installed(Store([], map[]), fetched));
    assert t.buckets == map[];
  }

  /** The test the cleanup evidently intends: a bucket survives exactly when it is one of the current two. */
  predicate IsCurrent(name: string) {
    name == CacheName || name == DynamicCache
  }

  function ActivatedIntended(s: Store): Store {
    Prune(s, IsCurrent)
  }

  /** With the intended test, the current buckets survive with their contents and nothing older remains. */
  lemma IntendedActivateKeepsCurrent(s: Store)
    ensures forall n :: n in ActivatedIntended(s).buckets <==> n in s.buckets && (n == CacheName || n == DynamicCache)
    ensures forall n :: n in ActivatedIntended(s).buckets ==> ActivatedIntended(s).buckets[n] == s.buckets[n]
    ensures ActivatedIntended(ActivatedIntended(s)) == ActivatedIntended(s)
  {
    FilterTwice(s.names, IsCurrent);
  }

  /** With the intended test, every precached asset is still answered from cache after activation. */
  lemma IntendedActivateKeepsPrecache(s: Store, fetched: map<string, Response>, url: string)
    requires s.Valid() && AllFetched(fetched) && url in StaticAssets
    ensures ActivatedIntended(Installed(s, fetched)).Lookup(url).Some?
  {
    var t := ActivatedIntended(Installed(s, fetched));
    assert Stores(t.buckets, CacheName, url);
    assert CacheName in t.names;
  }

  /** The activate handler on the live storage: `caches.keys()`, then `caches.delete` of each rejected name. */
  method Activate(c: CacheStorage)
    requires c.Valid()
    modifies c
    ensures c.Valid()
    ensures c.Value() == Activated(old(c.Value()))
  {
    var cacheNames := c.names;
    ghost var before := c.Value();
    var i := 0;
    while i < |cacheNames|
      invariant 0 <= i <= |cacheNames|
      invariant c.Valid()
      invariant c.Value() == Cleaned(before, cacheNames, i)
    {
      CleanedNext(before, cacheNames, i);
      CleanupOne(c, cacheNames[i]);
      i := i + 1;
    }
    CleanedInv(before, cacheNames, i);
    CleanupDone(before, c.Value(), cacheNames);
  }

  /** One turn of the loop: the arrow function of sw.js, deleting a name the test rejects. */
  method CleanupOne(c: CacheStorage, name: string)
    requires c.Valid()
    modifies c
    ensures c.Valid()
    ensures c.Value() == if KeptOnActivate(name) then old(c.Value()) else old(c.Value()).Without(name)
  {
    if !KeptOnActivate(name) {
      var _ := c.Delete(name);
    }
  }

  /** The storage once the loop has decided on the first `i` names. */
  ghost function Cleaned(before: Store, names: seq<string>, i: nat): Store
    requires i <= |names|
  {
    if i == 0 then before
    else
      var s := Cleaned(before, names, i - 1);
      if KeptOnActivate(names[i - 1]) then s else s.Without(names[i - 1])
  }

  lemma CleanedNext(before: Store, names: seq<string>, i: nat)
    requires i < |names|
    ensures Cleaned(before, names, i + 1) ==
      if KeptOnActivate(names[i]) then Cleaned(before, names, i) else Cleaned(before, names, i).Without(names[i])
  {
  }

  lemma {:induction false} CleanedInv(before: Store, names: seq<string>, i: nat)
    requires before.Valid() && before.names == names && i <= |names|
    ensures CleanupInv(before, Cleaned(before, names, i), names, i)
  {
    if i == 0 {
      assert names[..0] == [] && names[0..] == names;
    } else {
      CleanedInv(before, names, i - 1);
      CleanupTurn(before, Cleaned(before, names, i - 1), names, i - 1);
    }
  }

  /**
   * What holds after the cleanup loop has decided on the first `i` names:
   * the storage is valid, those names that are kept come first, the names not
   * yet decided follow, and every remaining bucket is untouched.
   */
  ghost predicate CleanupInv(before: Store, s: Store, names: seq<string>, i: nat) {
    i <= |names| && Distinct(names) && s.Valid() &&
    s.names == Filter(names[..i], KeptOnActivate) + names[i..] &&
    forall n :: n in s.buckets ==> n in before.buckets && s.buckets[n] == before.buckets[n]
  }

  /** The loop has decided on every name: the storage is the pruned one. */
  lemma CleanupDone(before: Store, s: Store, names: seq<string>)
    requires before.Valid() && before.names == names
    requires CleanupInv(before, s, names, |names|)
    ensures s == Activated(before)
  {
    assert names[..|names|] == names && names[|names|..] == [];
    PruneByNames(before, s, KeptOnActivate);
  }

  /** One turn of the loop keeps `CleanupInv`; a rejected name is deleted. */
  lemma CleanupTurn(before: Store, s: Store, names: seq<string>, i: nat)
    requires CleanupInv(before, s, names, i) && i < |names|
    ensures CleanupInv(before, if KeptOnActivate(names[i]) then s else s.Without(names[i]), names, i + 1)
  {
    CleanupStep(names, i, KeptOnActivate);
  }

  /** One turn of the cleanup loop: deciding on `names[i]` moves it into the filtered part or deletes it. */
  lemma CleanupStep(names: seq<string>, i: nat, keep: string -> bool)
    requires Distinct(names) && i < |names|
    ensures var x, done := names[i], Filter(names[..i], keep);
      Filter(names[..i + 1], keep) + names[i + 1..] ==
        if keep(x) then done + names[i..] else Remove(done + names[i..], x)
  {
    var x, done, rest := names[i], Filter(names[..i], keep), names[i + 1..];
    FilterSnoc(names, i, keep);
    assert names[i..] == [x] + rest;
    DistinctApart(names, i);
    StepParts(done, x, rest, keep(x));
  }

  /** The same turn on the pieces: the decided part, the name under test and the names still to come. */
  lemma StepParts(done: seq<string>, x: string, rest: seq<string>, kept: bool)
    requires x !in done && x !in rest
    ensures (done + if kept then [x] else []) + rest ==
      if kept then done + ([x] + rest) else Remove(done + ([x] + rest), x)
  {
    if kept {
      assert (done + [x]) + rest == done + ([x] + rest);
    } else {
      RemoveOnce(done, x, rest);
      assert done + [x] + rest == done + ([x] + rest);
      assert done + [] == done;
    }
  }

  lemma FilterSnoc(names: seq<string>, i: nat, keep: string -> bool)
    requires i < |names|
    ensures Filter(names[..i + 1], keep) ==
      Filter(names[..i], keep) + if keep(names[i]) then [names[i]] else []
  {
    assert names[..i + 1] == names[..i] + [names[i]];
    FilterAppend(names[..i], [names[i]], keep);
    assert Filter([names[i]], keep) == if keep(names[i]) then [names[i]] else [];
  }

  /** A name listed once occurs neither before nor after its own position. */
  lemma DistinctApart(names: seq<string>, i: nat)
    requires Distinct(names) && i < |names|
    ensures names[i] !in names[..i] && names[i] !in names[i + 1..]
  {
  }

  /** A valid storage whose names are the filtered names, with untouched buckets, is the pruned storage. */
  lemma PruneByNames(s: Store, t: Store, keep: string -> bool)
    requires s.Valid() && t.Valid()
    requires t.names == Filter(s.names, keep)
    requires forall n :: n in t.buckets ==> n in s.buckets && t.buckets[n] == s.buckets[n]
    ensures t == Prune(s, keep)
  {
    assert t.buckets == Prune(s, keep).buckets;
  }

  /** Taking out a name listed once, between two runs that do not hold it. */
  lemma {:induction false} RemoveOnce(a: seq<string>, x: string, b: seq<string>)
    requires x !in a && x !in b
    ensures Remove(a + [x] + b, x) == a + b
  {
    var s := a + [x] + b;
    if a == [] {
      assert s[0] == x && s[1..] == b;
    } else {
      assert s[0] == a[0] && s[1..] == a[1..] + [x] + b;
      RemoveOnce(a[1..], x, b);
      assert a + b == [a[0]] + (a[1..] + b);
    }
  }

  // ------------------------------------------------------------------ fetch

  /** A request as the handler sees it: its method, URL and destination. */
  datatype Request = Request(verb: string, url: string, destination: string)

  /** What the network did with the one `fetch` the handler issued. */
  datatype NetworkOutcome = NetworkError | Fetched(response: Response)

  /** `PassThrough`: the handler returned without `respondWith`; otherwise what it answered with. */
  datatype FetchOutcome = PassThrough | RespondWith(response: Option<Response>)

  datatype FetchResult = FetchResult(outcome: FetchOutcome, store: Store)

  /** Requests the handler leaves to the browser. */
  predicate Skipped(req: Request) {
    req.verb != "GET" ||
    StartsWith(req.url, "chrome-extension://") ||
    Contains(req.url, "browser-sync") ||
    Contains(req.url, "live-reload")
  }

  const OfflineResponse: Response := Response(503, "Service Unavailable", "EVERNET is offline")

  /** `fetchAndCache`: a 200 response is written into the dynamic bucket; anything else is dropped. */
  function Refreshed(s: Store, url: string, net: NetworkOutcome): Store {
    if net.Fetched? && net.response.status == 200 then s.Put(DynamicCache, url, net.response) else s
  }

  /** The fetch handler as one step: what the page receives and what Cache Storage holds afterwards. */
  function OnFetch(req: Request, s: Store, net: NetworkOutcome): (r: FetchResult)
    ensures r.outcome.PassThrough? <==> Skipped(req)
    ensures s.Valid() ==> r.store.Valid()
  {
    if Skipped(req) then FetchResult(PassThrough, s)
    else match s.Lookup(req.url)
      case Some(cached) => FetchResult(RespondWith(Some(cached)), Refreshed(s, req.url, net))
      case None =>
        match net
        case Fetched(response) => FetchResult(RespondWith(Some(response)), Refreshed(s, req.url, net))
        case NetworkError =>
          var fallback := if req.destination == "document" then s.Lookup("/") else Some(OfflineResponse);
          FetchResult(RespondWith(fallback), s)
  }

  /** A skipped request gets no answer from the worker and leaves the storage alone. */
  lemma FetchPassThrough(req: Request, s: Store, net: NetworkOutcome)
    requires req.verb != "GET" || StartsWith(req.url, "chrome-extension://") ||
             Contains(req.url, "browser-sync") || Contains(req.url, "live-reload")
    ensures OnFetch(req, s, net) == FetchResult(PassThrough, s)
  {
  }

  /**
   * Cache hit: the page gets the cached entry; the only possible change is a
   * write of a 200 refresh into the dynamic bucket under the request's URL.
   */
  lemma FetchHit(req: Request, s: Store, net: NetworkOutcome, cached: Response)
    requires !Skipped(req) && s.Lookup(req.url) == Some(cached)
    ensures OnFetch(req, s, net).outcome == RespondWith(Some(cached))
    ensures var t := OnFetch(req, s, net).store;
      if net.Fetched? && net.response.status == 200 then
        Stores(t.buckets, DynamicCache, req.url) && t.buckets[DynamicCache][req.url] == net.response &&
        t.names == s.Opened(DynamicCache).names &&
        (forall n, u :: Stores(s.buckets, n, u) ==> Stores(t.buckets, n, u)) &&
        forall n, u :: Stores(t.buckets, n, u) && (n != DynamicCache || u != req.url) ==>
          Stores(s.buckets, n, u) && t.buckets[n][u] == s.buckets[n][u]
      else t == s
  {
  }

  /**
   * Cache miss, network answered: the page gets the network response unchanged;
   * a 200 is stored in the dynamic bucket, with nothing else changed, and
   * becomes the next lookup's answer; anything else leaves storage alone.
   */
  lemma FetchMissOnline(req: Request, s: Store, response: Response)
    requires s.Valid() && !Skipped(req) && s.Lookup(req.url).None?
    ensures OnFetch(req, s, Fetched(response)).outcome == RespondWith(Some(response))
    ensures var t := OnFetch(req, s, Fetched(response)).store;
      response.status == 200 ==>
        Stores(t.buckets, DynamicCache, req.url) && t.Lookup(req.url) == Some(response) &&
        t.names == s.Opened(DynamicCache).names &&
        (forall n, u :: Stores(s.buckets, n, u) ==> Stores(t.buckets, n, u)) &&
        forall n, u :: Stores(t.buckets, n, u) && (n != DynamicCache || u != req.url) ==>
          Stores(s.buckets, n, u) && t.buckets[n][u] == s.buckets[n][u]
    ensures response.status != 200 ==> OnFetch(req, s, Fetched(response)).store == s
  {
    if response.status == 200 {
      PutThenLookup(s, DynamicCache, req.url, response);
    }
  }

  /** Cache miss, network failed: a document gets the cached root page (if any), anything else the 503 page. */
  lemma FetchMissOffline(req: Request, s: Store)
    requires !Skipped(req) && s.Lookup(req.url).None?
    ensures OnFetch(req, s, NetworkError).store == s
    ensures req.destination == "document" ==> OnFetch(req, s, NetworkError).outcome == RespondWith(s.Lookup("/"))
    ensures req.destination != "document" ==>
      OnFetch(req, s, NetworkError).outcome == RespondWith(Some(Response(503, "Service Unavailable", "EVERNET is offline")))
  {
  }

  /** `fetchAndCache` on the live storage. */
  method FetchAndCache(c: CacheStorage, req: Request, net: NetworkOutcome)
    requires c.Valid()
    modifies c
    ensures c.Valid()
    ensures c.Value() == Refreshed(old(c.Value()), req.url, net)
  {
    if net.Fetched? && net.response.status == 200 {
      c.Put(DynamicCache, req.url, net.response);
    }
  }

  /** The fetch handler on the live storage. */
  method HandleFetch(c: CacheStorage, req: Request, net: NetworkOutcome) returns (outcome: FetchOutcome)
    requires c.Valid()
    modifies c
    ensures c.Valid()
    ensures outcome == OnFetch(req, old(c.Value()), net).outcome
    ensures c.Value() == OnFetch(req, old(c.Value()), net).store
  {
    if Skipped(req) {
      return PassThrough;
    }
    var cached := c.Value().Lookup(req.url);
    if cached.Some? {
      FetchAndCache(c, req, net);
      return RespondWith(cached);
    }
    match net {
      case Fetched(response) =>
        FetchAndCache(c, req, net);
        outcome := RespondWith(Some(response));
      case NetworkError =>
        if req.destination == "document" {
          outcome := RespondWith(c.Value().Lookup("/"));
        } else {
          outcome := RespondWith(Some(OfflineResponse));
        }
    }
  }

  // --------------------------------------------------------------- messages

  /** A message from a page: its `type` and whether a reply port came with it. */
  datatype Message = Message(kind: string, hasPort: bool)

  datatype Reply =
    | Cleared(success: bool)
    | CacheStatus(totalCaches: nat, cacheNames: seq<string>, version: string)
    | Checking(checking: bool)

  datatype MessageResult = MessageResult(reply: Option<Reply>, store: Store)

  /**
   * The message handler as one step. A reply goes out only through a port
   * the page supplied; without one the handler fails at the reply, after
   * any deletion has happened.
   */
  function OnMessage(s: Store, m: Message): (r: MessageResult)
    ensures m.kind == "CLEAR_CACHE" ==>
      r.store == Store([], map[]) && r.reply == (if m.hasPort then Some(Cleared(true)) else None)
    ensures m.kind == "GET_CACHE_STATUS" && m.hasPort ==>
      r.reply == Some(CacheStatus(|s.names|, s.names, "1.0.2"))
    ensures m.kind == "CHECK_FOR_UPDATES" && m.hasPort ==> r.reply == Some(Checking(true))
    ensures m.kind != "CLEAR_CACHE" && m.kind != "GET_CACHE_STATUS" && m.kind != "CHECK_FOR_UPDATES" ==> r.reply == None
    ensures m.kind != "CLEAR_CACHE" ==> r.store == s
    ensures !m.hasPort ==> r.reply == None
  {
    var reply :=
      if m.kind == "CLEAR_CACHE" then Some(Cleared(true))
      else if m.kind == "GET_CACHE_STATUS" then Some(CacheStatus(|s.names|, s.names, ReportedVersion))
      else if m.kind == "CHECK_FOR_UPDATES" then Some(Checking(true))
      else None;
    MessageResult(if m.hasPort then reply else None,
                  if m.kind == "CLEAR_CACHE" then Store([], map[]) else s)
  }

  /** A status request answered after a clear reports no caches at all. */
  lemma StatusAfterClear(s: Store)
    ensures OnMessage(OnMessage(s, Message("CLEAR_CACHE", true)).store, Message("GET_CACHE_STATUS", true)).reply
            == Some(CacheStatus(0, [], "1.0.2"))
  {
  }

  /** The message handler on the live storage. */
  method HandleMessage(c: CacheStorage, m: Message) returns (reply: Option<Reply>)
    requires c.Valid()
    modifies c
    ensures c.Valid()
    ensures reply == OnMessage(old(c.Value()), m).reply
    ensures c.Value() == OnMessage(old(c.Value()), m).store
  {
    reply := None;
    if m.kind == "CLEAR_CACHE" {
      c.DeleteAll();
      if m.hasPort { reply := Some(Cleared(true)); }
    } else if m.kind == "GET_CACHE_STATUS" {
      var cacheNames := c.names;
      if m.hasPort { reply := Some(CacheStatus(|cacheNames|, cacheNames, ReportedVersion)); }
    } else if m.kind == "CHECK_FOR_UPDATES" {
      if m.hasPort { reply := Some(Checking(true)); }
    }
  }

  // ------------------------------------------------------------------- push

  /** The fields of a push payload; `None` stands for a missing or `null` field. */
  datatype PushData = PushData(title: Option<string>, body: Option<string>, url: Option<string>)

  datatype NotificationAction = NotificationAction(action: string, title: string)

  datatype Notification = Notification(
    title: string, body: string, icon: string, badge: string,
    vibrate: seq<nat>, url: string, actions: seq<NotificationAction>)

  /** `value || fallback` for a string field: a missing or empty value gives the fallback. */
  function OrDefault(value: Option<string>, fallback: string): (r: string)
    ensures value.Some? && value.value != "" ==> r == value.value
    ensures value.None? || value.value == "" ==> r == fallback
  {
    if value.Some? && value.value != "" then value.value else fallback
  }

  /** The push handler: no notification without data; otherwise the payload's fields, defaulted. */
  function OnPush(data: Option<PushData>): (n: Option<Notification>)
    ensures n.None? <==> data.None?
    ensures n.Some? ==>
      n.value.title == OrDefault(data.value.title, "EVERNET") &&
      n.value.body == OrDefault(data.value.body, "New update from EVERNET") &&
      n.value.url == OrDefault(data.value.url, "/") &&
      n.value.icon == "/icon-192.png" && n.value.badge == "/icon-192.png" &&
      n.value.vibrate == [100, 50, 100] &&
      n.value.actions == [NotificationAction("open", "Open EVERNET"), NotificationAction("close", "Close")]
  {
    match data
    case None => None
    case Some(d) =>
      Some(Notification(
        OrDefault(d.title, "EVERNET"),
        OrDefault(d.body, "New update from EVERNET"),
        "/icon-192.png", "/icon-192.png",
        [100, 50, 100],
        OrDefault(d.url, "/"),
        [NotificationAction("open", "Open EVERNET"), NotificationAction("close", "Close")]))
  }
}
