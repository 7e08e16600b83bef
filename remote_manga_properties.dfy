/**
 * What the remote fetch, normalise and cache layer promises, proved about the
 * function `RemoteManga.Serve` that the service's methods are specified by.
 */
module RemoteMangaProperties {
  import opened Wrappers
  import opened PhpJson
  import opened Decimal
  import opened RemoteManga

  /** The key tells the kind at position 13 and carries the argument after its prefix. */
  lemma KeyShape(q: Query)
    ensures |CacheKey(q)| > 13
    ensures CacheKey(q)[13] == (match q case ListPage(_) => 'l' case Item(_) => 'i' case Chapter(_) => 'c')
    ensures q.ListPage? ==> CacheKey(q)[|ListPrefix|..] == IntToDecimal(q.page)
    ensures q.Item? ==> CacheKey(q)[|ItemPrefix|..] == q.mangaId
    ensures q.Chapter? ==> CacheKey(q)[|ChapterPrefix|..] == q.chapterId
  {
  }

  /** Keys are injective: two calls share a cache entry exactly when they are the
      same kind with the same argument, so the three kinds never collide. */
  lemma CacheKeyInjective(q1: Query, q2: Query)
    ensures CacheKey(q1) == CacheKey(q2) <==> q1 == q2
  {
    if CacheKey(q1) == CacheKey(q2) {
      KeyShape(q1);
      KeyShape(q2);
      if q1.ListPage? && q2.ListPage? {
        IntToDecimalInjective(q1.page, q2.page);
      }
    }
  }

  /** A hit returns the stored value and changes nothing: no attempt, no log record. */
  lemma ServeOnHit(c: Cache, baseUrl: string, q: Query, now: int, upstream: Upstream)
    requires CacheValid(c)
    requires Hit(c, CacheKey(q), now)
    ensures var o := Serve(c, baseUrl, q, now, upstream);
      && o.cache == c && o.attempts == 0 && o.logged == []
      && o.result == AsArrayReturn(c[CacheKey(q)].value)
  {
  }

  /** A miss (no entry, or an expired one) makes one or two attempts, writes the
      closure's value under the key with expiry `now + Ttl(q)`, returns it, logs
      at most once, and leaves every other key as it was. */
  lemma ServeOnMiss(c: Cache, baseUrl: string, q: Query, now: int, upstream: Upstream)
    requires !Hit(c, CacheKey(q), now)
    ensures var o := Serve(c, baseUrl, q, now, upstream);
      var key := CacheKey(q);
      && 1 <= o.attempts <= MaxAttempts
      && key in o.cache && o.cache[key].expiresAt == now + Ttl(q)
      && o.result == AsArrayReturn(o.cache[key].value)
      && |o.logged| <= 1
      && (forall k :: k != key ==> (k in o.cache <==> k in c) && (k in c ==> o.cache[k] == c[k]))
  {
  }

  /** When every attempt fails, the caller gets `[]`, exactly one error is logged,
      and `[]` is cached for the full TTL. */
  lemma ServeWhenUpstreamFails(c: Cache, baseUrl: string, q: Query, now: int, upstream: Upstream)
    requires !Hit(c, CacheKey(q), now)
    requires forall j :: 0 <= j < MaxAttempts ==> !Successful(upstream(UpstreamRequest(baseUrl, q), j))
    ensures var o := Serve(c, baseUrl, q, now, upstream);
      && o.result == Returns(Empty)
      && o.logged == [FailureLog(q)]
      && o.cache == c[CacheKey(q) := Entry(Empty, now + Ttl(q))]
      && o.attempts == MaxAttempts
  {
  }

  /** When attempt `i` is the first to succeed, its normalised body is cached and
      returned (or raises a TypeError if it is not an array), nothing is logged,
      and `i + 1` attempts were made. */
  lemma ServeWhenUpstreamAnswers(c: Cache, baseUrl: string, q: Query, now: int, upstream: Upstream, i: nat)
    requires !Hit(c, CacheKey(q), now)
    requires i < MaxAttempts && Successful(upstream(UpstreamRequest(baseUrl, q), i))
    requires forall j :: 0 <= j < i ==> !Successful(upstream(UpstreamRequest(baseUrl, q), j))
    ensures var o := Serve(c, baseUrl, q, now, upstream);
      var v := Normalize(upstream(UpstreamRequest(baseUrl, q), i).body);
      && o.cache == c[CacheKey(q) := Entry(v, now + Ttl(q))]
      && o.result == (if IsArray(v) then Returns(v) else ThrowsTypeError)
      && o.logged == []
      && o.attempts == i + 1
  {
  }

  /** Serving keeps the cache free of nulls, so Laravel's "not null" hit test
      agrees with "present and unexpired". */
  lemma ServeKeepsCacheValid(c: Cache, baseUrl: string, q: Query, now: int, upstream: Upstream)
    requires CacheValid(c)
    ensures CacheValid(Serve(c, baseUrl, q, now, upstream).cache)
  {
  }

  /** Serving one call never touches the entry of a different call, of the same
      kind or another. */
  lemma ServeLeavesOtherQueries(c: Cache, baseUrl: string, q: Query, now: int, upstream: Upstream, other: Query)
    requires other != q
    ensures var o := Serve(c, baseUrl, q, now, upstream);
      && (CacheKey(other) in o.cache <==> CacheKey(other) in c)
      && (CacheKey(other) in c ==> o.cache[CacheKey(other)] == c[CacheKey(other)])
  {
    CacheKeyInjective(q, other);
  }

  /** A call after the entry's expiry goes to the upstream again and refreshes the entry. */
  lemma ServeAfterExpiry(c: Cache, baseUrl: string, q: Query, now: int, upstream: Upstream)
    requires CacheKey(q) in c && c[CacheKey(q)].expiresAt <= now
    ensures var o := Serve(c, baseUrl, q, now, upstream);
      o.attempts >= 1 && o.cache[CacheKey(q)].expiresAt == now + Ttl(q)
  {
    ServeOnMiss(c, baseUrl, q, now, upstream);
  }

  /** Two calls with the same argument, the second before the entry the first
      left behind expires: equal results, and the second makes no attempt and
      changes nothing. */
  lemma ServeTwice(c: Cache, baseUrl: string, q: Query, t1: int, t2: int, up1: Upstream, up2: Upstream)
    requires CacheValid(c)
    requires CacheKey(q) in Serve(c, baseUrl, q, t1, up1).cache
    requires t2 < Serve(c, baseUrl, q, t1, up1).cache[CacheKey(q)].expiresAt
    ensures var o1 := Serve(c, baseUrl, q, t1, up1);
      var o2 := Serve(o1.cache, baseUrl, q, t2, up2);
      && o2.result == o1.result
      && o2.cache == o1.cache && o2.logged == [] && o2.attempts == 0
      && o1.attempts + o2.attempts <= MaxAttempts
  {
    var o1 := Serve(c, baseUrl, q, t1, up1);
    ServeKeepsCacheValid(c, baseUrl, q, t1, up1);
    if Hit(c, CacheKey(q), t1) {
      ServeOnHit(c, baseUrl, q, t1, up1);
    } else {
      ServeOnMiss(c, baseUrl, q, t1, up1);
    }
    ServeOnHit(o1.cache, baseUrl, q, t2, up2);
  }

  /** The same after a first call that missed: anything within `Ttl(q)` of it is
      a hit. This covers a failure too: its `[]` is served again without retrying. */
  lemma ServeTwiceWithinTtl(c: Cache, baseUrl: string, q: Query, t1: int, t2: int, up1: Upstream, up2: Upstream)
    requires CacheValid(c)
    requires !Hit(c, CacheKey(q), t1)
    requires t2 < t1 + Ttl(q)
    ensures var o1 := Serve(c, baseUrl, q, t1, up1);
      var o2 := Serve(o1.cache, baseUrl, q, t2, up2);
      o2.result == o1.result && o2.attempts == 0 && o1.attempts + o2.attempts <= MaxAttempts
  {
    ServeOnMiss(c, baseUrl, q, t1, up1);
    ServeTwice(c, baseUrl, q, t1, t2, up1, up2);
  }

  /** The upstream test fixture: one manga record under `data`. */
  const FixtureItem: Json := JObj(map["id" := JStr("m1"), "title" := JStr("M1")])
  const Fixture: Json := JObj(map["data" := JArr([FixtureItem])])

  /** The fixture normalises to its `data` list; a bare list is taken whole. */
  lemma NormalizeFixture()
    ensures Normalize(Fixture) == JArr([FixtureItem])
    ensures Normalize(JArr([FixtureItem])) == JArr([FixtureItem])
  {
  }

  /** An object without `data`, or with a null `data`, is returned whole, not `[]`. */
  lemma NormalizeWithoutData()
    ensures Normalize(JObj(map["unexpected" := JStr("shape")])) == JObj(map["unexpected" := JStr("shape")])
    ensures Normalize(JObj(map["data" := JNull, "x" := JNum(1)])) == JObj(map["data" := JNull, "x" := JNum(1)])
  {
  }

  /** A scalar body or a scalar `data` normalises to a non-array: the call raises
      a TypeError, yet the value is cached. */
  lemma ServeScalarBody(c: Cache, baseUrl: string, q: Query, now: int, upstream: Upstream)
    requires !Hit(c, CacheKey(q), now)
    requires upstream(UpstreamRequest(baseUrl, q), 0) == Responded(200, JObj(map["data" := JStr("x")]))
    ensures var o := Serve(c, baseUrl, q, now, upstream);
      o.result == ThrowsTypeError && o.cache[CacheKey(q)] == Entry(JStr("x"), now + Ttl(q))
  {
    ServeWhenUpstreamAnswers(c, baseUrl, q, now, upstream, 0);
  }

  /** A list page answered with the fixture, then an item whose every attempt gets
      HTTP 500: the list comes back after one attempt, the item as `[]` after two,
      with one log record naming the item. */
  lemma Scenario(baseUrl: string, now: int, up1: Upstream, up2: Upstream)
    requires forall j :: up1(UpstreamRequest(baseUrl, ListPage(1)), j) == Responded(200, Fixture)
    requires forall j :: up2(UpstreamRequest(baseUrl, Item("m1")), j) == Responded(500, JNull)
    ensures var o1 := Serve(map[], baseUrl, ListPage(1), now, up1);
      var o2 := Serve(o1.cache, baseUrl, Item("m1"), now, up2);
      && o1.result == Returns(JArr([FixtureItem])) && o1.attempts == 1
      && o2.result == Returns(Empty) && o2.attempts == 2
      && o2.logged == [LogEntry("RemoteMangaService::get failed", Some("m1"))]
  {
    var c: Cache := map[];
    ServeWhenUpstreamAnswers(c, baseUrl, ListPage(1), now, up1, 0);
    var o1 := Serve(c, baseUrl, ListPage(1), now, up1);
    CacheKeyInjective(ListPage(1), Item("m1"));
    assert o1.cache.Keys == {CacheKey(ListPage(1))};
    ServeWhenUpstreamFails(o1.cache, baseUrl, Item("m1"), now, up2);
  }

  /** The item path is not escaped: an item id `chapter/X` reaches the chapter
      endpoint of `X`, yet the two calls keep separate cache entries. */
  lemma ItemPathCanReachChapterEndpoint(baseUrl: string, chapterId: string)
    ensures UpstreamRequest(baseUrl, Item("chapter/" + chapterId)) == UpstreamRequest(baseUrl, Chapter(chapterId))
    ensures CacheKey(Item("chapter/" + chapterId)) != CacheKey(Chapter(chapterId))
  {
    CacheKeyInjective(Item("chapter/" + chapterId), Chapter(chapterId));
    assert baseUrl + "/api/v1/manga/" + ("chapter/" + chapterId) == baseUrl + "/api/v1/manga/chapter/" + chapterId;
  }
}
