/**
 * The remote fetch, normalise and cache layer (RemoteMangaService): `list`,
 * `get` and `getChapter` each build a cache key, run Laravel's
 * `Cache::remember`, and on a miss call the upstream API with at most two
 * attempts, normalise the decoded body, and fall back to `[]` (logged once)
 * when the HTTP layer throws. The fallback is computed inside the remember
 * closure, so it is cached like any other value.
 */
module RemoteManga {
  import opened Wrappers
  import opened PhpJson
  import opened Decimal

  /** One call of the service: `list($page)`, `get($mangaId)`, `getChapter($chapterId)`. */
  datatype Query =
    | ListPage(page: int)
    | Item(mangaId: string)
    | Chapter(chapterId: string)

  const ListPrefix: string := "remote_manga_list_"
  const ItemPrefix: string := "remote_manga_item_"
  const ChapterPrefix: string := "remote_manga_chapter_"

  /** The cache key: a fixed prefix per kind followed by the argument as text. */
  function CacheKey(q: Query): string {
    match q
    case ListPage(page) => ListPrefix + IntToDecimal(page)
    case Item(id) => ItemPrefix + id
    case Chapter(id) => ChapterPrefix + id
  }

  /** Seconds until the entry expires: 60 for a list page, 5 minutes for an
      item, 10 minutes for a chapter. */
  function Ttl(q: Query): nat {
    match q
    case ListPage(_) => 60
    case Item(_) => 300
    case Chapter(_) => 600
  }

  /** An outbound GET: the URL and its query parameters. */
  datatype Request = Request(url: string, query: seq<(string, string)>)

  /** The upstream endpoint of each kind under the configured base URL. */
  function UpstreamRequest(baseUrl: string, q: Query): Request {
    match q
    case ListPage(page) => Request(baseUrl + "/api/v1/manga", [("page", IntToDecimal(page))])
    case Item(id) => Request(baseUrl + "/api/v1/manga/" + id, [])
    case Chapter(id) => Request(baseUrl + "/api/v1/manga/chapter/" + id, [])
  }

  /** What one attempt brings back: a transport failure (connection error or the
      10-second timeout) or a response with a status and its decoded body. */
  datatype Attempt = ConnectionFailed | Responded(status: int, body: Json)

  /** The upstream API: the reply to the given attempt (0, 1, ...) of a request. */
  type Upstream = (Request, nat) -> Attempt

  /** `Http::retry(2, 100)`: at most two attempts per request. */
  const MaxAttempts: nat := 2

  /** An attempt succeeds with a 2xx response; anything else makes the HTTP
      layer retry and, on the last attempt, throw. */
  predicate Successful(a: Attempt) {
    a.Responded? && 200 <= a.status < 300
  }

  /** The first successful attempt numbered `from` or later, if any. */
  function FirstSuccess(req: Request, upstream: Upstream, from: nat): (r: Option<nat>)
    requires from <= MaxAttempts
    ensures r.Some? ==> from <= r.value < MaxAttempts && Successful(upstream(req, r.value))
    ensures r.Some? ==> forall j :: from <= j < r.value ==> !Successful(upstream(req, j))
    ensures r.None? <==> forall j :: from <= j < MaxAttempts ==> !Successful(upstream(req, j))
    decreases MaxAttempts - from
  {
    if from == MaxAttempts then None
    else if Successful(upstream(req, from)) then Some(from)
    else FirstSuccess(req, upstream, from + 1)
  }

  /** The outcome of the HTTP layer: a decoded body, or an exception. */
  datatype Fetched = Body(json: Json) | FetchFailed

  function FetchOutcome(req: Request, upstream: Upstream): Fetched {
    match FirstSuccess(req, upstream, 0)
    case Some(i) => Body(upstream(req, i).body)
    case None => FetchFailed
  }

  function AttemptCount(req: Request, upstream: Upstream): nat {
    match FirstSuccess(req, upstream, 0)
    case Some(i) => i + 1
    case None => MaxAttempts
  }

  /** The retried GET: attempts in order until one succeeds or the budget is spent.
      It reports the outcome and how many attempts it made. */
  method Fetch(req: Request, upstream: Upstream) returns (r: Fetched, attempts: nat)
    ensures r == FetchOutcome(req, upstream) && attempts == AttemptCount(req, upstream)
    ensures 1 <= attempts <= MaxAttempts
    ensures r.FetchFailed? <==> forall j :: 0 <= j < MaxAttempts ==> !Successful(upstream(req, j))
  {
    r, attempts := FetchFailed, 0;
    while attempts < MaxAttempts
      invariant 0 <= attempts <= MaxAttempts
      invariant forall j :: 0 <= j < attempts ==> !Successful(upstream(req, j))
    {
      var a := upstream(req, attempts);
      attempts := attempts + 1;
      if Successful(a) {
        r := Body(a.body);
        return;
      }
    }
  }

  /** `$json['data'] ?? $json ?? []`: the `data` field when it is present and
      not null, otherwise the whole body when that is not null, otherwise `[]`. */
  function Normalize(body: Json): (r: Json)
    ensures body.JObj? && "data" in body.fields && body.fields["data"] != JNull ==> r == body.fields["data"]
    ensures !(body.JObj? && "data" in body.fields && body.fields["data"] != JNull) && body != JNull ==> r == body
    ensures body == JNull ==> r == Empty
    ensures r != JNull
  {
    Coalesce(Index(body, "data"), Coalesce(body, Empty))
  }

  /** The value the remember closure returns: the normalised body, or `[]` after
      the exception has been caught and logged. */
  function ClosureValue(f: Fetched): Json {
    match f
    case Body(json) => Normalize(json)
    case FetchFailed => Empty
  }

  /** A cached value and the instant it stops being valid. */
  datatype Entry = Entry(value: Json, expiresAt: int)

  type Cache = map<string, Entry>

  /** No entry holds null; the closure never returns null, so this always holds. */
  predicate CacheValid(c: Cache) {
    forall k :: k in c ==> c[k].value != JNull
  }

  /** `Cache::get`: the stored value while `now` is before its expiry, else null. */
  function CacheGet(c: Cache, key: string, now: int): Json {
    if key in c && now < c[key].expiresAt then c[key].value else JNull
  }

  /** An entry exists for the key and has not expired. */
  predicate Hit(c: Cache, key: string, now: int) {
    key in c && now < c[key].expiresAt
  }

  /** An error log record: the message and the identifier it carries, if any. */
  datatype LogEntry = LogEntry(message: string, id: Option<string>)

  function FailureLog(q: Query): LogEntry {
    match q
    case ListPage(_) => LogEntry("RemoteMangaService::list failed", None)
    case Item(id) => LogEntry("RemoteMangaService::get failed", Some(id))
    case Chapter(id) => LogEntry("RemoteMangaService::getChapter failed", Some(id))
  }

  /** The declared `: array` return type: a non-array value raises a TypeError
      that the closure's `catch` does not see. */
  function AsArrayReturn(v: Json): (r: Call<Json>) {
    if IsArray(v) then Returns(v) else ThrowsTypeError
  }

  /** Everything one call does: the new cache, what the caller gets, the log
      records emitted and the number of upstream attempts. */
  datatype Outcome = Outcome(cache: Cache, result: Call<Json>, logged: seq<LogEntry>, attempts: nat)

  /** One call of `list`, `get` or `getChapter` at clock `now`:
      `Cache::remember` around the fetch, normalise and fall-back closure. */
  function Serve(c: Cache, baseUrl: string, q: Query, now: int, upstream: Upstream): Outcome {
    var key := CacheKey(q);
    var cached := CacheGet(c, key, now);
    if cached != JNull then
      Outcome(c, AsArrayReturn(cached), [], 0)
    else
      var req := UpstreamRequest(baseUrl, q);
      var fetched := FetchOutcome(req, upstream);
      var value := ClosureValue(fetched);
      Outcome(c[key := Entry(value, now + Ttl(q))], AsArrayReturn(value),
              if fetched.FetchFailed? then [FailureLog(q)] else [],
              AttemptCount(req, upstream))
  }

  /** The service with the cache it shares and the log it writes. */
  class RemoteMangaService {
    const baseUrl: string
    var cache: Cache
    var log: seq<LogEntry>
    /** Every upstream attempt made so far, in order. */
    ghost var sent: seq<Request>

    ghost predicate Valid()
      reads this
    {
      CacheValid(cache)
    }

    constructor (baseUrl: string)
      ensures Valid()
      ensures this.baseUrl == baseUrl && cache == map[] && log == [] && sent == []
    {
      this.baseUrl := baseUrl;
      cache, log := map[], [];
      sent := [];
    }

    /** `Cache::remember($key, now + ttl, closure)` for the query. */
    method Remember(q: Query, now: int, upstream: Upstream) returns (r: Call<Json>)
      requires Valid()
      modifies this
      ensures Valid()
      ensures var o := Serve(old(cache), baseUrl, q, now, upstream);
        && cache == o.cache && r == o.result && log == old(log) + o.logged
        && sent == old(sent) + seq(o.attempts, _ => UpstreamRequest(baseUrl, q))
    {
      var key := CacheKey(q);
      var cached := CacheGet(cache, key, now);
      if cached != JNull {
        r := AsArrayReturn(cached);
        return;
      }
      var req := UpstreamRequest(baseUrl, q);
      var fetched, attempts := Fetch(req, upstream);
      sent := sent + seq(attempts, _ => req);
      var value: Json;
      if fetched.Body? {
        value := Normalize(fetched.json);
      } else {
        log := log + [FailureLog(q)];
        value := Empty;
      }
      cache := cache[key := Entry(value, now + Ttl(q))];
      r := AsArrayReturn(value);
    }

    /** `list(int $page = 1)`. */
    method List(page: int, now: int, upstream: Upstream) returns (r: Call<Json>)
      requires Valid()
      modifies this
      ensures Valid()
      ensures var o := Serve(old(cache), baseUrl, ListPage(page), now, upstream);
        && cache == o.cache && r == o.result && log == old(log) + o.logged
        && sent == old(sent) + seq(o.attempts, _ => UpstreamRequest(baseUrl, ListPage(page)))
    {
      r := Remember(ListPage(page), now, upstream);
    }

    /** `get(string $mangaId)`. */
    method Get(mangaId: string, now: int, upstream: Upstream) returns (r: Call<Json>)
      requires Valid()
      modifies this
      ensures Valid()
      ensures var o := Serve(old(cache), baseUrl, Item(mangaId), now, upstream);
        && cache == o.cache && r == o.result && log == old(log) + o.logged
        && sent == old(sent) + seq(o.attempts, _ => UpstreamRequest(baseUrl, Item(mangaId)))
    {
      r := Remember(Item(mangaId), now, upstream);
    }

    /** `getChapter(string $chapterId)`. */
    method GetChapter(chapterId: string, now: int, upstream: Upstream) returns (r: Call<Json>)
      requires Valid()
      modifies this
      ensures Valid()
      ensures var o := Serve(old(cache), baseUrl, Chapter(chapterId), now, upstream);
        && cache == o.cache && r == o.result && log == old(log) + o.logged
        && sent == old(sent) + seq(o.attempts, _ => UpstreamRequest(baseUrl, Chapter(chapterId)))
    {
      r := Remember(Chapter(chapterId), now, upstream);
    }
  }
}
