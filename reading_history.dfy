/**
 * ReadingHistoryController: one history entry per (user id, comic slug).
 * `store` validates the types and upserts with the current clock as
 * `last_read_at`; `index` lists the user's entries, most recently read first.
 */
module ReadingHistories {
  import opened Wrappers
  import opened PhpJson
  import opened Validation
  import opened Tables

  /** A history row, with the controller's field names (`comic_api_slug`, ...). */
  datatype History = History(
    userId: int, comicSlug: string, title: string, chapterSlug: string,
    lastPageNumber: int, lastReadAt: int)

  /** The compound key `(user_id, comic_api_slug)`. */
  datatype HistoryKey = HistoryKey(userId: int, comicSlug: string)

  function KeyOf(h: History): HistoryKey {
    HistoryKey(h.userId, h.comicSlug)
  }

  /** `required|string` on the three names, `required|integer` on the page. */
  predicate StoreAccepts(req: Input) {
    && RequiredString(Field(req, "comic_api_title"))
    && RequiredString(Field(req, "comic_api_slug"))
    && RequiredString(Field(req, "chapter_api_slug"))
    && RequiredInteger(Field(req, "last_page_number"))
  }

  /** The values `updateOrCreate` writes: title, chapter, page and `now()`. */
  function Refill(title: string, chapterSlug: string, page: int, now: int): History -> History {
    (h: History) => h.(title := title, chapterSlug := chapterSlug, lastPageNumber := page, lastReadAt := now)
  }

  /** The entry an accepted request describes. */
  function Requested(user: int, req: Input, now: int): History
    requires StoreAccepts(req)
  {
    History(user, Field(req, "comic_api_slug").s, Field(req, "comic_api_title").s,
            Field(req, "chapter_api_slug").s, FilterInt(Field(req, "last_page_number")).value, now)
  }

  /** The table after `store` by `user` at clock `now`. */
  function Recorded(rows: seq<History>, user: int, req: Input, now: int): seq<History> {
    if !StoreAccepts(req) then rows
    else
      var h := Requested(user, req, now);
      UpdateOrCreate(rows, KeyOf, KeyOf(h), Refill(h.title, h.chapterSlug, h.lastPageNumber, now),
                     History(user, h.comicSlug, "", "", 0, now))
  }

  /** A request that fails validation changes nothing. */
  lemma StoreRejectsInvalid(rows: seq<History>, user: int, req: Input, now: int)
    requires !StoreAccepts(req)
    ensures Recorded(rows, user, req, now) == rows
  {
  }

  /** A page number that is not an integer is refused, whatever else is sent. */
  lemma StoreRejectsFractionalPage(rows: seq<History>, user: int, req: Input, now: int)
    requires Field(req, "last_page_number") == JStr("1.5")
    ensures Recorded(rows, user, req, now) == rows
  {
    FilterIntRefusals();
  }

  /** After an accepted `store` there is exactly one entry for the user and comic,
      holding the request's title, chapter and page read at `now`; entries with
      another key are unchanged; the table grows by at most one. */
  lemma StoreSpec(rows: seq<History>, user: int, req: Input, now: int)
    requires UniqueKeys(rows, KeyOf)
    requires StoreAccepts(req)
    ensures var res := Recorded(rows, user, req, now);
      var h := Requested(user, req, now);
      && UniqueKeys(res, KeyOf)
      && (exists i :: 0 <= i < |res| && res[i] == h)
      && (forall i, j :: 0 <= i < |res| && 0 <= j < |res| && KeyOf(res[i]) == KeyOf(h) && KeyOf(res[j]) == KeyOf(h) ==> i == j)
      && |res| == |rows| + (if exists i :: 0 <= i < |rows| && KeyOf(rows[i]) == KeyOf(h) then 0 else 1)
      && (forall i :: 0 <= i < |rows| && KeyOf(rows[i]) != KeyOf(h) ==> res[i] == rows[i])
  {
    var h := Requested(user, req, now);
    UpdateOrCreateSpec(rows, KeyOf, KeyOf(h), Refill(h.title, h.chapterSlug, h.lastPageNumber, now),
                       History(user, h.comicSlug, "", "", 0, now));
  }

  /** Entries ordered by non-increasing `last_read_at`. */
  predicate NewestFirst(s: seq<History>) {
    forall i, j :: 0 <= i < j < |s| ==> s[i].lastReadAt >= s[j].lastReadAt
  }

  function Insert(h: History, s: seq<History>): (r: seq<History>)
    requires NewestFirst(s)
    ensures NewestFirst(r)
    ensures multiset(r) == multiset(s) + multiset{h}
    ensures |r| > 0 && (r[0] == h || (|s| > 0 && r[0] == s[0]))
  {
    if |s| == 0 || h.lastReadAt >= s[0].lastReadAt then
      [h] + s
    else
      assert s == [s[0]] + s[1..];
      [s[0]] + Insert(h, s[1..])
  }

  /** `orderBy('last_read_at', 'desc')`: a newest-first permutation. */
  function SortNewestFirst(s: seq<History>): (r: seq<History>)
    ensures NewestFirst(r)
    ensures multiset(r) == multiset(s)
  {
    if |s| == 0 then []
    else
      assert s == [s[0]] + s[1..];
      Insert(s[0], SortNewestFirst(s[1..]))
  }

  /** `index()` over the whole table: the user's entries, newest first. */
  function Listed(rows: seq<History>, user: int): (r: seq<History>)
    ensures NewestFirst(r)
    ensures forall h :: multiset(r)[h] == if h.userId == user then multiset(rows)[h] else 0
  {
    SortNewestFirst(Where(rows, (h: History) => h.userId == user))
  }

  /** The reading history table and the controller's actions on it. */
  class ReadingHistoryController {
    var histories: seq<History>

    /** At most one entry per user and comic: only `store` adds rows. */
    ghost predicate Valid()
      reads this
    {
      UniqueKeys(histories, KeyOf)
    }

    constructor ()
      ensures Valid() && histories == []
    {
      histories := [];
    }

    /** `index()`: the current user's entries, most recently read first. */
    function Index(user: int): (r: seq<History>)
      reads this
      ensures NewestFirst(r)
      ensures forall h :: h in r <==> h in histories && h.userId == user
      ensures forall h :: multiset(r)[h] == if h.userId == user then multiset(histories)[h] else 0
    {
      Listed(histories, user)
    }

    /** `store(Request $request)` at clock `now`. */
    method Store(user: int, req: Input, now: int) returns (accepted: bool)
      requires Valid()
      modifies this
      ensures Valid()
      ensures accepted == StoreAccepts(req)
      ensures histories == Recorded(old(histories), user, req, now)
    {
      accepted := StoreAccepts(req);
      if !accepted {
        return;
      }
      StoreSpec(histories, user, req, now);
      var h := Requested(user, req, now);
      var found := FirstWhere(histories, (e: History) => KeyOf(e) == KeyOf(h));
      if found.Some? {
        var i := found.value;
        histories := histories[i := histories[i].(title := h.title, chapterSlug := h.chapterSlug,
                                                  lastPageNumber := h.lastPageNumber, lastReadAt := now)];
      } else {
        histories := histories + [h];
      }
    }
  }
}
