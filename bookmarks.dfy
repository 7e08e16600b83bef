/**
 * BookmarkController: a user's bookmarks, keyed by (user id, comic slug).
 * `store` validates and upserts, `destroy` deletes the user's bookmark for a
 * slug or reports that there is none, `index` lists the user's bookmarks.
 */
module Bookmarks {
  import opened Wrappers
  import opened PhpJson
  import opened Validation
  import opened Tables

  /** A bookmark row. Slug, title and thumbnail are the request's values as sent. */
  datatype Bookmark = Bookmark(userId: int, slug: Json, title: Json, thumbnail: Json)

  /** The compound key `(user_id, comic_api_slug)`. */
  datatype BookmarkKey = BookmarkKey(userId: int, slug: Json)

  function KeyOf(b: Bookmark): BookmarkKey {
    BookmarkKey(b.userId, b.slug)
  }

  /** The values `updateOrCreate` writes into the row. */
  function Refill(title: Json, thumbnail: Json): Bookmark -> Bookmark {
    (b: Bookmark) => b.(title := title, thumbnail := thumbnail)
  }

  /** The three fields are `required`. */
  predicate StoreAccepts(req: Input) {
    && Required(Field(req, "comic_api_slug"))
    && Required(Field(req, "comic_api_title"))
    && Required(Field(req, "comic_api_thumbnail"))
  }

  /** The table after `store` by user `user`. */
  function Stored(rows: seq<Bookmark>, user: int, req: Input): seq<Bookmark> {
    if !StoreAccepts(req) then rows
    else
      var slug := Field(req, "comic_api_slug");
      UpdateOrCreate(rows, KeyOf, BookmarkKey(user, slug),
                     Refill(Field(req, "comic_api_title"), Field(req, "comic_api_thumbnail")),
                     Bookmark(user, slug, JNull, JNull))
  }

  /** A `store` that fails validation leaves the table unchanged. */
  lemma StoreRejectsIncomplete(rows: seq<Bookmark>, user: int, req: Input)
    requires !Required(Field(req, "comic_api_slug")) || !Required(Field(req, "comic_api_title"))
          || !Required(Field(req, "comic_api_thumbnail"))
    ensures Stored(rows, user, req) == rows
  {
  }

  /** After an accepted `store`, exactly one bookmark has the user and slug, and it
      carries the request's title and thumbnail; the table grows by at most one
      row; bookmarks with another key are unchanged; keys stay unique. */
  lemma StoreSpec(rows: seq<Bookmark>, user: int, req: Input)
    requires UniqueKeys(rows, KeyOf)
    requires StoreAccepts(req)
    ensures var res := Stored(rows, user, req);
      var k := BookmarkKey(user, Field(req, "comic_api_slug"));
      && UniqueKeys(res, KeyOf)
      && (exists i :: 0 <= i < |res| && res[i] == Bookmark(user, k.slug, Field(req, "comic_api_title"), Field(req, "comic_api_thumbnail")))
      && (forall i, j :: 0 <= i < |res| && 0 <= j < |res| && KeyOf(res[i]) == k && KeyOf(res[j]) == k ==> i == j)
      && |res| == |rows| + (if exists i :: 0 <= i < |rows| && KeyOf(rows[i]) == k then 0 else 1)
      && (forall i :: 0 <= i < |rows| && KeyOf(rows[i]) != k ==> res[i] == rows[i])
  {
    var slug := Field(req, "comic_api_slug");
    var k := BookmarkKey(user, slug);
    var fill := Refill(Field(req, "comic_api_title"), Field(req, "comic_api_thumbnail"));
    var blank := Bookmark(user, slug, JNull, JNull);
    UpdateOrCreateSpec(rows, KeyOf, k, fill, blank);
  }

  /** Repeating the same `store` changes nothing more. */
  lemma StoreIdempotent(rows: seq<Bookmark>, user: int, req: Input)
    ensures Stored(Stored(rows, user, req), user, req) == Stored(rows, user, req)
  {
    if StoreAccepts(req) {
      var slug := Field(req, "comic_api_slug");
      UpdateOrCreateIdempotent(rows, KeyOf, BookmarkKey(user, slug),
        Refill(Field(req, "comic_api_title"), Field(req, "comic_api_thumbnail")),
        Bookmark(user, slug, JNull, JNull));
    }
  }

  /** The row `destroy` looks for: this user's bookmark with this slug. */
  function Owned(user: int, slug: string): Bookmark -> bool {
    (b: Bookmark) => b.userId == user && b.slug == JStr(slug)
  }

  /** The table after `destroy` of `slug` by `user`, and whether a bookmark was found. */
  function Destroyed(rows: seq<Bookmark>, user: int, slug: string): (seq<Bookmark>, bool) {
    match FirstWhere(rows, Owned(user, slug))
    case Some(i) => (RemoveAt(rows, i), true)
    case None => (rows, false)
  }

  /** The response of `destroy`: JSON when the request wants it, else a redirect with a flash. */
  datatype Reply = JsonReply(status: int, message: string) | RedirectBack(flash: string, message: string)

  function DestroyReply(found: bool, wantsJson: bool): Reply {
    if found then
      if wantsJson then JsonReply(200, "Bookmark removed successfully")
      else RedirectBack("message", "Bookmark removed successfully")
    else
      if wantsJson then JsonReply(404, "Bookmark not found")
      else RedirectBack("error", "Bookmark not found")
  }

  /** `destroy` finds a bookmark exactly when the user has one for the slug; it then
      removes that one row, after which (keys being unique) none is left for the
      slug, and every other row stays; otherwise the table is unchanged. No other
      user's bookmark is ever removed. */
  lemma DestroySpec(rows: seq<Bookmark>, user: int, slug: string)
    requires UniqueKeys(rows, KeyOf)
    ensures var (res, found) := Destroyed(rows, user, slug);
      && (found <==> exists b :: b in rows && b.userId == user && b.slug == JStr(slug))
      && (found ==> |res| == |rows| - 1 && forall b :: b in res ==> !(b.userId == user && b.slug == JStr(slug)))
      && (found ==> exists i :: 0 <= i < |rows| && rows[i].userId == user && rows[i].slug == JStr(slug)
                       && multiset(res) == multiset(rows) - multiset{rows[i]})
      && (!found ==> res == rows)
      && (forall b :: b in rows && b.userId != user ==> b in res)
      && UniqueKeys(res, KeyOf)
  {
    match FirstWhere(rows, Owned(user, slug))
    case None =>
    case Some(i) =>
      var res := RemoveAt(rows, i);
      RemoveAtSpec(rows, i);
      forall b | b in res
        ensures !(b.userId == user && b.slug == JStr(slug))
      {
        var j :| 0 <= j < |res| && res[j] == b;
        var jj := if j < i then j else j + 1;
        assert rows[jj] == b && jj != i;
        if jj < i {
          assert KeyOf(rows[jj]) != KeyOf(rows[i]);
        } else {
          assert KeyOf(rows[i]) != KeyOf(rows[jj]);
        }
      }
      forall b | b in rows && b.userId != user
        ensures b in res
      {
        assert b != rows[i];
        assert multiset(res)[b] == multiset(rows)[b];
      }
  }

  /** The bookmarks table and the controller's actions on it. */
  class BookmarkController {
    var bookmarks: seq<Bookmark>

    /** At most one bookmark per user and slug: only `store` adds rows. */
    ghost predicate Valid()
      reads this
    {
      UniqueKeys(bookmarks, KeyOf)
    }

    constructor ()
      ensures Valid() && bookmarks == []
    {
      bookmarks := [];
    }

    /** `index()`: exactly the current user's bookmarks, in storage order. */
    function Index(user: int): (r: seq<Bookmark>)
      reads this
      ensures forall b :: b in r <==> b in bookmarks && b.userId == user
      ensures forall b :: multiset(r)[b] == if b.userId == user then multiset(bookmarks)[b] else 0
    {
      Where(bookmarks, (b: Bookmark) => b.userId == user)
    }

    /** `store(Request $request)`: validation, then `updateOrCreate`. */
    method Store(user: int, req: Input) returns (accepted: bool)
      requires Valid()
      modifies this
      ensures Valid()
      ensures accepted == StoreAccepts(req)
      ensures bookmarks == Stored(old(bookmarks), user, req)
    {
      accepted := StoreAccepts(req);
      if !accepted {
        return;
      }
      StoreSpec(bookmarks, user, req);
      var slug := Field(req, "comic_api_slug");
      var title, thumbnail := Field(req, "comic_api_title"), Field(req, "comic_api_thumbnail");
      var found := FirstWhere(bookmarks, (b: Bookmark) => KeyOf(b) == BookmarkKey(user, slug));
      if found.Some? {
        var i := found.value;
        bookmarks := bookmarks[i := bookmarks[i].(title := title, thumbnail := thumbnail)];
      } else {
        bookmarks := bookmarks + [Bookmark(user, slug, title, thumbnail)];
      }
    }

    /** `destroy($comic_api_slug)` for the current user. */
    method Destroy(user: int, slug: string, wantsJson: bool) returns (reply: Reply)
      requires Valid()
      modifies this
      ensures Valid()
      ensures var (res, found) := Destroyed(old(bookmarks), user, slug);
        bookmarks == res && reply == DestroyReply(found, wantsJson)
    {
      DestroySpec(bookmarks, user, slug);
      var found := FirstWhere(bookmarks, Owned(user, slug));
      if found.Some? {
        bookmarks := RemoveAt(bookmarks, found.value);
      }
      reply := DestroyReply(found.Some?, wantsJson);
    }
  }
}
