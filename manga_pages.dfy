/**
 * MangaController's mapping of raw upstream JSON to page props: the Home page
 * (`index`) and the genre listing (`genre`). Both only pick fields with `??`
 * defaults; the genre title goes through `ucfirst`.
 */
module MangaPages {
  import opened PhpJson
  import opened Decimal

  /** PHP's `isset($raw[k])` for a non-numeric key: present and not null. */
  predicate Has(raw: Json, k: string) {
    raw.JObj? && k in raw.fields && raw.fields[k] != JNull
  }

  /** The props of the Home page. */
  datatype HomeProps = HomeProps(
    mangaPopuler: Json, manhwaPopuler: Json, manhuaPopuler: Json,
    genres: Json, terbaru: Json)

  /** `$populerRaw[kind]['items'] ?? []`. */
  function PopularItems(raw: Json, kind: string): (r: Json)
    ensures Has(raw, kind) && Has(raw.fields[kind], "items") ==> r == raw.fields[kind].fields["items"]
    ensures !(Has(raw, kind) && Has(raw.fields[kind], "items")) ==> r == Empty
    ensures r != JNull
  {
    Coalesce(Index(Index(raw, kind), "items"), Empty)
  }

  /** `index()`: the three popular lists; genres and newest titles pass through. */
  function Home(populerRaw: Json, genres: Json, terbaru: Json): (p: HomeProps)
    ensures p.mangaPopuler == PopularItems(populerRaw, "manga")
    ensures p.manhwaPopuler == PopularItems(populerRaw, "manhwa")
    ensures p.manhuaPopuler == PopularItems(populerRaw, "manhua")
    ensures p.genres == genres && p.terbaru == terbaru
    ensures p.mangaPopuler != JNull && p.manhwaPopuler != JNull && p.manhuaPopuler != JNull
  {
    HomeProps(
      PopularItems(populerRaw, "manga"),
      PopularItems(populerRaw, "manhwa"),
      PopularItems(populerRaw, "manhua"),
      genres, terbaru)
  }

  /** A response that did not decode (null) leaves all three lists empty. */
  lemma HomeOfFailedDecode(genres: Json, terbaru: Json)
    ensures Home(JNull, genres, terbaru) == HomeProps(Empty, Empty, Empty, genres, terbaru)
  {
  }

  /** PHP's `ucfirst` (PHP 8.2 and later): only an ASCII lower-case first letter changes. */
  function Ucfirst(s: string): (r: string)
    ensures |r| == |s|
    ensures forall i :: 0 < i < |s| ==> r[i] == s[i]
    ensures |s| > 0 && 'a' <= s[0] <= 'z' ==> r[0] as int == s[0] as int - 32 && 'A' <= r[0] <= 'Z'
    ensures |s| == 0 || !('a' <= s[0] <= 'z') ==> r == s
  {
    if |s| > 0 && 'a' <= s[0] <= 'z' then [((s[0] as int) - 32) as char] + s[1..] else s
  }

  lemma UcfirstIdempotent(s: string)
    ensures Ucfirst(Ucfirst(s)) == Ucfirst(s)
  {
  }

  /** A value passed to a `string` parameter outside strict mode: integers print
      in decimal, booleans as "1" or "", and an array raises a TypeError. */
  function PhpString(v: Json): (r: Call<string>)
    ensures r.ThrowsTypeError? <==> IsArray(v)
  {
    match v
    case JStr(s) => Returns(s)
    case JNum(n) => Returns(IntToDecimal(n))
    case JBool(b) => Returns(if b then "1" else "")
    case JNull => Returns("")
    case JArr(_) => ThrowsTypeError
    case JObj(_) => ThrowsTypeError
  }

  /** The props of the genre page. */
  datatype GenreProps = GenreProps(
    title: string, slug: string, items: Json, currentPage: Json,
    totalManga: Json, hasNextPage: Json, nextPageUrl: Json)

  /** `genre($slug)`: the title is `ucfirst($genreRaw['genre'] ?? $slug)`; every
      other field is the response's value when set, else its default. */
  function Genre(raw: Json, slug: string): (r: Call<GenreProps>)
    ensures r.ThrowsTypeError? <==> Has(raw, "genre") && IsArray(raw.fields["genre"])
    ensures r.Returns? ==> r.value.slug == slug
    ensures r.Returns? && !Has(raw, "genre") ==> r.value.title == Ucfirst(slug)
    ensures r.Returns? && Has(raw, "genre") && raw.fields["genre"].JStr? ==>
      r.value.title == Ucfirst(raw.fields["genre"].s)
    ensures r.Returns? && Has(raw, "genre") && raw.fields["genre"].JNum? ==>
      r.value.title == IntToDecimal(raw.fields["genre"].n)
    ensures r.Returns? && Has(raw, "genre") && raw.fields["genre"].JBool? ==>
      r.value.title == (if raw.fields["genre"].b then "1" else "")
    ensures r.Returns? ==> r.value.items == if Has(raw, "data") then raw.fields["data"] else Empty
    ensures r.Returns? ==> r.value.currentPage == if Has(raw, "currentPage") then raw.fields["currentPage"] else JNum(1)
    ensures r.Returns? ==> r.value.totalManga == if Has(raw, "totalManga") then raw.fields["totalManga"] else JNum(0)
    ensures r.Returns? ==> r.value.hasNextPage == if Has(raw, "hasNextPage") then raw.fields["hasNextPage"] else JBool(false)
    ensures r.Returns? ==> r.value.nextPageUrl == if Has(raw, "nextPageUrl") then raw.fields["nextPageUrl"] else JNull
  {
    match PhpString(Coalesce(Index(raw, "genre"), JStr(slug)))
    case ThrowsTypeError => ThrowsTypeError
    case Returns(title) =>
      Returns(GenreProps(
        Ucfirst(title),
        slug,
        Coalesce(Index(raw, "data"), Empty),
        Coalesce(Index(raw, "currentPage"), JNum(1)),
        Coalesce(Index(raw, "totalManga"), JNum(0)),
        Coalesce(Index(raw, "hasNextPage"), JBool(false)),
        Coalesce(Index(raw, "nextPageUrl"), JNull)))
  }

  /** A response that did not decode gives every default, titled after the slug. */
  lemma GenreOfFailedDecode(slug: string)
    ensures Genre(JNull, slug) == Returns(GenreProps(Ucfirst(slug), slug, Empty, JNum(1), JNum(0), JBool(false), JNull))
  {
  }

  /** Falsy but present values (0, false, "") pass through rather than being defaulted. */
  lemma GenreKeepsFalsyValues(slug: string)
    ensures var raw := JObj(map["genre" := JStr(""), "currentPage" := JNum(0), "hasNextPage" := JBool(false)]);
      Genre(raw, slug) == Returns(GenreProps("", slug, Empty, JNum(0), JNum(0), JBool(false), JNull))
  {
  }
}
