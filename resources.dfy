/** The fifteen resource methods of the client. Each one picks a fixed API
    path and a query string by argument priority, and `_build_url` hands
    `baseURL + path + query` to the fetcher. A builder is a function of the
    client's `baseURL` and its own arguments; what it yields is the request
    the fetcher would receive, the absence of a request (the method returns
    nothing without calling the fetcher; some such branches print a
    complaint, others do not), or a Python exception.

    Every builder formats its query the way the source does, by string
    concatenation; its contract states the same query as a list of
    parameters written by `Query.Encode`, and the lemmas at the end say what
    the idealized reader `Query.Decode` finds in that query. */
module Resources {
  import opened Wrappers
  import opened Strings
  import opened Decimal
  import opened Query

  /** What a resource method does: call the fetcher with `url`, return
      nothing without a request, or raise. */
  datatype Request = Fetch(url: string) | NoFetch | Raises

  const PostsPath := "/post/index.json?"
  const TagsPath := "/tag/index.json?"
  const ArtistsPath := "/artist/index.json?"
  const CommentsPath := "/comment/show.json?"
  const WikiPath := "/wiki/index.json?"
  const WikiHistoryPath := "/wiki/history.json?"
  const NotesPath := "/note/index.json?"
  const SearchNotesPath := "/note/search.json?"
  const HistoryNotesPath := "/note/history.json?"
  const UsersPath := "/user/index.json?"
  const ForumPath := "/forum/index.json?"
  const PoolsPath := "/pool/index.json?"
  const PoolsPostsPath := "/pool/show.json?"
  const FavoritesPath := "/favorite/list_users.json?"
  const TagHistoryPath := "/post_tag_history/index.json?"

  /** `_build_url(api_url, params)`: the fetcher receives the base URL, the
      path and the parameters, in that order, with nothing escaped, added
      or dropped. */
  function BuildUrl(base: string, api: string, params: Option<string> := None): (r: Request)
    ensures r.Fetch? && base + api <= r.url
    ensures params.None? ==> r.url == base + api
    ensures params.Some? ==>
      |r.url| == |base| + |api| + |params.value| && r.url[|base| + |api|..] == params.value
  {
    if params.Some? then Fetch(base + api + params.value) else Fetch(base + api)
  }

  function LimitPage(limit: int, page: int): seq<Param>
  {
    [Pair("limit", IntToDecimal(limit)), Pair("page", IntToDecimal(page))]
  }

  lemma LimitPageText(limit: int, page: int)
    ensures Encode(LimitPage(limit, page))
      == "limit=" + IntToDecimal(limit) + "&page=" + IntToDecimal(page)
  {
    FirstPairText("limit", IntToDecimal(limit), "limit=");
    AppendPairText([Pair("limit", IntToDecimal(limit))], "page", IntToDecimal(page), "&page=");
    assert [Pair("limit", IntToDecimal(limit))] + [Pair("page", IntToDecimal(page))]
      == LimitPage(limit, page);
  }

  function PostsQuery(tags: Option<string>, limit: int, page: int): seq<Param>
  {
    LimitPage(limit, page) + (if tags.Some? then [Pair("tags", tags.value)] else [])
  }

  /** `posts`: `limit` and `page` always, then `tags` when given. */
  function Posts(base: string, tags: Option<string> := None, limit: int := 10, page: int := 1)
    : (r: Request)
    ensures r == Fetch(base + PostsPath + Encode(PostsQuery(tags, limit, page)))
  {
    var params := "limit=" + IntToDecimal(limit) + "&page=" + IntToDecimal(page);
    LimitPageText(limit, page);
    if tags.Some? then
      AppendPairText(LimitPage(limit, page), "tags", tags.value, "&tags=");
      BuildUrl(base, PostsPath, Some(params + "&tags=" + tags.value))
    else
      BuildUrl(base, PostsPath, Some(params))
  }

  function TagsQuery(name: Option<string>, id_: Option<int>, limit: int, page: int,
                     order: string, after_id: int): seq<Param>
  {
    if id_.Some? then [Pair("id", IntToDecimal(id_.value))]
    else if name.Some? then [Pair("name", name.value)]
    else [Pair("limit", IntToDecimal(limit)), Pair("page", IntToDecimal(page)), Pair("order", order),
          Pair("after_id", IntToDecimal(after_id))]
  }

  lemma TagsListingText(limit: int, page: int, order: string, after_id: int)
    ensures Encode(TagsQuery(None, None, limit, page, order, after_id))
      == "limit=" + IntToDecimal(limit) + "&page=" + IntToDecimal(page)
         + "&order=" + order + "&after_id=" + IntToDecimal(after_id)
  {
    var ps := LimitPage(limit, page);
    var qs := ps + [Pair("order", order)];
    var a := IntToDecimal(after_id);
    assert Encode(qs) == "limit=" + IntToDecimal(limit) + "&page=" + IntToDecimal(page)
                         + "&order=" + order by {
      LimitPageText(limit, page);
      AppendPairText(ps, "order", order, "&order=");
    }
    assert Encode(qs + [Pair("after_id", a)]) == Encode(qs) + "&after_id=" + a by {
      AppendPairText(qs, "after_id", a, "&after_id=");
    }
    assert qs + [Pair("after_id", a)] == TagsQuery(None, None, limit, page, order, after_id);
  }

  /** `tags`: an id wins over a name, and a name over the listing
      parameters. */
  function Tags(base: string, name: Option<string> := None, id_: Option<int> := None,
                limit: int := 100, page: int := 1, order: string := "name",
                after_id: int := 0): (r: Request)
    ensures r == Fetch(base + TagsPath + Encode(TagsQuery(name, id_, limit, page, order, after_id)))
  {
    if id_.Some? then
      FirstPairText("id", IntToDecimal(id_.value), "id=");
      BuildUrl(base, TagsPath, Some("id=" + IntToDecimal(id_.value)))
    else if name.Some? then
      FirstPairText("name", name.value, "name=");
      BuildUrl(base, TagsPath, Some("name=" + name.value))
    else
      TagsListingText(limit, page, order, after_id);
      BuildUrl(base, TagsPath, Some("limit=" + IntToDecimal(limit)
                                    + "&page=" + IntToDecimal(page) + "&order="
                                    + order + "&after_id=" + IntToDecimal(after_id)))
  }

  /** The listing parameters of `artists`: the page number is written
      right after the word `page`, without `=`. */
  function ArtistsListing(limit: int, order: string, page: int): seq<Param>
  {
    [Pair("limit", IntToDecimal(limit)), Bare("page" + IntToDecimal(page)), Pair("order", order)]
  }

  lemma ArtistsListingText(limit: int, order: string, page: int)
    ensures Encode(ArtistsListing(limit, order, page))
      == "limit=" + IntToDecimal(limit) + "&page" + IntToDecimal(page) + "&order=" + order
  {
    var ps := [Pair("limit", IntToDecimal(limit))];
    FirstPairText("limit", IntToDecimal(limit), "limit=");
    AppendBareText(ps, "page", IntToDecimal(page), "&page");
    var qs := ps + [Bare("page" + IntToDecimal(page))];
    AppendPairText(qs, "order", order, "&order=");
    assert qs + [Pair("order", order)] == ArtistsListing(limit, order, page);
  }

  function ArtistsQuery(name: Option<string>, id_: Option<int>, limit: int, order: string,
                        page: int): seq<Param>
  {
    if name.Some? then ArtistsListing(limit, order, page) + [Pair("name", name.value)]
    else if id_.Some? then [Pair("id", IntToDecimal(id_.value))]
    else ArtistsListing(limit, order, page)
  }

  /** `artists`: a name extends the listing parameters, otherwise an id
      replaces them. */
  function Artists(base: string, name: Option<string> := None, id_: Option<int> := None,
                   limit: int := 20, order: string := "name", page: int := 1): (r: Request)
    ensures r == Fetch(base + ArtistsPath + Encode(ArtistsQuery(name, id_, limit, order, page)))
  {
    var params := "limit=" + IntToDecimal(limit) + "&page" + IntToDecimal(page) + "&order=" + order;
    ArtistsListingText(limit, order, page);
    if name.Some? then
      AppendPairText(ArtistsListing(limit, order, page), "name", name.value, "&name=");
      BuildUrl(base, ArtistsPath, Some(params + "&name=" + name.value))
    else if id_.Some? then
      FirstPairText("id", IntToDecimal(id_.value), "id=");
      BuildUrl(base, ArtistsPath, Some("id=" + IntToDecimal(id_.value)))
    else
      BuildUrl(base, ArtistsPath, Some(params))
  }

  /** `comments`: an id is required. */
  function Comments(base: string, id_: Option<int> := None): (r: Request)
    ensures id_.None? <==> r == NoFetch
    ensures id_.Some? ==>
      r == Fetch(base + CommentsPath + Encode([Pair("id", IntToDecimal(id_.value))]))
  {
    if id_.Some? then BuildUrl(base, CommentsPath, Some("id=" + IntToDecimal(id_.value))) else NoFetch
  }

  function WikiListing(order: string, limit: int, page: int): seq<Param>
  {
    [Pair("order", order), Pair("limit", IntToDecimal(limit)), Pair("page", IntToDecimal(page))]
  }

  lemma WikiListingText(order: string, limit: int, page: int)
    ensures Encode(WikiListing(order, limit, page))
      == "order=" + order + "&limit=" + IntToDecimal(limit) + "&page=" + IntToDecimal(page)
  {
    var ps := [Pair("order", order)];
    FirstPairText("order", order, "order=");
    AppendPairText(ps, "limit", IntToDecimal(limit), "&limit=");
    var qs := ps + [Pair("limit", IntToDecimal(limit))];
    AppendPairText(qs, "page", IntToDecimal(page), "&page=");
    assert qs + [Pair("page", IntToDecimal(page))] == WikiListing(order, limit, page);
  }

  function WikiQuery(query: Option<string>, order: string, limit: int, page: int): seq<Param>
  {
    WikiListing(order, limit, page) + (if query.Some? then [Pair("query", query.value)] else [])
  }

  /** `wiki`: `order`, `limit` and `page` always, then `query` when
      given. */
  function Wiki(base: string, query: Option<string> := None, order: string := "title",
                limit: int := 20, page: int := 1): (r: Request)
    ensures r == Fetch(base + WikiPath + Encode(WikiQuery(query, order, limit, page)))
  {
    var params := "order=" + order + "&limit=" + IntToDecimal(limit) + "&page=" + IntToDecimal(page);
    WikiListingText(order, limit, page);
    if query.Some? then
      AppendPairText(WikiListing(order, limit, page), "query", query.value, "&query=");
      BuildUrl(base, WikiPath, Some(params + "&query=" + query.value))
    else
      assert WikiQuery(query, order, limit, page) == WikiListing(order, limit, page);
      BuildUrl(base, WikiPath, Some(params))
  }

  /** `wiki_history`: a title is required. */
  function WikiHistory(base: string, title: Option<string> := None): (r: Request)
    ensures title.None? <==> r == NoFetch
    ensures title.Some? ==> r == Fetch(base + WikiHistoryPath + Encode([Pair("title", title.value)]))
  {
    if title.Some? then BuildUrl(base, WikiHistoryPath, Some("title=" + title.value)) else NoFetch
  }

  /** `notes`: the notes of one post, or the bare path. */
  function Notes(base: string, id_: Option<int> := None): (r: Request)
    ensures id_.Some? ==>
      r == Fetch(base + NotesPath + Encode([Pair("post_id", IntToDecimal(id_.value))]))
    ensures id_.None? ==> r == Fetch(base + NotesPath)
  {
    if id_.Some? then BuildUrl(base, NotesPath, Some("post_id=" + IntToDecimal(id_.value)))
    else BuildUrl(base, NotesPath)
  }

  /** `search_notes`: a query is required. */
  function SearchNotes(base: string, query: Option<string> := None): (r: Request)
    ensures query.None? <==> r == NoFetch
    ensures query.Some? ==> r == Fetch(base + SearchNotesPath + Encode([Pair("query", query.value)]))
  {
    if query.Some? then BuildUrl(base, SearchNotesPath, Some("query=" + query.value)) else NoFetch
  }

  /** `history_notes`: a post id wins; an id alone raises, because its
      branch formats the absent post id with `%i`; with neither, the
      listing parameters. */
  function HistoryNotes(base: string, post_id: Option<int> := None, id_: Option<int> := None,
                        limit: int := 10, page: int := 1): (r: Request)
    ensures r == Raises <==> post_id.None? && id_.Some?
    ensures post_id.Some? ==>
      r == Fetch(base + HistoryNotesPath + Encode([Pair("post_id", IntToDecimal(post_id.value))]))
    ensures post_id.None? && id_.None? ==>
      r == Fetch(base + HistoryNotesPath + Encode(LimitPage(limit, page)))
  {
    if post_id.Some? then
      BuildUrl(base, HistoryNotesPath, Some("post_id=" + IntToDecimal(post_id.value)))
    else if id_.Some? then
      Raises
    else
      LimitPageText(limit, page);
      BuildUrl(base, HistoryNotesPath, Some("limit=" + IntToDecimal(limit)
                                            + "&page=" + IntToDecimal(page)))
  }

  /** `users`: a name wins; an id alone raises, because its branch reads
      an attribute that is never set; with neither, the bare path. */
  function Users(base: string, name: Option<string> := None, id_: Option<int> := None)
    : (r: Request)
    ensures r == Raises <==> name.None? && id_.Some?
    ensures name.Some? ==> r == Fetch(base + UsersPath + Encode([Pair("name", name.value)]))
    ensures name.None? && id_.None? ==> r == Fetch(base + UsersPath)
  {
    if name.Some? then BuildUrl(base, UsersPath, Some("name=" + name.value))
    else if id_.Some? then Raises
    else BuildUrl(base, UsersPath)
  }

  /** `forum`: the id is written right after the word `parent_id`, without
      `=`; without an id, the bare path. */
  function Forum(base: string, id_: Option<int> := None): (r: Request)
    ensures id_.Some? ==>
      r == Fetch(base + ForumPath + Encode([Bare("parent_id" + IntToDecimal(id_.value))]))
    ensures id_.None? ==> r == Fetch(base + ForumPath)
  {
    if id_.Some? then BuildUrl(base, ForumPath, Some("parent_id" + IntToDecimal(id_.value)))
    else BuildUrl(base, ForumPath)
  }

  /** `pools`: a query replaces the page number. */
  function Pools(base: string, query: Option<string> := None, page: int := 1): (r: Request)
    ensures query.Some? ==> r == Fetch(base + PoolsPath + Encode([Pair("query", query.value)]))
    ensures query.None? ==> r == Fetch(base + PoolsPath + Encode([Pair("page", IntToDecimal(page))]))
  {
    if query.Some? then
      FirstPairText("query", query.value, "query=");
      BuildUrl(base, PoolsPath, Some("query=" + query.value))
    else
      FirstPairText("page", IntToDecimal(page), "page=");
      BuildUrl(base, PoolsPath, Some("page=" + IntToDecimal(page)))
  }

  /** `pools_posts`: an id is required, and the page goes with it. */
  function PoolsPosts(base: string, id_: Option<int> := None, page: int := 1): (r: Request)
    ensures id_.None? <==> r == NoFetch
    ensures id_.Some? ==>
      r == Fetch(base + PoolsPostsPath
          + Encode([Pair("id", IntToDecimal(id_.value)), Pair("page", IntToDecimal(page))]))
  {
    if id_.Some? then
      FirstPairText("id", IntToDecimal(id_.value), "id=");
      AppendPairText([Pair("id", IntToDecimal(id_.value))], "page", IntToDecimal(page), "&page=");
      assert [Pair("id", IntToDecimal(id_.value))] + [Pair("page", IntToDecimal(page))]
        == [Pair("id", IntToDecimal(id_.value)), Pair("page", IntToDecimal(page))];
      BuildUrl(base, PoolsPostsPath, Some("id=" + IntToDecimal(id_.value)
                                          + "&page=" + IntToDecimal(page)))
    else NoFetch
  }

  /** `favorites`: an id is required. */
  function Favorites(base: string, id_: Option<int> := None): (r: Request)
    ensures id_.None? <==> r == NoFetch
    ensures id_.Some? ==>
      r == Fetch(base + FavoritesPath + Encode([Pair("id", IntToDecimal(id_.value))]))
  {
    if id_.Some? then BuildUrl(base, FavoritesPath, Some("id=" + IntToDecimal(id_.value))) else NoFetch
  }

  /** `tag_history`: the first given of post id, user id and user name;
      with none of them, no request. */
  function TagHistory(base: string, post_id: Option<int> := None, user_id: Option<int> := None,
                      user_name: Option<string> := None): (r: Request)
    ensures r == NoFetch <==> post_id.None? && user_id.None? && user_name.None?
    ensures post_id.Some? ==>
      r == Fetch(base + TagHistoryPath + Encode([Pair("post_id", IntToDecimal(post_id.value))]))
    ensures post_id.None? && user_id.Some? ==>
      r == Fetch(base + TagHistoryPath + Encode([Pair("user_id", IntToDecimal(user_id.value))]))
    ensures post_id.None? && user_id.None? && user_name.Some? ==>
      r == Fetch(base + TagHistoryPath + Encode([Pair("user_name", user_name.value)]))
  {
    if post_id.Some? then
      FirstPairText("post_id", IntToDecimal(post_id.value), "post_id=");
      BuildUrl(base, TagHistoryPath, Some("post_id=" + IntToDecimal(post_id.value)))
    else if user_id.Some? then
      FirstPairText("user_id", IntToDecimal(user_id.value), "user_id=");
      BuildUrl(base, TagHistoryPath, Some("user_id=" + IntToDecimal(user_id.value)))
    else if user_name.Some? then
      FirstPairText("user_name", user_name.value, "user_name=");
      BuildUrl(base, TagHistoryPath, Some("user_name=" + user_name.value))
    else NoFetch
  }

  // ---------------------------------------------------------------------
  // What the idealized reader `Query.Decode` finds in the query string.

  /** The parameters the reader decodes from the query of a request whose URL
      starts with `prefix` (the base URL and the path). */
  function Received(r: Request, prefix: string): (ps: Option<seq<Param>>)
    ensures ps.Some? <==> r.Fetch? && prefix <= r.url
  {
    if r.Fetch? && prefix <= r.url then Some(Decode(r.url[|prefix|..])) else None
  }

  /** The integer value the reader finds for key `k`: the first pair with
      that key, read as a decimal integer. */
  function ReadInt(ps: seq<Param>, k: string): Option<int>
  {
    var v := Lookup(ps, k);
    if v.Some? then ParseInt(v.value) else None
  }

  /** A value written with `%i` is read back as the same integer. */
  lemma ReadDecimal(ps: seq<Param>, k: string, n: int)
    requires Lookup(ps, k) == Some(IntToDecimal(n))
    ensures ReadInt(ps, k) == Some(n)
  {
    ParseIntToDecimal(n);
  }

  /** The reader gets back exactly the parameters the builder listed. */
  lemma ReceivedEncode(prefix: string, ps: seq<Param>)
    requires AllWellFormed(ps)
    ensures Received(Fetch(prefix + Encode(ps)), prefix) == Some(ps)
  {
    var url := prefix + Encode(ps);
    assert url[|prefix|..] == Encode(ps);
    DecodeEncode(ps);
  }

  /** A decimal text is both a well-formed value and, behind a word
      without separators, a well-formed bare word. */
  lemma DecimalWellFormed(k: string, n: int)
    requires '&' !in k && '=' !in k
    ensures WellFormed(Pair(k, IntToDecimal(n)))
    ensures WellFormed(Bare(k + IntToDecimal(n)))
  {
    DecimalHasNoSeparator(n);
  }

  lemma PostsQueryWellFormed(tags: Option<string>, limit: int, page: int)
    requires tags.None? || '&' !in tags.value
    ensures AllWellFormed(PostsQuery(tags, limit, page))
  {
    DecimalWellFormed("limit", limit);
    DecimalWellFormed("page", page);
  }

  /** The `posts` parameters hold the limit, the page and the tags. */
  lemma PostsQueryRead(tags: Option<string>, limit: int, page: int)
    ensures ReadInt(PostsQuery(tags, limit, page), "limit") == Some(limit)
    ensures ReadInt(PostsQuery(tags, limit, page), "page") == Some(page)
    ensures Lookup(PostsQuery(tags, limit, page), "tags") == tags
  {
    var ps := PostsQuery(tags, limit, page);
    LookupAt(ps, "limit", 0);
    ReadDecimal(ps, "limit", limit);
    LookupAt(ps, "page", 1);
    ReadDecimal(ps, "page", page);
    if tags.Some? {
      LookupAt(ps, "tags", 2);
    } else {
      LookupAbsent(ps, "tags");
    }
  }

  /** `posts`: the reader gets back the limit, the page and the tags it
      was asked for, as long as the tags hold no `&`. */
  lemma PostsReceived(base: string, tags: Option<string>, limit: int, page: int)
    requires tags.None? || '&' !in tags.value
    ensures var ps := Received(Posts(base, tags, limit, page), base + PostsPath);
      ps.Some? && ReadInt(ps.value, "limit") == Some(limit)
      && ReadInt(ps.value, "page") == Some(page) && Lookup(ps.value, "tags") == tags
  {
    PostsQueryWellFormed(tags, limit, page);
    ReceivedEncode(base + PostsPath, PostsQuery(tags, limit, page));
    PostsQueryRead(tags, limit, page);
  }

  /** The text of `posts` parameters whose tags hold an `&` is also the
      text of one more parameter. */
  lemma PostsQuerySplitTags(t1: string, t2: string, limit: int, page: int)
    ensures Encode(PostsQuery(Some(t1 + "&" + t2), limit, page))
      == Encode(PostsQuery(Some(t1), limit, page) + [DecodeParam(t2)])
  {
    var lp := LimitPage(limit, page);
    var e := Encode(lp);
    var q1 := PostsQuery(Some(t1), limit, page);
    assert Encode(q1 + [DecodeParam(t2)]) == Encode(q1) + "&" + t2 by {
      EncodeAppend(q1, DecodeParam(t2));
      ParamTextDecode(t2);
    }
    assert Encode(q1) == e + "&tags=" + t1 by {
      AppendPairText(lp, "tags", t1, "&tags=");
    }
    assert Encode(PostsQuery(Some(t1 + "&" + t2), limit, page)) == e + "&tags=" + (t1 + "&" + t2) by {
      AppendPairText(lp, "tags", t1 + "&" + t2, "&tags=");
    }
    JoinTail(e + "&tags=", t1, t2);
  }

  // An associativity step that keeps the proof above cheap.
  lemma JoinTail(x: string, y: string, z: string)
    ensures x + (y + "&" + z) == x + y + "&" + z
  {
  }

  /** Tags are not escaped: an `&` inside them ends the `tags` value, and
      what follows is read as a parameter of its own. */
  lemma PostsTagsNotEscaped(base: string, t1: string, t2: string, limit: int, page: int)
    requires '&' !in t1 && '&' !in t2 && t2 != ""
    ensures Received(Posts(base, Some(t1 + "&" + t2), limit, page), base + PostsPath)
      == Some(PostsQuery(Some(t1), limit, page) + [DecodeParam(t2)])
  {
    var ps := PostsQuery(Some(t1), limit, page) + [DecodeParam(t2)];
    PostsQuerySplitTags(t1, t2, limit, page);
    assert AllWellFormed(ps) by {
      PostsQueryWellFormed(Some(t1), limit, page);
      ParamTextDecode(t2);
    }
    ReceivedEncode(base + PostsPath, ps);
  }

  /** `tags`: once an id is given, neither the name nor any listing
      argument changes the request. */
  lemma TagsIdWins(base: string, id: int, n1: Option<string>, n2: Option<string>,
                   l1: int, l2: int, p1: int, p2: int, o1: string, o2: string, a1: int, a2: int)
    ensures Tags(base, n1, Some(id), l1, p1, o1, a1) == Tags(base, n2, Some(id), l2, p2, o2, a2)
    ensures Tags(base, n1, Some(id), l1, p1, o1, a1)
      == Fetch(base + TagsPath + "id=" + IntToDecimal(id))
  {
    FirstPairText("id", IntToDecimal(id), "id=");
  }

  /** The listing parameters of `tags` hold all four listing arguments. */
  lemma TagsListingRead(limit: int, page: int, order: string, after_id: int)
    ensures var ps := TagsQuery(None, None, limit, page, order, after_id);
      ReadInt(ps, "limit") == Some(limit) && ReadInt(ps, "page") == Some(page)
      && Lookup(ps, "order") == Some(order) && ReadInt(ps, "after_id") == Some(after_id)
  {
    var ps := TagsQuery(None, None, limit, page, order, after_id);
    LookupAt(ps, "limit", 0);
    ReadDecimal(ps, "limit", limit);
    LookupAt(ps, "page", 1);
    ReadDecimal(ps, "page", page);
    LookupAt(ps, "order", 2);
    LookupAt(ps, "after_id", 3);
    ReadDecimal(ps, "after_id", after_id);
  }

  /** `tags` without an id or a name: the reader gets back all four
      listing arguments. */
  lemma TagsListingReceived(base: string, limit: int, page: int, order: string, after_id: int)
    requires '&' !in order
    ensures var ps := Received(Tags(base, None, None, limit, page, order, after_id), base + TagsPath);
      ps.Some? && ReadInt(ps.value, "limit") == Some(limit) && ReadInt(ps.value, "page") == Some(page)
      && Lookup(ps.value, "order") == Some(order) && ReadInt(ps.value, "after_id") == Some(after_id)
  {
    DecimalWellFormed("limit", limit);
    DecimalWellFormed("page", page);
    DecimalWellFormed("after_id", after_id);
    ReceivedEncode(base + TagsPath, TagsQuery(None, None, limit, page, order, after_id));
    TagsListingRead(limit, page, order, after_id);
  }

  /** In the `artists` parameters without an id, or with a name, no pair
      has the key `page`: the page number is glued to the word. */
  lemma ArtistsQueryRead(name: Option<string>, id_: Option<int>, limit: int, order: string,
                         page: int)
    requires name.Some? || id_.None?
    ensures var ps := ArtistsQuery(name, id_, limit, order, page);
      ReadInt(ps, "page") == None && Bare("page" + IntToDecimal(page)) in ps
      && ReadInt(ps, "limit") == Some(limit) && Lookup(ps, "order") == Some(order)
  {
    var ps := ArtistsQuery(name, id_, limit, order, page);
    LookupAt(ps, "limit", 0);
    ReadDecimal(ps, "limit", limit);
    assert ps[1] == Bare("page" + IntToDecimal(page));
    LookupAt(ps, "order", 2);
    LookupAbsent(ps, "page");
  }

  /** `artists` without an id, or with a name: the reader finds no `page`
      key, while `limit` and `order` are read back. */
  lemma ArtistsPageLost(base: string, name: Option<string>, id_: Option<int>, limit: int,
                        order: string, page: int)
    requires name.Some? || id_.None?
    requires '&' !in order && (name.None? || '&' !in name.value)
    ensures var ps := Received(Artists(base, name, id_, limit, order, page), base + ArtistsPath);
      ps.Some? && ReadInt(ps.value, "page") == None && Bare("page" + IntToDecimal(page)) in ps.value
      && ReadInt(ps.value, "limit") == Some(limit) && Lookup(ps.value, "order") == Some(order)
  {
    DecimalWellFormed("limit", limit);
    DecimalWellFormed("page", page);
    ReceivedEncode(base + ArtistsPath, ArtistsQuery(name, id_, limit, order, page));
    ArtistsQueryRead(name, id_, limit, order, page);
  }

  /** `forum` with an id: the reader finds one bare word and no
      `parent_id` key. */
  lemma ForumParentLost(base: string, id: int)
    ensures var ps := Received(Forum(base, Some(id)), base + ForumPath);
      ps == Some([Bare("parent_id" + IntToDecimal(id))]) && ReadInt(ps.value, "parent_id") == None
  {
    DecimalWellFormed("parent_id", id);
    ReceivedEncode(base + ForumPath, [Bare("parent_id" + IntToDecimal(id))]);
    LookupAbsent([Bare("parent_id" + IntToDecimal(id))], "parent_id");
  }

  /** `pools_posts`: the reader gets back the pool id and the page. */
  lemma PoolsPostsReceived(base: string, id: int, page: int)
    ensures var ps := Received(PoolsPosts(base, Some(id), page), base + PoolsPostsPath);
      ps.Some? && ReadInt(ps.value, "id") == Some(id) && ReadInt(ps.value, "page") == Some(page)
  {
    DecimalWellFormed("id", id);
    DecimalWellFormed("page", page);
    var ps := [Pair("id", IntToDecimal(id)), Pair("page", IntToDecimal(page))];
    ReceivedEncode(base + PoolsPostsPath, ps);
    LookupAt(ps, "id", 0);
    ReadDecimal(ps, "id", id);
    LookupAt(ps, "page", 1);
    ReadDecimal(ps, "page", page);
  }
}
