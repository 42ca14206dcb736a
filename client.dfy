/** The `Pybooru` client object. Its lasting attribute is `baseURL`, fixed
    by the constructor and read by every resource method. Two resource
    methods also leave behind an instance attribute named like one of the
    client's own methods: `posts` with tags stores them as `self.tags`, and
    `favorites` stores its path as `self.favorites`. From then on the
    instance attribute, a string, hides the method, and calling that method
    raises. The class keeps one flag per hidden method; the other resource
    methods only read `baseURL` and are the functions of `Resources`. */
module Client {
  import opened Wrappers
  import opened Strings
  import opened Endpoint
  import opened Decimal
  import opened Resources

  class Pybooru {
    const baseURL: string
    /** `self.tags` has been set by `posts`, hiding the `tags` method. */
    var tagsHidden: bool
    /** `self.favorites` has been set, hiding the `favorites` method. */
    var favoritesHidden: bool

    /** `Pybooru(name, siteURL)`. */
    constructor (name: Option<string> := None, siteURL: Option<string> := None)
      requires InitBaseUrl(name, siteURL).Some?
      ensures baseURL == InitBaseUrl(name, siteURL).value
      ensures !tagsHidden && !favoritesHidden
    {
      if name.Some? {
        var lowered := Lower(name.value);
        baseURL := SiteName(lowered);
      } else if siteURL.Some? {
        var lowered := Lower(siteURL.value);
        var validated := ValidateUrl(lowered);
        baseURL := validated.value;
      } else {
        baseURL := "";
      }
      tagsHidden := false;
      favoritesHidden := false;
    }

    /** `client.posts(tags, limit, page)`: the request of `Resources.Posts`;
        given tags hide the `tags` method for good. */
    method Posts(tags: Option<string> := None, limit: int := 10, page: int := 1)
      returns (r: Request)
      modifies this
      ensures r == Resources.Posts(baseURL, tags, limit, page)
      ensures tagsHidden == (old(tagsHidden) || tags.Some?)
      ensures favoritesHidden == old(favoritesHidden)
    {
      if tags.Some? {
        tagsHidden := true;
      }
      r := Resources.Posts(baseURL, tags, limit, page);
    }

    /** `client.tags(...)`: the request of `Resources.Tags`, or an exception
        once the method is hidden. */
    method Tags(name: Option<string> := None, id_: Option<int> := None, limit: int := 100,
                page: int := 1, order: string := "name", after_id: int := 0)
      returns (r: Request)
      ensures tagsHidden ==> r == Raises
      ensures !tagsHidden ==> r == Resources.Tags(baseURL, name, id_, limit, page, order, after_id)
    {
      if tagsHidden {
        r := Raises;
      } else {
        r := Resources.Tags(baseURL, name, id_, limit, page, order, after_id);
      }
    }

    /** `client.favorites(id_)`: the request of `Resources.Favorites` on the
        first call, an exception on every later one. */
    method Favorites(id_: Option<int> := None) returns (r: Request)
      modifies this
      ensures old(favoritesHidden) ==> r == Raises
      ensures !old(favoritesHidden) ==> r == Resources.Favorites(baseURL, id_)
      ensures favoritesHidden && tagsHidden == old(tagsHidden)
    {
      if favoritesHidden {
        r := Raises;
      } else {
        favoritesHidden := true;
        r := Resources.Favorites(baseURL, id_);
      }
    }
  }

  /** With the default arguments, `posts` asks for `limit=10&page=1`. */
  lemma DefaultPostsQuery(base: string)
    ensures Resources.Posts(base) == Fetch(base + PostsPath + "limit=10&page=1")
  {
    LimitPageText(10, 1);
    assert IntToDecimal(10) == "10";
    assert IntToDecimal(1) == "1";
    assert "limit=" + "10" + "&page=" + "1" == "limit=10&page=1";
  }

  /** A fresh client for `DanBooru` asks for the first ten posts at
      `http://danbooru.donmai.us/post/index.json?limit=10&page=1`. */
  lemma DanbooruDefaultPosts()
    ensures Resources.Posts(InitBaseUrl(Some("DanBooru"), None).value)
      == Fetch("http://danbooru.donmai.us" + "/post/index.json?" + "limit=10&page=1")
  {
    var base := "http://danbooru.donmai.us";
    DanbooruResolves();
    DefaultPostsQuery(base);
  }

  /** After `posts` with tags, `tags` raises; `favorites` answers once and
      raises from then on. */
  method HiddenMethodsExample(c: Pybooru) returns (first: Request, second: Request, t: Request)
    requires !c.tagsHidden && !c.favoritesHidden
    modifies c
    ensures first == Resources.Favorites(c.baseURL, Some(7)) && second == Raises && t == Raises
  {
    first := c.Favorites(Some(7));
    second := c.Favorites(Some(7));
    var p := c.Posts(Some("cat"));
    t := c.Tags(Some("cat"));
  }
}
