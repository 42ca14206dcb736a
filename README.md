# Pybooru request composition in Dafny

Pybooru is a small Python 2 client for Danbooru-style image-board APIs. This
project models its deterministic core, which decides which URL a call sends to
the server.

- **Client construction.** `Pybooru(name, siteURL)` picks the client's
  `baseURL`. A site name is lower-cased and looked up in a fixed registry of
  seven boards. A raw site URL is lower-cased, parsed with Python 2.7.4+'s
  `urlparse`, and rebuilt as `http://` + netloc + path + params. A trailing
  `/` is then handled by `_url_validator`.
- **Resource methods.** The fifteen methods (`posts`, `tags`, `artists`, …,
  `tag_history`) each pick a fixed API path and a query string by argument
  priority. `_build_url` then hands `baseURL + path + query` to the fetcher.
- **`PybooruError`.** The constructor expands the error message with the HTTP
  status line and the URL when all of them are known.

Modules, one per file:

- `Strings`: searching, slicing predicates and the ASCII `str.lower()`.
- `Decimal`: the `'%i'` format and its reading back.
- `Query`: a query string seen as a list of parameters. `Encode` writes the
  list the way the builders do, with no escaping. `Decode` is an idealized
  reader of such a string: it splits on each `&`, then at the first `=`, and
  does no percent-decoding.
- `Endpoint`: the site registry, the part of `urlparse` the validator relies
  on, and `InitBaseUrl`, the `baseURL` the constructor leaves.
- `Resources`: `_build_url` and the fifteen builders. Each one is a function of
  `baseURL` and the method's arguments. It yields a `Request`:
  - `Fetch(url)` when the fetcher is called;
  - `NoFetch` when the method returns nothing without calling the fetcher
    (some such branches print a complaint, others do not);
  - `Raises` when the Python code raises.
- `Client`: the `Pybooru` class. Its state is the constant `baseURL` and two
  flags. `posts(tags=…)` stores `self.tags` and `favorites()` stores
  `self.favorites`, and in Python each of these string attributes then hides
  the method of the same name. Calling that method afterwards raises, and the
  flags record this.
- `Errors`: `PybooruError.__init__`.

Every builder's contract states its query as a parameter list passed through
`Query.Encode`. The lemmas beside the builders state what `Query.Decode`
reads from that URL. Under this idealized reader, values are read back
exactly when they hold no `&`. Two format strings lose their `=`: `artists`
writes `page%i` and `forum` writes `parent_id%i`. The reader then finds a bare
word and no `page` or `parent_id` key.

## Model

| member | source | states |
|---|---|---|
| Errors.NewPybooruError | pybooru/pybooru.py:41-49 | the error keeps the given code; its message differs from the given one exactly when the code is given, is in the status table, and a URL is given |
| Errors.ExpandedMessage | pybooru/pybooru.py:45-49 | an expanded message is exactly the code in decimal, `: `, the reason phrase, `, `, the description, ` -- `, the message, ` -- URL: ` and the URL; the text before its first `:` reads back as the code |
| Decimal.ParseIntToDecimal | pybooru/pybooru.py:138 | the `%i` text of any integer reads back as that integer |
| Decimal.IntToDecimalInjective | pybooru/pybooru.py:138 | distinct integers are written as distinct `%i` texts |
| Decimal.DecimalHasNoSeparator | pybooru/pybooru.py:138 | a `%i` text holds neither `&` nor `=`, so it cannot break a query string |
| Strings.LowerIsLower | pybooru/pybooru.py:70-73 | `str.lower()` leaves no capital letter and is idempotent |
| Strings.LowerOfNoUpper | pybooru/pybooru.py:70-73 | a string without capitals is unchanged by `str.lower()` |
| Endpoint.SiteName | pybooru/pybooru.py:78-92 | `_site_name` gives a non-empty base URL exactly for a registered name, and then the registry's URL for it |
| Endpoint.InitBaseUrl | pybooru/pybooru.py:58-76 | the constructor has no result, because `url[-1]` raises, exactly when no name and an empty site URL are given; with neither argument `baseURL` stays `""`; a given name yields a non-empty base URL exactly when its lower-case form is registered |
| Endpoint.UrlParse | pybooru/pybooru.py:97 | the scheme `urlparse` returns is lower-case, and parameters are split off only for a scheme that takes them |
| Strings.Lower | pybooru/pybooru.py:70-73 | `str.lower()` keeps the length and maps each character on its own, changing only `A`–`Z` (each to its lower-case letter) |
| Decimal.IntToDecimal | pybooru/pybooru.py:138 | `%i` writes at least one character, and the text starts with `-` exactly for a negative number |
| Endpoint.RegisteredNameResolves | pybooru/pybooru.py:81-90 | a name whose lower-case form is a registry key gives that key's URL, whatever its case and whatever URL is also passed |
| Endpoint.NameDecidesBase | pybooru/pybooru.py:69-71 | names equal up to case give the same `baseURL`; a given name makes the URL argument irrelevant; an unregistered name leaves `baseURL` as `""` |
| Endpoint.RegisteredIffNonEmpty | pybooru/pybooru.py:81-92 | the name lookup gives a non-empty base URL exactly when the lower-cased name is registered |
| Endpoint.DanbooruResolves | pybooru/pybooru.py:81-90 | `DanBooru` resolves to `http://danbooru.donmai.us` |
| Endpoint.YandereResolves | pybooru/pybooru.py:83 | `yandere` resolves to `https://yande.re`, keeping `https` |
| Endpoint.FallbackExamples | pybooru/pybooru.py:67-76 | an unregistered name with a usable URL gives `""`; no arguments give `""`; an empty URL has no result, because the constructor raises |
| Endpoint.ValidateUrl | pybooru/pybooru.py:97-106 | the validator has a result for every input except the empty string, on which `url[-1]` raises |
| Endpoint.ValidateUrlDropsQuery | pybooru/pybooru.py:99-104 | the validated URL holds no `?` and no `#`, and holds no capital when the input held none |
| Endpoint.UrlBaseIsLowerCase | pybooru/pybooru.py:72-74 | a client built from any non-empty site URL has a lower-case `baseURL` |
| Endpoint.RebuildKeeps | pybooru/pybooru.py:101-102 | the rebuilt URL starts with `http://` and has no `?`, `#` or capital that its components lack |
| Endpoint.UrlParseKeeps | pybooru/pybooru.py:97 | the netloc, path and params of `urlparse` never hold `?` or `#`, and hold no capital when the input holds none |
| Endpoint.ValidateUrlSchemeIgnored | pybooru/pybooru.py:99-102 | the scheme test is always true, so `s1://rest` and `s2://rest` give the same base URL for any two parameter-taking schemes, e.g. `https` and `http` |
| Endpoint.UrlParseHostPath | pybooru/pybooru.py:97 | `scheme://host/path` parses to the lower-cased scheme, the host as netloc and the path, when the path holds no `?`, `#` or `;` |
| Endpoint.ValidateUrlHostPath | pybooru/pybooru.py:99-106 | `scheme://host/path` becomes `http://host/path`, with one trailing `/` removed when the path ends in one |
| Endpoint.ValidateUrlSchemeless | pybooru/pybooru.py:99-102 | a URL in which urlparse finds neither a scheme nor a netloc is prefixed with `http://` |
| Endpoint.ValidateUrlBareHost | pybooru/pybooru.py:99-102 | a bare host without `:`, `?`, `#`, `;` or a trailing `/` becomes `http://` + host |
| Endpoint.ValidateUrlHostPort | pybooru/pybooru.py:99-102 | `host:port` with an all-digit port is not split into a scheme and becomes `http://host:port` |
| Endpoint.UrlParseHostQuery | pybooru/pybooru.py:97 | `scheme://host?q` parses to the host as netloc, an empty path and `q` as the query |
| Endpoint.ValidateUrlQuerySlash | pybooru/pybooru.py:103-104 | `scheme://host?q/` drops the query and then also the last character of the host, so the trailing-`/` test strips a character that is not a `/` |
| Endpoint.UrlParseHostParams | pybooru/pybooru.py:97 | `scheme://host/path;prm` parses to netloc `host`, path `path` and params `prm` for a parameter-taking scheme |
| Endpoint.ValidateUrlParams | pybooru/pybooru.py:101-102 | `;` in the last path segment is lost: `scheme://host/path;prm` becomes `http://host/pathprm` |
| Resources.BuildUrl | pybooru/pybooru.py:108-118 | the fetcher receives base URL, path and parameters in that order, with nothing added, escaped or dropped; without parameters it receives base URL and path |
| Resources.Posts | pybooru/pybooru.py:136-145 | `posts` requests `limit` and `page`, followed by `tags` when tags are given |
| Resources.Tags | pybooru/pybooru.py:147-161 | `tags` requests the id alone when one is given, else the name alone, else `limit`, `page`, `order` and `after_id` |
| Resources.Artists | pybooru/pybooru.py:163-175 | `artists` requests `limit`, the bare word `page<n>` and `order`; a name is added to them; without a name, an id replaces them |
| Resources.Comments | pybooru/pybooru.py:177-184 | `comments` makes no request exactly when no id is given; otherwise it requests `id` |
| Resources.Wiki | pybooru/pybooru.py:186-195 | `wiki` requests `order`, `limit` and `page`, followed by `query` when a query is given |
| Resources.WikiHistory | pybooru/pybooru.py:197-205 | `wiki_history` makes no request exactly when no title is given; otherwise it requests `title` |
| Resources.Notes | pybooru/pybooru.py:207-214 | `notes` requests `post_id` for a given id, else the bare path |
| Resources.SearchNotes | pybooru/pybooru.py:216-224 | `search_notes` makes no request exactly when no query is given; otherwise it requests `query` |
| Resources.HistoryNotes | pybooru/pybooru.py:226-237 | `history_notes` raises exactly when only `id_` is given; a post id requests `post_id`; with neither it requests `limit` and `page` |
| Resources.Users | pybooru/pybooru.py:239-250 | `users` raises exactly when only `id_` is given; a name requests `name`; with neither it requests the bare path |
| Resources.Forum | pybooru/pybooru.py:252-259 | `forum` requests the bare word `parent_id<n>` for a given id, else the bare path |
| Resources.Pools | pybooru/pybooru.py:261-270 | `pools` requests `query` when a query is given, else `page` |
| Resources.PoolsPosts | pybooru/pybooru.py:272-279 | `pools_posts` makes no request exactly when no id is given; otherwise it requests `id` and `page` |
| Resources.Favorites | pybooru/pybooru.py:281-288 | `favorites` makes no request exactly when no id is given; otherwise it requests `id` |
| Resources.TagHistory | pybooru/pybooru.py:290-302 | `tag_history` makes no request exactly when none of post id, user id and user name is given; otherwise it requests the first of them that is given |
| Query.DecodeEncode | pybooru/pybooru.py:138-142 | decoding a query joined with `&` gives back every parameter, provided keys hold no `&` or `=` and values hold no `&` |
| Resources.ReceivedEncode | pybooru/pybooru.py:111-113 | the reader gets exactly the parameter list the builder composed after the base URL and path |
| Resources.PostsReceived | pybooru/pybooru.py:136-145 | the reader gets back the `posts` limit and page as integers, and the tags, when the tags hold no `&` |
| Resources.PostsTagsNotEscaped | pybooru/pybooru.py:140-143 | tags are not escaped: in tags `t1&t2`, the reader takes `t1` as the tags and `t2` as a parameter of its own |
| Resources.TagsIdWins | pybooru/pybooru.py:151-153 | once an id is given, `tags` requests `id=<n>` whatever the name and listing arguments are |
| Resources.TagsListingReceived | pybooru/pybooru.py:158-161 | without an id or a name, the reader gets back all four listing arguments of `tags` |
| Resources.ArtistsPageLost | pybooru/pybooru.py:165 | in the `artists` listing the reader finds no `page` key, only the bare word `page<n>`; it does get back `limit` and `order` |
| Resources.ForumParentLost | pybooru/pybooru.py:256 | with an id, `forum` sends one bare word `parent_id<n>`, and the reader finds no `parent_id` key |
| Resources.PoolsPostsReceived | pybooru/pybooru.py:276 | the reader gets back the pool id and the page of `pools_posts` |
| Client.Pybooru.constructor | pybooru/pybooru.py:58-76 | the new client's `baseURL` is `InitBaseUrl(name, siteURL)`, and no method is hidden yet |
| Client.Pybooru.Posts | pybooru/pybooru.py:136-145 | `client.posts` sends the request of `Resources.Posts`; given tags set `self.tags`, which hides the `tags` method for good |
| Client.Pybooru.Tags | pybooru/pybooru.py:147-161 | `client.tags` raises once `self.tags` has been set, and otherwise sends the request of `Resources.Tags` |
| Client.Pybooru.Favorites | pybooru/pybooru.py:281-288 | the first `client.favorites` call sends the request of `Resources.Favorites`; every call sets `self.favorites`, so any later call raises |
| Client.HiddenMethodsExample | pybooru/pybooru.py:281-288 | on a fresh client, `favorites(7)` answers once and then raises, and `tags` raises after `posts(tags=…)` |
| Client.DefaultPostsQuery | pybooru/pybooru.py:136-138 | `posts()` with the default arguments asks for `limit=10&page=1` |
| Client.DanbooruDefaultPosts | pybooru/pybooru.py:136-145 | a client for `DanBooru` with default `posts()` fetches `http://danbooru.donmai.us/post/index.json?limit=10&page=1` |

## Left out

- `_json_load` (lines 120-134) opens the URL and parses the JSON reply. That is network I/O. A call that reaches it is modelled as `Fetch(url)`, the URL the fetcher receives. The response, and the `PybooruError` raised on `URLError`/`HTTPError`, are not modelled.
- `http_status_codes` comes from the `resources` module, which is not part of this model. `NewPybooruError` takes the status table as a parameter.
- `print PybooruError(...)` in the constructor and in the methods is console output. The constructor keeps going, and a method modelled this way returns `NoFetch`.
- All Python exceptions collapse into `Raises`. These are the `TypeError` of a hidden method, the `TypeError` from `'%i' % None` in `history_notes`, and the `AttributeError` from `self.id_` in `users`. The exception type is not recorded.
- `Client.Pybooru.constructor`: the empty site URL makes `url[-1]` raise `IndexError`. Here that case is a precondition: `InitBaseUrl` returns no result for it, and the constructor requires a result.
- The scratch attributes the methods store (`self.params`, `self.*_url`, `self.name`, `self.query`, `self.url_request`, `self.parse`, …) are not kept. Nothing in the core reads them back. The exceptions are `self.tags` and `self.favorites`, which hide methods and are kept as the two flags of the class.
- `str(x)` on non-string arguments, and `%i` on non-integer ones, fall outside the typed model. Strings are `seq<char>` and integers are `int`.
- `Strings.Lower`: only ASCII `A`–`Z` are lower-cased, as Python 2's byte-string `lower()` does under the C locale. Locale-dependent case mapping is not modelled.
- `urlparse` (Python 2.7.4 and later) is modelled only as far as `_url_validator` uses it: the scheme rule, netloc, fragment, query and `;` parameters. Its `ValueError` on unbalanced `[` / `]` in an IPv6 netloc is not modelled, and neither is its result cache.
- `PybooruError.__str__` (`repr` of the message) and the `__main__` block are left out. They are presentation only.
- An unknown site name, or no argument at all, does not fail: the constructor prints a complaint and leaves `baseURL` as `""` (`Endpoint.FallbackExamples`).
- `Query.Decode` is an idealized reader, not a real server's. A real server also turns `%XX` into bytes and `+` into a space, and some also split on `;`. So values such as `cat+dog` or `100%` hold no `&` and are still not read back as sent. The read-back lemmas (`Resources.PostsReceived`, `Resources.TagsListingReceived`, `Resources.ArtistsPageLost`, `Resources.PoolsPostsReceived`) hold only for this reader.
- `Endpoint.DropLast`: Python 2 `str` is a byte string, while the model's `string` is a sequence of characters. `url[:-1]` (line 104) removes the last byte, and `DropLast` removes the last character. The two differ when the last kept character is non-ASCII. A non-ASCII host whose trailing `/` sits in the query or fragment reaches this case, e.g. `http://hosté?q/` (`Endpoint.ValidateUrlQuerySlash`). There Python leaves a broken UTF-8 sequence, and the model drops `é` whole.
