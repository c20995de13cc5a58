# dotnet-semantic-search, modelled in Dafny

This project models the ingestion-and-search pipeline of dotnet-semantic-search, a small C# program. The pipeline harvests the blog posts of a paginated RSS feed and derives one text per post. It embeds each post, stores the vectors in a Qdrant collection, and answers similarity queries against that collection. The project includes proofs about the model.

A shared module, plus one module per core source file:

- `Common` (common.dfy) holds shared vocabulary:
  - `Option` and `Result`;
  - the error kinds: a transport failure, a non-2xx status, a malformed body, and an embedding failure;
  - the outcome of an HTTP exchange;
  - the decimal rendering of a page number.
- `Models` (models.dfy) models `BlogPost`:
  - a class with the source's eight fields and its defaults;
  - `Snapshot()`, which gives the value of all fields;
  - `GenerateCombinedText`, which sets one field from the function `CombinedTextOf`.
- `Feed` (feed.dfy) models `BlogRetrievalService`:
  - `CleanInvalidXmlCharacters`;
  - the 100-character preview;
  - the mapping from an RSS item to a post;
  - the paging loop of `GetAllBlogPostsAsync`. It is imperative: a `while` loop over pages and a loop over items, appending new `BlogPost` objects.
- `VectorStore` (vector_store.dfy) models `QdrantService`:
  - a class with the trimmed endpoint, the collection and the dimensionality;
  - a ghost field `points`, the remote collection as a map from id to point;
  - one method per operation;
  - the status rules, the point projection, the upsert semantics and the translation of search hits, as functions with lemmas about them.
- `Program` (program.dfy) models:
  - `ProcessBlogsAsync`: the clear prompt, harvesting, and the per-post embed-and-save loop with its counter;
  - `SearchBlogsAsync`: the blank-query guard, embedding, and search with limit 5.

External calls become pure function parameters (oracles):

- `fetch` is the GET of a feed page.
- `parse` is XML parsing and item extraction.
- `embed` is the embedding generator. `None` means it threw.
- `server` answers the Qdrant PUT/POST requests with a status.
- `searcher` answers the search request with a status and a parsed JSON document.
- `ids` and `clock` stand for `Guid.NewGuid()` and `DateTime.UtcNow`. Both are indexed by the creation order of the posts.

The feed loop takes a ghost `pages`, the feed page by page, tied to `fetch` and `parse` by `IsFeed`. The loop has one hypothesis, `Terminates`: some page stops harvesting. Without it the source's loop need not end.

Two points where the code does less than its own wording suggests; the model follows the code:

- The comment in `GenerateCombinedText` (BlogPost.cs:33) says the combined text is "for embedding generation". But `ProcessBlogsAsync` embeds `blogPost.Content` (Program.cs:93), and nothing reads the combined text afterwards. `Program.OutcomeIgnoresCombinedText` proves that the combined text plays no part in a post's outcome.
- The clear prompt reads as optional. Only the status of the delete request is ignored (QdrantService.cs:43-45). A transport failure while clearing is not caught at Program.cs:80. It reaches the outer catch (Program.cs:112-115) and ends `ProcessBlogsAsync` before harvesting. `Program.ProcessBlogs` returns `Aborted` exactly then.

## Model

| member | source | states |
|---|---|---|
| Common.ParseNatToString | code/dotnet-semantic-search/Services/BlogRetrievalService.cs:25 | the decimal text of a page number reads back as that number, so the text is all digits and loses nothing |
| Common.NatToStringInjective | code/dotnet-semantic-search/Services/BlogRetrievalService.cs:25 | distinct page numbers have distinct decimal texts |
| Models.BlogPost.constructor | code/dotnet-semantic-search/Models/BlogPost.cs:7-29 | a new post has the given id and timestamp, empty title, content, URL and combined text, no categories and an empty vector |
| Models.BlogPost.GenerateCombinedText | code/dotnet-semantic-search/Models/BlogPost.cs:31-36 | afterwards the combined text is current for title, content and categories; every other field is unchanged; a second call changes nothing |
| Models.CombinedTextShape | code/dotnet-semantic-search/Models/BlogPost.cs:34-35 | the text starts with "{title}. {content}"; it is exactly that if and only if there are no categories; otherwise the rest is " Categories: " and the categories joined by ", " |
| Models.CombinedTextNotDefault | code/dotnet-semantic-search/Models/BlogPost.cs:34-35 | the generated text is never the empty default |
| Models.CombinedTextCategoryOrder | code/dotnet-semantic-search/Models/BlogPost.cs:34 | the text keeps category order: the text for the first k categories is a prefix of the text for all of them |
| Models.JoinLength | code/dotnet-semantic-search/Models/BlogPost.cs:34 | string.Join puts exactly one separator between neighbours: the length is the total of the parts plus (n - 1) separators |
| Models.JoinPrefix | code/dotnet-semantic-search/Models/BlogPost.cs:34 | joining a non-empty prefix of the list gives a prefix of the joined text |
| Feed.CleanRemovesExactly | code/dotnet-semantic-search/Services/BlogRetrievalService.cs:239-245 | the output has no U+001E, and every other character occurs as often as in the input |
| Feed.CleanAppend | code/dotnet-semantic-search/Services/BlogRetrievalService.cs:239-245 | cleaning works piece by piece, so the order of the kept characters is preserved |
| Feed.CleanShrinks | code/dotnet-semantic-search/Services/BlogRetrievalService.cs:239-245 | cleaning never lengthens, and strictly shortens when a U+001E is present |
| Feed.CleanIsIdentity | code/dotnet-semantic-search/Services/BlogRetrievalService.cs:239-245 | a text is left unchanged if and only if it has no U+001E |
| Feed.CleanIdempotent | code/dotnet-semantic-search/Services/BlogRetrievalService.cs:239-245 | cleaning twice equals cleaning once |
| Feed.PreviewBounds | code/dotnet-semantic-search/Services/BlogRetrievalService.cs:226 | for content of n characters, a preview has exactly its first min(n, 100) characters, followed by "..." if and only if the content is longer than 100 characters. So its length is 103 for longer content and n otherwise, never more than 103 |
| Feed.PreviewFixedPoint | code/dotnet-semantic-search/Services/BlogRetrievalService.cs:226 | the preview equals the content if and only if the content is short, or has 103 characters ending in "..." |
| Feed.PageUrlInjective | code/dotnet-semantic-search/Services/BlogRetrievalService.cs:14-25 | the URL baseUrl + pageNumber determines the page number, so no two pages share a URL |
| Feed.FetchPage | code/dotnet-semantic-search/Services/BlogRetrievalService.cs:25-54 | page n is fetched from baseUrl + n. The result is Missing on 404, and Failed on a thrown GET, another non-2xx status or a parse error. Otherwise the cleaned body is parsed into its items (PageAt) |
| Feed.FeedExists | code/dotnet-semantic-search/Services/BlogRetrievalService.cs:25-54 | whatever the GET and the parser answer, there is a feed page by page that matches them, so the ghost feed the loop takes can always be supplied |
| Feed.MapItemFields | code/dotnet-semantic-search/Services/BlogRetrievalService.cs:67-85 | title, else "No Title"; content:encoded, else description, else "No Content"; link, else ""; all categories in order. The combined text is current and the vector empty |
| Feed.NewPostFrom | code/dotnet-semantic-search/Services/BlogRetrievalService.cs:67-85 | one new BlogPost whose fields are exactly the item's mapping (MapItem), with the given id and timestamp |
| Feed.AddItems | code/dotnet-semantic-search/Services/BlogRetrievalService.cs:64-89 | the posts so far are kept as a prefix; one new, distinct post per item follows, in item order; the k-th post overall takes the k-th id and timestamp |
| Feed.HarvestPage | code/dotnet-semantic-search/Services/BlogRetrievalService.cs:25-90 | one iteration: the page read is page n of the feed; a page that does not continue adds nothing; a non-empty page appends its items' posts |
| Feed.HarvestUntilStop | code/dotnet-semantic-search/Services/BlogRetrievalService.cs:19-101 | the loop stops at the first page that is missing, failed or empty; it requested exactly pages 1 to that page; its posts are the items of the pages before it, all new and distinct |
| Feed.GetAllBlogPosts | code/dotnet-semantic-search/Services/BlogRetrievalService.cs:9-107 | pages 1, 2, ..., FirstStop are requested, in order, with no gap, repeat or later page. The result is exactly Harvested: one new, distinct post per item of the pages before the stop, in page order then item order. No failure escapes |
| Feed.HarvestStopsAt | code/dotnet-semantic-search/Services/BlogRetrievalService.cs:35-97 | when page n is the first missing, failed or empty page, harvesting stops at n and returns exactly the posts of pages 1 to n - 1, nothing from page n |
| Feed.HarvestedFromStop | code/dotnet-semantic-search/Services/BlogRetrievalService.cs:22-106 | the first stop is unique, and the harvested posts are the mapping of the items of pages before it, one by one |
| Feed.HarvestedTextCurrent | code/dotnet-semantic-search/Services/BlogRetrievalService.cs:77-86 | every harvested post has its combined text generated from its final title, content and categories, and no vector yet |
| Feed.ItemsBetweenSplit | code/dotnet-semantic-search/Services/BlogRetrievalService.cs:64-86 | consecutive runs of pages contribute their items one after the other (page order) |
| Feed.ItemsBetweenAtLeast | code/dotnet-semantic-search/Services/BlogRetrievalService.cs:57-60 | each page before the stop contributes at least one item |
| Feed.FirstStop | code/dotnet-semantic-search/Services/BlogRetrievalService.cs:22-100 | under the termination hypothesis there is a first page that does not continue, and every page before it continues |
| Feed.PagesUpToShape | code/dotnet-semantic-search/Services/BlogRetrievalService.cs:19-100 | the requested list 1, 2, ..., n has n entries and entry k is k + 1 |
| VectorStore.TrimEndSlashesShape | code/dotnet-semantic-search/Services/QdrantService.cs:16 | the stored endpoint is a prefix of the argument that does not end in '/', and only '/' characters were removed |
| VectorStore.TrimEndSlashesUnique | code/dotnet-semantic-search/Services/QdrantService.cs:16 | the trimmed endpoint is the only prefix with that property |
| VectorStore.TrimEndSlashesIdempotent | code/dotnet-semantic-search/Services/QdrantService.cs:16 | trimming twice equals trimming once |
| VectorStore.TrimEndSlashesFixedPoint | code/dotnet-semantic-search/Services/QdrantService.cs:16 | trimming leaves an endpoint unchanged if and only if it is empty or does not end in '/' |
| VectorStore.QdrantService.constructor | code/dotnet-semantic-search/Services/QdrantService.cs:14-20 | the endpoint is stored trimmed (TrimEnd('/')); the collection and dimensionality are stored as given |
| VectorStore.QdrantService.Default | code/dotnet-semantic-search/Services/QdrantService.cs:14-20 | `new QdrantService()`: the default endpoint unchanged by trimming, collection "blog_posts" and 768 dimensions |
| VectorStore.QdrantService.UrlsDistinct | code/dotnet-semantic-search/Services/QdrantService.cs:24-69 | every request goes below endpoint + "/collections/" + collection, and delete, upsert and search use three different URLs |
| VectorStore.InitOutcomeRule | code/dotnet-semantic-search/Services/QdrantService.cs:29-35 | creating the collection succeeds if and only if the answer is 409 or 2xx. Any other status is reported with that status; no answer is a transport failure |
| VectorStore.InitializeTwice | code/dotnet-semantic-search/Services/QdrantService.cs:29-35 | a first call answered 2xx and a second answered 409 both succeed |
| VectorStore.QdrantService.Initialize | code/dotnet-semantic-search/Services/QdrantService.cs:22-36 | PUT to the collection URL with the configured size and "Cosine"; the result follows the 409-or-2xx rule (InitOutcome) |
| VectorStore.ClearIgnoresStatus | code/dotnet-semantic-search/Services/QdrantService.cs:43-45 | clearing completes if and only if there is a response, whatever its status; only a transport failure throws |
| VectorStore.QdrantService.ClearAllData | code/dotnet-semantic-search/Services/QdrantService.cs:38-46 | POST to .../points/delete; the result ignores the status (ClearOutcome); a 2xx answer empties the collection, any other answer leaves it as it was |
| VectorStore.ProjectionKeepsOnly | code/dotnet-semantic-search/Services/QdrantService.cs:51-61 | two posts give the same point if and only if they agree on id, vector, title and URL |
| VectorStore.ProjectionIgnores | code/dotnet-semantic-search/Services/QdrantService.cs:51-61 | content, categories, combined text and timestamp never reach the index |
| VectorStore.UpsertKeys | code/dotnet-semantic-search/Services/QdrantService.cs:62 | after an upsert the ids are exactly the ids stored before plus the ids sent |
| VectorStore.UpsertStoresLast | code/dotnet-semantic-search/Services/QdrantService.cs:62 | a point sent is stored as sent unless a later point has the same id (insert-or-replace, last write wins) |
| VectorStore.UpsertKeepsOthers | code/dotnet-semantic-search/Services/QdrantService.cs:62 | an id for which no point is sent keeps its stored point |
| VectorStore.QdrantService.SaveBlogPost | code/dotnet-semantic-search/Services/QdrantService.cs:48-65 | PUT exactly one point, the post's projection, to .../points. On 2xx the same post object comes back and the point is upserted. Otherwise the call fails with the status or a transport error, and the collection is unchanged |
| VectorStore.SearchResultShape | code/dotnet-semantic-search/Services/QdrantService.cs:78-91 | search succeeds if and only if the reply is 2xx, has a result array and every hit is readable. Then there is one post per hit, in hit order: the hit's id; the payload's title and url, "" when absent or null; every other field empty. A non-2xx reply fails with its status |
| VectorStore.QdrantService.SearchSimilarBlogPosts | code/dotnet-semantic-search/Services/QdrantService.cs:67-92 | sends the query vector to .../points/search with limit = maxResults, with_payload true and with_vector false. Each result post is new, and the result agrees post by post with SearchResult, errors included |
| Program.WantsClearIff | code/dotnet-semantic-search/Program.cs:76-77 | the index is cleared if and only if the answer is "y" or "yes" in any mix of case; a null answer does not clear |
| Program.BlankQueries | code/dotnet-semantic-search/Program.cs:128-132 | null, empty and all-whitespace queries are refused; any query with another character is accepted and non-empty |
| Program.OutcomeIgnoresCombinedText | code/dotnet-semantic-search/Program.cs:93-96 | a post's outcome depends on its content, not on its combined text, categories or timestamp |
| Program.ProcessPost | code/dotnet-semantic-search/Program.cs:91-107 | the content is embedded. On success the vector is set before the save, and stays set if the save fails. The post counts if and only if the save succeeded, and then its point is upserted. Every other post is unchanged |
| Program.CountSaved | code/dotnet-semantic-search/Program.cs:88-108 | the count never exceeds the number of posts |
| Program.CountSavedAll | code/dotnet-semantic-search/Program.cs:97 | the count equals the number of posts if and only if every post was saved |
| Program.CountSavedAppend | code/dotnet-semantic-search/Program.cs:88-108 | the count over consecutive runs of posts is the sum of their counts |
| Program.CountSavedOneMore | code/dotnet-semantic-search/Program.cs:104-107 | one post's failure costs exactly that post: saving it instead adds exactly one to the count |
| Program.SavedPointsCount | code/dotnet-semantic-search/Program.cs:96-97 | one point is saved per counted post |
| Program.SavedPostIndexed | code/dotnet-semantic-search/Program.cs:93-97 | with distinct ids, every saved post is in the index afterwards, with its id, new vector, title and URL |
| Program.IngestStep | code/dotnet-semantic-search/Program.cs:89-108 | taking one more post into the fold adds one to the count and upserts its point exactly when it was saved |
| Program.EmbedAndSave | code/dotnet-semantic-search/Program.cs:88-108 | every post is tried exactly once, in order, independently of the others' failures. processedCount is the number of successful saves. Each post ends in its attempted state. The index is the old one with the saved points upserted in post order |
| Program.ProcessBlogs | code/dotnet-semantic-search/Program.cs:68-116 | it aborts, with no post harvested or processed and the index unchanged, if and only if the clear was wanted and the delete threw. Otherwise it returns the harvested total and the count of saved posts, and the index is the (possibly cleared) start with the saved points upserted. The harvested posts are new and distinct objects |
| Program.SearchBlogs | code/dotnet-semantic-search/Program.cs:118-161 | a null or whitespace query is refused before any embedding or search call. Otherwise the raw query is embedded: a failure is caught, and success searches with limit 5, payload and no vectors. The outcome is the search's result, errors caught |

## Left out

- HTTP, XML and JSON: `HttpClient`, `XDocument` and `JsonDocument` are replaced by the oracles `fetch`, `parse`, `server` and `searcher`. Their internals are not modelled.
- Oracle determinism: each oracle is a function, so identical requests get identical answers within one run. A real server may answer the same request differently over time.
- async/await and cancellation: the model is sequential, as the source is.
- Feed.GetAllBlogPosts: does not model the 32-bit `int pageNumber`; its wrap-around after 2^31 - 1 pages is left out. The termination hypothesis `Terminates` is required instead.
- Feed.GetAllBlogPosts: the failure of the `HttpClient` construction before the loop is not modelled; harvesting never throws in the model.
- Feed.Preview: lengths count `char` values in Dafny, while .NET counts UTF-16 code units. The two differ on characters outside the Basic Multilingual Plane.
- Program.WantsClear: `ToLower` is modelled on the ASCII letters only. Culture-specific case mapping of other letters is left out; no other letters can make an answer equal "y" or "yes" except under such a mapping.
- The rest of `InspectRssFeedStructure` and all of `FetchRssFeed` (BlogRetrievalService.cs:109-236, apart from the preview expression) only print to the console.
- The menu loop, `ConsoleHelper`, every console message and the every-10-posts progress line (Program.cs:37-66, 99-102, 163-178) are presentation only. So is the listing of search results (Program.cs:140-155); the model returns the posts instead.
- The startup in Program.cs:6-35 (constructing the client, `InitializeAsync`, connecting to Ollama) is not modelled as a flow; `VectorStore.QdrantService.Initialize` models the call itself.
- VectorStore.QdrantService.Initialize: its effect on the remote collection (creating it with the configured size) is not tracked; `points` is left as it was.
- VectorStore.QdrantService.ClearAllData: the request body, including the unused `payload` at QdrantService.cs:41, is not modelled. That a 2xx answer empties the collection is an assumption about the server; the code does not observe it.
- VectorStore.QdrantService.SaveBlogPost: that a 2xx answer to the PUT stores the point (insert-or-replace) is an assumption about the server; the code does not observe it. Without `wait=true`, Qdrant may acknowledge before it applies the write. `Program.SavedPostIndexed` relies on this assumption.
- Cosine similarity, ranking and the vector-length check are computed by the index service. The model takes the hits in the order the service returns them, and treats a vector of the wrong size as one of the server's failure answers.
- Float vectors are opaque `seq<real>` values; no arithmetic is done on them.
- `Guid.NewGuid()` and `DateTime.UtcNow` are the parameters `ids` and `clock`; their format and value are not modelled.
- `EmbeddingDocument.cs` has no behaviour and no use.
