/** The vector-index client (Services/QdrantService.cs). Each HTTP exchange
    with the index is an oracle from the request sent to the outcome; the
    points of the remote collection are the ghost field `points`, so that
    what a call does to the index can be stated. */
module VectorStore {
  import opened Common
  import opened Models

  const DefaultEndpoint: string := "http://localhost:6333"
  const DefaultCollection: string := "blog_posts"
  const DefaultDimensions: int := 768
  const Distance: string := "Cosine"

  /** The payload stored beside a vector: only the title and the URL. */
  datatype Payload = Payload(title: string, url: string)

  /** A point of the collection: id, vector and payload. */
  datatype IndexPoint = IndexPoint(id: string, vector: Vector, payload: Payload)

  /** The requests whose outcome is a status. The body of the delete request
      is not modelled. */
  datatype Request =
    | CreateCollection(url: string, size: int, distance: string)
    | DeletePoints(url: string)
    | UpsertPoints(url: string, points: seq<IndexPoint>)

  /** The body of a search request. */
  datatype SearchRequest = SearchRequest(url: string, vector: Vector, limit: int, withPayload: bool, withVector: bool)

  /** A property of a JSON object as JsonElement.GetString sees it. */
  datatype JsonField = Absent | Null | Str(value: string) | NonString

  /** The "payload" property of a hit. */
  datatype PayloadElement = NotObject | Object(title: JsonField, url: JsonField)

  /** One element of the "result" array: the text of its "id" property, if it
      has one, and its "payload" property, if it has one. */
  datatype Hit = Hit(id: Option<string>, payload: Option<PayloadElement>)

  /** The parsed body of a search response. */
  datatype JsonDocument = Unparsable | NoResultArray | Results(hits: seq<Hit>)

  datatype SearchReply = NoReply | Reply(status: int, document: JsonDocument)

  // ---------------------------------------------------------------------
  // Endpoint

  /** TrimEnd('/'): drops every trailing '/'. */
  function TrimEndSlashes(s: string): string
    decreases |s|
  {
    if |s| > 0 && s[|s| - 1] == '/' then TrimEndSlashes(s[..|s| - 1]) else s
  }

  /** The trimmed endpoint is a prefix of the argument that does not end in
      '/', and only '/' characters were removed. */
  lemma {:induction false} TrimEndSlashesShape(s: string)
    ensures var r := TrimEndSlashes(s);
      && r <= s
      && (r == [] || r[|r| - 1] != '/')
      && forall i :: |r| <= i < |s| ==> s[i] == '/'
    decreases |s|
  {
    if |s| > 0 && s[|s| - 1] == '/' {
      TrimEndSlashesShape(s[..|s| - 1]);
    }
  }

  /** The trimmed endpoint is the only prefix with that shape: the longest
      prefix that does not end in '/' after which only '/' follows. */
  lemma TrimEndSlashesUnique(s: string, t: string)
    requires t <= s
    requires t == [] || t[|t| - 1] != '/'
    requires forall i :: |t| <= i < |s| ==> s[i] == '/'
    ensures t == TrimEndSlashes(s)
  {
    TrimEndSlashesShape(s);
  }

  /** Trimming twice is trimming once. */
  lemma TrimEndSlashesIdempotent(s: string)
    ensures TrimEndSlashes(TrimEndSlashes(s)) == TrimEndSlashes(s)
  {
    TrimEndSlashesShape(s);
    var r := TrimEndSlashes(s);
    if |r| > 0 {
      assert r[|r| - 1] != '/';
    }
  }

  /** Trimming leaves an endpoint as it is exactly when it is empty or does
      not end in '/'. */
  lemma TrimEndSlashesFixedPoint(s: string)
    ensures TrimEndSlashes(s) == s <==> (s == [] || s[|s| - 1] != '/')
  {
    TrimEndSlashesShape(s);
    if s != [] && s[|s| - 1] == '/' {
      assert TrimEndSlashes(s) == TrimEndSlashes(s[..|s| - 1]);
      TrimEndSlashesShape(s[..|s| - 1]);
    }
  }

  // ---------------------------------------------------------------------
  // Status rules

  /** EnsureSuccessStatusCode after a request: a transport failure or a
      non-2xx status throws. */
  function EnsureSuccess(o: HttpOutcome): Result<()>
  {
    match o
    case Unreachable => Err(Transport)
    case Responded(status) => if IsSuccessStatus(status) then Ok(()) else Err(HttpStatus(status))
  }

  /** InitializeAsync's rule: 409 Conflict means the collection is already
      there and counts as success; otherwise the status must be 2xx. */
  function InitOutcome(o: HttpOutcome): Result<()>
  {
    if o == Responded(Conflict) then Ok(()) else EnsureSuccess(o)
  }

  /** Creating the collection succeeds exactly on 409 or a 2xx status, and
      every other response is reported with its status. */
  lemma InitOutcomeRule(o: HttpOutcome)
    ensures InitOutcome(o).Ok? <==> o.Responded? && (o.status == Conflict || 200 <= o.status <= 299)
    ensures o.Responded? && InitOutcome(o).Err? ==> InitOutcome(o) == Err(HttpStatus(o.status))
    ensures o.Unreachable? ==> InitOutcome(o) == Err(Transport)
  {
  }

  /** Initialising twice, where the first call creates the collection and
      the second finds it there, succeeds both times. */
  lemma InitializeTwice(first: HttpOutcome, second: HttpOutcome)
    requires first.Responded? && IsSuccessStatus(first.status)
    requires second == Responded(Conflict)
    ensures InitOutcome(first) == Ok(()) && InitOutcome(second) == Ok(())
  {
  }

  /** ClearAllDataAsync discards the response: once there is one, whatever
      its status, the call completes; only a transport failure throws. */
  function ClearOutcome(o: HttpOutcome): Result<()>
  {
    if o.Unreachable? then Err(Transport) else Ok(())
  }

  lemma ClearIgnoresStatus(o: HttpOutcome)
    ensures ClearOutcome(o).Ok? <==> o.Responded?
    ensures ClearOutcome(o).Err? ==> ClearOutcome(o).error == Transport
  {
  }

  // ---------------------------------------------------------------------
  // Points

  /** The point SaveBlogPostAsync sends for a post. */
  function Projection(p: PostValue): IndexPoint
  {
    IndexPoint(p.id, p.vector, Payload(p.title, p.url))
  }

  /** The projection keeps the id, the vector, the title and the URL, and
      nothing else: two posts give the same point if and only if they agree
      on those four fields. */
  lemma ProjectionKeepsOnly(p: PostValue, q: PostValue)
    ensures Projection(p) == Projection(q) <==>
      p.id == q.id && p.vector == q.vector && p.title == q.title && p.url == q.url
  {
  }

  /** The content, categories, combined text and timestamp never reach the
      index. */
  lemma ProjectionIgnores(p: PostValue, content: string, categories: seq<string>, combinedText: string, createdAt: int)
    ensures Projection(p.(content := content, categories := categories, combinedText := combinedText, createdAt := createdAt)) == Projection(p)
  {
  }

  /** Upsert: every point is inserted, replacing a point with the same id;
      later points win. */
  function Upsert(stored: map<string, IndexPoint>, ps: seq<IndexPoint>): map<string, IndexPoint>
    decreases |ps|
  {
    if ps == [] then stored else Upsert(stored, ps[..|ps| - 1])[ps[|ps| - 1].id := ps[|ps| - 1]]
  }

  /** Upserting keeps every id already stored and adds exactly the ids of
      the points sent. */
  lemma {:induction false} UpsertKeys(stored: map<string, IndexPoint>, ps: seq<IndexPoint>, id: string)
    ensures id in Upsert(stored, ps) <==> id in stored || exists i :: 0 <= i < |ps| && ps[i].id == id
    decreases |ps|
  {
    if ps != [] {
      var init := ps[..|ps| - 1];
      UpsertKeys(stored, init, id);
      if exists i :: 0 <= i < |ps| && ps[i].id == id {
        var i :| 0 <= i < |ps| && ps[i].id == id;
        if i < |init| {
          assert init[i].id == id;
        }
      }
      if exists i :: 0 <= i < |init| && init[i].id == id {
        var i :| 0 <= i < |init| && init[i].id == id;
        assert ps[i].id == id;
      }
    }
  }

  /** A point sent is stored as sent, unless a later point has the same id. */
  lemma {:induction false} UpsertStoresLast(stored: map<string, IndexPoint>, ps: seq<IndexPoint>, i: nat)
    requires i < |ps|
    requires forall j :: i < j < |ps| ==> ps[j].id != ps[i].id
    ensures ps[i].id in Upsert(stored, ps) && Upsert(stored, ps)[ps[i].id] == ps[i]
    decreases |ps|
  {
    if i < |ps| - 1 {
      var init := ps[..|ps| - 1];
      assert init[i] == ps[i];
      forall j | i < j < |init| ensures init[j].id != init[i].id {
        assert init[j] == ps[j];
      }
      UpsertStoresLast(stored, init, i);
    }
  }

  /** An id no point is sent for keeps its point. */
  lemma {:induction false} UpsertKeepsOthers(stored: map<string, IndexPoint>, ps: seq<IndexPoint>, id: string)
    requires id in stored
    requires forall i :: 0 <= i < |ps| ==> ps[i].id != id
    ensures id in Upsert(stored, ps) && Upsert(stored, ps)[id] == stored[id]
    decreases |ps|
  {
    if ps != [] {
      var init := ps[..|ps| - 1];
      forall i | 0 <= i < |init| ensures init[i].id != id {
        assert init[i] == ps[i];
      }
      UpsertKeepsOthers(stored, init, id);
    }
  }

  // ---------------------------------------------------------------------
  // Search hits

  predicate WellFormedField(f: JsonField) {
    !f.NonString?
  }

  /** TryGetProperty, then GetString() ?? string.Empty: an absent or null
      property gives "", a string gives its value. */
  function FieldText(f: JsonField): string
    requires WellFormedField(f)
  {
    match f
    case Absent => ""
    case Null => ""
    case Str(v) => v
  }

  /** A hit the loop can turn into a post: it has an id and an object
      payload, and neither title nor url is anything but a string or null. */
  predicate WellFormedHit(h: Hit) {
    && h.id.Some?
    && h.payload.Some? && h.payload.value.Object?
    && WellFormedField(h.payload.value.title)
    && WellFormedField(h.payload.value.url)
  }

  /** The post made from a hit: its id, the payload's title and URL, every
      other field at its default. */
  function HitPost(h: Hit, createdAt: int): PostValue
    requires WellFormedHit(h)
  {
    PostValue(h.id.value, FieldText(h.payload.value.title), "", FieldText(h.payload.value.url), [], [], "", createdAt)
  }

  /** What SearchSimilarBlogPostsAsync returns for a reply: the EnsureSuccess
      rule, then one post per hit in hit order; a body that is not JSON, has
      no "result" array or holds a hit the loop cannot read throws. */
  function SearchResult(reply: SearchReply, clock: nat -> int): Result<seq<PostValue>>
  {
    match reply
    case NoReply => Err(Transport)
    case Reply(status, document) =>
      if !IsSuccessStatus(status) then Err(HttpStatus(status))
      else if !document.Results? then Err(Malformed)
      else if exists i :: 0 <= i < |document.hits| && !WellFormedHit(document.hits[i]) then Err(Malformed)
      else Ok(seq(|document.hits|, i requires 0 <= i < |document.hits| => HitPost(document.hits[i], clock(i))))
  }

  /** Search succeeds exactly on a 2xx reply whose hits are all readable; then
      there is one post per hit, in hit order, whose id is the hit's id, whose
      title and URL are the payload's, or "" when absent or null, and whose
      content, categories, vector and combined text are empty. */
  lemma SearchResultShape(reply: SearchReply, clock: nat -> int)
    ensures SearchResult(reply, clock).Ok? <==>
      && reply.Reply? && IsSuccessStatus(reply.status) && reply.document.Results?
      && forall i :: 0 <= i < |reply.document.hits| ==> WellFormedHit(reply.document.hits[i])
    ensures SearchResult(reply, clock).Ok? ==>
      var hits, posts := reply.document.hits, SearchResult(reply, clock).value;
      && |posts| == |hits|
      && forall i :: 0 <= i < |hits| ==>
        && posts[i].id == hits[i].id.value
        && posts[i].title == (if hits[i].payload.value.title.Str? then hits[i].payload.value.title.value else "")
        && posts[i].url == (if hits[i].payload.value.url.Str? then hits[i].payload.value.url.value else "")
        && posts[i].content == "" && posts[i].categories == [] && posts[i].vector == [] && posts[i].combinedText == ""
        && posts[i].createdAt == clock(i)
    ensures reply.Reply? && !IsSuccessStatus(reply.status) ==> SearchResult(reply, clock) == Err(HttpStatus(reply.status))
  {
    if SearchResult(reply, clock).Ok? {
      var hits, posts := reply.document.hits, SearchResult(reply, clock).value;
      forall i | 0 <= i < |hits| ensures posts[i] == HitPost(hits[i], clock(i)) {
      }
    }
  }

  // ---------------------------------------------------------------------
  // The client

  class QdrantService {
    const endpoint: string
    const collection: string
    const dimensions: int
    /** The points of the remote collection, by id. */
    ghost var points: map<string, IndexPoint>

    /** Stores the endpoint without trailing '/'. `stored` is whatever the
        remote collection holds already. */
    constructor (endpoint: string, collection: string, dimensions: int, ghost stored: map<string, IndexPoint>)
      ensures this.endpoint == TrimEndSlashes(endpoint)
      ensures this.collection == collection && this.dimensions == dimensions
      ensures points == stored
    {
      this.endpoint := TrimEndSlashes(endpoint);
      this.collection := collection;
      this.dimensions := dimensions;
      points := stored;
    }

    /** `new QdrantService()`: the default endpoint, which trimming keeps as
        it is, the default collection and 768 dimensions. */
    constructor Default(ghost stored: map<string, IndexPoint>)
      ensures endpoint == DefaultEndpoint
      ensures collection == DefaultCollection && dimensions == DefaultDimensions
      ensures points == stored
    {
      TrimEndSlashesFixedPoint(DefaultEndpoint);
      endpoint := TrimEndSlashes(DefaultEndpoint);
      collection := DefaultCollection;
      dimensions := DefaultDimensions;
      points := stored;
    }

    function CollectionUrl(): string {
      endpoint + "/collections/" + collection
    }

    function DeleteUrl(): string {
      CollectionUrl() + "/points/delete"
    }

    function PointsUrl(): string {
      CollectionUrl() + "/points"
    }

    function SearchUrl(): string {
      CollectionUrl() + "/points/search"
    }

    /** Every request goes below the collection's URL, and the three point
        operations use three different URLs. */
    lemma UrlsDistinct()
      ensures CollectionUrl() <= DeleteUrl() && CollectionUrl() <= PointsUrl() && CollectionUrl() <= SearchUrl()
      ensures DeleteUrl() != PointsUrl() && DeleteUrl() != SearchUrl() && PointsUrl() != SearchUrl()
    {
      var n := |CollectionUrl()|;
      assert DeleteUrl()[n + 7] == '/' && SearchUrl()[n + 7] == '/';
      assert DeleteUrl()[n + 8] == 'd' && SearchUrl()[n + 8] == 's';
    }

    /** InitializeAsync: PUT the collection with the configured size and
        cosine distance; 409 or 2xx succeeds. The collection's points stay
        as they are. */
    method Initialize(server: Request -> HttpOutcome) returns (r: Result<()>)
      ensures r == InitOutcome(server(CreateCollection(CollectionUrl(), dimensions, Distance)))
    {
      var resp := server(CreateCollection(CollectionUrl(), dimensions, Distance));
      if resp == Responded(Conflict) {
        return Ok(());
      }
      match resp {
        case Unreachable =>
          r := Err(Transport);
        case Responded(status) =>
          r := if IsSuccessStatus(status) then Ok(()) else Err(HttpStatus(status));
      }
    }

    /** ClearAllDataAsync: POST the delete request and ignore the answer. A
        2xx answer is taken to have emptied the collection; any other
        answer leaves it as it was, and the call still completes. */
    method ClearAllData(server: Request -> HttpOutcome) returns (r: Result<()>)
      modifies this`points
      ensures r == ClearOutcome(server(DeletePoints(DeleteUrl())))
      ensures var o := server(DeletePoints(DeleteUrl()));
        points == if o.Responded? && IsSuccessStatus(o.status) then map[] else old(points)
    {
      var resp := server(DeletePoints(DeleteUrl()));
      if resp.Unreachable? {
        return Err(Transport);
      }
      if IsSuccessStatus(resp.status) {
        points := map[];
      }
      r := Ok(());
    }

    /** SaveBlogPostAsync: PUT one point made from the post's id, vector,
        title and URL. On 2xx the point is upserted and the same post comes
        back, not changed; otherwise the call throws and the index is as it
        was. */
    method SaveBlogPost(post: BlogPost, server: Request -> HttpOutcome) returns (r: Result<BlogPost>)
      modifies this`points
      ensures var o := server(UpsertPoints(PointsUrl(), [Projection(post.Snapshot())]));
        && (EnsureSuccess(o).Ok? ==> r == Ok(post) && points == Upsert(old(points), [Projection(post.Snapshot())]))
        && (EnsureSuccess(o).Err? ==> r == Err(EnsureSuccess(o).error) && points == old(points))
    {
      var point := Projection(post.Snapshot());
      var resp := server(UpsertPoints(PointsUrl(), [point]));
      match resp {
        case Unreachable =>
          return Err(Transport);
        case Responded(status) =>
          if !IsSuccessStatus(status) {
            return Err(HttpStatus(status));
          }
      }
      points := points[point.id := point];
      assert points == Upsert(old(points), [point]) by {
        assert [point][..0] == [];
      }
      r := Ok(post);
    }

    /** SearchSimilarBlogPostsAsync: POST the query vector with the limit,
        asking for payloads and no vectors, and turn each hit into a new
        BlogPost, in hit order. The object initializer overwrites the id the
        constructor drew; the k-th post created takes the k-th timestamp. */
    method SearchSimilarBlogPosts(queryVector: Vector, maxResults: int, searcher: SearchRequest -> SearchReply, clock: nat -> int)
      returns (r: Result<seq<BlogPost>>, ghost sent: SearchRequest)
      ensures sent == SearchRequest(SearchUrl(), queryVector, maxResults, true, false)
      ensures var expected := SearchResult(searcher(sent), clock);
        && r.Ok? == expected.Ok?
        && (expected.Err? ==> r.error == expected.error)
        && (expected.Ok? ==> |r.value| == |expected.value| && forall i :: 0 <= i < |r.value| ==> r.value[i].Snapshot() == expected.value[i])
      ensures r.Ok? ==> forall i :: 0 <= i < |r.value| ==> fresh(r.value[i])
    {
      var request := SearchRequest(SearchUrl(), queryVector, maxResults, true, false);
      sent := request;
      var resp := searcher(request);
      if resp.NoReply? {
        return Err(Transport), sent;
      }
      if !IsSuccessStatus(resp.status) {
        return Err(HttpStatus(resp.status)), sent;
      }
      if !resp.document.Results? {
        return Err(Malformed), sent;
      }
      var hits := resp.document.hits;
      var results: seq<BlogPost> := [];
      var i := 0;
      while i < |hits|
        invariant 0 <= i <= |hits| && |results| == i
        invariant forall k :: 0 <= k < i ==> WellFormedHit(hits[k])
        invariant forall k :: 0 <= k < i ==> results[k].Snapshot() == HitPost(hits[k], clock(k))
        invariant forall k :: 0 <= k < i ==> fresh(results[k])
      {
        var hit := hits[i];
        if !WellFormedHit(hit) {
          return Err(Malformed), sent;
        }
        var blogPost := new BlogPost(hit.id.value, clock(i));
        blogPost.title := FieldText(hit.payload.value.title);
        blogPost.url := FieldText(hit.payload.value.url);
        results := results + [blogPost];
        i := i + 1;
      }
      r := Ok(results);
    }
  }
}
