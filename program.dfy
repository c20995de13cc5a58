/** The two menu actions of Program.cs: ProcessBlogsAsync (optionally clear
    the index, harvest the feed, embed and save every post, count the saves)
    and SearchBlogsAsync (reject a blank query, embed it, search with a
    fixed limit). The console answers are parameters; the embedding
    generator is an oracle from the text to a vector, None when it throws. */
module Program {
  import opened Common
  import opened Models
  import opened Feed
  import opened VectorStore

  /** The limit SearchBlogsAsync passes to the index. */
  const MaxResults: int := 5

  // ---------------------------------------------------------------------
  // The clear-first prompt

  function LowerChar(c: char): char {
    if 'A' <= c <= 'Z' then (c as int - 'A' as int + 'a' as int) as char else c
  }

  /** string.ToLower, on the letters that can matter here: A to Z. */
  function ToLower(s: string): string {
    seq(|s|, i requires 0 <= i < |s| => LowerChar(s[i]))
  }

  /** `Console.ReadLine()?.ToLower()` is "y" or "yes"; a null answer is not. */
  predicate WantsClear(answer: Option<string>) {
    answer.Some? && (ToLower(answer.value) == "y" || ToLower(answer.value) == "yes")
  }

  /** The answers that clear are y and yes in any mix of upper and lower
      case, and no others. */
  lemma WantsClearIff(answer: Option<string>)
    ensures WantsClear(answer) <==>
      answer.Some? &&
      var a := answer.value;
      || (|a| == 1 && a[0] in "yY")
      || (|a| == 3 && a[0] in "yY" && a[1] in "eE" && a[2] in "sS")
  {
    if answer.Some? {
      var a := answer.value;
      if |a| == 1 {
        assert ToLower(a) == [LowerChar(a[0])];
      } else if |a| == 3 {
        assert ToLower(a) == [LowerChar(a[0]), LowerChar(a[1]), LowerChar(a[2])];
      }
    }
  }

  // ---------------------------------------------------------------------
  // The query check

  /** char.IsWhiteSpace: the Unicode space separators, the line and
      paragraph separators, U+0009 to U+000D, U+0085 and U+00A0. */
  predicate IsWhiteSpace(c: char) {
    || '\t' <= c <= '\r'
    || c == ' '
    || c == '\U{0085}'
    || c == '\U{00A0}'
    || c == '\U{1680}'
    || '\U{2000}' <= c <= '\U{200A}'
    || c == '\U{2028}'
    || c == '\U{2029}'
    || c == '\U{202F}'
    || c == '\U{205F}'
    || c == '\U{3000}'
  }

  /** string.IsNullOrWhiteSpace. */
  predicate IsNullOrWhiteSpace(s: Option<string>) {
    s.None? || forall i :: 0 <= i < |s.value| ==> IsWhiteSpace(s.value[i])
  }

  /** Null, the empty string and all-whitespace strings are refused; a string
      with any other character is searched. */
  lemma BlankQueries(s: string)
    ensures IsNullOrWhiteSpace(None) && IsNullOrWhiteSpace(Some(""))
    ensures IsNullOrWhiteSpace(Some(s)) <==> !exists i :: 0 <= i < |s| && !IsWhiteSpace(s[i])
    ensures !IsNullOrWhiteSpace(Some(s)) ==> |s| > 0
  {
  }

  // ---------------------------------------------------------------------
  // One post of the ingestion loop

  /** What the try block did for one post: the embedding threw, or it gave
      a vector and the save then succeeded or threw. */
  datatype PostOutcome = EmbedFailed | Embedded(vector: Vector, saved: bool)

  predicate Saved(o: PostOutcome) {
    o.Embedded? && o.saved
  }

  /** The outcome for a post with these field values: the embedding is asked
      for the content, and the point saved carries the new vector. */
  function OutcomeOf(svc: QdrantService, p: PostValue, embed: string -> Option<Vector>, server: Request -> HttpOutcome): PostOutcome
  {
    match embed(p.content)
    case None => EmbedFailed
    case Some(v) => Embedded(v, EnsureSuccess(server(UpsertPoints(svc.PointsUrl(), [Projection(p.(vector := v))]))).Ok?)
  }

  /** The post after its attempt: the vector is set as soon as the embedding
      returns, whether or not the save succeeds. */
  function Attempted(p: PostValue, o: PostOutcome): PostValue {
    if o.Embedded? then p.(vector := o.vector) else p
  }

  /** Only the content is embedded: the combined text, the categories and the
      timestamp play no part in a post's outcome. */
  lemma OutcomeIgnoresCombinedText(svc: QdrantService, p: PostValue, embed: string -> Option<Vector>, server: Request -> HttpOutcome,
                                   combinedText: string, categories: seq<string>, createdAt: int)
    ensures OutcomeOf(svc, p.(combinedText := combinedText, categories := categories, createdAt := createdAt), embed, server)
         == OutcomeOf(svc, p, embed, server)
  {
    var q := p.(combinedText := combinedText, categories := categories, createdAt := createdAt);
    if embed(p.content).Some? {
      var v := embed(p.content).value;
      ProjectionIgnores(p.(vector := v), p.content, categories, combinedText, createdAt);
      assert q.(vector := v) == p.(vector := v).(content := p.content, categories := categories, combinedText := combinedText, createdAt := createdAt);
    }
  }

  /** The try block for one post, with its catch: embed the content, set the
      vector, save; report whether the save went through. `value` is the
      post before the attempt; `posts` and `i` place it among the harvested
      posts, so that the contract can say the others stay as they are. */
  method ProcessPost(svc: QdrantService, post: BlogPost, ghost value: PostValue, ghost posts: seq<BlogPost>, ghost i: nat,
                     embed: string -> Option<Vector>, server: Request -> HttpOutcome)
    returns (saved: bool)
    requires post.Snapshot() == value
    requires i < |posts| && posts[i] == post
    requires forall j, k :: 0 <= j < k < |posts| ==> posts[j] != posts[k]
    modifies svc`points, post`vector
    ensures var o := OutcomeOf(svc, value, embed, server);
      && post.Snapshot() == Attempted(value, o)
      && saved == Saved(o)
      && svc.points == if saved then old(svc.points)[value.id := Projection(Attempted(value, o))] else old(svc.points)
    ensures forall k :: 0 <= k < |posts| && k != i ==> posts[k].Snapshot() == old(posts[k].Snapshot())
  {
    var embedding := embed(post.content);
    if embedding.None? {
      return false;
    }
    post.vector := embedding.value;
    var r := svc.SaveBlogPost(post, server);
    saved := r.Ok?;
    assert [Projection(post.Snapshot())][..0] == [];
  }

  // ---------------------------------------------------------------------
  // The ingestion fold

  /** The outcome of every post, each on its own. */
  function Outcomes(svc: QdrantService, ps: seq<PostValue>, embed: string -> Option<Vector>, server: Request -> HttpOutcome): seq<PostOutcome>
  {
    seq(|ps|, i requires 0 <= i < |ps| => OutcomeOf(svc, ps[i], embed, server))
  }

  /** processedCount: the number of saves that went through. */
  function CountSaved(outs: seq<PostOutcome>): (n: nat)
    ensures n <= |outs|
  {
    if outs == [] then 0 else CountSaved(outs[..|outs| - 1]) + (if Saved(outs[|outs| - 1]) then 1 else 0)
  }

  /** The points saved, in the order of the posts. */
  function SavedPoints(ps: seq<PostValue>, outs: seq<PostOutcome>): seq<IndexPoint>
    requires |ps| == |outs|
  {
    if ps == [] then []
    else
      var last := |ps| - 1;
      SavedPoints(ps[..last], outs[..last]) + (if Saved(outs[last]) then [Projection(Attempted(ps[last], outs[last]))] else [])
  }

  /** The count adds up over consecutive runs of posts. */
  lemma {:induction false} CountSavedAppend(a: seq<PostOutcome>, b: seq<PostOutcome>)
    ensures CountSaved(a + b) == CountSaved(a) + CountSaved(b)
    decreases |b|
  {
    if b != [] {
      var init := b[..|b| - 1];
      assert (a + b)[..|a + b| - 1] == a + init;
      CountSavedAppend(a, init);
    } else {
      assert a + b == a;
    }
  }

  /** Every post counts exactly when every post was saved. */
  lemma {:induction false} CountSavedAll(outs: seq<PostOutcome>)
    ensures CountSaved(outs) == |outs| <==> forall i :: 0 <= i < |outs| ==> Saved(outs[i])
  {
    if outs != [] {
      var init := outs[..|outs| - 1];
      CountSavedAll(init);
      if forall i :: 0 <= i < |outs| ==> Saved(outs[i]) {
        forall i | 0 <= i < |init| ensures Saved(init[i]) {
          assert init[i] == outs[i];
        }
      } else if CountSaved(outs) == |outs| {
        forall i | 0 <= i < |outs| ensures Saved(outs[i]) {
          if i < |init| {
            assert init[i] == outs[i];
          }
        }
      }
    }
  }

  /** One post's failure costs that post only: saving it instead would add
      exactly one to the count. */
  lemma CountSavedOneMore(outs: seq<PostOutcome>, i: nat, v: Vector)
    requires i < |outs| && !Saved(outs[i])
    ensures CountSaved(outs[i := Embedded(v, true)]) == CountSaved(outs) + 1
  {
    var a, b := outs[..i], outs[i + 1..];
    assert outs == a + [outs[i]] + b;
    assert outs[i := Embedded(v, true)] == a + [Embedded(v, true)] + b;
    CountSavedAppend(a + [outs[i]], b);
    CountSavedAppend(a + [Embedded(v, true)], b);
    CountSavedAppend(a, [outs[i]]);
    CountSavedAppend(a, [Embedded(v, true)]);
    assert [outs[i]][..0] == [] && [Embedded(v, true)][..0] == [];
  }

  /** One point is saved per counted post. */
  lemma {:induction false} SavedPointsCount(ps: seq<PostValue>, outs: seq<PostOutcome>)
    requires |ps| == |outs|
    ensures |SavedPoints(ps, outs)| == CountSaved(outs)
  {
    if ps != [] {
      SavedPointsCount(ps[..|ps| - 1], outs[..|outs| - 1]);
    }
  }

  /** With distinct ids, every saved post ends up in the index with its
      title, URL and new vector. */
  lemma {:induction false} SavedPostIndexed(start: map<string, IndexPoint>, ps: seq<PostValue>, outs: seq<PostOutcome>, i: nat)
    requires |ps| == |outs| && i < |ps| && Saved(outs[i])
    requires forall j, k :: 0 <= j < k < |ps| ==> ps[j].id != ps[k].id
    ensures ps[i].id in Upsert(start, SavedPoints(ps, outs))
    ensures Upsert(start, SavedPoints(ps, outs))[ps[i].id] == Projection(Attempted(ps[i], outs[i]))
  {
    var last := |ps| - 1;
    var init, initOuts := ps[..last], outs[..last];
    var before := SavedPoints(init, initOuts);
    if i < last {
      assert init[i] == ps[i] && initOuts[i] == outs[i];
      SavedPostIndexed(start, init, initOuts, i);
      if Saved(outs[last]) {
        UpsertAppendOne(start, before, Projection(Attempted(ps[last], outs[last])));
      } else {
        assert SavedPoints(ps, outs) == before;
      }
    } else {
      UpsertAppendOne(start, before, Projection(Attempted(ps[last], outs[last])));
    }
  }

  lemma UpsertAppendOne(start: map<string, IndexPoint>, ps: seq<IndexPoint>, p: IndexPoint)
    ensures Upsert(start, ps + [p]) == Upsert(start, ps)[p.id := p]
  {
    assert (ps + [p])[..|ps|] == ps;
  }

  // ---------------------------------------------------------------------
  // ProcessBlogsAsync

  /** How ProcessBlogsAsync ended: the outer catch took an exception from the
      clearing step, or the loop ran with this count out of this total. */
  datatype IngestOutcome = Aborted | Completed(processed: nat, total: nat)

  /** What the index holds before the first save. */
  function StartPoints(svc: QdrantService, stored: map<string, IndexPoint>, answer: Option<string>, server: Request -> HttpOutcome): map<string, IndexPoint>
  {
    if WantsClear(answer) && EnsureSuccess(server(DeletePoints(svc.DeleteUrl()))).Ok? then map[] else stored
  }

  /** The foreach loop of ProcessBlogsAsync: every post is tried once, in
      order, and a failure moves on to the next one. Returns processedCount. */
  method EmbedAndSave(svc: QdrantService, posts: seq<BlogPost>, ghost values: seq<PostValue>,
                      embed: string -> Option<Vector>, server: Request -> HttpOutcome)
    returns (processedCount: nat)
    requires |posts| == |values|
    requires forall k :: 0 <= k < |posts| ==> posts[k].Snapshot() == values[k]
    requires forall j, k :: 0 <= j < k < |posts| ==> posts[j] != posts[k]
    modifies svc`points, posts
    ensures var outs := Outcomes(svc, values, embed, server);
      && processedCount == CountSaved(outs)
      && (forall i :: 0 <= i < |posts| ==> posts[i].Snapshot() == Attempted(values[i], outs[i]))
      && svc.points == Upsert(old(svc.points), SavedPoints(values, outs))
  {
    ghost var outs := Outcomes(svc, values, embed, server);
    processedCount := 0;
    var i := 0;
    while i < |posts|
      invariant 0 <= i <= |posts|
      invariant processedCount == CountSaved(outs[..i])
      invariant svc.points == Upsert(old(svc.points), SavedPoints(values[..i], outs[..i]))
      invariant forall k :: 0 <= k < |posts| ==> posts[k].Snapshot() == if k < i then Attempted(values[k], outs[k]) else values[k]
    {
      assert outs[i] == OutcomeOf(svc, values[i], embed, server);
      var saved := ProcessPost(svc, posts[i], values[i], posts, i, embed, server);
      IngestStep(old(svc.points), values, outs, i);
      if saved {
        processedCount := processedCount + 1;
      }
      i := i + 1;
    }
    assert values[..i] == values && outs[..i] == outs;
  }

  /** Taking one more post into the fold. */
  lemma IngestStep(start: map<string, IndexPoint>, ps: seq<PostValue>, outs: seq<PostOutcome>, i: nat)
    requires |ps| == |outs| && i < |ps|
    ensures CountSaved(outs[..i + 1]) == CountSaved(outs[..i]) + (if Saved(outs[i]) then 1 else 0)
    ensures Upsert(start, SavedPoints(ps[..i + 1], outs[..i + 1])) ==
      if Saved(outs[i]) then Upsert(start, SavedPoints(ps[..i], outs[..i]))[ps[i].id := Projection(Attempted(ps[i], outs[i]))]
      else Upsert(start, SavedPoints(ps[..i], outs[..i]))
  {
    var ps1, outs1 := ps[..i + 1], outs[..i + 1];
    assert ps1[..i] == ps[..i] && ps1[i] == ps[i];
    assert outs1[..i] == outs[..i] && outs1[i] == outs[i];
    var before := SavedPoints(ps[..i], outs[..i]);
    assert SavedPoints(ps1, outs1) == before + (if Saved(outs[i]) then [Projection(Attempted(ps[i], outs[i]))] else []);
    if Saved(outs[i]) {
      UpsertAppendOne(start, before, Projection(Attempted(ps[i], outs[i])));
    } else {
      assert before + [] == before;
    }
  }

  /** ProcessBlogsAsync. Clears the index first when the answer is y or yes,
      harvests the feed, and then tries every harvested post once, in order:
      embed its content, set its vector, save it; a failure moves on to the
      next post. The count is the number of saves that went through. A
      transport failure while clearing ends the action before harvesting.
      `posts` are the harvested posts in their final state. */
  method ProcessBlogs(svc: QdrantService, answer: Option<string>,
                      fetch: string -> FetchOutcome, parse: string -> Option<seq<Item>>, ids: nat -> string, clock: nat -> int,
                      ghost pages: nat -> Page,
                      embed: string -> Option<Vector>, server: Request -> HttpOutcome)
    returns (outcome: IngestOutcome, posts: seq<BlogPost>)
    requires IsFeed(pages, fetch, parse) && Terminates(pages)
    modifies svc`points
    ensures outcome.Aborted? <==> WantsClear(answer) && server(DeletePoints(svc.DeleteUrl())).Unreachable?
    ensures outcome.Aborted? ==> posts == [] && svc.points == old(svc.points)
    ensures forall i :: 0 <= i < |posts| ==> fresh(posts[i])
    ensures forall i, j :: 0 <= i < j < |posts| ==> posts[i] != posts[j]
    ensures outcome.Completed? ==>
      var harvested := Harvested(pages, ids, clock);
      var outs := Outcomes(svc, harvested, embed, server);
      && outcome.total == |harvested| == |posts|
      && outcome.processed == CountSaved(outs)
      && (forall i :: 0 <= i < |posts| ==> posts[i].Snapshot() == Attempted(harvested[i], outs[i]))
      && svc.points == Upsert(StartPoints(svc, old(svc.points), answer, server), SavedPoints(harvested, outs))
  {
    if WantsClear(answer) {
      var cleared := svc.ClearAllData(server);
      if cleared.Err? {
        return Aborted, [];
      }
    }
    ghost var requested;
    posts, requested := GetAllBlogPosts(fetch, parse, ids, clock, pages);
    var processedCount := EmbedAndSave(svc, posts, Harvested(pages, ids, clock), embed, server);
    outcome := Completed(processedCount, |posts|);
  }

  // ---------------------------------------------------------------------
  // SearchBlogsAsync

  datatype SearchOutcome = EmptyQuery | SearchFailed(error: Error) | Found(posts: seq<BlogPost>)

  /** SearchBlogsAsync. A null or blank query is refused before the
      embedding generator or the index is called; otherwise the query is
      embedded and searched with a limit of 5, and a failure of either call
      is caught. `embedded` is the text given to the generator and `sent`
      the search request, when there are such calls. */
  method SearchBlogs(svc: QdrantService, query: Option<string>,
                     embed: string -> Option<Vector>, searcher: SearchRequest -> SearchReply, clock: nat -> int)
    returns (outcome: SearchOutcome, ghost embedded: Option<string>, ghost sent: Option<SearchRequest>)
    ensures outcome.EmptyQuery? <==> IsNullOrWhiteSpace(query)
    ensures IsNullOrWhiteSpace(query) ==> embedded.None? && sent.None?
    ensures !IsNullOrWhiteSpace(query) ==> embedded == Some(query.value)
    ensures !IsNullOrWhiteSpace(query) && embed(query.value).None? ==> outcome == SearchFailed(EmbeddingFailed) && sent.None?
    ensures !IsNullOrWhiteSpace(query) && embed(query.value).Some? ==>
      && sent == Some(SearchRequest(svc.SearchUrl(), embed(query.value).value, MaxResults, true, false))
      && var expected := SearchResult(searcher(sent.value), clock);
      && (expected.Err? ==> outcome == SearchFailed(expected.error))
      && (expected.Ok? ==>
            && outcome.Found? && |outcome.posts| == |expected.value|
            && forall i :: 0 <= i < |outcome.posts| ==> outcome.posts[i].Snapshot() == expected.value[i])
  {
    if IsNullOrWhiteSpace(query) {
      return EmptyQuery, None, None;
    }
    embedded := Some(query.value);
    var queryEmbedding := embed(query.value);
    if queryEmbedding.None? {
      return SearchFailed(EmbeddingFailed), embedded, None;
    }
    var results, request := svc.SearchSimilarBlogPosts(queryEmbedding.value, MaxResults, searcher, clock);
    sent := Some(request);
    if results.Err? {
      return SearchFailed(results.error), embedded, sent;
    }
    outcome := Found(results.value);
  }
}
