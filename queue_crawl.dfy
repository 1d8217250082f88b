/** The breadth-first crawler of main.go: a FIFO queue of (url, depth) items,
    a visited set and an append-only list of videos, all global state that
    `ScrapeRelatedVideo` updates one item at a time until the queue is empty. */
module QueueCrawl {
  import opened Counters
  import opened Pages

  /** The metadata main.go records for one video. */
  datatype Video = Video(title: string, category: string, views: nat, likes: nat, dislikes: nat)

  /** Go's zero value of `Video`. */
  const ZeroVideo := Video("", "", 0, 0, 0)

  /** A queued unit of work: a url and its remaining depth (`tuple`). */
  datatype Item = Item(url: string, depth: int)

  const BaseURL := "https://www.youtube.com"

  /** The depth `main` gives the seed. */
  const SeedDepth := 2

  /** The video one container describes (one pass of `GetVideoInfo`'s loop). */
  function ContainerVideo(c: Container): Result<Video> {
    match ContainerStats(c)
    case Err(e) => Err(e)
    case Ok(s) => Ok(Video(c.title, c.category, s.views, s.likes, s.dislikes))
  }

  /** What `GetVideoInfo` returns: each container overwrites the previous
      one's video; a counter that does not parse panics. */
  function VideoInfo(doc: Doc): Result<Video> {
    if doc == [] then Ok(ZeroVideo)
    else
      match VideoInfo(doc[..|doc| - 1])
      case Err(e) => Err(e)
      case Ok(_) => ContainerVideo(doc[|doc| - 1])
  }

  /** `GetVideoInfo` succeeds exactly when every container's counters parse. */
  lemma {:induction false} VideoInfoOkIff(doc: Doc)
    ensures VideoInfo(doc).Ok? <==> forall i | 0 <= i < |doc| :: ContainerVideo(doc[i]).Ok?
  {
    if doc != [] {
      var init, last := doc[..|doc| - 1], doc[|doc| - 1];
      VideoInfoOkIff(init);
      if VideoInfo(doc).Ok? {
        assert VideoInfo(init).Ok? && ContainerVideo(last).Ok?;
        forall i | 0 <= i < |doc| ensures ContainerVideo(doc[i]).Ok? {
          if i < |init| {
            assert doc[i] == init[i];
          }
        }
      } else if VideoInfo(init).Ok? {
        assert !ContainerVideo(doc[|doc| - 1]).Ok?;
      } else {
        var i :| 0 <= i < |init| && !ContainerVideo(init[i]).Ok?;
        assert doc[i] == init[i];
      }
    }
  }

  /** A page without containers gives the zero Video, and otherwise the last
      container's video wins. */
  lemma VideoInfoLastWins(doc: Doc)
    ensures doc == [] ==> VideoInfo(doc) == Ok(ZeroVideo)
    ensures doc != [] && VideoInfo(doc).Ok? ==> VideoInfo(doc) == ContainerVideo(doc[|doc| - 1])
  {
  }

  method GetVideoInfo(doc: Doc) returns (info: Result<Video>)
    ensures info == VideoInfo(doc)
  {
    info := Ok(ZeroVideo);
    var i := 0;
    while i < |doc|
      invariant 0 <= i <= |doc|
      invariant info.Ok? && info == VideoInfo(doc[..i])
    {
      assert doc[..i + 1][..i] == doc[..i];
      var video := ContainerVideo(doc[i]);
      if video.Err? {
        assert VideoInfo(doc[..i + 1]).Err?;
        VideoInfoFailureSticks(doc, i + 1);
        return video;
      }
      info := video;
      i := i + 1;
    }
    assert doc[..i] == doc;
  }

  /** Once a container fails, the whole page fails. */
  lemma {:induction false} VideoInfoFailureSticks(doc: Doc, k: nat)
    requires k <= |doc| && VideoInfo(doc[..k]).Err?
    ensures VideoInfo(doc) == VideoInfo(doc[..k])
    decreases |doc| - k
  {
    if k < |doc| {
      assert doc[..k + 1][..k] == doc[..k];
      VideoInfoFailureSticks(doc, k + 1);
    } else {
      assert doc[..k] == doc;
    }
  }

  /** The work items for a list of hrefs: `baseURL + href` at the given depth. */
  function Items(hrefs: seq<string>, depth: int): (items: seq<Item>)
    ensures |items| == |hrefs|
  {
    seq(|hrefs|, k requires 0 <= k < |hrefs| => Item(BaseURL + hrefs[k], depth))
  }

  /** The urls a fetched page sends to the queue, in document order. */
  function ChildURLs(doc: Doc): seq<string> {
    var hrefs := Links(doc);
    seq(|hrefs|, k requires 0 <= k < |hrefs| => BaseURL + hrefs[k])
  }

  /** The urls of `urls` in order, each the first time it appears and only if
      it is not in `seen`: the order in which the queue fetches them. */
  function Fresh(urls: seq<string>, seen: set<string>): seq<string> {
    if urls == [] then []
    else
      var prev := Fresh(urls[..|urls| - 1], seen);
      var u := urls[|urls| - 1];
      if u in seen || u in prev then prev else prev + [u]
  }

  /** `Fresh` lists every unseen url of its input once and nothing else. */
  lemma {:induction false} FreshMeaning(urls: seq<string>, seen: set<string>)
    ensures Distinct(Fresh(urls, seen))
    ensures forall u :: u in Fresh(urls, seen) <==> u in urls && u !in seen
  {
    if urls != [] {
      var init := urls[..|urls| - 1];
      FreshMeaning(init, seen);
      assert urls == init + [urls[|urls| - 1]];
    }
  }

  class Crawler {
    /** The fetch oracle standing in for `http.Get` and goquery. */
    const web: Web

    var queue: seq<Item>
    var visited: set<string>
    var relatedVideos: seq<Video>

    /** The urls fetched so far, in fetch order. */
    ghost var fetched: seq<string>

    /** Every visited url was fetched exactly once and gave exactly one video. */
    ghost predicate Valid()
      reads this
    {
      && |relatedVideos| == |fetched|
      && Distinct(fetched)
      && (forall u :: u in visited <==> u in fetched)
      && (forall i | 0 <= i < |fetched| :: fetched[i] in web && VideoInfo(web[fetched[i]]) == Ok(relatedVideos[i]))
    }

    /** The globals as the program starts. */
    constructor (web: Web)
      ensures this.web == web && queue == [] && visited == {} && relatedVideos == [] && fetched == []
      ensures Valid()
    {
      this.web := web;
      queue, visited, relatedVideos := [], {}, [];
      fetched := [];
    }

    /** `checkVisit`: passes for the empty url and for a visited url. */
    function CheckVisit(url: string): (ok: bool)
      reads this
    {
      url == "" || url in visited
    }

    /** In a consistent state `checkVisit` passes exactly for the empty url
        and the urls the crawl has fetched. */
    lemma CheckVisitMeaning(url: string)
      requires Valid()
      ensures CheckVisit(url) <==> url == "" || url in fetched
    {
    }

    /** Pops one item. It is dropped when its url was visited or its depth
        is not positive. Otherwise its url is marked, fetched and its video
        appended, and every link of the page is pushed at `depth - 1`. A
        failed fetch or an unparsable counter panics. */
    method ScrapeRelatedVideo() returns (panicked: bool)
      requires |queue| > 0
      modifies this
      ensures var t := old(queue[0]);
        if t.url in old(visited) || t.depth <= 0 then
          && !panicked && queue == old(queue[1..]) && visited == old(visited)
          && relatedVideos == old(relatedVideos) && fetched == old(fetched)
        else
          && visited == old(visited) + {t.url}
          && (panicked <==> t.url !in web || VideoInfo(web[t.url]).Err?)
          && (panicked ==>
                queue == old(queue[1..]) && relatedVideos == old(relatedVideos) && fetched == old(fetched))
          && (!panicked ==>
                && queue == old(queue[1..]) + Items(Links(web[t.url]), t.depth - 1)
                && relatedVideos == old(relatedVideos) + [VideoInfo(web[t.url]).value]
                && fetched == old(fetched) + [t.url])
      ensures old(Valid()) && !panicked ==> Valid()
    {
      var t := queue[0];
      queue := queue[1..];
      if t.url in visited || t.depth <= 0 {
        return false;
      }
      visited := visited + {t.url};
      if t.url !in web {
        return true;
      }
      var doc := web[t.url];
      var info := GetVideoInfo(doc);
      if info.Err? {
        return true;
      }
      relatedVideos := relatedVideos + [info.value];
      fetched := fetched + [t.url];
      PushLinks(doc, t.depth - 1);
      return false;
    }

    /** The `Each` callbacks of `ScrapeRelatedVideo`: push every link of the
        page, container by container, at the back of the queue. */
    method PushLinks(doc: Doc, depth: int)
      modifies this
      ensures queue == old(queue) + Items(Links(doc), depth)
      ensures visited == old(visited) && relatedVideos == old(relatedVideos) && fetched == old(fetched)
    {
      var i := 0;
      while i < |doc|
        invariant 0 <= i <= |doc|
        invariant queue == old(queue) + Items(Links(doc[..i]), depth)
        invariant visited == old(visited) && relatedVideos == old(relatedVideos) && fetched == old(fetched)
      {
        assert doc[..i + 1][..i] == doc[..i];
        var links := doc[i].links;
        var j := 0;
        while j < |links|
          invariant 0 <= j <= |links|
          invariant queue == old(queue) + Items(Links(doc[..i]) + links[..j], depth)
          invariant visited == old(visited) && relatedVideos == old(relatedVideos) && fetched == old(fetched)
        {
          assert links[..j + 1] == links[..j] + [links[j]];
          queue := queue + [Item(BaseURL + links[j], depth)];
          j := j + 1;
        }
        assert links[..j] == links;
        i := i + 1;
      }
      assert doc[..i] == doc;
    }
  }

  /** The state of the queue crawl once the seed has been expanded and the
      first `k` of its children have been popped: the rest of the children
      are still queued at depth 1, behind nothing but depth-0 items, and the
      fetched urls are the seed followed by the new ones among those `k`. */
  ghost predicate Expanded(web: Web, seed: string, k: nat, queue: seq<Item>, fetched: seq<string>) {
    && seed in web
    && var children := Items(Links(web[seed]), SeedDepth - 1);
    && k <= |children|
    && |children| - k <= |queue|
    && queue[..|children| - k] == children[k..]
    && (forall i | |children| - k <= i < |queue| :: queue[i].depth == 0)
    && fetched == [seed] + Fresh(ChildURLs(web[seed])[..k], {seed})
  }

  /** Popping the seed from the otherwise empty queue expands it. */
  lemma SeedStep(web: Web, seed: string, queue: seq<Item>, fetched: seq<string>)
    requires seed in web
    requires queue == Items(Links(web[seed]), SeedDepth - 1) && fetched == [seed]
    ensures Expanded(web, seed, 0, queue, fetched)
  {
    assert ChildURLs(web[seed])[..0] == [];
  }

  /** One more pop keeps the queue crawl `Expanded`: a depth-1 child of the
      seed is fetched unless already fetched and pushes only depth-0 items;
      a depth-0 item is dropped. */
  lemma ExpandedStep(web: Web, seed: string, k: nat, queue: seq<Item>, fetched: seq<string>,
                     visited: set<string>, queue': seq<Item>, fetched': seq<string>) returns (k': nat)
    requires Expanded(web, seed, k, queue, fetched) && |queue| > 0
    requires forall u :: u in visited <==> u in fetched
    requires queue[0].url in visited || queue[0].depth <= 0 ==> queue' == queue[1..] && fetched' == fetched
    requires !(queue[0].url in visited || queue[0].depth <= 0) ==>
      && queue[0].url in web
      && queue' == queue[1..] + Items(Links(web[queue[0].url]), queue[0].depth - 1)
      && fetched' == fetched + [queue[0].url]
    ensures Expanded(web, seed, k', queue', fetched')
  {
    var children := Items(Links(web[seed]), SeedDepth - 1);
    var urls := ChildURLs(web[seed]);
    assert |urls| == |children|;
    if k < |children| {
      assert queue[0] == children[k];
      assert urls[..k + 1][..k] == urls[..k];
      assert queue'[..|children| - (k + 1)] == children[k + 1..];
      FreshMeaning(urls[..k], {seed});
      k' := k + 1;
    } else {
      assert queue[0].depth == 0;
      k' := k;
    }
  }

  /** `main`: push the seed at depth 2 and call `ScrapeRelatedVideo` until the
      queue is empty. Unless a fetch panics, exactly the seed and the urls it
      links to are fetched, each once: the seed first, then its links in
      document order. Each gives one video, in the same order. */
  method RunFromSeed(web: Web, seed: string) returns (videos: seq<Video>, panicked: bool)
    ensures panicked <==> SomeFetchFails(web, seed)
    ensures !panicked ==> seed in web
    ensures !panicked ==>
      var order := [seed] + Fresh(ChildURLs(web[seed]), {seed});
      && |videos| == |order|
      && forall i | 0 <= i < |order| :: order[i] in web && VideoInfo(web[order[i]]) == Ok(videos[i])
  {
    var c := new Crawler(web);
    c.queue := c.queue + [Item(seed, SeedDepth)];
    panicked := false;
    ghost var k: nat := 0;
    while |c.queue| != 0 && !panicked
      invariant c.web == web
      invariant !panicked ==> c.Valid()
      invariant !panicked && c.visited == {} ==> c.queue == [Item(seed, SeedDepth)] && c.fetched == [] && k == 0
      invariant !panicked && c.visited != {} ==> Expanded(web, seed, k, c.queue, c.fetched)
      invariant panicked ==> SomeFetchFails(web, seed)
      decreases c.web.Keys - c.visited, |c.queue|
    {
      ghost var started := c.visited != {};
      ghost var q, f, v := c.queue, c.fetched, c.visited;
      panicked := c.ScrapeRelatedVideo();
      if !panicked {
        if !started {
          SeedStep(web, seed, c.queue, c.fetched);
        } else {
          k := ExpandedStep(web, seed, k, q, f, v, c.queue, c.fetched);
        }
      } else {
        PanicStep(web, seed, started, k, q, f, v);
      }
    }
    if !panicked {
      assert Expanded(web, seed, k, c.queue, c.fetched);
      var urls := ChildURLs(web[seed]);
      assert urls[..k] == urls;
      NoFetchFails(web, seed, c.fetched, c.relatedVideos);
    }
    videos := c.relatedVideos;
  }

  /** Fetching `u` panics: the oracle does not serve it, or one of its
      counters does not parse. */
  predicate Fails(web: Web, u: string) {
    u !in web || VideoInfo(web[u]).Err?
  }

  /** Some url the queue crawl from `seed` reaches fails: the seed itself, or
      one of the new urls it links to. */
  predicate SomeFetchFails(web: Web, seed: string) {
    Fails(web, seed) || exists u | u in Fresh(ChildURLs(web[seed]), {seed}) :: Fails(web, u)
  }

  /** The item whose fetch panics in the expanded phase is one of the seed's
      new links. */
  lemma PanicCulprit(web: Web, seed: string, k: nat, queue: seq<Item>, fetched: seq<string>, visited: set<string>)
    requires Expanded(web, seed, k, queue, fetched) && |queue| > 0
    requires forall u :: u in visited <==> u in fetched
    requires !(queue[0].url in visited || queue[0].depth <= 0)
    ensures queue[0].url in Fresh(ChildURLs(web[seed]), {seed})
  {
    var children := Items(Links(web[seed]), SeedDepth - 1);
    var urls := ChildURLs(web[seed]);
    assert k < |children|;
    assert queue[0] == children[k];
    assert queue[0].url == urls[k];
    assert seed in fetched;
    FreshMeaning(urls, {seed});
  }

  /** A pop that panics, from the seed alone or from an expanded queue, shows
      that some url of the crawl fails. */
  lemma PanicStep(web: Web, seed: string, started: bool, k: nat, queue: seq<Item>, fetched: seq<string>, visited: set<string>)
    requires !started ==> queue == [Item(seed, SeedDepth)]
    requires started ==> Expanded(web, seed, k, queue, fetched) && |queue| > 0
    requires forall u :: u in visited <==> u in fetched
    requires !(queue[0].url in visited || queue[0].depth <= 0)
    requires Fails(web, queue[0].url)
    ensures SomeFetchFails(web, seed)
  {
    if started {
      PanicCulprit(web, seed, k, queue, fetched, visited);
    }
  }

  /** When every url of the crawl was fetched with a video, none of them fails. */
  lemma NoFetchFails(web: Web, seed: string, fetched: seq<string>, videos: seq<Video>)
    requires seed in web && fetched == [seed] + Fresh(ChildURLs(web[seed]), {seed})
    requires |videos| == |fetched|
    requires forall i | 0 <= i < |fetched| :: fetched[i] in web && VideoInfo(web[fetched[i]]) == Ok(videos[i])
    ensures !SomeFetchFails(web, seed)
  {
    assert !Fails(web, fetched[0]);
    var news := Fresh(ChildURLs(web[seed]), {seed});
    forall u | u in news ensures !Fails(web, u) {
      var j :| 0 <= j < |news| && news[j] == u;
      assert fetched[j + 1] == news[j];
    }
  }

  /** What `RunFromSeed` fetches: each url once, and exactly the seed and the
      urls one hop away from it, so a self-loop or a cycle back to the seed
      fetches nothing twice and nothing two hops away is ever fetched. */
  lemma QueueCrawlFetches(web: Web, seed: string)
    requires seed in web
    ensures var fetched := [seed] + Fresh(ChildURLs(web[seed]), {seed});
      && Distinct(fetched)
      && forall u :: u in fetched <==> u == seed || u in ChildURLs(web[seed])
  {
    var news := Fresh(ChildURLs(web[seed]), {seed});
    FreshMeaning(ChildURLs(web[seed]), {seed});
    var fetched := [seed] + news;
    forall i, j | 0 <= i < j < |fetched| ensures fetched[i] != fetched[j] {
      assert fetched[j] == news[j - 1];
      if i > 0 {
        assert fetched[i] == news[i - 1];
      }
    }
  }
}
