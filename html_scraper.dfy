/** The recursive crawler of scraper.go: a `RelationScraper` whose `Scrape`
    marks a url, scrapes its video from the page and recurses on at most
    `relation` links per container at `depth - 1`. */
module HtmlScraper {
  import opened Counters
  import opened Pages
  import opened DepthFirst

  const BaseURL := "https://www.youtube.com"

  /** Go's zero value of `Video`: no url and no title. */
  const ZeroVideo := Video("", "", 0, 0, 0)

  /** The video one container describes, tagged with the page's url. */
  function ContainerVideo(c: Container, url: string): Result<Video> {
    match ContainerStats(c)
    case Err(e) => Err(e)
    case Ok(s) => Ok(Video(url, c.title, s.views, s.likes, s.dislikes))
  }

  /** What `GetVideoInfo` sends back: each container overwrites the previous
      one's video; a counter that does not parse panics. */
  function VideoInfo(doc: Doc, url: string): Result<Video> {
    if doc == [] then Ok(ZeroVideo)
    else
      match VideoInfo(doc[..|doc| - 1], url)
      case Err(e) => Err(e)
      case Ok(_) => ContainerVideo(doc[|doc| - 1], url)
  }

  /** A page without `div#content` gives the zero Video, whose empty title
      keeps it out of the records; otherwise the page parses exactly when
      every container's counters do, and then the last container wins. */
  lemma {:induction false} VideoInfoMeaning(doc: Doc, url: string)
    ensures doc == [] ==> VideoInfo(doc, url) == Ok(ZeroVideo) && ZeroVideo.title == ""
    ensures VideoInfo(doc, url).Ok? <==> forall i | 0 <= i < |doc| :: ContainerStats(doc[i]).Ok?
    ensures doc != [] && VideoInfo(doc, url).Ok? ==>
      VideoInfo(doc, url) == ContainerVideo(doc[|doc| - 1], url)
    ensures VideoInfo(doc, url).Ok? && VideoInfo(doc, url).value.title != "" ==>
      VideoInfo(doc, url).value.key == url
  {
    if doc != [] {
      var init, last := doc[..|doc| - 1], doc[|doc| - 1];
      VideoInfoMeaning(init, url);
      if VideoInfo(doc, url).Ok? {
        forall i | 0 <= i < |doc| ensures ContainerStats(doc[i]).Ok? {
          if i < |init| {
            assert doc[i] == init[i];
          }
        }
      } else if VideoInfo(init, url).Ok? {
        assert !ContainerStats(doc[|doc| - 1]).Ok?;
      } else {
        var i :| 0 <= i < |init| && !ContainerStats(init[i]).Ok?;
        assert doc[i] == init[i];
      }
    }
  }

  /** Once a container fails, the whole page fails. */
  lemma {:induction false} VideoInfoFailureSticks(doc: Doc, url: string, k: nat)
    requires k <= |doc| && VideoInfo(doc[..k], url).Err?
    ensures VideoInfo(doc, url) == VideoInfo(doc[..k], url)
    decreases |doc| - k
  {
    if k < |doc| {
      assert doc[..k + 1][..k] == doc[..k];
      VideoInfoFailureSticks(doc, url, k + 1);
    } else {
      assert doc[..k] == doc;
    }
  }

  /** The urls whose fetch succeeds: those the oracle serves and whose
      counters parse. */
  function SiteOf(web: Web): Site {
    map u | u in web && VideoInfo(web[u], u).Ok? :: Node(VideoInfo(web[u], u).value, web[u])
  }

  /** Each record's key is one of `urls`. */
  predicate KeysAmong(records: seq<Video>, urls: seq<string>) {
    forall i | 0 <= i < |records| :: records[i].key in urls
  }

  /** No two records share a key. */
  predicate KeysDistinct(records: seq<Video>) {
    forall i, j | 0 <= i < j < |records| :: records[i].key != records[j].key
  }

  /** Every record of this crawler carries the url it was fetched from, so no
      url is recorded twice and each record's url was visited. */
  lemma {:induction false} RecordsKeyedByUrl(web: Web, fetched: seq<string>)
    requires Distinct(fetched)
    ensures KeysAmong(Titled(SiteOf(web), fetched), fetched)
    ensures KeysDistinct(Titled(SiteOf(web), fetched))
  {
    if fetched != [] {
      var init, u := fetched[..|fetched| - 1], fetched[|fetched| - 1];
      assert fetched == init + [u];
      assert Distinct(init) by {
        forall i, j | 0 <= i < j < |init| ensures init[i] != init[j] {
          assert init[i] == fetched[i] && init[j] == fetched[j];
        }
      }
      RecordsKeyedByUrl(web, init);
      var site := SiteOf(web);
      var prev := Titled(site, init);
      var records := Titled(site, fetched);
      assert KeysAmong(prev, init) && KeysDistinct(prev);
      if u in site && site[u].info.title != "" {
        VideoInfoMeaning(web[u], u);
        assert site[u].info.key == u;
        assert u !in init;
        assert records == prev + [site[u].info];
        forall i | 0 <= i < |records| ensures records[i].key in fetched {
          if i < |prev| {
            assert records[i] == prev[i];
            assert prev[i].key in init;
          }
        }
        forall i, j | 0 <= i < j < |records| ensures records[i].key != records[j].key {
          assert records[i] == prev[i];
          if j < |prev| {
            assert records[j] == prev[j];
          } else {
            assert prev[i].key in init;
          }
        }
      } else {
        assert records == prev;
        forall i | 0 <= i < |records| ensures records[i].key in fetched {
          assert prev[i].key in init;
        }
      }
    }
  }

  class RelationScraper {
    const baseURL: string
    const firstURL: string
    /** The fetch oracle standing in for `http.Get` and goquery. */
    const web: Web

    var relatedVideos: seq<Video>
    var visited: set<string>

    /** The urls fetched so far, in fetch order. */
    ghost var fetched: seq<string>

    /** The literal `main` builds, with the seed it reads. */
    constructor (baseURL: string, firstURL: string, web: Web)
      ensures this.baseURL == baseURL && this.firstURL == firstURL && this.web == web
      ensures relatedVideos == [] && visited == {} && fetched == []
    {
      this.baseURL, this.firstURL, this.web := baseURL, firstURL, web;
      relatedVideos, visited := [], {};
      fetched := [];
    }

    /** The state as the crawl specification sees it. */
    ghost function State(panicked: bool): Crawl
      reads this
    {
      Crawl(visited, relatedVideos, fetched, panicked)
    }

    /** `checkVisit`: passes for the empty url and for a visited url. */
    function CheckVisit(url: string): bool
      reads this
    {
      url == "" || url in visited
    }

    /** In a consistent state `checkVisit` passes exactly for the empty url
        and the urls the crawl has fetched. */
    lemma CheckVisitMeaning(url: string)
      requires Good(SiteOf(web), State(false))
      ensures CheckVisit(url) <==> url == "" || url in fetched
    {
    }

    method GetVideoInfo(doc: Doc, url: string) returns (info: Result<Video>)
      ensures info == VideoInfo(doc, url)
    {
      info := Ok(ZeroVideo);
      var i := 0;
      while i < |doc|
        invariant 0 <= i <= |doc|
        invariant info.Ok? && info == VideoInfo(doc[..i], url)
      {
        assert doc[..i + 1][..i] == doc[..i];
        var video := ContainerVideo(doc[i], url);
        if video.Err? {
          VideoInfoFailureSticks(doc, url, i + 1);
          return video;
        }
        info := video;
        i := i + 1;
      }
      assert doc[..i] == doc;
    }

    /** `Scrape(url, depth, relation)`: returns at once when the url is
        visited or the depth is not positive; otherwise marks the url before
        fetching it, records its video when it has a title, and recurses on
        the first `relation` links of each container at `depth - 1`, all of
        which complete before it does. */
    method Scrape(url: string, depth: int, relation: int) returns (panicked: bool)
      modifies this
      ensures State(panicked) == Visit(SiteOf(web), baseURL, relation, url, depth, old(State(false)))
      ensures old(url in visited) || depth <= 0 ==>
        !panicked && visited == old(visited) && relatedVideos == old(relatedVideos)
      ensures old(visited) <= visited && old(relatedVideos) <= relatedVideos
      decreases depth, 2
    {
      if url in visited || depth <= 0 {
        return false;
      }
      visited := visited + {url};
      fetched := fetched + [url];
      if url !in web {
        return true;
      }
      var doc := web[url];
      var info := GetVideoInfo(doc, url);
      if info.Err? {
        return true;
      }
      if info.value.title != "" {
        relatedVideos := relatedVideos + [info.value];
      }
      assert url in SiteOf(web) && SiteOf(web)[url] == Node(info.value, doc);
      panicked := ScrapeContainers(doc, depth - 1, relation);
    }

    /** The outer `Each` of `Scrape`: the containers of a fetched page, in
        document order. */
    method ScrapeContainers(doc: Doc, depth: int, relation: int) returns (panicked: bool)
      requires depth >= 0
      modifies this
      ensures State(panicked)
           == VisitAll(SiteOf(web), baseURL, relation, Children(baseURL, doc, relation), depth, old(State(false)))
      decreases depth + 1, 1
    {
      ghost var site, start := SiteOf(web), State(false);
      var i := 0;
      while i < |doc|
        invariant 0 <= i <= |doc|
        invariant State(false)
               == VisitAll(site, baseURL, relation, Urls(baseURL, Followed(doc[..i], relation)), depth, start)
      {
        var links := doc[i].links;
        ContainerStep(site, baseURL, relation, doc, i, depth, start);
        panicked := ScrapeLinks(links, depth, relation);
        if panicked {
          ContainerPanic(site, baseURL, relation, doc, i, depth, start);
          return;
        }
        i := i + 1;
      }
      assert doc[..i] == doc;
      panicked := false;
    }

    /** The inner `Each` of `Scrape`: a child call for each link whose index
        in its container is below `relation`. */
    method ScrapeLinks(links: seq<string>, depth: int, relation: int) returns (panicked: bool)
      requires depth >= 0
      modifies this
      ensures State(panicked)
           == VisitAll(SiteOf(web), baseURL, relation, Urls(baseURL, links[..CapCount(|links|, relation)]), depth, old(State(false)))
      decreases depth + 1, 0
    {
      ghost var site, start := SiteOf(web), State(false);
      var j := 0;
      while j < |links|
        invariant 0 <= j <= |links|
        invariant State(false)
               == VisitAll(site, baseURL, relation, Urls(baseURL, links[..CapCount(j, relation)]), depth, start)
      {
        if j < relation {
          LinkStep(site, baseURL, relation, links, j, depth, start);
          panicked := Scrape(baseURL + links[j], depth, relation);
          if panicked {
            LinkPanic(site, baseURL, relation, links, j, depth, start);
            return;
          }
        } else {
          assert CapCount(j + 1, relation) == CapCount(j, relation);
        }
        j := j + 1;
      }
      panicked := false;
    }
  }

  /** scraper.go's `main`: crawl from the seed with depth 3 and at most 10
      links per container, and hand back the recorded videos: one per titled
      page, keyed by the url it was fetched from, each url visited. */
  method RunFromSeed(web: Web, firstURL: string) returns (videos: seq<Video>, panicked: bool)
    ensures var r := Visit(SiteOf(web), BaseURL, 10, firstURL, 3, Start);
      videos == r.records && panicked == r.panicked
    ensures KeysDistinct(videos)
    ensures forall i | 0 <= i < |videos| :: videos[i].key in Visit(SiteOf(web), BaseURL, 10, firstURL, 3, Start).visited
  {
    var scraper := new RelationScraper(BaseURL, firstURL, web);
    panicked := scraper.Scrape(scraper.firstURL, 3, 10);
    videos := scraper.relatedVideos;
    VisitGood(SiteOf(web), BaseURL, 10, firstURL, 3, Start);
    RecordsKeyedByUrl(web, scraper.fetched);
  }
}
