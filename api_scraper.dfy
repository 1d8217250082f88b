/** The recursive crawler of scraper/scraper.go: the same traversal as
    scraper.go, with the video metadata taken from the YouTube Data API
    instead of the page. The API is an oracle from a url to the video it
    describes; a url it does not describe is a failed request, which panics. */
module ApiScraper {
  import opened Pages
  import opened DepthFirst

  /** The urls whose fetch and metadata request both succeed. */
  function SiteOf(web: Web, api: map<string, Video>): Site {
    map u | u in web && u in api :: Node(api[u], web[u])
  }

  class RelationScraper {
    const baseURL: string
    const firstURL: string
    /** The fetch oracle standing in for `http.Get` and goquery. */
    const web: Web
    /** The metadata oracle standing in for `Videos.List(...).Id(getID(url)).Do()`. */
    const api: map<string, Video>

    var relatedVideos: seq<Video>
    var visited: set<string>

    /** The urls fetched so far, in fetch order. */
    ghost var fetched: seq<string>

    /** `NewRelationScraper`: an empty crawler for the given base and seed. */
    constructor (baseURL: string, firstURL: string, web: Web, api: map<string, Video>)
      ensures this.baseURL == baseURL && this.firstURL == firstURL
      ensures this.web == web && this.api == api
      ensures relatedVideos == [] && visited == {} && fetched == []
    {
      this.baseURL, this.firstURL := baseURL, firstURL;
      this.web, this.api := web, api;
      relatedVideos, visited := [], {};
      fetched := [];
    }

    /** The state as the crawl specification sees it. */
    ghost function State(panicked: bool): Crawl
      reads this
    {
      Crawl(visited, relatedVideos, fetched, panicked)
    }

    /** `Scrape(depth, relation)`: exactly one crawl, from `firstURL`, which
        returns once the whole subtree is done. */
    method Scrape(depth: int, relation: int) returns (panicked: bool)
      modifies this
      ensures State(panicked) == Visit(SiteOf(web, api), baseURL, relation, firstURL, depth, old(State(false)))
    {
      panicked := RecScrape(firstURL, depth, relation);
    }

    /** `recScrape(url, depth, relation)`: returns at once when the url is
        visited or the depth is not positive; otherwise marks the url, fetches
        the page, asks the API for the video and records it when it has a
        title, then recurses on the first `relation` links of each container
        at `depth - 1`. */
    method RecScrape(url: string, depth: int, relation: int) returns (panicked: bool)
      modifies this
      ensures State(panicked) == Visit(SiteOf(web, api), baseURL, relation, url, depth, old(State(false)))
      ensures old(url in visited) || depth <= 0 ==>
        !panicked && visited == old(visited) && relatedVideos == old(relatedVideos)
      ensures old(visited) <= visited && old(relatedVideos) <= relatedVideos
      decreases depth, 2
    {
      if url in visited || depth <= 0 {
        return false;
      }
      visited := visited + {url};
      fetched := fetched + [url];
      if url !in web || url !in api {
        return true;
      }
      var doc := web[url];
      var info := api[url];
      if info.title != "" {
        relatedVideos := relatedVideos + [info];
      }
      assert url in SiteOf(web, api) && SiteOf(web, api)[url] == Node(info, doc);
      panicked := ScrapeContainers(doc, depth - 1, relation);
    }

    /** The outer `Each` of `recScrape`: the containers of a fetched page, in
        document order. */
    method ScrapeContainers(doc: Doc, depth: int, relation: int) returns (panicked: bool)
      requires depth >= 0
      modifies this
      ensures State(panicked)
           == VisitAll(SiteOf(web, api), baseURL, relation, Children(baseURL, doc, relation), depth, old(State(false)))
      decreases depth + 1, 1
    {
      ghost var site, start := SiteOf(web, api), State(false);
      var i := 0;
      while i < |doc|
        invariant 0 <= i <= |doc|
        invariant State(false)
               == VisitAll(site, baseURL, relation, Urls(baseURL, Followed(doc[..i], relation)), depth, start)
      {
        var links := doc[i].links;
        ContainerStep(site, baseURL, relation, doc, i, depth, start);
        panicked := ScrapeLinks(links, depth, relation);
        if panicked {
          ContainerPanic(site, baseURL, relation, doc, i, depth, start);
          return;
        }
        i := i + 1;
      }
      assert doc[..i] == doc;
      panicked := false;
    }

    /** The inner `Each` of `recScrape`: a child call for each link whose
        index in its container is below `relation`. */
    method ScrapeLinks(links: seq<string>, depth: int, relation: int) returns (panicked: bool)
      requires depth >= 0
      modifies this
      ensures State(panicked)
           == VisitAll(SiteOf(web, api), baseURL, relation, Urls(baseURL, links[..CapCount(|links|, relation)]), depth, old(State(false)))
      decreases depth + 1, 0
    {
      ghost var site, start := SiteOf(web, api), State(false);
      var j := 0;
      while j < |links|
        invariant 0 <= j <= |links|
        invariant State(false)
               == VisitAll(site, baseURL, relation, Urls(baseURL, links[..CapCount(j, relation)]), depth, start)
      {
        if j < relation {
          LinkStep(site, baseURL, relation, links, j, depth, start);
          panicked := RecScrape(baseURL + links[j], depth, relation);
          if panicked {
            LinkPanic(site, baseURL, relation, links, j, depth, start);
            return;
          }
        } else {
          assert CapCount(j + 1, relation) == CapCount(j, relation);
        }
        j := j + 1;
      }
      panicked := false;
    }
  }

  /** A fresh scraper followed by `Scrape(depth, relation)`: the recorded
      videos are the titled ones among the fetched urls, each url fetched at
      most once, all within `depth - 1` hops of the seed. */
  method Run(baseURL: string, firstURL: string, web: Web, api: map<string, Video>, depth: int, relation: int)
    returns (videos: seq<Video>, panicked: bool)
    ensures var r := Visit(SiteOf(web, api), baseURL, relation, firstURL, depth, Start);
      videos == r.records && panicked == r.panicked
    ensures |videos| <= |Visit(SiteOf(web, api), baseURL, relation, firstURL, depth, Start).visited|
  {
    var scraper := new RelationScraper(baseURL, firstURL, web, api);
    panicked := scraper.Scrape(depth, relation);
    videos := scraper.relatedVideos;
    CrawlFromStart(SiteOf(web, api), baseURL, relation, firstURL, depth);
  }
}
