/** The recursive crawl that scraper.go and scraper/scraper.go both run,
    stated as functions: a call on (url, depth) is skipped when the url is
    visited or the depth is not positive; otherwise the url is marked before
    its fetch, its video is recorded when it has a title, and the call recurses
    on the followed links at `depth - 1`, one after the other, in document
    order. Goroutines are sequentialised in spawn order; a panic stops
    everything. */
module DepthFirst {
  import opened Pages

  /** The record the recursive crawlers keep: `key` is the url it was
      fetched from in scraper.go and the id the API returns in
      scraper/scraper.go. */
  datatype Video = Video(key: string, title: string, views: nat, likes: nat, dislikes: nat)

  /** What a successful fetch yields: the video's metadata and the page. */
  datatype Node = Node(info: Video, doc: Doc)

  /** Every url whose fetch succeeds, with what it yields; fetching any other
      url panics. */
  type Site = map<string, Node>

  /** The crawler's state: the visited set, the recorded videos, the urls
      fetched so far in fetch order, and whether the process has panicked. */
  datatype Crawl = Crawl(visited: set<string>, records: seq<Video>, fetched: seq<string>, panicked: bool)

  /** The state before the first call. */
  const Start := Crawl({}, [], [], false)

  /** `base + href` for each href, in order. */
  function Urls(base: string, hrefs: seq<string>): (urls: seq<string>)
    ensures |urls| == |hrefs|
  {
    seq(|hrefs|, k requires 0 <= k < |hrefs| => base + hrefs[k])
  }

  /** The urls a call spawns children for: `base + href` for each followed link. */
  function Children(base: string, doc: Doc, relation: int): (urls: seq<string>)
    ensures |urls| == |Followed(doc, relation)|
  {
    Urls(base, Followed(doc, relation))
  }

  /** The relation graph the crawl walks: a fetched url's children. */
  function Next(site: Site, base: string, relation: int): string -> seq<string> {
    u => if u in site then Children(base, site[u].doc, relation) else []
  }

  /** `to` is `from` or is reached from it in at most `k` hops of `next`. */
  ghost predicate Reaches(next: string -> seq<string>, from: string, to: string, k: int)
    decreases k
  {
    from == to || (k > 0 && exists c :: c in next(from) && Reaches(next, c, to, k - 1))
  }

  /** The videos of the fetched urls that have a title, in fetch order. */
  function Titled(site: Site, urls: seq<string>): seq<Video> {
    if urls == [] then []
    else
      var u := urls[|urls| - 1];
      Titled(site, urls[..|urls| - 1]) + (if u in site && site[u].info.title != "" then [site[u].info] else [])
  }

  /** Marking `url` before its fetch, and recording its video when the fetch
      succeeds with a title. */
  function Mark(site: Site, url: string, st: Crawl): Crawl {
    var marked := st.(visited := st.visited + {url}, fetched := st.fetched + [url]);
    if url in site && site[url].info.title != "" then marked.(records := marked.records + [site[url].info]) else marked
  }

  /** One call on (url, depth). */
  function Visit(site: Site, base: string, relation: int, url: string, depth: int, st: Crawl): (r: Crawl)
    ensures st.visited <= r.visited && st.fetched <= r.fetched && st.records <= r.records
    ensures st.panicked ==> r == st
    decreases depth, 0, 0
  {
    if st.panicked || url in st.visited || depth <= 0 then st
    else if url !in site then Mark(site, url, st).(panicked := true)
    else VisitAll(site, base, relation, Children(base, site[url].doc, relation), depth - 1, Mark(site, url, st))
  }

  /** The calls on `urls` at the same depth, one after the other. */
  function VisitAll(site: Site, base: string, relation: int, urls: seq<string>, depth: int, st: Crawl): (r: Crawl)
    ensures st.visited <= r.visited && st.fetched <= r.fetched && st.records <= r.records
    ensures st.panicked ==> r == st
    ensures depth <= 0 ==> r == st
    decreases depth, 1, |urls|
  {
    if urls == [] then st
    else
      var prev := VisitAll(site, base, relation, urls[..|urls| - 1], depth, st);
      Visit(site, base, relation, urls[|urls| - 1], depth, prev)
  }

  /** The crawl invariant: visited urls are exactly the fetched ones, each
      fetched once, and the records are the titled videos among them, in
      fetch order. */
  ghost predicate Good(site: Site, st: Crawl) {
    && Distinct(st.fetched)
    && (forall u :: u in st.visited <==> u in st.fetched)
    && st.records == Titled(site, st.fetched)
  }

  /** Marking a new url keeps the crawl invariant. */
  lemma MarkGood(site: Site, url: string, st: Crawl)
    requires Good(site, st) && url !in st.visited
    ensures Good(site, Mark(site, url, st))
  {
    var m := Mark(site, url, st);
    assert m.fetched[..|m.fetched| - 1] == st.fetched;
  }

  lemma {:induction false} VisitGood(site: Site, base: string, relation: int, url: string, depth: int, st: Crawl)
    requires Good(site, st)
    ensures Good(site, Visit(site, base, relation, url, depth, st))
    decreases depth, 0, 0
  {
    if !(st.panicked || url in st.visited || depth <= 0) {
      var m := Mark(site, url, st);
      MarkGood(site, url, st);
      if url in site {
        var children := Children(base, site[url].doc, relation);
        VisitAllGood(site, base, relation, children, depth - 1, m);
        assert Visit(site, base, relation, url, depth, st) == VisitAll(site, base, relation, children, depth - 1, m);
      } else {
        assert Visit(site, base, relation, url, depth, st) == m.(panicked := true);
      }
    }
  }

  lemma {:induction false} VisitAllGood(site: Site, base: string, relation: int, urls: seq<string>, depth: int, st: Crawl)
    requires Good(site, st)
    ensures Good(site, VisitAll(site, base, relation, urls, depth, st))
    decreases depth, 1, |urls|
  {
    if urls != [] {
      VisitAllGood(site, base, relation, urls[..|urls| - 1], depth, st);
      var prev := VisitAll(site, base, relation, urls[..|urls| - 1], depth, st);
      VisitGood(site, base, relation, urls[|urls| - 1], depth, prev);
    }
  }

  /** The depth bound: a call with depth `d` only marks urls within `d - 1`
      hops of its own url. */
  lemma {:induction false} VisitWithinHops(site: Site, base: string, relation: int, url: string, depth: int, st: Crawl)
    ensures forall v | v in Visit(site, base, relation, url, depth, st).visited - st.visited ::
      Reaches(Next(site, base, relation), url, v, depth - 1)
    decreases depth, 0, 0
  {
    if !(st.panicked || url in st.visited || depth <= 0) && url in site {
      var next := Next(site, base, relation);
      var marked := Mark(site, url, st);
      var children := Children(base, site[url].doc, relation);
      assert next(url) == children;
      VisitAllWithinHops(site, base, relation, children, depth - 1, marked);
      var r := Visit(site, base, relation, url, depth, st);
      assert r == VisitAll(site, base, relation, children, depth - 1, marked);
      forall v | v in r.visited - st.visited
        ensures Reaches(next, url, v, depth - 1)
      {
        if v != url {
          assert v in r.visited - marked.visited;
          var c :| c in children && Reaches(next, c, v, depth - 2);
          assert c in next(url);
        }
      }
    }
  }

  lemma {:induction false} VisitAllWithinHops(site: Site, base: string, relation: int, urls: seq<string>, depth: int, st: Crawl)
    ensures forall v | v in VisitAll(site, base, relation, urls, depth, st).visited - st.visited ::
      exists u :: u in urls && Reaches(Next(site, base, relation), u, v, depth - 1)
    decreases depth, 1, |urls|
  {
    if urls != [] && depth > 0 {
      var init, last := urls[..|urls| - 1], urls[|urls| - 1];
      VisitAllWithinHops(site, base, relation, init, depth, st);
      var prev := VisitAll(site, base, relation, init, depth, st);
      VisitWithinHops(site, base, relation, last, depth, prev);
      var r := VisitAll(site, base, relation, urls, depth, st);
      assert r == Visit(site, base, relation, last, depth, prev);
      forall v | v in r.visited - st.visited
        ensures exists u :: u in urls && Reaches(Next(site, base, relation), u, v, depth - 1)
      {
        if v in prev.visited {
          assert v in prev.visited - st.visited;
          var u :| u in init && Reaches(Next(site, base, relation), u, v, depth - 1);
          assert u in urls;
        } else {
          assert v in r.visited - prev.visited;
          assert last in urls;
        }
      }
    }
  }

  /** Calling on one more url after a batch extends the batch. */
  lemma VisitAllSnoc(site: Site, base: string, relation: int, urls: seq<string>, u: string, depth: int, st: Crawl)
    ensures VisitAll(site, base, relation, urls + [u], depth, st)
         == Visit(site, base, relation, u, depth, VisitAll(site, base, relation, urls, depth, st))
  {
    assert (urls + [u])[..|urls|] == urls;
  }

  /** `base + href` distributes over concatenation. */
  lemma UrlsAppend(base: string, a: seq<string>, b: seq<string>)
    ensures Urls(base, a + b) == Urls(base, a) + Urls(base, b)
  {
    assert forall k | |a| <= k < |a + b| :: (a + b)[k] == b[k - |a|];
  }

  /** Two batches in a row are one batch; in particular, once the first has
      panicked, the second changes nothing. */
  lemma {:induction false} VisitAllAppend(site: Site, base: string, relation: int, urls: seq<string>, more: seq<string>, depth: int, st: Crawl)
    ensures VisitAll(site, base, relation, urls + more, depth, st)
         == VisitAll(site, base, relation, more, depth, VisitAll(site, base, relation, urls, depth, st))
    decreases |more|
  {
    if more != [] {
      var init := more[..|more| - 1];
      VisitAllAppend(site, base, relation, urls, init, depth, st);
      assert (urls + more)[..|urls + more| - 1] == urls + init;
    } else {
      assert urls + more == urls;
    }
  }

  /** At most one record per fetched url. */
  lemma {:induction false} TitledBound(site: Site, urls: seq<string>)
    ensures |Titled(site, urls)| <= |urls|
  {
    if urls != [] {
      TitledBound(site, urls[..|urls| - 1]);
    }
  }

  /** A sequence without repetitions has as many elements as its set. */
  lemma {:induction false} DistinctCard(s: seq<string>)
    requires Distinct(s)
    ensures |(set x | x in s)| == |s|
  {
    if s != [] {
      var init, last := s[..|s| - 1], s[|s| - 1];
      assert Distinct(init) by {
        forall i, j | 0 <= i < j < |init| ensures init[i] != init[j] {
          assert init[i] == s[i] && init[j] == s[j];
        }
      }
      DistinctCard(init);
      assert s == init + [last];
      assert (set x | x in s) == (set x | x in init) + {last};
      assert last !in init;
    }
  }

  /** What a whole crawl from the empty state delivers: every url is fetched
      at most once, the visited set is exactly the fetched urls, and the
      records are the titled videos among them in fetch order, so there are
      no more records than visited urls. */
  lemma CrawlFromStart(site: Site, base: string, relation: int, seed: string, depth: int)
    ensures var r := Visit(site, base, relation, seed, depth, Start);
      && Distinct(r.fetched)
      && (forall u :: u in r.visited <==> u in r.fetched)
      && r.records == Titled(site, r.fetched)
      && |r.records| <= |r.visited| == |r.fetched|
  {
    var r := Visit(site, base, relation, seed, depth, Start);
    assert Good(site, Start);
    VisitGood(site, base, relation, seed, depth, Start);
    TitledBound(site, r.fetched);
    DistinctCard(r.fetched);
    assert r.visited == set x | x in r.fetched;
  }

  /** The bounds of a whole crawl: every visited url is within `depth - 1`
      hops of the seed, a non-positive depth does nothing, and a non-positive
      `relation` fetches the seed alone. */
  lemma CrawlBounds(site: Site, base: string, relation: int, seed: string, depth: int)
    ensures var r := Visit(site, base, relation, seed, depth, Start);
      && (forall v | v in r.visited :: Reaches(Next(site, base, relation), seed, v, depth - 1))
      && (depth <= 0 ==> r == Start)
      && (relation <= 0 ==> r.visited <= {seed})
  {
    var r := Visit(site, base, relation, seed, depth, Start);
    VisitWithinHops(site, base, relation, seed, depth, Start);
    assert r.visited - Start.visited == r.visited;
    if relation <= 0 && depth > 0 && seed in site {
      FollowedNonPositive(site[seed].doc, relation);
    }
  }

  /** The outer loop of the recursive crawlers, one container further: the
      children of container `i` run after those of the containers before it. */
  lemma ContainerStep(site: Site, base: string, relation: int, doc: Doc, i: nat, depth: int, st: Crawl)
    requires i < |doc|
    ensures var links := doc[i].links;
      VisitAll(site, base, relation, Urls(base, Followed(doc[..i + 1], relation)), depth, st)
      == VisitAll(site, base, relation, Urls(base, links[..CapCount(|links|, relation)]), depth,
                  VisitAll(site, base, relation, Urls(base, Followed(doc[..i], relation)), depth, st))
  {
    var links := doc[i].links;
    assert doc[..i + 1][..i] == doc[..i];
    UrlsAppend(base, Followed(doc[..i], relation), links[..CapCount(|links|, relation)]);
    VisitAllAppend(site, base, relation, Urls(base, Followed(doc[..i], relation)),
                   Urls(base, links[..CapCount(|links|, relation)]), depth, st);
  }

  /** A panic inside container `i` ends the whole page's child calls. */
  lemma ContainerPanic(site: Site, base: string, relation: int, doc: Doc, i: nat, depth: int, st: Crawl)
    requires i < |doc|
    requires VisitAll(site, base, relation, Urls(base, Followed(doc[..i + 1], relation)), depth, st).panicked
    ensures VisitAll(site, base, relation, Children(base, doc, relation), depth, st)
         == VisitAll(site, base, relation, Urls(base, Followed(doc[..i + 1], relation)), depth, st)
  {
    FollowedAppend(doc[..i + 1], doc[i + 1..], relation);
    assert doc[..i + 1] + doc[i + 1..] == doc;
    UrlsAppend(base, Followed(doc[..i + 1], relation), Followed(doc[i + 1..], relation));
    VisitAllAppend(site, base, relation, Urls(base, Followed(doc[..i + 1], relation)),
                   Urls(base, Followed(doc[i + 1..], relation)), depth, st);
  }

  /** The inner loop of the recursive crawlers, one link further: a link
      whose index is below `relation` gets its child call after the ones
      before it. */
  lemma LinkStep(site: Site, base: string, relation: int, links: seq<string>, j: nat, depth: int, st: Crawl)
    requires j < |links| && j < relation
    ensures VisitAll(site, base, relation, Urls(base, links[..CapCount(j + 1, relation)]), depth, st)
         == Visit(site, base, relation, base + links[j], depth,
                  VisitAll(site, base, relation, Urls(base, links[..CapCount(j, relation)]), depth, st))
  {
    assert CapCount(j, relation) == j && CapCount(j + 1, relation) == j + 1;
    assert links[..j + 1] == links[..j] + [links[j]];
    UrlsAppend(base, links[..j], [links[j]]);
    VisitAllSnoc(site, base, relation, Urls(base, links[..j]), base + links[j], depth, st);
  }

  /** A panic in a child call ends the container's child calls. */
  lemma LinkPanic(site: Site, base: string, relation: int, links: seq<string>, j: nat, depth: int, st: Crawl)
    requires j < |links| && j < relation
    requires VisitAll(site, base, relation, Urls(base, links[..CapCount(j + 1, relation)]), depth, st).panicked
    ensures VisitAll(site, base, relation, Urls(base, links[..CapCount(|links|, relation)]), depth, st)
         == VisitAll(site, base, relation, Urls(base, links[..CapCount(j + 1, relation)]), depth, st)
  {
    var n := CapCount(|links|, relation);
    assert CapCount(j + 1, relation) == j + 1;
    assert links[..n] == links[..j + 1] + links[j + 1..n];
    UrlsAppend(base, links[..j + 1], links[j + 1..n]);
    VisitAllAppend(site, base, relation, Urls(base, links[..j + 1]), Urls(base, links[j + 1..n]), depth, st);
  }
}
