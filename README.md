# YouTube related-video crawlers, modelled in Dafny

This project models three crawlers from a small Go playground. Each starts from one YouTube url and follows the "related video" links it finds on each page. Each crawls to a bounded depth. In the model none of them fetches a url twice; the Go code's races can (see "## Left out").

- **main.go** is a breadth-first crawler. A global FIFO queue holds `(url, depth)` items, next to a `visited` set and an append-only `relatedVideos` list. `ScrapeRelatedVideo` pops one item. It drops the item when the url was visited or the depth is not positive. Otherwise it marks the url, fetches the page, appends the page's video, and pushes every link of the page at `depth - 1`. `main` seeds the queue with depth 2 and calls `ScrapeRelatedVideo` until the queue is empty.
- **scraper.go** is a recursive, depth-first `RelationScraper`. `Scrape(url, depth, relation)` has the same skip rule and marks the url before fetching it. It records the video only when the video has a title. It then recurses at `depth - 1` on those links whose index within their `div#content` container is below `relation`.
- **scraper/scraper.go** is the same recursive crawler. The video metadata comes from the YouTube Data API instead of the page, and `Scrape(depth, relation)` starts one crawl from `firstURL`.
- **`stringToInt`** is shared by all three. It keeps the decimal digits of a counter text and parses them with `strconv.Atoi`.

The network and the HTML parser are replaced by an oracle, `Web`. It maps a url to the `div#content` containers of its page. For each container it keeps the title, category, counter texts and link hrefs the crawlers select. The YouTube API is a second oracle, from a url to its video. A fetch of a url the oracle does not serve is a failed request. A counter text that `Atoi` rejects is an error. The Go program panics or exits in both cases, and the model reports a `panicked` outcome that stops the crawl.

The modules are:

- `Counters` holds `stringToInt`.
- `Pages` holds the page data, the counter parsing per container, and the per-container fan-out cap.
- `QueueCrawl` models main.go. Its `Crawler` class has the queue, `visited` and `relatedVideos` as fields.
- `DepthFirst` is a functional specification of the recursive crawl: `Visit` and `VisitAll`, with its invariants, its depth bound and a summary of a whole crawl.
- `HtmlScraper` models scraper.go and `ApiScraper` models scraper/scraper.go. Each has a `RelationScraper` class whose recursive methods are proved to end in exactly the state `DepthFirst.Visit` computes.
- `Scenarios` works small graphs through the crawl: a self-loop, and a diamond.

The goroutines of the recursive crawlers are modelled as plain recursion in spawn order. The "Each" callbacks become `ScrapeContainers` and `ScrapeLinks`, one loop each.

## Model

| member | source | states |
|---|---|---|
| Counters.StringToInt | main.go:113-122 | The empty text gives 0. Any value it returns fits in a 64-bit `int`. The copies at scraper.go:139-148 and scraper/scraper.go:153-162 are identical. |
| Counters.KeepDigits | main.go:117-118 | The kept text consists of digits only and is no longer than the counter text. |
| Counters.DecimalValue | main.go:119 | The number a digit string denotes is below 10 to the power of its length, so up to 18 digits fit in a 64-bit `int`. |
| Counters.DecimalValueOfDecimal | main.go:119 | The digits of a number's decimal rendering denote that number. |
| Counters.StringToIntOfDecimal | main.go:117-121 | Round trip: every count up to the largest `int` parses back from its decimal rendering. |
| Counters.StringToIntIgnoresNonDigit | main.go:117-118 | A non-digit character inside a non-empty text does not change the result, e.g. "1,234 views" reads as "1234". |
| Counters.DigitlessTextFails | main.go:119-120 | A non-empty text with no digit is an error: `Atoi("")`, which panics. |
| Counters.StringToIntOfKeptDigits | main.go:117-119 | A text and its digits alone parse to the same result, provided it has a digit. |
| Counters.ShortCountersParse | main.go:119 | A text with 1 to 18 digits always parses, to the number its digits form in order. |
| Counters.LeadingZeroIgnored | main.go:119 | Leading zeros do not change the number. |
| Counters.KeepDigitsAppend | main.go:117-118 | The digits kept from a concatenation are the digits kept from each part, in order. |
| Counters.KeepDigitsOfDigits | main.go:117-118 | A string of digits keeps all of its characters. |
| Pages.ParseCounters | main.go:99-101 | When the counters parse, there is one value per counter text. |
| Pages.ContainerStats | main.go:99-101 | The views, likes and dislikes of one container, parsed in that order. No contract of its own; `Pages.ContainerStatsMeaning` carries it. |
| Pages.ContainerStatsMeaning | main.go:99-101 | A container's stats parse exactly when its view, like and dislike texts all parse, and then they are those three values. |
| Pages.ParseCountersMeaning | main.go:99-101 | A container's counters parse exactly when each text parses on its own, and each gets that text's value. |
| Pages.IndexFollowed | scraper.go:96 | The test `index < relation` on a link's index within its container. No contract of its own; `Pages.CapCount` states what it lets through. |
| Pages.CapCount | scraper.go:96 | The link at index `j` of a container is let through exactly when `j < relation`. So at most `relation` links pass, and at most all of them, and none when `relation <= 0`. |
| Pages.Followed | scraper.go:93-101 | The followed hrefs never outnumber the page's links. `Pages.FollowedMembership` says which ones they are. |
| Pages.FollowedMembership | scraper.go:93-102 | A href is followed exactly when it stands at an index below `relation` in some container. |
| Pages.FollowedNonPositive | scraper.go:96 | With `relation <= 0` no link is followed. |
| Pages.FollowedBound | scraper.go:93-102 | The page's followed links number at most `relation` times its container count. |
| Pages.FollowedAllWhenUncapped | scraper.go:93-102 | When no container has more than `relation` links, every link is followed, in document order. |
| Pages.FollowedAppend | scraper.go:93-94 | The containers of two consecutive parts of a page are followed part by part. |
| QueueCrawl.VideoInfo | main.go:93-111 | The video `GetVideoInfo` returns, or the error at which it panics. No contract of its own; `QueueCrawl.VideoInfoOkIff` and `QueueCrawl.VideoInfoLastWins` state its meaning. |
| QueueCrawl.VideoInfoOkIff | main.go:93-111 | `GetVideoInfo` succeeds exactly when every container's counters parse. |
| QueueCrawl.VideoInfoLastWins | main.go:94-110 | A page without containers gives the zero Video. Otherwise the last container's video wins. |
| QueueCrawl.VideoInfoFailureSticks | main.go:95-101 | The first container whose counters fail decides the page's error: the containers after it do not matter. |
| QueueCrawl.GetVideoInfo | main.go:93-111 | The loop over the containers returns the video, or the error, that `VideoInfo` specifies. |
| QueueCrawl.FreshMeaning | main.go:68-72 | The queue's fetch order lists each unseen url once, and nothing else. |
| QueueCrawl.Crawler.constructor | main.go:38-44 | The globals start empty, a state in which the crawl invariant holds. |
| QueueCrawl.Crawler.CheckVisit | main.go:124-132 | `checkVisit` passes for the empty url and for a visited url, and panics otherwise. No contract of its own; `QueueCrawl.Crawler.CheckVisitMeaning` carries it. |
| QueueCrawl.Crawler.CheckVisitMeaning | main.go:124-132 | In a consistent state `checkVisit` passes exactly for the empty url and the fetched urls. |
| QueueCrawl.Crawler.ScrapeRelatedVideo | main.go:63-90 | Exactly one item leaves the front of the queue. A visited url or a non-positive depth changes nothing else. Otherwise the url is marked; when the fetch succeeds, one video is appended and the page's links are pushed at the back at `depth - 1`. The crawl invariant is kept. |
| QueueCrawl.Crawler.PushLinks | main.go:81-87 | Every link of the page is pushed, in document order, as `baseURL + href` at the given depth. Nothing else changes. |
| QueueCrawl.SeedStep | main.go:50-53 | Popping the depth-2 seed leaves its links queued at depth 1. |
| QueueCrawl.ExpandedStep | main.go:52-54 | Each later pop either fetches a new depth-1 child of the seed or drops the item. |
| QueueCrawl.RunFromSeed | main.go:46-80 | The loop terminates on any oracle. It panics exactly when the seed, or one of the new urls the seed links to, is not served or has a counter that does not parse. Otherwise it fetches the seed and then the seed's new links, in order, each once. It yields one video per fetched url, in the same order. |
| QueueCrawl.PanicStep | main.go:63-80 | A pop that panics, whether of the seed or of an item behind it, shows that some url of the crawl fails. |
| QueueCrawl.PanicCulprit | main.go:68-80 | After the seed's expansion, an item that is fetched is one of the seed's new links. |
| QueueCrawl.NoFetchFails | main.go:74-80 | When every url of the crawl was fetched and gave a video, none of them fails. |
| QueueCrawl.QueueCrawlFetches | main.go:50-87 | The urls that crawl fetches are distinct and are exactly the seed and the urls one hop from it. |
| DepthFirst.Visit | scraper.go:68-105 | A call never unmarks a url, never drops a record and never changes a panicked state. |
| DepthFirst.VisitAll | scraper.go:93-103 | A batch of child calls never unmarks a url or drops a record. It does nothing at a non-positive depth. |
| DepthFirst.Mark | scraper.go:76-91 | The url is marked and logged as fetched before the fetch; its video is recorded when the page is served and the title is non-empty. No contract of its own; `DepthFirst.MarkGood` carries it. |
| DepthFirst.MarkGood | scraper.go:76-91 | Marking a new url before its fetch, and recording its titled video, keeps the crawl invariant. |
| DepthFirst.VisitGood | scraper.go:69-91 | A call keeps the crawl invariant: each url is fetched at most once, `visited` is exactly the fetched urls, and the records are the titled videos among them in fetch order. |
| DepthFirst.VisitAllGood | scraper.go:93-104 | The child calls keep the same invariant. |
| DepthFirst.VisitWithinHops | scraper.go:99 | A call with depth `d` marks only urls within `d - 1` hops of its own url. |
| DepthFirst.VisitAllWithinHops | scraper.go:93-103 | The child calls mark only urls within `depth - 1` hops of one of the children. |
| DepthFirst.VisitAllAppend | scraper.go:93-103 | Two batches of child calls in a row equal one batch, so nothing runs after a panic. |
| DepthFirst.UrlsAppend | scraper.go:99 | Child urls are formed link by link. |
| DepthFirst.TitledBound | scraper.go:89-91 | There is at most one record per fetched url. |
| DepthFirst.CrawlFromStart | scraper.go:68-105 | For a whole crawl: distinct fetches; `visited` equals the fetched urls; the records are the titled videos in fetch order; there are no more records than visited urls. |
| DepthFirst.CrawlBounds | scraper.go:68-105 | For a whole crawl: every url is within `depth - 1` hops of the seed; nothing happens at depth <= 0; only the seed is fetched when `relation <= 0`. |
| DepthFirst.ContainerStep | scraper.go:93-94 | The child calls of one more container run after those of the containers before it. |
| DepthFirst.ContainerPanic | scraper.go:93-103 | A panic inside one container ends the child calls of the whole page. |
| DepthFirst.LinkStep | scraper.go:95-99 | A link with index below `relation` gets one child call, at `base + href`, after the links before it. |
| DepthFirst.LinkPanic | scraper.go:95-101 | A panic in a child call ends the remaining child calls of its container. |
| HtmlScraper.VideoInfo | scraper.go:108-125 | What `GetVideoInfo` sends back, or the error at which it panics. No contract of its own; `HtmlScraper.VideoInfoMeaning` states its meaning. |
| HtmlScraper.VideoInfoMeaning | scraper.go:108-125 | No container gives the zero Video, whose empty title keeps it unrecorded. The page parses exactly when every container's counters do, and then the last container wins. A titled video carries the page's url. |
| HtmlScraper.RelationScraper.GetVideoInfo | scraper.go:108-125 | The loop over the containers returns what `VideoInfo` specifies. |
| HtmlScraper.SiteOf | scraper.go:80-91 | A url succeeds when it is served and its counters parse, and then its node holds the page's video and containers. No contract of its own; `HtmlScraper.RelationScraper.Scrape` relies on it. |
| HtmlScraper.VideoInfoFailureSticks | scraper.go:108-125 | The first container whose counters fail decides the page's error: the containers after it do not matter. |
| HtmlScraper.RecordsKeyedByUrl | scraper.go:89-91 | No two records have the same url, and each record's url was fetched. |
| HtmlScraper.RelationScraper.constructor | scraper.go:47-54 | The scraper starts with no videos and nothing visited. |
| HtmlScraper.RelationScraper.CheckVisit | scraper.go:127-137 | `checkVisit` passes for the empty url and for a visited url, and panics otherwise. No contract of its own; `HtmlScraper.RelationScraper.CheckVisitMeaning` carries it. |
| HtmlScraper.RelationScraper.CheckVisitMeaning | scraper.go:127-137 | In a consistent state `checkVisit` passes exactly for the empty url and the fetched urls. |
| HtmlScraper.RelationScraper.Scrape | scraper.go:68-105 | The call ends in exactly the state `DepthFirst.Visit` specifies. A visited url or a non-positive depth changes nothing. `visited` and the records only grow. |
| HtmlScraper.RelationScraper.ScrapeContainers | scraper.go:93-94 | The containers' child calls together give the state of `VisitAll` on the page's followed children. |
| HtmlScraper.RelationScraper.ScrapeLinks | scraper.go:95-101 | One child call per link with index below `relation`, at `baseURL + href`, in order. |
| HtmlScraper.RunFromSeed | scraper.go:46-64 | The crawl with depth 3 and `relation` 10 yields `Visit`'s records. Their urls are distinct and visited. |
| ApiScraper.SiteOf | scraper/scraper.go:98-109 | A url succeeds when it is served and the API describes it, and then its node holds the API's video and the page's containers. No contract of its own; `ApiScraper.RelationScraper.RecScrape` relies on it. |
| ApiScraper.RelationScraper.constructor | scraper/scraper.go:56-64 | `NewRelationScraper` yields a scraper with no videos and nothing visited. |
| ApiScraper.RelationScraper.Scrape | scraper/scraper.go:69-75 | One crawl, from `firstURL`, ending in the state `DepthFirst.Visit` specifies. |
| ApiScraper.RelationScraper.RecScrape | scraper/scraper.go:86-122 | The call ends in exactly the state `DepthFirst.Visit` specifies, with the API's video. A visited url or a non-positive depth changes nothing. `visited` and the records only grow. |
| ApiScraper.RelationScraper.ScrapeContainers | scraper/scraper.go:111-112 | The containers' child calls together give the state of `VisitAll` on the followed children. |
| ApiScraper.RelationScraper.ScrapeLinks | scraper/scraper.go:113-119 | One child call per link with index below `relation`, in order. |
| ApiScraper.Run | scraper/scraper.go:69-75 | A fresh scraper's crawl yields `Visit`'s records, no more than the urls it visited. |
| Scenarios.SelfLoopOnce | scraper.go:68-78 | A page linking to itself is fetched and recorded once, at depth 5. |
| Scenarios.DiamondDepthThree | scraper.go:93-104 | Diamond A→{B,C}, B→{D}, C→{D} at depth 3: all four urls are fetched, depth first (A, B, D, C). D is fetched once. |
| Scenarios.DiamondDepthTwo | scraper.go:99 | The same diamond at depth 2: only A, B and C are fetched. D is two hops away. |
| Scenarios.DiamondCapOne | scraper.go:96 | With `relation` 1, A follows only B, so C is never fetched. |

## Left out

- Network and HTML: `http.Get`, `checkRes`, `goquery` and the CSS selectors become the `Web` oracle. A non-200 status and a request error are both a url outside the oracle, and both panic. The model does not tell `log.Fatalln` from `panic`.
- The YouTube Data API: the credentials setup in `NewRelationScraper` (godotenv, `API_KEY`, `youtube.NewService`), `getVideoInfo`'s request, and `getID`. They become an oracle from url to video. A missing entry stands for a failed request or an empty `Items` list, and panics.
- youtube.go is not part of this model.
- Goroutines, WaitGroups, the `vidInfo` channel and the `RWMutex`: the recursive crawl is sequential, in spawn order. The Go code checks and inserts into `visited` under two separate lock regions, and scraper.go appends to `relatedVideos` without a lock. Two goroutines can then fetch the same url, and records can be lost. The sequential model cannot represent either race, nor the record order under concurrency. In scraper/scraper.go:70, `Scrape` ends with `defer close(rs.vidInfo)`, so a second `Scrape` on the same scraper panics: it closes a closed channel, or sends on one. The model's `ApiScraper.RelationScraper.Scrape` can be called again.
- Printing (`PrintScrapedVideos` and the loops in `main`) and reading the seed from stdin: the seed is a parameter.
- `res.Body.Close`, the unused `ytChannel` type, and the go-queue library, which becomes a `seq`.
- `visited` is a `map[string]bool` in which only `true` is ever stored. It is modelled as a set.
- Integer widths: `Atoi`'s 64-bit range error is modelled (`OutOfRange`). The API's `uint64` counters are unbounded `nat`s.
- QueueCrawl.RunFromSeed: says when the crawl panics but nothing about the state after it, because the Go process ends there.
- ApiScraper.Run: does not claim distinct record ids. The API id is not the url, and two urls (say, with and without a timestamp parameter) can name the same video.

## Notes on the source

- Depth: a call with depth D fetches urls within D - 1 hops, because a child at depth 0 is skipped before its fetch. So the diamond A→{B,C}, B→{D}, C→{D} needs depth 3 for its far corner D to be fetched (`Scenarios.DiamondDepthThree`); at depth 2 it is not (`Scenarios.DiamondDepthTwo`).
- Counter texts: only the empty text reads as 0. A non-empty text with no digit reaches `strconv.Atoi("")`, which fails, and `checkErr` panics (`Counters.DigitlessTextFails`).
