/** What the crawlers read from a fetched page. The HTTP fetch and the goquery
    selectors are replaced by an oracle that maps a url to the list of its
    `div#content` containers, each reduced to the texts and links the crawlers
    select from it. */
module Pages {
  import opened Counters

  /** One `div#content` element of a page. */
  datatype Container = Container(
    title: string,        // `title` attribute of `span.watch-title`, "" when absent
    category: string,     // text of `ul.watch-info-tag-list a`
    viewText: string,     // text of `div.watch-view-count`
    likeText: string,     // text of the first like-button span
    dislikeText: string,  // text of the first dislike-button span
    links: seq<string>)   // `href` of every `a.content-link`, in document order

  /** A parsed page: its containers in document order. */
  type Doc = seq<Container>

  /** The fetch oracle. A url outside its domain is a failed request, which
      the source turns into a panic (`checkRes`, `checkErr`). */
  type Web = map<string, Doc>

  datatype Stats = Stats(views: nat, likes: nat, dislikes: nat)

  /** Counter texts parsed in order; the first one that fails decides the
      error, as the first `stringToInt` that panics does. */
  function ParseCounters(texts: seq<string>): (r: Result<seq<nat>>)
    ensures r.Ok? ==> |r.value| == |texts|
  {
    if texts == [] then Ok([])
    else
      match StringToInt(texts[0])
      case Err(e) => Err(e)
      case Ok(n) =>
        match ParseCounters(texts[1..])
        case Err(e) => Err(e)
        case Ok(ns) => Ok([n] + ns)
  }

  /** The views, likes and dislikes of one container, parsed in that order. */
  function ContainerStats(c: Container): Result<Stats> {
    match ParseCounters([c.viewText, c.likeText, c.dislikeText])
    case Err(e) => Err(e)
    case Ok(ns) => Ok(Stats(ns[0], ns[1], ns[2]))
  }

  /** A container's stats parse exactly when its three counter texts do, and
      then they are those texts' values. */
  lemma ContainerStatsMeaning(c: Container)
    ensures ContainerStats(c).Ok? <==>
      StringToInt(c.viewText).Ok? && StringToInt(c.likeText).Ok? && StringToInt(c.dislikeText).Ok?
    ensures ContainerStats(c).Ok? ==>
      ContainerStats(c).value
        == Stats(StringToInt(c.viewText).value, StringToInt(c.likeText).value, StringToInt(c.dislikeText).value)
  {
    ParseCountersMeaning([c.viewText, c.likeText, c.dislikeText]);
  }

  /** Counters parse exactly when each text parses, each to its own value. */
  lemma {:induction false} ParseCountersMeaning(texts: seq<string>)
    ensures ParseCounters(texts).Ok? <==> forall i | 0 <= i < |texts| :: StringToInt(texts[i]).Ok?
    ensures ParseCounters(texts).Ok? ==>
      forall i | 0 <= i < |texts| :: ParseCounters(texts).value[i] == StringToInt(texts[i]).value
  {
    if texts != [] {
      ParseCountersMeaning(texts[1..]);
      assert forall i | 1 <= i < |texts| :: texts[1..][i - 1] == texts[i];
    }
  }

  /** No element occurs twice. */
  predicate Distinct(s: seq<string>) {
    forall i, j | 0 <= i < j < |s| :: s[i] != s[j]
  }

  /** Every link of the page: container by container, each in document order. */
  function Links(doc: Doc): seq<string> {
    if doc == [] then [] else Links(doc[..|doc| - 1]) + doc[|doc| - 1].links
  }

  /** The test `index < relation` that decides whether the link at `index`
      of its container is followed. */
  predicate IndexFollowed(index: int, relation: int) {
    index < relation
  }

  /** How many links of a container with `n` links the index test
      `index < relation` lets through. */
  function CapCount(n: nat, relation: int): (m: nat)
    ensures m <= n && (relation >= 0 ==> m <= relation)
    ensures relation <= 0 ==> m == 0
    ensures forall j | 0 <= j < n :: j < m <==> IndexFollowed(j, relation)
  {
    if relation <= 0 then 0 else if n < relation then n else relation
  }

  /** The links the recursive crawlers follow: in each container, only those
      whose index within the container is below `relation`. */
  function Followed(doc: Doc, relation: int): (r: seq<string>)
    ensures |r| <= |Links(doc)|
  {
    if doc == [] then []
    else
      var last := doc[|doc| - 1].links;
      Followed(doc[..|doc| - 1], relation) + last[..CapCount(|last|, relation)]
  }

  /** A link is followed exactly when it stands at an index below `relation`
      in some container. */
  lemma {:induction false} FollowedMembership(doc: Doc, relation: int, h: string)
    ensures h in Followed(doc, relation) <==>
      exists i, j | 0 <= i < |doc| && 0 <= j < |doc[i].links| :: j < relation && doc[i].links[j] == h
  {
    if doc != [] {
      var init, last := doc[..|doc| - 1], doc[|doc| - 1].links;
      var n := CapCount(|last|, relation);
      FollowedMembership(init, relation, h);
      if h in Followed(doc, relation) {
        if h !in Followed(init, relation) {
          assert h in last[..n];
          var j :| 0 <= j < n && last[j] == h;
          assert doc[|doc| - 1].links[j] == h;
        }
      } else {
        forall i, j | 0 <= i < |doc| && 0 <= j < |doc[i].links| && j < relation
          ensures doc[i].links[j] != h
        {
          if i < |doc| - 1 {
            assert init[i] == doc[i];
          } else {
            assert last[..n][j] == last[j];
          }
        }
      }
    }
  }

  /** With `relation <= 0` nothing is followed. */
  lemma {:induction false} FollowedNonPositive(doc: Doc, relation: int)
    requires relation <= 0
    ensures Followed(doc, relation) == []
  {
    if doc != [] {
      FollowedNonPositive(doc[..|doc| - 1], relation);
    }
  }

  /** The fan-out cap: at most `relation` links per container. */
  lemma {:induction false} FollowedBound(doc: Doc, relation: nat)
    ensures |Followed(doc, relation)| <= relation * |doc|
  {
    if doc != [] {
      var n := |doc| - 1;
      FollowedBound(doc[..n], relation);
      assert relation * (n + 1) == relation * n + relation;
    }
  }

  /** When no container has more than `relation` links the cap drops nothing. */
  lemma {:induction false} FollowedAllWhenUncapped(doc: Doc, relation: int)
    requires forall i | 0 <= i < |doc| :: |doc[i].links| <= relation
    ensures Followed(doc, relation) == Links(doc)
  {
    if doc != [] {
      var last := doc[|doc| - 1].links;
      FollowedAllWhenUncapped(doc[..|doc| - 1], relation);
      assert last[..CapCount(|last|, relation)] == last;
    }
  }

  /** The containers of two consecutive parts of a page are followed part by part. */
  lemma {:induction false} FollowedAppend(a: Doc, b: Doc, relation: int)
    ensures Followed(a + b, relation) == Followed(a, relation) + Followed(b, relation)
    decreases |b|
  {
    if b == [] {
      assert a + b == a;
    } else {
      assert (a + b)[..|a + b| - 1] == a + b[..|b| - 1];
      FollowedAppend(a, b[..|b| - 1], relation);
    }
  }
}
