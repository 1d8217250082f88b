/** Small relation graphs worked through the recursive crawl: a self-loop, and
    a diamond A -> {B, C}, B -> {D}, C -> {D}, with an empty base so that an
    href is its own url. */
module Scenarios {
  import opened Pages
  import opened DepthFirst

  /** A page with one container whose links are `links`. */
  function Page(url: string, links: seq<string>): Node {
    Node(Video(url, url, 1, 0, 0), [Container(url, "", "1", "0", "0", links)])
  }

  const SelfLoop: Site := map["A" := Page("A", ["A"])]

  const Diamond: Site := map[
    "A" := Page("A", ["B", "C"]),
    "B" := Page("B", ["D"]),
    "C" := Page("C", ["D"]),
    "D" := Page("D", [])]

  /** The followed children of a one-container page are its links, up to the cap. */
  lemma ChildrenOfPage(url: string, links: seq<string>, relation: int)
    requires relation >= |links|
    ensures Children("", Page(url, links).doc, relation) == links
  {
    var doc := Page(url, links).doc;
    assert doc[..0] == [];
    assert links[..CapCount(|links|, relation)] == links;
    assert Followed(doc, relation) == links;
    assert forall k | 0 <= k < |links| :: "" + links[k] == links[k];
    assert Urls("", links) == links;
  }

  /** A self-loop is fetched once and recorded once, however deep the crawl. */
  lemma SelfLoopOnce()
    ensures Visit(SelfLoop, "", 2, "A", 5, Start)
         == Crawl({"A"}, [SelfLoop["A"].info], ["A"], false)
  {
    ChildrenOfPage("A", ["A"], 2);
    var marked := Crawl({"A"}, [SelfLoop["A"].info], ["A"], false);
    assert VisitAll(SelfLoop, "", 2, ["A"], 4, marked)
        == Visit(SelfLoop, "", 2, "A", 4, VisitAll(SelfLoop, "", 2, [], 4, marked));
  }

  /** The diamond's children, with room for both of A's links. */
  lemma DiamondChildren(relation: int)
    requires relation >= 2
    ensures Children("", Diamond["A"].doc, relation) == ["B", "C"]
    ensures Children("", Diamond["B"].doc, relation) == ["D"]
    ensures Children("", Diamond["C"].doc, relation) == ["D"]
    ensures Children("", Diamond["D"].doc, relation) == []
  {
    ChildrenOfPage("A", ["B", "C"], relation);
    ChildrenOfPage("B", ["D"], relation);
    ChildrenOfPage("C", ["D"], relation);
    ChildrenOfPage("D", [], relation);
  }

  /** The diamond's states along the depth-3 crawl: after A, B, D and C. */
  const AfterA := Crawl({"A"}, [Diamond["A"].info], ["A"], false)
  const AfterB := Crawl({"A", "B"}, AfterA.records + [Diamond["B"].info], ["A", "B"], false)
  const AfterD := Crawl({"A", "B", "D"}, AfterB.records + [Diamond["D"].info], ["A", "B", "D"], false)
  const AfterC := Crawl({"A", "B", "C", "D"}, AfterD.records + [Diamond["C"].info], ["A", "B", "D", "C"], false)

  /** The call on B at depth 2 fetches B and then D. */
  lemma DiamondBranchB()
    ensures Visit(Diamond, "", 2, "B", 2, AfterA) == AfterD
  {
    DiamondChildren(2);
    assert Visit(Diamond, "", 2, "D", 1, AfterB) == AfterD by {
      assert VisitAll(Diamond, "", 2, [], 0, AfterD) == AfterD;
    }
    assert VisitAll(Diamond, "", 2, ["D"], 1, AfterB) == Visit(Diamond, "", 2, "D", 1, VisitAll(Diamond, "", 2, [], 1, AfterB));
  }

  /** The call on C at depth 2 fetches C and skips D, already visited. */
  lemma DiamondBranchC()
    ensures Visit(Diamond, "", 2, "C", 2, AfterD) == AfterC
  {
    DiamondChildren(2);
    assert VisitAll(Diamond, "", 2, ["D"], 1, AfterC) == Visit(Diamond, "", 2, "D", 1, VisitAll(Diamond, "", 2, [], 1, AfterC));
  }

  /** With depth 3 every node is fetched, depth first and in document order,
      and D is fetched once although it has two incoming edges. */
  lemma DiamondDepthThree()
    ensures Visit(Diamond, "", 2, "A", 3, Start)
         == Crawl({"A", "B", "C", "D"},
                  [Diamond["A"].info, Diamond["B"].info, Diamond["D"].info, Diamond["C"].info],
                  ["A", "B", "D", "C"], false)
  {
    DiamondChildren(2);
    DiamondBranchB();
    DiamondBranchC();
    assert VisitAll(Diamond, "", 2, ["B"], 2, AfterA) == AfterD by {
      assert VisitAll(Diamond, "", 2, ["B"], 2, AfterA) == Visit(Diamond, "", 2, "B", 2, VisitAll(Diamond, "", 2, [], 2, AfterA));
    }
    assert VisitAll(Diamond, "", 2, ["B", "C"], 2, AfterA) == AfterC by {
      assert ["B", "C"][..1] == ["B"];
    }
  }

  /** With depth 2 only the seed's direct children are fetched: D, two hops
      away, is never visited. */
  lemma DiamondDepthTwo()
    ensures Visit(Diamond, "", 2, "A", 2, Start)
         == Crawl({"A", "B", "C"}, [Diamond["A"].info, Diamond["B"].info, Diamond["C"].info], ["A", "B", "C"], false)
    ensures "D" !in Visit(Diamond, "", 2, "A", 2, Start).visited
  {
    DiamondChildren(2);
    var sA := Crawl({"A"}, [Diamond["A"].info], ["A"], false);
    var sB := Crawl({"A", "B"}, sA.records + [Diamond["B"].info], ["A", "B"], false);
    var sC := Crawl({"A", "B", "C"}, sB.records + [Diamond["C"].info], ["A", "B", "C"], false);
    assert Visit(Diamond, "", 2, "B", 1, sA) == sB by {
      assert VisitAll(Diamond, "", 2, ["D"], 0, sB) == sB;
    }
    assert Visit(Diamond, "", 2, "C", 1, sB) == sC by {
      assert VisitAll(Diamond, "", 2, ["D"], 0, sC) == sC;
    }
    assert VisitAll(Diamond, "", 2, ["B"], 1, sA) == sB by {
      assert VisitAll(Diamond, "", 2, ["B"], 1, sA) == Visit(Diamond, "", 2, "B", 1, VisitAll(Diamond, "", 2, [], 1, sA));
    }
    assert VisitAll(Diamond, "", 2, ["B", "C"], 1, sA) == sC by {
      assert ["B", "C"][..1] == ["B"];
    }
  }

  /** With `relation` 1 only the first link of each container is followed:
      C is never visited. */
  lemma DiamondCapOne()
    ensures Visit(Diamond, "", 1, "A", 3, Start)
         == Crawl({"A", "B", "D"}, [Diamond["A"].info, Diamond["B"].info, Diamond["D"].info], ["A", "B", "D"], false)
  {
    var sA := Crawl({"A"}, [Diamond["A"].info], ["A"], false);
    var sB := Crawl({"A", "B"}, sA.records + [Diamond["B"].info], ["A", "B"], false);
    var sD := Crawl({"A", "B", "D"}, sB.records + [Diamond["D"].info], ["A", "B", "D"], false);
    var docA := Diamond["A"].doc;
    assert docA[..0] == [];
    assert ["B", "C"][..CapCount(2, 1)] == ["B"];
    assert "" + "B" == "B";
    assert Urls("", ["B"]) == ["B"];
    assert Children("", docA, 1) == ["B"];
    ChildrenOfPage("B", ["D"], 1);
    ChildrenOfPage("D", [], 1);
    assert Visit(Diamond, "", 1, "D", 1, sB) == sD by {
      assert VisitAll(Diamond, "", 1, [], 0, sD) == sD;
    }
    assert Visit(Diamond, "", 1, "B", 2, sA) == sD by {
      assert VisitAll(Diamond, "", 1, ["D"], 1, sB) == Visit(Diamond, "", 1, "D", 1, VisitAll(Diamond, "", 1, [], 1, sB));
    }
    assert VisitAll(Diamond, "", 1, ["B"], 2, sA) == sD by {
      assert VisitAll(Diamond, "", 1, ["B"], 2, sA) == Visit(Diamond, "", 1, "B", 2, VisitAll(Diamond, "", 1, [], 2, sA));
    }
  }
}
