/** The display fields the page derives from the last successful task
    result; markup, styling and percentage formatting are not modelled. */
module ResultRenderer {
  import opened Wrappers
  import opened Strings
  import opened Api

  /** The result the page keeps, tagged by the kind of request that produced it. */
  datatype TaskResult = Classification(classification: ClassificationData) | Search(search: SearchData)

  /** One shown match: its rank, its similarity and the file name part of
      its path. */
  datatype MatchRow = MatchRow(rank: int, similarity: real, fileName: string)

  datatype View =
    | ClassificationView(shopDetected: bool, badge: string, confidence: real,
                         shopProb: real, notShopProb: real, shopTags: seq<string>)
    | SearchView(matchFound: bool, badge: string, bestSimilarity: real,
                 shopTags: seq<string>, matches: seq<MatchRow>)

  const MaxShownMatches: nat := 3

  /** The shop-name tags: shown only under `show`, and only when the list is
      present and non-empty. */
  function Tags(show: bool, names: Option<seq<string>>): (tags: seq<string>)
    ensures tags != [] <==> show && names.Some? && names.value != []
    ensures tags != [] ==> tags == names.value
  {
    if show && names.Some? && |names.value| > 0 then names.value else []
  }

  function Row(item: MatchItem): MatchRow
  {
    MatchRow(item.rank, item.similarity, LastSegment(item.image))
  }

  /** The first three matches, each with its rank, similarity and file name. */
  function TopRows(results: seq<MatchItem>): (rows: seq<MatchRow>)
    ensures |rows| == if |results| < MaxShownMatches then |results| else MaxShownMatches
    ensures forall i :: 0 <= i < |rows| ==> rows[i] == Row(results[i])
  {
    var n := if |results| < MaxShownMatches then |results| else MaxShownMatches;
    seq(n, i requires 0 <= i < n => Row(results[i]))
  }

  function RenderResult(result: Option<TaskResult>): (view: Option<View>)
    ensures view.None? <==> result.None?
    ensures result.Some? && result.value.Classification? ==>
              var d := result.value.classification;
              && view.value.ClassificationView?
              && (view.value.shopDetected <==> d.labelName == "shop")
              && view.value.badge == (if d.labelName == "shop" then "SHOP DETECTED" else "NOT A SHOP")
              && view.value.confidence == d.probability
              && view.value.shopProb == d.shopProb
              && view.value.notShopProb == d.notShopProb
              && (view.value.shopTags != [] <==>
                    d.labelName == "shop" && d.shopNames.Some? && d.shopNames.value != [])
              && (view.value.shopTags != [] ==> view.value.shopTags == d.shopNames.value)
    ensures result.Some? && result.value.Search? ==>
              var d := result.value.search;
              && view.value.SearchView?
              && (view.value.matchFound <==> d.matchExists)
              && view.value.badge == (if d.matchExists then "MATCH FOUND" else "NO MATCH")
              && view.value.bestSimilarity == d.bestSimilarity
              && (view.value.shopTags != [] <==>
                    d.matchExists && d.shopNames.Some? && d.shopNames.value != [])
              && (view.value.shopTags != [] ==> view.value.shopTags == d.shopNames.value)
              && |view.value.matches| == (if |d.results| < 3 then |d.results| else 3)
              && (forall i :: 0 <= i < |view.value.matches| ==>
                    view.value.matches[i].rank == d.results[i].rank
                    && view.value.matches[i].similarity == d.results[i].similarity
                    && view.value.matches[i].fileName == LastSegment(d.results[i].image))
  {
    match result
    case None => None
    case Some(Classification(d)) =>
      var shop := d.labelName == "shop";
      Some(ClassificationView(shop, if shop then "SHOP DETECTED" else "NOT A SHOP",
                              d.probability, d.shopProb, d.notShopProb, Tags(shop, d.shopNames)))
    case Some(Search(d)) =>
      Some(SearchView(d.matchExists, if d.matchExists then "MATCH FOUND" else "NO MATCH",
                      d.bestSimilarity, Tags(d.matchExists, d.shopNames), TopRows(d.results)))
  }

  /** The match rows show file names only: no shown name contains '/', and
      each is the tail of its match's path. */
  lemma ShownNamesAreFileNames(d: SearchData, i: nat)
    requires i < |d.results| && i < MaxShownMatches
    ensures var v := RenderResult(Some(Search(d))).value;
            && '/' !in v.matches[i].fileName
            && EndsWith(d.results[i].image, v.matches[i].fileName)
  {
    LastSegmentIsFileName(d.results[i].image);
  }

  /** The search fixture: a match at 0.87 for "a/b/c.jpg" with no shop names
      shows "MATCH FOUND", one row (rank 1, "c.jpg") and no tags. */
  lemma SearchFixture()
    ensures var d := SearchData(true, 0.85, 0.87, [MatchItem(1, 0.87, "a/b/c.jpg")], Some([]));
            RenderResult(Some(Search(d))) ==
              Some(SearchView(true, "MATCH FOUND", 0.87, [], [MatchRow(1, 0.87, "c.jpg")]))
  {
    var d := SearchData(true, 0.85, 0.87, [MatchItem(1, 0.87, "a/b/c.jpg")], Some([]));
    FixturePathTail();
    assert TopRows(d.results) == [MatchRow(1, 0.87, "c.jpg")];
  }

  lemma FixturePathTail()
    ensures LastSegment("a/b/c.jpg") == "c.jpg"
  {
    var tail: string := "c.jpg";
    var mid: string := "b" + ['/'] + tail;
    var path: string := "a" + ['/'] + mid;
    SplitWithoutSep(tail, '/');
    SplitAtFirst("b", tail, '/');
    SplitAtFirst("a", mid, '/');
    assert Split(path, '/') == ["a", "b", tail];
    assert path == "a/b/c.jpg";
  }

  /** The classification fixture: "shop" at 0.92 with the name "Acme" shows
      "SHOP DETECTED", confidence 0.92 and exactly the tag "Acme". */
  lemma ClassificationFixture()
    ensures var d := ClassificationData("shop", 0.92, 0.92, 0.08, Some(["Acme"]));
            RenderResult(Some(Classification(d))) ==
              Some(ClassificationView(true, "SHOP DETECTED", 0.92, 0.92, 0.08, ["Acme"]))
  {
  }
}
