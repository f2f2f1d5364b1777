/** Similarity search's assembly of ranked results from the raw neighbours
    the vector index returns (`SimilaritySearch.search`). The image
    embedding and the index query are not modelled: the query is a function
    parameter from the number of neighbours asked for to the (similarity,
    id) rows it returns, or to the message of what was raised on the way
    (including a failure to compute the embedding). Like the vector index,
    the query never answers with more rows than it was asked for. */
module Similarity {
  import opened Wrappers
  import opened Api
  import opened ShopNames

  /** The loaded search data: how many embeddings the index holds, the map
      from embedding id to image number, and the image paths. */
  datatype SearchIndex = SearchIndex(ntotal: nat, embed2img: seq<int>, imagePaths: seq<string>)

  /** One raw neighbour: its similarity and its embedding id (-1 for none). */
  datatype Hit = Hit(similarity: real, id: int)

  const DefaultTopK: nat := 5
  const DefaultThreshold: real := 0.85
  const IndexErrorMessage: string := "index out of range"

  /** How many neighbours are asked for: `min(top_k, ntotal)`. */
  function ActualK(topK: nat, ntotal: nat): (k: nat)
    ensures k <= topK && k <= ntotal
    ensures k == topK || k == ntotal
  {
    if topK <= ntotal then topK else ntotal
  }

  /** Python indexing, negative positions counting from the end; None where
      Python raises IndexError. */
  function PyIndex<T>(s: seq<T>, i: int): (r: Option<T>)
    ensures 0 <= i < |s| ==> r == Some(s[i])
    ensures -|s| <= i < 0 ==> r == Some(s[|s| + i])
    ensures r.Some? <==> -|s| <= i < |s|
    ensures r.Some? ==> r.value in s
  {
    if 0 <= i < |s| then Some(s[i])
    else if -|s| <= i < 0 then Some(s[|s| + i])
    else None
  }

  /** What becomes of the raw row at 0-based `position`. */
  datatype Step = Skip | Keep(item: MatchItem) | Raise(message: string)

  function StepAt(index: SearchIndex, hit: Hit, position: nat): (step: Step)
    ensures hit.id == -1 || hit.id >= |index.embed2img| ==> step == Skip
    ensures 0 <= hit.id < |index.embed2img| && index.embed2img[hit.id] >= |index.imagePaths| ==>
              step == Skip
    ensures 0 <= hit.id < |index.embed2img| && 0 <= index.embed2img[hit.id] < |index.imagePaths| ==>
              step == Keep(MatchItem(position + 1, hit.similarity,
                                     index.imagePaths[index.embed2img[hit.id]]))
    ensures step.Keep? ==>
              && step.item.rank == position + 1
              && step.item.similarity == hit.similarity
              && step.item.image in index.imagePaths
  {
    if hit.id == -1 then Skip
    else if hit.id >= |index.embed2img| then Skip
    else
      match PyIndex(index.embed2img, hit.id)
      case None => Raise(IndexErrorMessage)
      case Some(orig) =>
        if orig >= |index.imagePaths| then Skip
        else
          match PyIndex(index.imagePaths, orig)
          case None => Raise(IndexErrorMessage)
          case Some(path) => Keep(MatchItem(position + 1, hit.similarity, path))
  }

  /** The kept results for the raw rows, in row order, or the first error. */
  function Collect(index: SearchIndex, rows: seq<Hit>): (r: Result<seq<MatchItem>, string>)
    ensures r.Success? ==> |r.value| <= |rows|
    decreases |rows|
  {
    if rows == [] then Success([])
    else
      var n := |rows| - 1;
      match Collect(index, rows[..n])
      case Failure(e) => Failure(e)
      case Success(kept) =>
        match StepAt(index, rows[n], n)
        case Skip => Success(kept)
        case Keep(item) => Success(kept + [item])
        case Raise(e) => Failure(e)
  }

  /** An error part-way through ends the whole collection with that error. */
  lemma {:induction false} CollectFailureSticks(index: SearchIndex, rows: seq<Hit>, i: nat)
    requires i <= |rows| && Collect(index, rows[..i]).Failure?
    ensures Collect(index, rows) == Collect(index, rows[..i])
    decreases |rows| - i
  {
    if i < |rows| {
      assert rows[..i + 1][..i] == rows[..i];
      CollectFailureSticks(index, rows, i + 1);
    } else {
      assert rows[..i] == rows;
    }
  }

  /** Every kept result comes from the row its rank names, and ranks
      strictly increase. */
  lemma {:induction false} CollectRanks(index: SearchIndex, rows: seq<Hit>)
    requires Collect(index, rows).Success?
    ensures var kept := Collect(index, rows).value;
            && (forall m :: 0 <= m < |kept| ==>
                  1 <= kept[m].rank <= |rows|
                  && StepAt(index, rows[kept[m].rank - 1], kept[m].rank - 1) == Keep(kept[m]))
            && (forall m, m' :: 0 <= m < m' < |kept| ==> kept[m].rank < kept[m'].rank)
    decreases |rows|
  {
    if rows != [] {
      var n := |rows| - 1;
      CollectRanks(index, rows[..n]);
    }
  }

  /** Every row that qualifies is kept. */
  lemma {:induction false} CollectComplete(index: SearchIndex, rows: seq<Hit>, j: nat)
    requires Collect(index, rows).Success? && j < |rows|
    requires StepAt(index, rows[j], j).Keep?
    ensures StepAt(index, rows[j], j).item in Collect(index, rows).value
    decreases |rows|
  {
    var n := |rows| - 1;
    if j < n {
      assert rows[..n][j] == rows[j];
      CollectComplete(index, rows[..n], j);
    }
  }

  /** The reported best similarity is the first kept one; when the index
      returns its rows best first (as it does), that is the largest. */
  lemma BestIsLargestWhenSorted(index: SearchIndex, rows: seq<Hit>)
    requires forall i, j :: 0 <= i < j < |rows| ==> rows[i].similarity >= rows[j].similarity
    requires Collect(index, rows).Success? && Collect(index, rows).value != []
    ensures var kept := Collect(index, rows).value;
            forall m :: 0 <= m < |kept| ==> kept[0].similarity >= kept[m].similarity
  {
    CollectRanks(index, rows);
    var kept := Collect(index, rows).value;
    forall m | 0 <= m < |kept| ensures kept[0].similarity >= kept[m].similarity {
      assert kept[0].similarity == rows[kept[0].rank - 1].similarity;
      assert kept[m].similarity == rows[kept[m].rank - 1].similarity;
    }
  }

  /** What a search answers for the kept results: with none, no match, a
      best similarity of 0.0 and no shop-name entry; otherwise the best
      similarity is the first kept result's, a match exists when it reaches
      the threshold, and shop names are read only for a match. */
  ghost predicate IsReport(d: SearchData, kept: seq<MatchItem>, threshold: real,
                           ocr: OcrResult, findAll: FindAll)
  {
    && d.threshold == threshold
    && d.results == kept
    && (kept == [] ==> !d.matchExists && d.bestSimilarity == 0.0 && d.shopNames.None?)
    && (kept != [] ==>
          && d.bestSimilarity == kept[0].similarity
          && (d.matchExists <==> kept[0].similarity >= threshold)
          && d.shopNames.Some?
          && (d.matchExists ==> IsShopNameList(d.shopNames.value, ocr, findAll))
          && (!d.matchExists ==> d.shopNames.value == []))
  }

  method Search(index: SearchIndex, imagePath: string, pathExists: bool,
                query: nat -> Result<seq<Hit>, string>, ocr: OcrResult, findAll: FindAll,
                topK: nat := DefaultTopK, threshold: real := DefaultThreshold)
    returns (r: Result<SearchData, ModelError>)
    requires forall k :: query(k).Success? ==> |query(k).value| <= k
    ensures !pathExists ==> r == Failure(FileNotFound("Image file not found: " + imagePath))
    ensures pathExists && query(ActualK(topK, index.ntotal)).Failure? ==>
              r == Failure(RuntimeFailure("Search failed: " + query(ActualK(topK, index.ntotal)).error))
    ensures pathExists && query(ActualK(topK, index.ntotal)).Success? ==>
              var rows := query(ActualK(topK, index.ntotal)).value;
              match Collect(index, rows)
              case Failure(e) => r == Failure(RuntimeFailure("Search failed: " + e))
              case Success(kept) => r.Success? && IsReport(r.value, kept, threshold, ocr, findAll)
    ensures r.Success? ==> |r.value.results| <= ActualK(topK, index.ntotal) <= topK
  {
    if !pathExists {
      return Failure(FileNotFound("Image file not found: " + imagePath));
    }
    var k := ActualK(topK, index.ntotal);
    var answer := query(k);
    if answer.Failure? {
      return Failure(RuntimeFailure("Search failed: " + answer.error));
    }
    var rows := answer.value;
    var results: seq<MatchItem> := [];
    var i := 0;
    while i < |rows|
      invariant 0 <= i <= |rows|
      invariant Collect(index, rows[..i]) == Success(results)
    {
      assert rows[..i + 1][..i] == rows[..i];
      var hit := rows[i];
      if hit.id == -1 {
        i := i + 1;
        continue;
      }
      if hit.id >= |index.embed2img| {
        i := i + 1;
        continue;
      }
      var orig := PyIndex(index.embed2img, hit.id);
      if orig.None? {
        CollectFailureSticks(index, rows, i + 1);
        return Failure(RuntimeFailure("Search failed: " + IndexErrorMessage));
      }
      if orig.value >= |index.imagePaths| {
        i := i + 1;
        continue;
      }
      var path := PyIndex(index.imagePaths, orig.value);
      if path.None? {
        CollectFailureSticks(index, rows, i + 1);
        return Failure(RuntimeFailure("Search failed: " + IndexErrorMessage));
      }
      results := results + [MatchItem(i + 1, hit.similarity, path.value)];
      i := i + 1;
    }
    assert rows[..|rows|] == rows;
    if results == [] {
      return Success(SearchData(false, threshold, 0.0, [], None));
    }
    var best := results[0].similarity;
    var found := best >= threshold;
    var data := SearchData(found, threshold, best, results, None);
    var names: seq<string> := [];
    if found {
      names := ExtractShopNames(ocr, findAll);
    }
    data := data.(shopNames := Some(names));
    r := Success(data);
  }
}
