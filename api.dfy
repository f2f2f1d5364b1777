/** The JSON bodies the two task endpoints return inside `data`, as both the
    server builds them and the page reads them. */
module Api {
  import opened Wrappers

  /** The body of a classification: the label (`label` on the wire), the probability of that
      label, both class probabilities and the shop names read from the
      image (always present when the server sends it; the page still guards
      against its absence). */
  datatype ClassificationData = ClassificationData(
    labelName: string,
    probability: real,
    shopProb: real,
    notShopProb: real,
    shopNames: Option<seq<string>>)

  /** One ranked match of a similarity search. */
  datatype MatchItem = MatchItem(rank: int, similarity: real, image: string)

  /** The body of a similarity search (`exists` on the wire is `matchExists`
      here, `exists` being a Dafny keyword). `shopNames` is missing when no
      candidate survived. */
  datatype SearchData = SearchData(
    matchExists: bool,
    threshold: real,
    bestSimilarity: real,
    results: seq<MatchItem>,
    shopNames: Option<seq<string>>)

  /** What a model raises: its message is what `str(e)` gives. */
  datatype ModelError = FileNotFound(message: string) | RuntimeFailure(message: string)
}
