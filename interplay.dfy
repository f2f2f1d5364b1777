/** How the page and the server fit together: what the page lets through
    the server lets through, both decide HEIC the same way, what the page
    shows for the server's answers, and the text a server-side search
    failure ends up as in the page's alert. */
module Interplay {
  import opened Wrappers
  import opened Strings
  import opened Api
  import FileIntake
  import ResultRenderer
  import AppState
  import Server
  import ShopNames
  import Classifier
  import Similarity

  /** The multipart part the browser sends for a file: its name, and its
      type (a file without a declared type goes as an octet stream). */
  function UploadOf(f: FileIntake.File): Server.Upload
  {
    Server.Upload(Some(f.name),
                  Some(if f.mimeType == "" then "application/octet-stream" else f.mimeType))
  }

  /** A named file the page accepts passes both endpoints' checks once the
      models are loaded. */
  lemma AcceptedFilesPassServerChecks(f: FileIntake.File, e: Server.Endpoint)
    requires FileIntake.Judge(Some(f)).Accepted() && f.name != ""
    ensures Server.Gate(e, true, UploadOf(f)).None?
  {
    var u := UploadOf(f);
    if !StartsWith(f.mimeType, "image/") {
      assert forall k :: 0 <= k < |FileIntake.ImageExtensions| ==>
               FileIntake.ImageExtensions[k] in Server.SearchExtensions;
      EndsWithAnySubset(Lower(f.name), FileIntake.ImageExtensions, Server.SearchExtensions);
      assert Server.IsValidImage(u, Server.SearchExtensions);
      Server.SearchImagesAreClassifyImages(u);
    } else {
      assert f.mimeType != "";
    }
  }

  /** The page's and the server's HEIC tests agree on every file. */
  lemma HeicTestsAgree(f: FileIntake.File)
    ensures FileIntake.IsHeicFile(f) <==> Server.IsHeic(UploadOf(f))
  {
    assert FileIntake.HeicExtensions == Server.HeicSuffixes;
  }

  /** A search that raises inside the model reaches the user as an alert
      carrying the words "Search failed: " three times: from the model, from
      the endpoint and from the page. */
  lemma SearchFailureAlert(m: string, transportMessage: string)
    ensures var modelError := RuntimeFailure("Search failed: " + m);
            var detail := Server.FailurePrefix(Server.SearchEndpoint) + modelError.message;
            AppState.FailurePrefix(AppState.SearchTask) + AppState.ErrorText(Some(detail), transportMessage)
              == "Search failed: Search failed: Search failed: " + m
  {
    var detail := "Search failed: " + ("Search failed: " + m);
    assert detail != "" by { assert |detail| > 0; }
  }

  /** A search in which no candidate survived is shown as "NO MATCH", with
      a best similarity of 0, no tags and no match rows. */
  lemma EmptySearchShowsNoMatch(d: SearchData, threshold: real,
                                ocr: ShopNames.OcrResult, findAll: ShopNames.FindAll)
    requires Similarity.IsReport(d, [], threshold, ocr, findAll)
    ensures ResultRenderer.RenderResult(Some(ResultRenderer.Search(d))) ==
              Some(ResultRenderer.SearchView(false, "NO MATCH", 0.0, [], []))
  {
  }

  /** The tags the page shows for a classification are the names read from
      the image, and appear only when the shop probability was strictly
      larger. */
  lemma ShownClassificationTags(d: ClassificationData, p: Classifier.Probabilities,
                                ocr: ShopNames.OcrResult, findAll: ShopNames.FindAll)
    requires Classifier.IsPrediction(d, p, ocr, findAll)
    ensures var tags := ResultRenderer.RenderResult(Some(ResultRenderer.Classification(d))).value.shopTags;
            tags != [] ==> p.shop > p.notShop && ShopNames.IsShopNameList(tags, ocr, findAll)
  {
  }

  /** The tags the page shows for a search are the names read from the
      image, and appear only when the best similarity reached the
      threshold. */
  lemma ShownSearchTags(d: SearchData, kept: seq<MatchItem>, threshold: real,
                        ocr: ShopNames.OcrResult, findAll: ShopNames.FindAll)
    requires Similarity.IsReport(d, kept, threshold, ocr, findAll)
    ensures var tags := ResultRenderer.RenderResult(Some(ResultRenderer.Search(d))).value.shopTags;
            tags != [] ==> kept != [] && kept[0].similarity >= threshold
                           && ShopNames.IsShopNameList(tags, ocr, findAll)
  {
  }
}
