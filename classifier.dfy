/** The shop classifier's guards and the assembly of its answer from the
    network's two class probabilities (`ShopClassifier`). The network itself
    and the softmax are not modelled: their output, or the message of what
    they raised, is an input. */
module Classifier {
  import opened Wrappers
  import opened Api
  import opened ShopNames

  const ShopLabel: string := "shop"
  const NotShopLabel: string := "not_shop"

  /** The softmax output: index 0 is "not a shop", index 1 is "shop". */
  datatype Probabilities = Probabilities(notShop: real, shop: real)

  function Max(a: real, b: real): real
  {
    if a >= b then a else b
  }

  /** The constructor's guards: a missing model file raises FileNotFoundError
      before anything is loaded; a failure while loading is wrapped. */
  function Load(modelPath: string, modelExists: bool, loadError: Option<string>): (err: Option<ModelError>)
    ensures !modelExists ==> err == Some(FileNotFound("Model file not found: " + modelPath))
    ensures modelExists && loadError.Some? ==>
              err == Some(RuntimeFailure("Failed to load model: " + loadError.value))
    ensures err.None? <==> modelExists && loadError.None?
  {
    if !modelExists then Some(FileNotFound("Model file not found: " + modelPath))
    else if loadError.Some? then Some(RuntimeFailure("Failed to load model: " + loadError.value))
    else None
  }

  /** What a successful prediction promises: the label is "shop" exactly when
      the shop probability is strictly larger (a tie is "not_shop"); the
      reported probability is the chosen label's, which is the larger of the
      two; both raw probabilities are passed through; shop names are read
      only for a shop. */
  ghost predicate IsPrediction(d: ClassificationData, p: Probabilities, ocr: OcrResult, findAll: FindAll)
  {
    && (d.labelName == ShopLabel || d.labelName == NotShopLabel)
    && (d.labelName == ShopLabel <==> p.shop > p.notShop)
    && d.probability == (if d.labelName == ShopLabel then d.shopProb else d.notShopProb)
    && d.probability == Max(p.notShop, p.shop)
    && d.shopProb == p.shop
    && d.notShopProb == p.notShop
    && d.shopNames.Some?
    && (d.labelName == ShopLabel ==> IsShopNameList(d.shopNames.value, ocr, findAll))
    && (d.labelName != ShopLabel ==> d.shopNames.value == [])
  }

  method Predict(imagePath: string, pathExists: bool, inference: Result<Probabilities, string>,
                 ocr: OcrResult, findAll: FindAll)
    returns (r: Result<ClassificationData, ModelError>)
    ensures !pathExists ==> r == Failure(FileNotFound("Image file not found: " + imagePath))
    ensures pathExists && inference.Failure? ==>
              r == Failure(RuntimeFailure("Prediction failed: " + inference.error))
    ensures pathExists && inference.Success? ==>
              r.Success? && IsPrediction(r.value, inference.value, ocr, findAll)
  {
    if !pathExists {
      return Failure(FileNotFound("Image file not found: " + imagePath));
    }
    if inference.Failure? {
      return Failure(RuntimeFailure("Prediction failed: " + inference.error));
    }
    var probs := inference.value;
    var labelName := if probs.shop > probs.notShop then ShopLabel else NotShopLabel;
    var confidence := if labelName == ShopLabel then probs.shop else probs.notShop;
    var result := ClassificationData(labelName, confidence, probs.shop, probs.notShop, None);
    var names: seq<string> := [];
    if labelName == ShopLabel {
      names := ExtractShopNames(ocr, findAll);
    }
    result := result.(shopNames := Some(names));
    r := Success(result);
  }

  /** Equal probabilities are reported as "not_shop" with no names. */
  lemma TieIsNotShop(d: ClassificationData, p: Probabilities, ocr: OcrResult, findAll: FindAll)
    requires IsPrediction(d, p, ocr, findAll) && p.shop == p.notShop
    ensures d.labelName == NotShopLabel && d.shopNames == Some([]) && d.probability == p.notShop
  {
  }

  /** A prediction is determined by the probabilities and the OCR output,
      except for the order of the names. */
  lemma PredictionDeterminedUpToNameOrder(d1: ClassificationData, d2: ClassificationData,
                                          p: Probabilities, ocr: OcrResult, findAll: FindAll)
    requires IsPrediction(d1, p, ocr, findAll) && IsPrediction(d2, p, ocr, findAll)
    ensures d1.labelName == d2.labelName && d1.probability == d2.probability
    ensures d1.shopProb == d2.shopProb && d1.notShopProb == d2.notShopProb
    ensures |d1.shopNames.value| == |d2.shopNames.value|
    ensures forall x :: x in d1.shopNames.value <==> x in d2.shopNames.value
  {
    if d1.labelName == ShopLabel {
      ShopNameListsAgree(d1.shopNames.value, d2.shopNames.value, ocr, findAll);
    }
  }
}
