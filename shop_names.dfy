/** Shop-name extraction from OCR output (`extract_shop_names`, identical in
    both model classes). The OCR engine and Python's regular expressions are
    not modelled: the engine's output is an input, and `re.findall` is a
    function parameter. */
module ShopNames {
  import opened Strings

  /** One recognised line: its text and the engine's confidence. */
  datatype OcrLine = OcrLine(text: string, confidence: real)

  /** What the OCR call gave: it raised, or one list of lines per page (a
      page with nothing detected is an empty list). */
  datatype OcrResult = OcrRaised(message: string) | OcrPages(pages: seq<seq<OcrLine>>)

  /** The four patterns applied, in order, with case ignored. */
  const ShopNamePatterns: seq<string> := [
    "\\b[A-Z][a-z]+ (?:Shop|Store|Market|Cafe|Restaurant|Bar|Deli|Bakery)\\b",
    "\\b(?:Shop|Store|Market|Cafe|Restaurant|Bar|Deli|Bakery) [A-Z][a-z]+\\b",
    "\\b[A-Z]{2,}(?:\\s+[A-Z]+)*\\b",
    "\\b[A-Z][a-zA-Z]*\\s+(?:SHOP|STORE|MARKET|CAFE|RESTAURANT|BAR)\\b"
  ]

  /** `re.findall(pattern, text, re.IGNORECASE)`: all matches of a pattern
      in a text, in order. */
  type FindAll = (string, string) -> seq<string>

  predicate NoDuplicates(s: seq<string>)
  {
    forall i, j :: 0 <= i < j < |s| ==> s[i] != s[j]
  }

  /** The call raised, returned nothing, or its first page is empty. */
  predicate NothingRead(ocr: OcrResult)
  {
    ocr.OcrRaised? || |ocr.pages| == 0 || |ocr.pages[0]| == 0
  }

  function Texts(lines: seq<OcrLine>): (texts: seq<string>)
    ensures |texts| == |lines|
    ensures forall i :: 0 <= i < |lines| ==> texts[i] == lines[i].text
  {
    seq(|lines|, i requires 0 <= i < |lines| => lines[i].text)
  }

  /** The matches of each pattern in turn, concatenated. */
  function Matches(patterns: seq<string>, text: string, findAll: FindAll): seq<string>
  {
    if patterns == [] then []
    else Matches(patterns[..|patterns| - 1], text, findAll) + findAll(patterns[|patterns| - 1], text)
  }

  /** The names found in the first page's lines, joined by spaces. */
  function Candidates(lines: seq<OcrLine>, findAll: FindAll): seq<string>
  {
    Matches(ShopNamePatterns, Join(Texts(lines), " "), findAll)
  }

  /** What the extraction may return: nothing when nothing was read,
      otherwise every match exactly once (in an order Python's set leaves
      open). */
  ghost predicate IsShopNameList(names: seq<string>, ocr: OcrResult, findAll: FindAll)
  {
    if NothingRead(ocr) then names == []
    else NoDuplicates(names) && forall x :: x in names <==> x in Candidates(ocr.pages[0], findAll)
  }

  /** `list(set(xs))`: each element once. */
  method Unique(xs: seq<string>) returns (ys: seq<string>)
    ensures NoDuplicates(ys)
    ensures forall x :: x in ys <==> x in xs
  {
    ys := [];
    var i := 0;
    while i < |xs|
      invariant 0 <= i <= |xs|
      invariant NoDuplicates(ys)
      invariant forall x :: x in ys <==> x in xs[..i]
    {
      if xs[i] !in ys {
        ys := ys + [xs[i]];
      }
      assert xs[..i + 1] == xs[..i] + [xs[i]];
      i := i + 1;
    }
    assert xs[..|xs|] == xs;
  }

  method ExtractShopNames(ocr: OcrResult, findAll: FindAll) returns (names: seq<string>)
    ensures IsShopNameList(names, ocr, findAll)
  {
    if NothingRead(ocr) {
      return [];
    }
    var lines := ocr.pages[0];
    var allText: seq<string> := [];
    var i := 0;
    while i < |lines|
      invariant 0 <= i <= |lines|
      invariant allText == Texts(lines[..i])
    {
      allText := allText + [lines[i].text];
      i := i + 1;
    }
    assert lines[..|lines|] == lines;
    var fullText := Join(allText, " ");
    var found: seq<string> := [];
    var k := 0;
    while k < |ShopNamePatterns|
      invariant 0 <= k <= |ShopNamePatterns|
      invariant found == Matches(ShopNamePatterns[..k], fullText, findAll)
    {
      assert ShopNamePatterns[..k + 1][..k] == ShopNamePatterns[..k];
      found := found + findAll(ShopNamePatterns[k], fullText);
      k := k + 1;
    }
    assert ShopNamePatterns[..|ShopNamePatterns|] == ShopNamePatterns;
    names := Unique(found);
  }

  /** A duplicate-free list whose elements all occur in `b` is no longer
      than `b`. */
  lemma {:induction false} DistinctSubsetNoLonger(a: seq<string>, b: seq<string>)
    requires NoDuplicates(a)
    requires forall x :: x in a ==> x in b
    ensures |a| <= |b|
    decreases |a|
  {
    if a != [] {
      var x := a[0];
      assert x in b;
      var j :| 0 <= j < |b| && b[j] == x;
      var b' := b[..j] + b[j + 1..];
      var a' := a[1..];
      forall y | y in a' ensures y in b' {
        var p :| 0 <= p < |a'| && a'[p] == y;
        assert a[p + 1] == y && y != x;
        assert y in b;
        var q :| 0 <= q < |b| && b[q] == y;
        assert q != j;
        if q < j { assert b'[q] == y; } else { assert b'[q - 1] == y; }
      }
      DistinctSubsetNoLonger(a', b');
    }
  }

  /** Two duplicate-free lists with the same elements have the same length. */
  lemma SameElementsSameLength(a: seq<string>, b: seq<string>)
    requires NoDuplicates(a) && NoDuplicates(b)
    requires forall x :: x in a <==> x in b
    ensures |a| == |b|
  {
    DistinctSubsetNoLonger(a, b);
    DistinctSubsetNoLonger(b, a);
  }

  /** The extraction is determined up to order: any two results for the
      same OCR output list the same names, equally many. */
  lemma ShopNameListsAgree(a: seq<string>, b: seq<string>, ocr: OcrResult, findAll: FindAll)
    requires IsShopNameList(a, ocr, findAll) && IsShopNameList(b, ocr, findAll)
    ensures forall x :: x in a <==> x in b
    ensures |a| == |b|
  {
    if !NothingRead(ocr) {
      SameElementsSameLength(a, b);
    }
  }
}
