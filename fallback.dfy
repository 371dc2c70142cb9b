/**
 * The fallback article extractor (`fetch_full_article_content_fallback`).
 *
 * The fetched and parsed page is given as input: for each CSS selector, the
 * texts (`get_text(strip=True)`) of the elements it matches, in document
 * order, after scripts, styles and navigation were removed.  A failed
 * request is `None`.  The extractor walks a fixed cascade of selectors and
 * takes the paragraphs of the first one that matches at least three
 * elements and yields at least one paragraph longer than 40 characters.
 */
module Fallback {
  import opened Text
  import opened Wrappers

  /** Element texts per selector, in document order. */
  type Page = map<string, seq<string>>

  /** The cascade, most specific first. */
  const Selectors: seq<string> := [
    "[data-component=\"text-block\"]",
    ".ssrcss-1q0x1qg-Paragraph",
    ".story-body__inner p",
    ".zn-body__paragraph",
    ".el__leafmedia--sourced-paragraph",
    ".StandardArticleBody_body p",
    "article p",
    ".article-content p",
    ".entry-content p",
    ".post-content p",
    "p"
  ]

  const MinMatches := 3
  const MinBlockLength := 40
  const MaxBlocks := 12
  const MinContentLength := 200
  const BlockSeparator := "\n\n"

  /** `soup.select(selector)`: a selector the page lacks matches nothing. */
  function Matches(page: Page, selector: string): seq<string>
  {
    if selector in page then page[selector] else []
  }

  /** The paragraphs longer than 40 characters, in the order given. */
  function LongBlocks(texts: seq<string>): (r: seq<string>)
    ensures |r| <= |texts|
  {
    if texts == [] then []
    else (if |texts[0]| > MinBlockLength then [texts[0]] else []) + LongBlocks(texts[1..])
  }

  /** A selector wins when it matches at least three elements and at least one of them is long enough. */
  predicate Qualifies(page: Page, selector: string)
  {
    |Matches(page, selector)| >= MinMatches && LongBlocks(Matches(page, selector)) != []
  }

  /** The position of the first qualifying selector of `cascade` from position `s` on. */
  function WinnerFrom(page: Page, cascade: seq<string>, s: nat): Option<nat>
    decreases |cascade| - s
  {
    if s >= |cascade| then None
    else if Qualifies(page, cascade[s]) then Some(s)
    else WinnerFrom(page, cascade, s + 1)
  }

  function Winner(page: Page): Option<nat>
  {
    WinnerFrom(page, Selectors, 0)
  }

  /** `content_blocks` after walking `cascade`: the long paragraphs of its first qualifying selector. */
  function BlocksIn(page: Page, cascade: seq<string>): seq<string>
  {
    match WinnerFrom(page, cascade, 0)
    case None => []
    case Some(s) => if s < |cascade| then LongBlocks(Matches(page, cascade[s])) else []
  }

  /** `content_blocks` after the cascade. */
  function Blocks(page: Page): seq<string>
  {
    BlocksIn(page, Selectors)
  }

  /** What the extractor returns for a fetched page, or `None` for a failed request. */
  function FallbackText(page: Option<Page>): Option<string>
  {
    if page == None then None
    else
      var content := CleanHtml(Join(BlockSeparator, SliceTo(Blocks(page.value), MaxBlocks)));
      if |content| > MinContentLength then Some(content) else None
  }

  /** Appending texts appends their long paragraphs: the filter keeps document order. */
  lemma {:induction false} LongBlocksAppend(a: seq<string>, b: seq<string>)
    ensures LongBlocks(a + b) == LongBlocks(a) + LongBlocks(b)
  {
    if a == [] {
      assert a + b == b;
    } else {
      assert (a + b)[0] == a[0] && (a + b)[1..] == a[1..] + b;
      LongBlocksAppend(a[1..], b);
    }
  }

  /** Exactly the texts longer than 40 characters are kept, each as often as it occurs. */
  lemma {:induction false} LongBlocksExact(texts: seq<string>)
    ensures forall t :: t in LongBlocks(texts) ==> |t| > MinBlockLength && t in texts
    ensures forall t :: t in texts && |t| > MinBlockLength ==> t in LongBlocks(texts)
  {
    if texts != [] {
      LongBlocksExact(texts[1..]);
      assert texts == [texts[0]] + texts[1..];
    }
  }

  /** Every kept paragraph, by position, is longer than 40 characters. */
  lemma {:induction false} LongBlocksLong(texts: seq<string>)
    ensures forall k :: 0 <= k < |LongBlocks(texts)| ==> |LongBlocks(texts)[k]| > MinBlockLength
  {
    if texts != [] {
      LongBlocksLong(texts[1..]);
    }
  }

  /** The winner lies in the range, qualifies, and no earlier selector (from `s`) qualifies. */
  lemma {:induction false} WinnerFromIsFirst(page: Page, cascade: seq<string>, s: nat)
    ensures match WinnerFrom(page, cascade, s)
      case Some(w) =>
        && s <= w < |cascade| && Qualifies(page, cascade[w])
        && forall j :: s <= j < w ==> !Qualifies(page, cascade[j])
      case None => forall j :: s <= j < |cascade| ==> !Qualifies(page, cascade[j])
    decreases |cascade| - s
  {
    if s < |cascade| && !Qualifies(page, cascade[s]) {
      WinnerFromIsFirst(page, cascade, s + 1);
    }
  }

  /**
   * The winning selector is the first one, in cascade order, that has at
   * least three matches and a paragraph longer than 40 characters; there is
   * none exactly when no selector does.
   */
  lemma {:induction false} WinnerIsFirstQualifying(page: Page, w: nat)
    ensures Winner(page) == Some(w) <==>
      w < |Selectors| && Qualifies(page, Selectors[w])
      && forall j :: 0 <= j < w ==> !Qualifies(page, Selectors[j])
    ensures Winner(page) == None <==> forall j :: 0 <= j < |Selectors| ==> !Qualifies(page, Selectors[j])
  {
    WinnerFromIsFirst(page, Selectors, 0);
  }

  /**
   * The extracted text: nothing for a failed request or a page where no
   * selector qualifies; otherwise at most the first twelve paragraphs of the
   * winning selector, each longer than 40 characters, joined by blank lines,
   * and returned exactly when the result is longer than 200 characters.
   */
  lemma {:induction false} FallbackTextSpec(page: Option<Page>)
    ensures page == None ==> FallbackText(page) == None
    ensures page != None && Winner(page.value) == None ==> FallbackText(page) == None
    ensures page != None ==>
      var joined := Join(BlockSeparator, SliceTo(Blocks(page.value), MaxBlocks));
      && (|joined| > MinContentLength ==> FallbackText(page) == Some(joined))
      && (|joined| <= MinContentLength ==> FallbackText(page) == None)
    ensures FallbackText(page) != None ==>
      && page != None && Winner(page.value) != None
      && |FallbackText(page).value| > MinContentLength
      && var blocks := SliceTo(Blocks(page.value), MaxBlocks);
      && FallbackText(page).value == Join(BlockSeparator, blocks)
      && 1 <= |blocks| <= MaxBlocks
      && blocks <= LongBlocks(Matches(page.value, Selectors[Winner(page.value).value]))
      && forall k :: 0 <= k < |blocks| ==> |blocks[k]| > MinBlockLength
  {
    if page != None {
      var p := page.value;
      BlocksOfWinner(p);
      var blocks := SliceTo(Blocks(p), MaxBlocks);
      assert forall k :: 0 <= k < |blocks| ==> blocks[k] == Blocks(p)[k];
    }
  }

  /** The paragraphs are those of the winning selector: at least one, each longer than 40 characters. */
  lemma {:induction false} BlocksOfWinner(page: Page)
    ensures Winner(page) == None ==> Blocks(page) == []
    ensures Winner(page) != None ==>
      && Winner(page).value < |Selectors|
      && Blocks(page) == LongBlocks(Matches(page, Selectors[Winner(page).value]))
      && Blocks(page) != []
      && forall k :: 0 <= k < |Blocks(page)| ==> |Blocks(page)[k]| > MinBlockLength
  {
    WinnerFromIsFirst(page, Selectors, 0);
    if Winner(page) != None {
      LongBlocksLong(Matches(page, Selectors[Winner(page).value]));
    }
  }

  /** The loop over one selector's elements: append each text longer than 40 characters. */
  method CollectLongBlocks(elements: seq<string>) returns (blocks: seq<string>)
    ensures blocks == LongBlocks(elements)
  {
    blocks := [];
    var e := 0;
    while e < |elements|
      invariant 0 <= e <= |elements|
      invariant blocks == LongBlocks(elements[..e])
    {
      LongBlocksAppend(elements[..e], [elements[e]]);
      assert elements[..e + 1] == elements[..e] + [elements[e]];
      if |elements[e]| > MinBlockLength {
        blocks := blocks + [elements[e]];
      }
      e := e + 1;
    }
    assert elements[..e] == elements;
  }

  /** The selector loop: stop at the first selector with at least three matches that contributed a paragraph. */
  method CascadeBlocks(doc: Page, cascade: seq<string>) returns (blocks: seq<string>)
    ensures blocks == BlocksIn(doc, cascade)
  {
    blocks := [];
    var s := 0;
    while s < |cascade|
      invariant 0 <= s <= |cascade|
      invariant blocks == []
      invariant WinnerFrom(doc, cascade, 0) == WinnerFrom(doc, cascade, s)
      decreases |cascade| - s
    {
      var elements := Matches(doc, cascade[s]);
      if |elements| >= MinMatches {
        blocks := CollectLongBlocks(elements);
        if blocks != [] {
          break;
        }
      }
      s := s + 1;
    }
  }

  /**
   * The extractor as the source runs it: walk the cascade, append the long
   * paragraphs of a selector with at least three matches, stop at the first
   * selector that contributed one, then join the first twelve.
   */
  method FetchFallbackContent(page: Option<Page>) returns (content: Option<string>)
    ensures content == FallbackText(page)
  {
    if page == None {
      return None;
    }
    var blocks := CascadeBlocks(page.value, Selectors);
    var joined := CleanHtml(Join(BlockSeparator, SliceTo(blocks, MaxBlocks)));
    content := if |joined| > MinContentLength then Some(joined) else None;
  }
}
