/**
 * The "main content" line filter shared by the summariser's and the news
 * routes' extractors: find the first line mentioning "Markdown Content:",
 * then keep the article-like lines after it until the kept text, joined by
 * spaces, is longer than a cap.
 */
module MainContent {
  import opened Results
  import opened PyText
  import opened Picking

  /** Substrings that mark a line as navigation, chrome or markup. */
  const SkipPatterns: seq<string> := [
    "首頁", "新聞", "股市", "運動", "TV", "汽機車", "購物中心", "拍賣",
    "登入", "搜尋", "Yahoo", "App", "熱搜", "立即下載", "廣告", "訂閱",
    "隱私權", "Privacy", "Cookie", "Terms", "===", "---", "===============",
    "*", "[", "]", "Image", "href", "http", "www."
  ]

  const Marker: string := "Markdown Content:"

  predicate IsAsciiLetter(c: char) { ('a' <= c <= 'z') || ('A' <= c <= 'Z') }

  predicate IsAsciiDigit(c: char) { '0' <= c <= '9' }

  /**
   * The whole line matches `[a-zA-Z\s\d.,;&%()\[\]]+`: English navigation text.
   * Digits are the ASCII ones.
   */
  predicate AsciiNav(line: string)
  {
    line != [] &&
    forall i :: 0 <= i < |line| ==>
      IsAsciiLetter(line[i]) || IsSpace(line[i]) || IsAsciiDigit(line[i]) || line[i] in ".,;&%()[]"
  }

  /** Some skip pattern from index `k` on occurs in the line. */
  predicate HasSkipPattern(line: string, k: nat)
    decreases |SkipPatterns| - k
  {
    k < |SkipPatterns| && (Contains(line, SkipPatterns[k]) || HasSkipPattern(line, k + 1))
  }

  /** A stripped line survives every skip rule. */
  predicate KeepLine(line: string)
  {
    !HasSkipPattern(line, 0)
    && |line| >= 15
    && !(StartsWith(line, "*") || StartsWith(line, "[") || StartsWith(line, "!"))
    && !(AsciiNav(line) && |line| > 20)
    && |line| > 10
  }

  /** A raw line is kept when its stripped form is. */
  predicate KeepRawLine(line: string)
  {
    KeepLine(Strip(line))
  }

  /**
   * The line mentions the marker. The extractors look for it in the stripped
   * line, which is the same test (`HasMarkerStripped`).
   */
  predicate HasMarker(line: string)
  {
    Contains(line, Marker)
  }

  /** The marker neither starts nor ends with white space, so stripping the line first changes nothing. */
  lemma HasMarkerStripped(line: string)
    ensures Contains(Strip(line), Marker) <==> HasMarker(line)
  {
    ContainsStripped(line, Marker);
  }

  /** The first line at or after `i` that holds the marker. */
  function FirstMarker(lines: seq<string>, i: nat): (r: Option<nat>)
    requires i <= |lines|
    ensures r.Some? ==> i <= r.value < |lines| && HasMarker(lines[r.value])
    ensures forall k :: i <= k < |lines| && (r.None? || k < r.value) ==> !HasMarker(lines[k])
    decreases |lines| - i
  {
    if i == |lines| then None
    else if HasMarker(lines[i]) then Some(i)
    else FirstMarker(lines, i + 1)
  }

  /** The lines the extractor collects from `content` with the given cap. */
  function MainLines(content: string, cap: nat): seq<string>
  {
    var lines := Split(content, {'\n'});
    match FirstMarker(lines, 0)
    case None => []
    case Some(i) => PickUntil(lines[i + 1..], KeepRawLine, " ", cap)
  }

  /** Every collected line passes the filter. (Order and provenance are `Picking.PickedIndicesSound`.) */
  lemma MainLinesPass(content: string, cap: nat)
    ensures forall m :: 0 <= m < |MainLines(content, cap)| ==> KeepLine(MainLines(content, cap)[m])
  {
    var lines := Split(content, {'\n'});
    if FirstMarker(lines, 0).Some? {
      var rest := lines[FirstMarker(lines, 0).value + 1..];
      PickUntilAll(rest, KeepRawLine, " ", cap, KeepLine);
    }
  }

  /** A line the filter keeps does not strip to nothing. */
  lemma KeepRawLineNonEmpty()
    ensures forall x :: KeepRawLine(x) ==> Strip(x) != ""
  {
  }

  /** The early-exit scan of the skip patterns. */
  method ScanSkipPatterns(line: string) returns (skip: bool)
    ensures skip == HasSkipPattern(line, 0)
  {
    var i := 0;
    while i < |SkipPatterns|
      invariant 0 <= i <= |SkipPatterns|
      invariant HasSkipPattern(line, 0) == HasSkipPattern(line, i)
    {
      if Contains(line, SkipPatterns[i]) {
        return true;
      }
      i := i + 1;
    }
    return false;
  }

  /** The skip rules of one stripped, non-empty line, in the order the extractor applies them. */
  method ShouldKeep(line: string) returns (keep: bool)
    ensures keep == KeepLine(line)
  {
    var skip := ScanSkipPatterns(line);
    if |line| < 15 || StartsWith(line, "*") || StartsWith(line, "[") || StartsWith(line, "!") {
      skip := true;
    }
    if AsciiNav(line) && |line| > 20 {
      skip := true;
    }
    keep := !skip && |line| > 10;
  }

  /** The outer loop: the first marker line starts the collection; without one nothing is collected. */
  method CollectMainLines(content: string, cap: nat) returns (kept: seq<string>)
    ensures kept == MainLines(content, cap)
  {
    var lines := Split(content, {'\n'});
    var i := 0;
    while i < |lines|
      invariant 0 <= i <= |lines|
      invariant FirstMarker(lines, 0) == FirstMarker(lines, i)
    {
      HasMarkerStripped(lines[i]);
      if Contains(Strip(lines[i]), Marker) {
        KeepRawLineNonEmpty();
        kept := CollectUntil(lines[i + 1..], KeepRawLine, " ", cap);
        return;
      }
      i := i + 1;
    }
    return [];
  }
}
