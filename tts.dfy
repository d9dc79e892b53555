/**
 * The text side of the speech service: the Chinese/English language guess,
 * the voice chosen for a language code, the script read out for one news
 * item, the guards in front of every synthesis call, and the sequence of
 * spoken and silent segments a playlist is assembled from. The speech
 * service itself is an input: whether a client exists, which characters
 * count as alphanumeric, and whether a given request succeeds.
 */
module Tts {
  import opened Results
  import opened PyText
  import opened PyValue

  const ChineseCode: string := "zh-TW"
  const EnglishCode: string := "en-US"

  /** A CJK unified ideograph, U+4E00 to U+9FFF. */
  predicate IsCjk(c: char)
  {
    '\U{4E00}' <= c <= '\U{9FFF}'
  }

  /** How many characters of `s` satisfy `p`. */
  function Count(s: string, p: char -> bool): (r: nat)
    ensures r <= |s|
  {
    if s == [] then 0
    else Count(s[..|s| - 1], p) + (if p(s[|s| - 1]) then 1 else 0)
  }

  lemma {:induction false} CountConcat(a: string, b: string, p: char -> bool)
    ensures Count(a + b, p) == Count(a, p) + Count(b, p)
    decreases |b|
  {
    if b != [] {
      assert (a + b)[..|a + b| - 1] == a + b[..|b| - 1];
      assert (a + b)[|a + b| - 1] == b[|b| - 1];
      CountConcat(a, b[..|b| - 1], p);
      assert Count(a + b, p) == Count(a + b[..|b| - 1], p) + (if p(b[|b| - 1]) then 1 else 0);
    } else {
      assert a + b == a;
    }
  }

  /** A weaker property never counts more characters. */
  lemma {:induction false} CountMonotone(s: string, p: char -> bool, q: char -> bool)
    requires forall c :: p(c) ==> q(c)
    ensures Count(s, p) <= Count(s, q)
    decreases |s|
  {
    if s != [] {
      CountMonotone(s[..|s| - 1], p, q);
    }
  }

  /** When every character satisfies `p`, all of them are counted. */
  lemma {:induction false} CountAll(s: string, p: char -> bool)
    requires forall i :: 0 <= i < |s| ==> p(s[i])
    ensures Count(s, p) == |s|
    decreases |s|
  {
    if s != [] {
      CountAll(s[..|s| - 1], p);
    }
  }

  /** When no character satisfies `p`, none is counted. */
  lemma {:induction false} CountNone(s: string, p: char -> bool)
    requires forall i :: 0 <= i < |s| ==> !p(s[i])
    ensures Count(s, p) == 0
    decreases |s|
  {
    if s != [] {
      CountNone(s[..|s| - 1], p);
    }
  }

  /**
   * Python's `str.isalnum()` follows the Unicode tables, which are outside the
   * model; it is given as `isAlnum`, of which only this much is assumed: every
   * CJK ideograph is alphanumeric.
   */
  predicate AlnumCoversCjk(isAlnum: char -> bool)
  {
    forall c :: IsCjk(c) ==> isAlnum(c)
  }

  /**
   * `detect_language(text)`: Chinese when there is no alphanumeric character,
   * otherwise Chinese exactly when ten CJK characters outweigh three
   * alphanumeric ones (the ratio test against 0.3, in integers).
   */
  function DetectLanguage(text: string, isAlnum: char -> bool): string
  {
    var chinese := Count(text, IsCjk);
    var total := Count(text, isAlnum);
    if total == 0 then ChineseCode
    else if 10 * chinese > 3 * total then ChineseCode
    else EnglishCode
  }

  /** For a positive denominator, the ratio test against 0.3 is the integer test. */
  lemma RatioAboveThreeTenths(x: nat, y: nat)
    requires y > 0
    ensures (x as real) / (y as real) > 0.3 <==> 10 * x > 3 * y
  {
    var d := (x as real) / (y as real) - 0.3;
    assert d * (y as real) == (x as real) - 0.3 * (y as real);
    PositiveFactor(d, y as real);
  }

  /** A product with a positive factor has the sign of the other factor. */
  lemma PositiveFactor(d: real, y: real)
    requires y > 0.0
    ensures d > 0.0 <==> d * y > 0.0
  {
  }

  /**
   * The language guess is Chinese without alphanumeric characters, and
   * otherwise Chinese exactly when CJK characters make up more than 30 percent
   * of the alphanumeric ones, English when they do not.
   */
  lemma DetectLanguageRatio(text: string, isAlnum: char -> bool)
    ensures Count(text, isAlnum) == 0 ==> DetectLanguage(text, isAlnum) == ChineseCode
    ensures Count(text, isAlnum) > 0 ==>
      (DetectLanguage(text, isAlnum) == ChineseCode
       <==> (Count(text, IsCjk) as real) / (Count(text, isAlnum) as real) > 0.3)
    ensures DetectLanguage(text, isAlnum) != ChineseCode ==> DetectLanguage(text, isAlnum) == EnglishCode
  {
    if Count(text, isAlnum) > 0 {
      RatioAboveThreeTenths(Count(text, IsCjk), Count(text, isAlnum));
    }
  }

  /** The CJK characters are among the alphanumeric ones. */
  lemma CjkWithinAlnum(text: string, isAlnum: char -> bool)
    requires AlnumCoversCjk(isAlnum)
    ensures Count(text, IsCjk) <= Count(text, isAlnum)
  {
    CountMonotone(text, IsCjk, isAlnum);
  }

  /** Text written only in CJK ideographs, with at least one of them, is read as Chinese. */
  lemma AllCjkIsChinese(text: string, isAlnum: char -> bool)
    requires AlnumCoversCjk(isAlnum)
    requires text != [] && forall i :: 0 <= i < |text| ==> IsCjk(text[i])
    ensures DetectLanguage(text, isAlnum) == ChineseCode
  {
    CountAll(text, IsCjk);
    CountAll(text, isAlnum);
  }

  /** Text with alphanumeric characters but no CJK ideograph is read as English. */
  lemma NoCjkIsEnglish(text: string, isAlnum: char -> bool)
    requires Count(text, isAlnum) > 0
    requires forall i :: 0 <= i < |text| ==> !IsCjk(text[i])
    ensures DetectLanguage(text, isAlnum) == EnglishCode
  {
    CountNone(text, IsCjk);
  }

  /** Appending CJK ideographs to text read as Chinese keeps it Chinese. */
  lemma ChineseStaysChinese(a: string, b: string, isAlnum: char -> bool)
    requires AlnumCoversCjk(isAlnum)
    requires DetectLanguage(a, isAlnum) == ChineseCode
    requires forall i :: 0 <= i < |b| ==> IsCjk(b[i])
    ensures DetectLanguage(a + b, isAlnum) == ChineseCode
  {
    CountConcat(a, b, IsCjk);
    CountConcat(a, b, isAlnum);
    CountAll(b, IsCjk);
    CountAll(b, isAlnum);
    CountMonotone(a, IsCjk, isAlnum);
  }

  datatype Gender = Female

  /** The voice parameters sent with a synthesis request. */
  datatype VoiceConfig = VoiceConfig(languageCode: string, name: string, gender: Gender)

  /** `get_voice_config(code)`: the English voice for "en-US", the Taiwanese Mandarin voice for anything else. */
  function GetVoiceConfig(code: string): (r: VoiceConfig)
    ensures r.gender == Female
    ensures r.languageCode == "en-US" <==> code == EnglishCode
    ensures code == EnglishCode ==> r.name == "en-US-Standard-C"
    ensures code != EnglishCode ==> r.languageCode == "cmn-TW" && r.name == "cmn-TW-Standard-A"
  {
    var chinese := VoiceConfig("cmn-TW", "cmn-TW-Standard-A", Female);
    var english := VoiceConfig("en-US", "en-US-Standard-C", Female);
    var configs := map[ChineseCode := chinese, EnglishCode := english];
    if code in configs then configs[code] else configs[ChineseCode]
  }

  /**
   * The speech service as the model sees it: whether its client was created,
   * which characters `str.isalnum()` accepts, which requests the remote
   * service answers, and the text of its exception for one it does not.
   */
  datatype Service = Service(hasClient: bool, isAlnum: char -> bool, answers: Request -> bool, failure: Request -> string)

  /** A synthesis request: the text and the chosen voice (MP3, rate 1.0, pitch and gain 0). */
  datatype Request = Request(text: string, voice: VoiceConfig)

  /**
   * The checks `synthesize_text(text, language_code)` makes before calling the
   * service: a client is needed, the text must not be blank, and a missing or
   * empty language code is replaced by the detected one.
   */
  function SynthesisRequest(svc: Service, text: string, code: Option<string>): (r: Result<Request>)
    ensures r.Ok? <==> svc.hasClient && Strip(text) != ""
    ensures !svc.hasClient ==> r == Err("TTS client not initialized")
    ensures r.Ok? ==> r.value.text == text
    ensures r.Ok? && code.Some? && code.value != "" ==> r.value.voice == GetVoiceConfig(code.value)
    ensures r.Ok? && (code == None || code == Some("")) ==>
      r.value.voice == GetVoiceConfig(DetectLanguage(text, svc.isAlnum))
  {
    if !svc.hasClient then Err("TTS client not initialized")
    else if Strip(text) == "" then Err("Text cannot be empty")
    else
      var language := if code.None? || code.value == "" then DetectLanguage(text, svc.isAlnum) else code.value;
      Ok(Request(text, GetVoiceConfig(language)))
  }

  /** `synthesize_text`: the request, when the guards pass and the service answers it. */
  function Synthesize(svc: Service, text: string): (r: Result<Request>)
    ensures r.Ok? <==> SynthesisRequest(svc, text, None).Ok? && svc.answers(SynthesisRequest(svc, text, None).value)
    ensures r.Ok? ==> r.value == SynthesisRequest(svc, text, None).value
    ensures SynthesisRequest(svc, text, None).Err? ==> r == SynthesisRequest(svc, text, None)
    ensures SynthesisRequest(svc, text, None).Ok? && r.Err? ==>
      r.message == "語音合成失敗: " + svc.failure(SynthesisRequest(svc, text, None).value)
  {
    match SynthesisRequest(svc, text, None)
    case Err(e) => Err(e)
    case Ok(request) =>
      if svc.answers(request) then Ok(request) else Err("語音合成失敗: " + svc.failure(request))
  }

  const TitleLabel: string := "新聞標題："
  const SummaryLabel: string := "內容摘要："

  /** The parts of a news script: the title part if there is a title, then the summary part. */
  function ScriptParts(title: Value, summary: Value): seq<string>
  {
    (if Truthy(title) then [TitleLabel + Text(title)] else [])
    + (if Truthy(summary) then [SummaryLabel + Text(summary)] else [])
  }

  /**
   * The script `create_news_audio` reads out for a news item: rejected when
   * both title and summary are empty, otherwise the labelled title and summary
   * that are present, in that order, each ending in a full stop.
   */
  function NewsScript(item: map<string, Value>): (r: Result<string>)
    ensures r.Ok? <==> Truthy(Get(item, "title", Str(""))) || Truthy(Get(item, "summary", Str("")))
    ensures r.Ok? ==> EndsWith(r.value, "。")
  {
    var title := Get(item, "title", Str(""));
    var summary := Get(item, "summary", Str(""));
    if !Truthy(title) && !Truthy(summary) then Err("News item must have title or summary")
    else Ok(Join(ScriptParts(title, summary), "。") + "。")
  }

  /** The three shapes a news script takes. */
  lemma NewsScriptShape(item: map<string, Value>)
    ensures var title := Get(item, "title", Str(""));
      var summary := Get(item, "summary", Str(""));
      (Truthy(title) && Truthy(summary) ==>
        NewsScript(item) == Ok(TitleLabel + Text(title) + "。" + SummaryLabel + Text(summary) + "。"))
      && (Truthy(title) && !Truthy(summary) ==> NewsScript(item) == Ok(TitleLabel + Text(title) + "。"))
      && (!Truthy(title) && Truthy(summary) ==> NewsScript(item) == Ok(SummaryLabel + Text(summary) + "。"))
  {
    var title := Get(item, "title", Str(""));
    var summary := Get(item, "summary", Str(""));
    var parts := ScriptParts(title, summary);
    if Truthy(title) && Truthy(summary) {
      assert parts == [TitleLabel + Text(title), SummaryLabel + Text(summary)];
      assert parts[1..] == [SummaryLabel + Text(summary)];
      assert Join(parts, "。") == TitleLabel + Text(title) + "。" + SummaryLabel + Text(summary);
    }
  }

  /** A news script always starts with a label, so it is never blank. */
  lemma NewsScriptNotBlank(item: map<string, Value>)
    requires NewsScript(item).Ok?
    ensures Strip(NewsScript(item).value) != ""
  {
    StripNonBlank(NewsScript(item).value, 0);
  }

  /**
   * The exception `title[:50]` raises, None when the title can be sliced:
   * only strings and lists can (a dict raises before Python 3.12 as shown, and
   * a KeyError from 3.12 on).
   */
  function SliceFailure(title: Value): (r: Option<string>)
    ensures r == None <==> title.Str? || title.List?
  {
    match title
    case Str(_) => None
    case List(_) => None
    case Null | Bool(_) | Int(_) | Time(_) | Oid(_) => Some("'" + TypeName(title) + "' object is not subscriptable")
    case Obj(_) => Some("unhashable type: 'slice'")
  }

  /**
   * `create_news_audio(news_item)`: the script, synthesised with the detected
   * language, once the log line has cut the title to 50 characters.
   */
  function NewsAudio(svc: Service, item: map<string, Value>): (r: Result<Request>)
    ensures NewsScript(item).Err? ==> r == Err("News item must have title or summary")
    ensures NewsScript(item).Ok? && SliceFailure(Get(item, "title", Str(""))).Some? ==>
      r == Err(SliceFailure(Get(item, "title", Str(""))).value)
    ensures r.Ok? <==>
      NewsScript(item).Ok? && SliceFailure(Get(item, "title", Str(""))) == None
      && Synthesize(svc, NewsScript(item).value).Ok?
    ensures r.Ok? ==> r.value.text == NewsScript(item).value
    ensures r.Ok? ==> r.value.voice == GetVoiceConfig(DetectLanguage(NewsScript(item).value, svc.isAlnum))
  {
    match NewsScript(item)
    case Err(e) => Err(e)
    case Ok(script) =>
      match SliceFailure(Get(item, "title", Str("")))
      case Some(e) => Err(e)
      case None => Synthesize(svc, script)
  }

  /**
   * Before the service is asked, a news item fails only for want of a client or
   * for want of both title and summary: the script itself always passes the
   * blank-text guard.
   */
  lemma NewsAudioGuards(svc: Service, item: map<string, Value>)
    ensures NewsScript(item).Ok? ==> SynthesisRequest(svc, NewsScript(item).value, None).Ok? == svc.hasClient
  {
    if NewsScript(item).Ok? {
      NewsScriptNotBlank(item);
    }
  }

  /** A piece of the playlist recording: a synthesised utterance or a pause in milliseconds. */
  datatype Segment = Speech(request: Request) | Silence(ms: nat)

  const IntroPause: nat := 1000
  const AnnouncePause: nat := 500
  const ItemPause: nat := 1500
  const OutroPause: nat := 1000

  function IntroText(playlistTitle: string, n: nat): string
  {
    "歡迎收聽" + playlistTitle + "，共有" + NatToString(n) + "則新聞。"
  }

  function AnnounceText(i: nat): string
  {
    "第" + NatToString(i) + "則新聞。"
  }

  const OutroText: string := "新聞播報結束，感謝收聽。"

  /** The news item inside a playlist entry, None where `item['newsItem']` or its `.get` would raise. */
  function EntryNews(entry: map<string, Value>): Option<map<string, Value>>
  {
    if "newsItem" in entry && entry["newsItem"].Obj? then Some(entry["newsItem"].fields) else None
  }

  /**
   * The segments the `i`-th of `n` entries (counting from 1) adds. A failure
   * stops the entry but keeps what it already added: a failed announcement adds
   * nothing, a failed news item leaves the announcement and its pause.
   */
  function EntrySegments(svc: Service, entry: map<string, Value>, i: nat, n: nat): seq<Segment>
  {
    match Synthesize(svc, AnnounceText(i))
    case Err(_) => []
    case Ok(announce) =>
      [Speech(announce), Silence(AnnouncePause)]
      + match EntryNews(entry)
        case None => []
        case Some(news) =>
          match NewsAudio(svc, news)
          case Err(_) => []
          case Ok(audio) => [Speech(audio)] + (if i < n then [Silence(ItemPause)] else [])
  }

  /** The segments of the first `|entries|` of `n` entries, in order. */
  function EntriesSegments(svc: Service, entries: seq<map<string, Value>>, n: nat): seq<Segment>
    decreases |entries|
  {
    if entries == [] then []
    else
      var k := |entries| - 1;
      EntriesSegments(svc, entries[..k], n) + EntrySegments(svc, entries[k], k + 1, n)
  }

  /**
   * `create_playlist_audio(items, title)`: rejected when empty; fails as a
   * whole only when the introduction or the closing words fail; otherwise the
   * introduction and a pause, the entries' segments, and a pause and the
   * closing words.
   */
  function PlaylistSegments(svc: Service, entries: seq<map<string, Value>>, playlistTitle: string): (r: Result<seq<Segment>>)
    ensures entries == [] ==> r == Err("Playlist cannot be empty")
    ensures r.Ok? <==>
      entries != [] && Synthesize(svc, IntroText(playlistTitle, |entries|)).Ok? && Synthesize(svc, OutroText).Ok?
  {
    if entries == [] then Err("Playlist cannot be empty")
    else
      match Synthesize(svc, IntroText(playlistTitle, |entries|))
      case Err(e) => Err("播放清單音頻生成失敗: " + e)
      case Ok(intro) =>
        match Synthesize(svc, OutroText)
        case Err(e) => Err("播放清單音頻生成失敗: " + e)
        case Ok(outro) =>
          Ok([Speech(intro), Silence(IntroPause)] + EntriesSegments(svc, entries, |entries|)
             + [Silence(OutroPause), Speech(outro)])
  }

  /** The loop of `create_playlist_audio`, entry by entry. */
  method CreatePlaylistAudio(svc: Service, entries: seq<map<string, Value>>, playlistTitle: string)
    returns (r: Result<seq<Segment>>)
    ensures r == PlaylistSegments(svc, entries, playlistTitle)
  {
    if entries == [] {
      r := Err("Playlist cannot be empty");
    } else {
      var body: seq<Segment> := [];
      for i := 0 to |entries|
        invariant body == EntriesSegments(svc, entries[..i], |entries|)
      {
        assert entries[..i + 1][..i] == entries[..i];
        body := body + EntrySegments(svc, entries[i], i + 1, |entries|);
      }
      assert entries[..|entries|] == entries;
      r := Assemble(svc, entries, playlistTitle, body);
    }
  }

  /** The introduction and the closing words around the entries' segments. */
  method Assemble(svc: Service, entries: seq<map<string, Value>>, playlistTitle: string, body: seq<Segment>)
    returns (r: Result<seq<Segment>>)
    requires entries != [] && body == EntriesSegments(svc, entries, |entries|)
    ensures r == PlaylistSegments(svc, entries, playlistTitle)
  {
    match Synthesize(svc, IntroText(playlistTitle, |entries|)) {
      case Err(e) =>
        r := Err("播放清單音頻生成失敗: " + e);
      case Ok(intro) =>
        match Synthesize(svc, OutroText) {
          case Err(e) =>
            r := Err("播放清單音頻生成失敗: " + e);
          case Ok(outro) =>
            r := Ok([Speech(intro), Silence(IntroPause)] + body + [Silence(OutroPause), Speech(outro)]);
        }
    }
  }

  /** A speech service that is set up and answers every request. */
  ghost predicate Healthy(svc: Service)
  {
    svc.hasClient && forall q :: svc.answers(q)
  }

  /** An entry whose news item has a title or a summary, and a title the log line can cut. */
  predicate GoodEntry(entry: map<string, Value>)
  {
    EntryNews(entry).Some? && NewsScript(EntryNews(entry).value).Ok?
    && SliceFailure(Get(EntryNews(entry).value, "title", Str(""))) == None
  }

  /** With a healthy service, a good entry adds its announcement, a pause, its news, and a pause unless it is last. */
  lemma GoodEntrySegments(svc: Service, entry: map<string, Value>, i: nat, n: nat)
    requires Healthy(svc) && GoodEntry(entry)
    ensures |EntrySegments(svc, entry, i, n)| == if i < n then 4 else 3
  {
    StripNonBlank(AnnounceText(i), 0);
    NewsScriptNotBlank(EntryNews(entry).value);
  }

  lemma {:induction false} GoodEntriesLength(svc: Service, entries: seq<map<string, Value>>, n: nat)
    requires Healthy(svc) && 0 < |entries| <= n
    requires forall k :: 0 <= k < |entries| ==> GoodEntry(entries[k])
    ensures |EntriesSegments(svc, entries, n)| == 4 * |entries| - (if |entries| == n then 1 else 0)
    decreases |entries|
  {
    var k := |entries| - 1;
    GoodEntrySegments(svc, entries[k], k + 1, n);
    if k > 0 {
      GoodEntriesLength(svc, entries[..k], n);
    }
  }

  /**
   * With a healthy service, an entry that is not good (no news item, neither
   * title nor summary, or a title the log line cannot cut) keeps only its
   * announcement and the pause after it.
   */
  lemma FailedEntryKeepsAnnouncement(svc: Service, entry: map<string, Value>, i: nat, n: nat)
    requires Healthy(svc) && !GoodEntry(entry)
    ensures Synthesize(svc, AnnounceText(i)).Ok?
    ensures EntrySegments(svc, entry, i, n) == [Speech(Synthesize(svc, AnnounceText(i)).value), Silence(AnnouncePause)]
  {
    StripNonBlank(AnnounceText(i), 0);
  }

  /** The number of good entries. */
  function GoodCount(entries: seq<map<string, Value>>): (c: nat)
    ensures c <= |entries|
    decreases |entries|
  {
    if entries == [] then 0
    else GoodCount(entries[..|entries| - 1]) + (if GoodEntry(entries[|entries| - 1]) then 1 else 0)
  }

  /** With a healthy service, two segments per entry, two more per good entry, one fewer when the last entry is good. */
  lemma {:induction false} HealthyEntriesLength(svc: Service, entries: seq<map<string, Value>>, n: nat)
    requires Healthy(svc) && |entries| <= n
    ensures |EntriesSegments(svc, entries, n)| ==
      2 * |entries| + 2 * GoodCount(entries)
      - (if |entries| == n && entries != [] && GoodEntry(entries[|entries| - 1]) then 1 else 0)
    decreases |entries|
  {
    if entries != [] {
      var k := |entries| - 1;
      HealthyEntriesLength(svc, entries[..k], n);
      if GoodEntry(entries[k]) {
        GoodEntrySegments(svc, entries[k], k + 1, n);
      } else {
        FailedEntryKeepsAnnouncement(svc, entries[k], k + 1, n);
      }
    }
  }

  /**
   * With a healthy service the recording always succeeds: the introduction and
   * its pause, the entries' segments, and the closing pause and words.
   */
  lemma HealthyPlaylistCount(svc: Service, entries: seq<map<string, Value>>, playlistTitle: string)
    requires Healthy(svc) && entries != []
    ensures PlaylistSegments(svc, entries, playlistTitle).Ok?
    ensures |PlaylistSegments(svc, entries, playlistTitle).value| ==
      2 * |entries| + 2 * GoodCount(entries) + 4 - (if GoodEntry(entries[|entries| - 1]) then 1 else 0)
  {
    StripNonBlank(IntroText(playlistTitle, |entries|), 0);
    StripNonBlank(OutroText, 0);
    HealthyEntriesLength(svc, entries, |entries|);
  }

  /**
   * With a healthy service and only good entries, the recording has the
   * introduction and its pause, four segments for every entry but the last,
   * three for the last, and the closing pause and words.
   */
  lemma HealthyPlaylistLength(svc: Service, entries: seq<map<string, Value>>, playlistTitle: string)
    requires Healthy(svc) && entries != []
    requires forall k :: 0 <= k < |entries| ==> GoodEntry(entries[k])
    ensures PlaylistSegments(svc, entries, playlistTitle).Ok?
    ensures |PlaylistSegments(svc, entries, playlistTitle).value| == 4 * |entries| + 3
  {
    StripNonBlank(IntroText(playlistTitle, |entries|), 0);
    StripNonBlank(OutroText, 0);
    GoodEntriesLength(svc, entries, |entries|);
  }
}
