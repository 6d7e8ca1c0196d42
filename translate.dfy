/**
 * The translation guards around the external translation service. The
 * service itself is a parameter: `service(call, text)` is the Japanese text
 * returned to the `call`-th `translateText` of an article for `text`, or
 * `None` when that request throws.
 */
module Translate {
  import opened Options
  import opened Text

  /** What `translateArticle` returns; `None` is `null`. */
  datatype TranslationResult = TranslationResult(
    titleJa: Option<string>,
    summaryJa: Option<string>,
    contentJa: Option<string>)

  /** Hiragana, katakana and the CJK unified ideographs block. */
  predicate JapaneseChar(c: char) {
    ('\U{3040}' <= c <= '\U{309F}') || ('\U{30A0}' <= c <= '\U{30FF}') || ('\U{4E00}' <= c <= '\U{9FFF}')
  }

  /** The number of characters the Japanese-script pattern matches. */
  function JapaneseCount(s: string): (n: nat)
    ensures n <= |s|
    decreases |s|
  {
    if s == [] then 0
    else JapaneseCount(s[..|s| - 1]) + (if JapaneseChar(s[|s| - 1]) then 1 else 0)
  }

  /** Empty or whitespace-only text. */
  predicate Blank(text: string) {
    Trim(text) == ""
  }

  /** More than 30% of the characters are Japanese script; never for blank text. */
  predicate IsJapanese(text: string) {
    !Blank(text) && 10 * JapaneseCount(text) > 3 * |text|
  }

  /** Whether `translateText` calls the service for `text`. */
  predicate NeedsService(text: string) {
    !Blank(text) && !IsJapanese(text)
  }

  /**
   * What `translateText` resolves to. `service(call, text)` is the answer to
   * the request made by the `call`-th `translateText` of an article (0 for
   * the title, 1 for the summary, 2 for the content), so each request
   * succeeds or fails on its own; `None` means the request throws.
   */
  function Translated(text: string, service: (nat, string) -> Option<string>, call: nat): Option<string> {
    if Blank(text) then None
    else if IsJapanese(text) then Some(text)
    else service(call, text)
  }

  /** The content actually sent: at most 500 characters, then "..." when something was cut. */
  function Truncate(content: string): (r: string)
    ensures |r| <= 503
    ensures |content| <= 500 ==> r == content
    ensures |content| > 500 ==> |r| == 503 && r[..500] == content[..500] && r[500..] == "..."
  {
    if |content| > 500 then content[..500] + "..." else content
  }

  /** Truncating what was already truncated changes nothing. */
  lemma TruncateIdempotent(content: string)
    ensures Truncate(Truncate(content)) == Truncate(content)
  {
    if |content| > 500 {
      var r := Truncate(content);
      assert r[..500] + "..." == r;
    }
  }

  /** The count grows by the count of what is appended. */
  lemma {:induction false} JapaneseCountAppend(a: string, b: string)
    ensures JapaneseCount(a + b) == JapaneseCount(a) + JapaneseCount(b)
    decreases |b|
  {
    if b == [] {
      assert a + b == a;
    } else {
      var n := |b| - 1;
      JapaneseCountAppend(a, b[..n]);
      assert (a + b)[..|a + b| - 1] == a + b[..n];
      assert (a + b)[|a + b| - 1] == b[n];
    }
  }

  /** The count is the number of positions holding a Japanese character: zero when there are none, the length when all are. */
  lemma {:induction false} JapaneseCountBounds(s: string)
    ensures (forall i :: 0 <= i < |s| ==> !JapaneseChar(s[i])) ==> JapaneseCount(s) == 0
    ensures (forall i :: 0 <= i < |s| ==> JapaneseChar(s[i])) ==> JapaneseCount(s) == |s|
    decreases |s|
  {
    if s != [] {
      var n := |s| - 1;
      JapaneseCountBounds(s[..n]);
      if forall i :: 0 <= i < |s| ==> !JapaneseChar(s[i]) {
        assert forall i :: 0 <= i < n ==> !JapaneseChar(s[..n][i]);
      }
      if forall i :: 0 <= i < |s| ==> JapaneseChar(s[i]) {
        assert forall i :: 0 <= i < n ==> JapaneseChar(s[..n][i]);
      }
    }
  }

  /** Text with no Japanese-script character, such as plain ASCII, is never taken for Japanese. */
  lemma NoJapaneseScriptNotJapanese(text: string)
    requires forall i :: 0 <= i < |text| ==> !JapaneseChar(text[i])
    ensures !IsJapanese(text)
  {
    JapaneseCountBounds(text);
  }

  /** Non-empty text made only of kana and kanji is Japanese. */
  lemma AllJapaneseScript(text: string)
    requires text != []
    requires forall i :: 0 <= i < |text| ==> JapaneseChar(text[i])
    ensures IsJapanese(text)
  {
    JapaneseCountBounds(text);
    assert !IsSpace(text[0]);
    TrimEmptyIffBlank(text);
  }

  /**
   * Blank text gives `None` (never the empty string) and needs no call;
   * Japanese text comes back unchanged without a call; any other text gives
   * what the service gives, and `None` exactly when the service throws.
   */
  lemma TranslatedCases(text: string, service: (nat, string) -> Option<string>, call: nat)
    ensures Blank(text) ==> Translated(text, service, call) == None && !NeedsService(text)
    ensures IsJapanese(text) ==> Translated(text, service, call) == Some(text) && !NeedsService(text)
    ensures NeedsService(text) ==> Translated(text, service, call) == service(call, text)
    ensures Translated(text, service, call) == Some("") ==> NeedsService(text) && service(call, text) == Some("")
  {
  }

  /**
   * `translateText`. `called` says whether the service was asked; the result
   * is `None` for blank text and for a throwing call.
   */
  method TranslateText(text: string, service: (nat, string) -> Option<string>, call: nat) returns (r: Option<string>, called: bool)
    ensures r == Translated(text, service, call)
    ensures called == NeedsService(text)
  {
    called := false;
    if Trim(text) == "" {
      return None, called;
    }
    if IsJapanese(text) {
      return Some(text), called;
    }
    called := true;
    var answer := service(call, text);
    match answer {
      case Some(t) => r := Some(t);
      case None => r := None;
    }
  }

  /** The texts sent to the service by `translateArticle`, in order. */
  function Requests(title: string, summary: string, content: string): seq<string> {
    (if NeedsService(title) then [title] else [])
    + (if NeedsService(summary) then [summary] else [])
    + (if NeedsService(Truncate(content)) then [Truncate(content)] else [])
  }

  /** At most three calls, title first, then summary, then truncated content; only the content is cut. */
  lemma RequestsShape(title: string, summary: string, content: string)
    ensures |Requests(title, summary, content)| <= 3
    ensures NeedsService(title) ==> Requests(title, summary, content)[0] == title
    ensures NeedsService(Truncate(content)) ==>
      Requests(title, summary, content)[|Requests(title, summary, content)| - 1] == Truncate(content)
    ensures forall i :: 0 <= i < |Requests(title, summary, content)| ==>
      Requests(title, summary, content)[i] in [title, summary, Truncate(content)]
  {
  }

  /**
   * `translateArticle`: the title, the summary and the truncated content,
   * one after another. A failure affects only its own field and a result is
   * always returned.
   */
  method TranslateArticle(title: string, summary: string, content: string, service: (nat, string) -> Option<string>)
    returns (res: TranslationResult, calls: seq<string>)
    ensures res.titleJa == Translated(title, service, 0)
    ensures res.summaryJa == Translated(summary, service, 1)
    ensures res.contentJa == Translated(Truncate(content), service, 2)
    ensures calls == Requests(title, summary, content)
  {
    calls := [];
    var titleJa, calledTitle := TranslateText(title, service, 0);
    if calledTitle {
      calls := calls + [title];
    }
    var summaryJa, calledSummary := TranslateText(summary, service, 1);
    if calledSummary {
      calls := calls + [summary];
    }
    var truncated := if |content| > 500 then content[..500] + "..." else content;
    var contentJa, calledContent := TranslateText(truncated, service, 2);
    if calledContent {
      calls := calls + [truncated];
    }
    res := TranslationResult(titleJa, summaryJa, contentJa);
  }

  /** The texts of the three `translateText` calls of `translateArticle`, by call. */
  function Fields(title: string, summary: string, content: string): (f: seq<string>)
    ensures |f| == 3 && f[0] == title && f[1] == summary && f[2] == Truncate(content)
  {
    [title, summary, Truncate(content)]
  }

  /**
   * One request's failure: its field is `None`, and every other field is
   * what it would be with a service that answers like `working` there,
   * whatever the texts.
   */
  lemma FailureIsolated(title: string, summary: string, content: string, k: nat,
                        service: (nat, string) -> Option<string>, working: (nat, string) -> Option<string>)
    requires k < 3 && NeedsService(Fields(title, summary, content)[k])
    requires service(k, Fields(title, summary, content)[k]) == None
    requires forall j: nat, t :: j != k ==> service(j, t) == working(j, t)
    ensures Translated(Fields(title, summary, content)[k], service, k) == None
    ensures forall j :: 0 <= j < 3 && j != k ==>
      Translated(Fields(title, summary, content)[j], service, j) == Translated(Fields(title, summary, content)[j], working, j)
  {
  }
}
