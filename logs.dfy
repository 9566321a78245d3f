/**
 * The log viewer's display helpers: HTML escaping of a log line and the
 * css class chosen from the words the line contains.
 */
module Logs {
  import opened Wrappers
  import opened PyStr

  // ---------------------------------------------------------------- escaping

  /** `_escape_html`: five replacements, `&` first so that no entity is escaped twice. */
  function EscapeHtml(text: string): string {
    ReplaceAll(ReplaceAll(ReplaceAll(ReplaceAll(ReplaceAll(
      text, "&", "&amp;"), "<", "&lt;"), ">", "&gt;"), "\"", "&quot;"), "'", "&#39;")
  }

  predicate IsHtmlSpecial(c: char) {
    c == '&' || c == '<' || c == '>' || c == '"' || c == '\''
  }

  /** The entity each special character becomes; any other character stands for itself. */
  function EscapeChar(c: char): (r: string)
    ensures r != [] && (r[0] == c || r[0] == '&')
  {
    if c == '&' then "&amp;"
    else if c == '<' then "&lt;"
    else if c == '>' then "&gt;"
    else if c == '"' then "&quot;"
    else if c == '\'' then "&#39;"
    else [c]
  }

  /** Escaping one character at a time: the reference the replacement chain is proved against. */
  function EscapeEach(text: string): string {
    if text == [] then [] else EscapeChar(text[0]) + EscapeEach(text[1..])
  }

  lemma EscapeHtmlConcat(a: string, b: string)
    ensures EscapeHtml(a + b) == EscapeHtml(a) + EscapeHtml(b)
  {
    var s1a, s1b := ReplaceAll(a, "&", "&amp;"), ReplaceAll(b, "&", "&amp;");
    ReplaceCharConcat(a, b, '&', "&amp;");
    var s2a, s2b := ReplaceAll(s1a, "<", "&lt;"), ReplaceAll(s1b, "<", "&lt;");
    ReplaceCharConcat(s1a, s1b, '<', "&lt;");
    var s3a, s3b := ReplaceAll(s2a, ">", "&gt;"), ReplaceAll(s2b, ">", "&gt;");
    ReplaceCharConcat(s2a, s2b, '>', "&gt;");
    var s4a, s4b := ReplaceAll(s3a, "\"", "&quot;"), ReplaceAll(s3b, "\"", "&quot;");
    ReplaceCharConcat(s3a, s3b, '"', "&quot;");
    ReplaceCharConcat(s4a, s4b, '\'', "&#39;");
  }

  /** Replacing a character that does not occur changes nothing. */
  lemma ReplaceMissingChar(s: string, c: char, n: string)
    requires c !in s
    ensures ReplaceAll(s, [c], n) == s
  {
    AbsentChar(s, [c], 0);
    ReplaceAbsent(s, [c], n);
  }

  lemma ReplaceOneChar(x: char, c: char, n: string)
    ensures ReplaceAll([x], [c], n) == if x == c then n else [x]
  {
    ReplaceCharCons(x, [], c, n);
    assert [x] + [] == [x];
  }

  lemma EscapeHtmlChar(c: char)
    ensures EscapeHtml([c]) == EscapeChar(c)
  {
    if c == '&' {
      EscapeAmp();
    } else if c == '<' {
      EscapeLt();
    } else if c == '>' {
      EscapeGt();
    } else if c == '"' {
      EscapeQuot();
    } else if c == '\'' {
      EscapeApos();
    } else {
      EscapePlain(c);
    }
  }

  lemma EscapeAmp()
    ensures EscapeHtml("&") == "&amp;"
  {
    ReplaceOneChar('&', '&', "&amp;");
    ReplaceMissingChar("&amp;", '<', "&lt;");
    ReplaceMissingChar("&amp;", '>', "&gt;");
    ReplaceMissingChar("&amp;", '"', "&quot;");
    ReplaceMissingChar("&amp;", '\'', "&#39;");
  }

  lemma EscapeLt()
    ensures EscapeHtml("<") == "&lt;"
  {
    ReplaceOneChar('<', '&', "&amp;");
    ReplaceOneChar('<', '<', "&lt;");
    ReplaceMissingChar("&lt;", '>', "&gt;");
    ReplaceMissingChar("&lt;", '"', "&quot;");
    ReplaceMissingChar("&lt;", '\'', "&#39;");
  }

  lemma EscapeGt()
    ensures EscapeHtml(">") == "&gt;"
  {
    ReplaceOneChar('>', '&', "&amp;");
    ReplaceOneChar('>', '<', "&lt;");
    ReplaceOneChar('>', '>', "&gt;");
    ReplaceMissingChar("&gt;", '"', "&quot;");
    ReplaceMissingChar("&gt;", '\'', "&#39;");
  }

  lemma EscapeQuot()
    ensures EscapeHtml("\"") == "&quot;"
  {
    ReplaceOneChar('"', '&', "&amp;");
    ReplaceOneChar('"', '<', "&lt;");
    ReplaceOneChar('"', '>', "&gt;");
    ReplaceOneChar('"', '"', "&quot;");
    ReplaceMissingChar("&quot;", '\'', "&#39;");
  }

  lemma EscapeApos()
    ensures EscapeHtml("'") == "&#39;"
  {
    ReplaceOneChar('\'', '&', "&amp;");
    ReplaceOneChar('\'', '<', "&lt;");
    ReplaceOneChar('\'', '>', "&gt;");
    ReplaceOneChar('\'', '"', "&quot;");
    ReplaceOneChar('\'', '\'', "&#39;");
  }

  lemma EscapePlain(c: char)
    requires !IsHtmlSpecial(c)
    ensures EscapeHtml([c]) == [c]
  {
    ReplaceOneChar(c, '&', "&amp;");
    ReplaceOneChar(c, '<', "&lt;");
    ReplaceOneChar(c, '>', "&gt;");
    ReplaceOneChar(c, '"', "&quot;");
    ReplaceOneChar(c, '\'', "&#39;");
  }

  /** The replacement chain escapes each character independently. */
  lemma {:induction false} EscapeHtmlIsEscapeEach(text: string)
    ensures EscapeHtml(text) == EscapeEach(text)
  {
    if text != [] {
      assert text == [text[0]] + text[1..];
      EscapeHtmlConcat([text[0]], text[1..]);
      EscapeHtmlChar(text[0]);
      EscapeHtmlIsEscapeEach(text[1..]);
    }
  }

  // ---------------------------------------------------------------- unescaping

  /** The five entities, decoded in a single left-to-right pass. */
  function UnescapeHtml(s: string): string
    decreases |s|
  {
    if s == [] then []
    else if StartsWith(s, "&amp;") then "&" + UnescapeHtml(s[5..])
    else if StartsWith(s, "&lt;") then "<" + UnescapeHtml(s[4..])
    else if StartsWith(s, "&gt;") then ">" + UnescapeHtml(s[4..])
    else if StartsWith(s, "&quot;") then "\"" + UnescapeHtml(s[6..])
    else if StartsWith(s, "&#39;") then "'" + UnescapeHtml(s[5..])
    else [s[0]] + UnescapeHtml(s[1..])
  }

  lemma PrefixOf(p: string, rest: string)
    ensures StartsWith(p + rest, p) && (p + rest)[|p|..] == rest
  {
    assert (p + rest)[..|p|] == p;
  }

  /** Two entities differ at a fixed position, so at most one of them starts a string. */
  lemma NotPrefixAt(s: string, q: string, i: nat)
    requires i < |s| && i < |q| && s[i] != q[i]
    ensures !StartsWith(s, q)
  {
    if |q| <= |s| {
      assert s[..|q|][i] == s[i];
    }
  }

  lemma UnescapeStep(c: char, rest: string)
    ensures UnescapeHtml(EscapeChar(c) + rest) == [c] + UnescapeHtml(rest)
  {
    var s := EscapeChar(c) + rest;
    PrefixOf(EscapeChar(c), rest);
    if c == '&' {
    } else if c == '<' {
      NotPrefixAt(s, "&amp;", 1);
    } else if c == '>' {
      NotPrefixAt(s, "&amp;", 1);
      NotPrefixAt(s, "&lt;", 1);
    } else if c == '"' {
      NotPrefixAt(s, "&amp;", 1);
      NotPrefixAt(s, "&lt;", 1);
      NotPrefixAt(s, "&gt;", 1);
    } else if c == '\'' {
      NotPrefixAt(s, "&amp;", 1);
      NotPrefixAt(s, "&lt;", 1);
      NotPrefixAt(s, "&gt;", 1);
      NotPrefixAt(s, "&quot;", 1);
    } else {
      NotPrefixAt(s, "&amp;", 0);
      NotPrefixAt(s, "&lt;", 0);
      NotPrefixAt(s, "&gt;", 0);
      NotPrefixAt(s, "&quot;", 0);
      NotPrefixAt(s, "&#39;", 0);
      assert s[1..] == rest;
    }
  }

  /** Decoding the escaped text gives the text back. */
  lemma {:induction false} UnescapeEscape(text: string)
    ensures UnescapeHtml(EscapeHtml(text)) == text
  {
    EscapeHtmlIsEscapeEach(text);
    UnescapeEscapeEach(text);
  }

  lemma {:induction false} UnescapeEscapeEach(text: string)
    ensures UnescapeHtml(EscapeEach(text)) == text
  {
    if text != [] {
      UnescapeStep(text[0], EscapeEach(text[1..]));
      UnescapeEscapeEach(text[1..]);
      assert text == [text[0]] + text[1..];
    }
  }

  // ---------------------------------------------------------------- properties of the escaped text

  /** The escaped text holds no `<`, `>`, `"` or `'`, and each `&` it holds starts an entity. */
  lemma {:induction false} EscapeEachSafe(text: string)
    ensures forall i :: 0 <= i < |EscapeEach(text)| ==> !IsHtmlSpecial(EscapeEach(text)[i]) || EscapeEach(text)[i] == '&'
  {
    if text != [] {
      EscapeEachSafe(text[1..]);
      var e := EscapeChar(text[0]);
      assert forall i :: 0 <= i < |e| ==> !IsHtmlSpecial(e[i]) || e[i] == '&';
    }
  }

  lemma EscapeHtmlSafe(text: string)
    ensures forall i :: 0 <= i < |EscapeHtml(text)| ==>
      EscapeHtml(text)[i] != '<' && EscapeHtml(text)[i] != '>'
      && EscapeHtml(text)[i] != '"' && EscapeHtml(text)[i] != '\''
  {
    EscapeHtmlIsEscapeEach(text);
    EscapeEachSafe(text);
  }

  lemma {:induction false} EscapeEachPlain(text: string)
    requires forall i :: 0 <= i < |text| ==> !IsHtmlSpecial(text[i])
    ensures EscapeEach(text) == text
  {
    if text != [] {
      EscapeEachPlain(text[1..]);
      assert text == [text[0]] + text[1..];
    }
  }

  /** Text without special characters is shown as it is. */
  lemma EscapeHtmlPlain(text: string)
    requires forall i :: 0 <= i < |text| ==> !IsHtmlSpecial(text[i])
    ensures EscapeHtml(text) == text
  {
    EscapeHtmlIsEscapeEach(text);
    EscapeEachPlain(text);
  }

  lemma {:induction false} EscapeEachLength(text: string)
    ensures |EscapeEach(text)| >= |text|
    ensures |EscapeEach(text)| == |text| <==> forall i :: 0 <= i < |text| ==> !IsHtmlSpecial(text[i])
  {
    if text != [] {
      EscapeEachLength(text[1..]);
      assert forall i :: 1 <= i < |text| ==> text[i] == text[1..][i - 1];
    }
  }

  /** Escaping never shortens the text, and lengthens it exactly when it holds a special character. */
  lemma EscapeHtmlLength(text: string)
    ensures |EscapeHtml(text)| >= |text|
    ensures |EscapeHtml(text)| == |text| <==> forall i :: 0 <= i < |text| ==> !IsHtmlSpecial(text[i])
  {
    EscapeHtmlIsEscapeEach(text);
    EscapeEachLength(text);
  }

  // ---------------------------------------------------------------- classification

  datatype LogLevel = Error | Warn | Info | Plain

  /** The level a streamed line is shown at, from its lower-cased words. */
  function LevelOf(line: string): LogLevel {
    var l := Lower(line);
    if Contains(l, "error") || Contains(l, "err") then Error
    else if Contains(l, "warn") then Warn
    else if Contains(l, "info") then Info
    else Plain
  }

  /** The classes of a line's element: the base class `log-line` first, then the level's own. */
  function CssClass(level: LogLevel): (r: string)
    ensures StartsWith(r, "log-line")
  {
    match level
    case Error => "log-line log-error"
    case Warn => "log-line log-warn"
    case Info => "log-line log-info"
    case Plain => "log-line"
  }

  /** Every "error" contains "err", so the first test alone decides the error level. */
  lemma ErrorContainsErr(l: string)
    ensures Contains(l, "error") ==> Contains(l, "err")
  {
    if Contains(l, "error") {
      var i := Find(l, "error").value;
      assert l[i..i + 3] == l[i..i + 5][..3];
      ContainsAt(l, "err", i);
    }
  }

  /**
   * A line is an error exactly when it contains "err" in any case, whatever
   * else it says; then "warn", then "info", then plain.
   */
  lemma LevelPriority(line: string)
    ensures LevelOf(line) == Error <==> Contains(Lower(line), "err")
    ensures LevelOf(line) == Warn <==> !Contains(Lower(line), "err") && Contains(Lower(line), "warn")
    ensures LevelOf(line) == Info <==>
      !Contains(Lower(line), "err") && !Contains(Lower(line), "warn") && Contains(Lower(line), "info")
    ensures LevelOf(line) == Plain <==>
      !Contains(Lower(line), "err") && !Contains(Lower(line), "warn") && !Contains(Lower(line), "info")
  {
    ErrorContainsErr(Lower(line));
  }

  /** The markup one streamed line becomes. */
  function LogEventData(line: string): string {
    "<div class=\"" + CssClass(LevelOf(line)) + "\">" + EscapeHtml(line) + "</div>"
  }

  /** The opening tag, with the error classes, and the label of a failure's element. */
  const ErrorEventPrefix := "<div class=\"" + "log-line log-error" + "\">" + "Error: "

  /** The markup a failure of the stream becomes. */
  function ErrorEventData(message: string): string {
    ErrorEventPrefix + EscapeHtml(message) + "</div>"
  }

  /**
   * A line's element: the only `<` are those opening the `div` and its
   * closing tag, the class attribute holds the line's classes, and the text
   * between the tags decodes back to the line.
   */
  lemma LogEventDataShape(line: string)
    ensures var d := LogEventData(line);
      var css := CssClass(LevelOf(line));
      var k := |css| + 14;
      k <= |d| - 6 && d[0] == '<' && d[|d| - 6] == '<'
      && (forall i :: 0 < i < |d| && i != |d| - 6 ==> d[i] != '<')
      && d[12..k - 2] == css
      && UnescapeHtml(d[k..|d| - 6]) == line
  {
    var css := CssClass(LevelOf(line));
    CssClassNoTag(LevelOf(line));
    OpeningTag(css, "");
    var pre := "<div class=\"" + css + "\">" + "";
    assert pre == "<div class=\"" + css + "\">";
    EscapedBetweenTags(pre, line);
    TagKeepsPrefix(pre, EscapeHtml(line), 12, |css| + 12);
  }

  /**
   * A failure's element: the same shape with the error classes, and the
   * text after `Error: ` decodes back to the message.
   */
  lemma ErrorEventDataShape(message: string)
    ensures var d := ErrorEventData(message);
      39 <= |d| - 6 && d[0] == '<' && d[|d| - 6] == '<'
      && (forall i :: 0 < i < |d| && i != |d| - 6 ==> d[i] != '<')
      && d[12..30] == CssClass(Error) && d[32..39] == "Error: "
      && UnescapeHtml(d[39..|d| - 6]) == message
  {
    var css := CssClass(Error);
    var pre := "<div class=\"" + css + "\">" + "Error: ";
    ErrorOpeningTag();
    CssClassNoTag(Error);
    ErrorWordNoTag();
    OpeningTag(css, "Error: ");
    EscapedBetweenTags(pre, message);
    TagKeepsPrefix(pre, EscapeHtml(message), 12, 30);
    TagKeepsPrefix(pre, EscapeHtml(message), 32, 39);
  }

  lemma ErrorOpeningTag()
    ensures |CssClass(Error)| == 18
    ensures ErrorEventPrefix == "<div class=\"" + CssClass(Error) + "\">" + "Error: "
  {
    assert CssClass(Error) == "log-line log-error";
  }

  lemma ErrorWordNoTag()
    ensures forall i :: 0 <= i < |"Error: "| ==> "Error: "[i] != '<'
  {
  }

  /** An opening `div` tag with class list `css`, followed by `tail`: one `<`, at the front. */
  lemma OpeningTag(css: string, tail: string)
    requires forall i :: 0 <= i < |css| ==> css[i] != '<'
    requires forall i :: 0 <= i < |tail| ==> tail[i] != '<'
    ensures var pre := "<div class=\"" + css + "\">" + tail;
      |pre| == |css| + 14 + |tail| && pre[0] == '<'
      && (forall i :: 1 <= i < |pre| ==> pre[i] != '<')
      && pre[12..|css| + 12] == css && pre[|css| + 14..] == tail
  {
    var open := "<div class=\"";
    var pre := open + css + "\">" + tail;
    assert |open| == 12 && open[0] == '<' && forall i :: 1 <= i < 12 ==> open[i] != '<';
    forall i | 1 <= i < |pre| ensures pre[i] != '<' {
      if i < 12 {
        assert pre[i] == open[i];
      } else if i < |css| + 12 {
        assert pre[i] == css[i - 12];
      } else if i < |css| + 14 {
        assert pre[i] == "\">"[i - |css| - 12];
      } else {
        assert pre[i] == tail[i - |css| - 14];
      }
    }
    assert pre[12..|css| + 12] == css;
    assert pre[|css| + 14..] == tail;
  }

  lemma TagKeepsPrefix(pre: string, e: string, i: nat, j: nat)
    requires i <= j <= |pre|
    ensures (pre + e + "</div>")[i..j] == pre[i..j]
  {
  }

  /** No class list holds a `<`. */
  lemma CssClassNoTag(level: LogLevel)
    ensures forall i :: 0 <= i < |CssClass(level)| ==> CssClass(level)[i] != '<'
  {
  }

  /** Escaped text between an opening tag and `</div>` adds no `<` and decodes back to itself. */
  lemma EscapedBetweenTags(pre: string, text: string)
    requires pre != [] && pre[0] == '<'
    requires forall i :: 1 <= i < |pre| ==> pre[i] != '<'
    ensures var d := pre + EscapeHtml(text) + "</div>";
      |pre| <= |d| - 6 && d[0] == '<' && d[|d| - 6] == '<'
      && (forall i :: 0 < i < |d| && i != |d| - 6 ==> d[i] != '<')
      && UnescapeHtml(d[|pre|..|d| - 6]) == text
  {
    var e := EscapeHtml(text);
    var d := pre + e + "</div>";
    EscapeHtmlSafe(text);
    UnescapeEscape(text);
    assert d[|pre|..|d| - 6] == e;
    forall i | 0 < i < |d| && i != |d| - 6 ensures d[i] != '<' {
      if i < |pre| {
        assert d[i] == pre[i];
      } else if i < |pre| + |e| {
        assert d[i] == e[i - |pre|];
      } else {
        assert d[i] == "</div>"[i - |pre| - |e|];
      }
    }
  }
}
