/**
 * How a POSIX shell turns one command line into argument words: token
 * recognition (IEEE Std 1003.1-2017, Shell Command Language, section 2.3),
 * field splitting on unquoted blanks, and quote removal for backslash,
 * single-quotes and double-quotes (sections 2.2.1, 2.2.2 and 2.2.3).
 *
 * Only a plain simple command is modelled. Anything that would make the
 * shell do more than split and unquote (an unquoted operator character, a
 * parameter or command expansion, a pathname pattern, a comment or tilde at
 * the start of a word, an unterminated quote) yields `None`.
 */
module Shell {
  import opened Wrappers

  predicate IsBlank(c: char) {
    c == ' ' || c == '\t'
  }

  /** Characters that end a simple command or start a redirection when unquoted. */
  predicate IsOperatorChar(c: char) {
    c == '|' || c == '&' || c == ';' || c == '<' || c == '>' || c == '(' || c == ')' || c == '\n'
  }

  /** `$` and backquote introduce expansions, unquoted or inside double-quotes. */
  predicate IsExpansionChar(c: char) {
    c == '$' || c == '`'
  }

  predicate IsPatternChar(c: char) {
    c == '*' || c == '?' || c == '['
  }

  /** A character that stands for itself wherever it appears unquoted in a word. */
  predicate IsPlainChar(c: char) {
    !IsBlank(c) && !IsOperatorChar(c) && !IsExpansionChar(c) && !IsPatternChar(c)
    && c != '\'' && c != '"' && c != '\\' && c != '#' && c != '~'
  }

  /** A non-empty word the shell passes through unchanged. */
  predicate IsPlainWord(w: string) {
    w != [] && forall i :: 0 <= i < |w| ==> IsPlainChar(w[i])
  }

  datatype Mode = Unquoted | SingleQuoted | DoubleQuoted

  function Prepend(w: string, ws: Option<seq<string>>): Option<seq<string>> {
    match ws
    case Some(rest) => Some([w] + rest)
    case None => None
  }

  /**
   * The words of `s`, given the quoting `mode` in force, the text `cur` of
   * the word being built and whether a word has been started (`''` starts
   * an empty word).
   */
  function Words(s: string, mode: Mode, cur: string, inWord: bool): Option<seq<string>>
    decreases |s|
  {
    if s == [] then
      if mode == Unquoted then Some(if inWord then [cur] else []) else None
    else
      var c, rest := s[0], s[1..];
      match mode
      case SingleQuoted =>
        // 2.2.2: every character up to the next single-quote is literal
        if c == '\'' then Words(rest, Unquoted, cur, true)
        else Words(rest, SingleQuoted, cur + [c], true)
      case DoubleQuoted =>
        // 2.2.3: literal except $, backquote, and backslash before $ ` " \ newline
        if c == '"' then Words(rest, Unquoted, cur, true)
        else if IsExpansionChar(c) then None
        else if c == '\\' then
          if rest == [] then None
          else if rest[0] == '\n' then Words(rest[1..], DoubleQuoted, cur, true)
          else if IsExpansionChar(rest[0]) || rest[0] == '"' || rest[0] == '\\' then
            Words(rest[1..], DoubleQuoted, cur + [rest[0]], true)
          else Words(rest, DoubleQuoted, cur + ['\\'], true)
        else Words(rest, DoubleQuoted, cur + [c], true)
      case Unquoted =>
        if IsBlank(c) then
          if inWord then Prepend(cur, Words(rest, Unquoted, [], false))
          else Words(rest, Unquoted, [], false)
        else if c == '\'' then Words(rest, SingleQuoted, cur, true)
        else if c == '"' then Words(rest, DoubleQuoted, cur, true)
        else if c == '\\' then
          // 2.2.1: backslash quotes the next character; before a newline it is a line continuation
          if rest == [] then None
          else if rest[0] == '\n' then Words(rest[1..], Unquoted, cur, inWord)
          else Words(rest[1..], Unquoted, cur + [rest[0]], true)
        else if IsOperatorChar(c) || IsExpansionChar(c) || IsPatternChar(c) then None
        else if !inWord && (c == '#' || c == '~') then None
        else Words(rest, Unquoted, cur + [c], true)
  }

  /** The argument words the shell derives from a whole command line. */
  function ShellWords(s: string): Option<seq<string>> {
    Words(s, Unquoted, [], false)
  }

  lemma {:induction false} PlainRun(w: string, rest: string, cur: string, inWord: bool)
    requires forall i :: 0 <= i < |w| ==> IsPlainChar(w[i])
    ensures Words(w + rest, Unquoted, cur, inWord) == Words(rest, Unquoted, cur + w, inWord || w != [])
  {
    if w == [] {
      assert w + rest == rest && cur + w == cur;
    } else {
      assert (w + rest)[0] == w[0] && (w + rest)[1..] == w[1..] + rest;
      PlainRun(w[1..], rest, cur + [w[0]], true);
      assert cur + [w[0]] + w[1..] == cur + w;
    }
  }

  /** A plain word followed by a blank is one finished word. */
  lemma PlainWordThenBlank(w: string, rest: string)
    requires IsPlainWord(w)
    ensures Words(w + " " + rest, Unquoted, [], false) == Prepend(w, Words(rest, Unquoted, [], false))
  {
    PlainRun(w, " " + rest, [], false);
    assert w + " " + rest == w + (" " + rest);
    assert [] + w == w;
    assert (" " + rest)[1..] == rest;
  }

  lemma {:induction false} SingleQuotedRun(v: string, rest: string, cur: string)
    requires '\'' !in v
    ensures Words(v + "'" + rest, SingleQuoted, cur, true) == Words(rest, Unquoted, cur + v, true)
  {
    if v == [] {
      assert v + "'" + rest == "'" + rest && cur + v == cur;
      assert ("'" + rest)[1..] == rest;
    } else {
      assert (v + "'" + rest)[0] == v[0] && (v + "'" + rest)[1..] == v[1..] + "'" + rest;
      SingleQuotedRun(v[1..], rest, cur + [v[0]]);
      assert cur + [v[0]] + v[1..] == cur + v;
    }
  }

  // Single steps of the reader, one character each.

  lemma EndOfLine(cur: string)
    ensures Words([], Unquoted, cur, true) == Some([cur])
  {
  }

  lemma OpenSingle(rest: string, cur: string, inWord: bool)
    ensures Words("'" + rest, Unquoted, cur, inWord) == Words(rest, SingleQuoted, cur, true)
  {
    assert ("'" + rest)[0] == '\'' && ("'" + rest)[1..] == rest;
  }

  lemma CloseSingle(rest: string, cur: string)
    ensures Words("'" + rest, SingleQuoted, cur, true) == Words(rest, Unquoted, cur, true)
  {
    assert ("'" + rest)[0] == '\'' && ("'" + rest)[1..] == rest;
  }

  lemma InSingle(x: char, rest: string, cur: string)
    requires x != '\''
    ensures Words([x] + rest, SingleQuoted, cur, true) == Words(rest, SingleQuoted, cur + [x], true)
  {
    assert ([x] + rest)[0] == x && ([x] + rest)[1..] == rest;
  }

  lemma OpenDouble(rest: string, cur: string)
    ensures Words("\"" + rest, Unquoted, cur, true) == Words(rest, DoubleQuoted, cur, true)
  {
    assert ("\"" + rest)[0] == '"' && ("\"" + rest)[1..] == rest;
  }

  lemma CloseDouble(rest: string, cur: string)
    ensures Words("\"" + rest, DoubleQuoted, cur, true) == Words(rest, Unquoted, cur, true)
  {
    assert ("\"" + rest)[0] == '"' && ("\"" + rest)[1..] == rest;
  }

  /** A single-quote inside double-quotes is literal (section 2.2.3). */
  lemma SingleInDouble(rest: string, cur: string)
    ensures Words("'" + rest, DoubleQuoted, cur, true) == Words(rest, DoubleQuoted, cur + "'", true)
  {
    assert ("'" + rest)[0] == '\'' && ("'" + rest)[1..] == rest;
  }

  /** `'"'"'` inside a single-quoted run contributes one literal single-quote. */
  lemma QuotedQuote(rest: string, cur: string)
    ensures Words("'\"'\"'" + rest, SingleQuoted, cur, true) == Words(rest, SingleQuoted, cur + "'", true)
  {
    var s := "'\"'\"'" + rest;
    assert s == "'" + ("\"" + ("'" + ("\"" + ("'" + rest))));
    CloseSingle("\"" + ("'" + ("\"" + ("'" + rest))), cur);
    OpenDouble("'" + ("\"" + ("'" + rest)), cur);
    SingleInDouble("\"" + ("'" + rest), cur);
    CloseDouble("'" + rest, cur + "'");
    OpenSingle(rest, cur + "'", true);
  }
}
