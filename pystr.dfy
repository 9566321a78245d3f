/** The optional value used wherever the dashboard returns "nothing" or fails softly. */
module Wrappers {
  datatype Option<+T> = None | Some(value: T)
}

/**
 * The Python `str` operations the dashboard's parsers are built from, over
 * `string` (a sequence of Unicode code points): `strip`, `split(sep)`,
 * `split()`, `split(maxsplit=2)`, `in`, `startswith`, `replace`, `lower` and
 * `int()`. Case mapping is ASCII only; digits are ASCII digits.
 */
module PyStr {
  import opened Wrappers

  /** `str.isspace()` of one code point. */
  predicate IsSpace(c: char) {
    c == ' ' || '\t' <= c <= '\r' || '\U{1c}' <= c <= '\U{1f}' || c == '\U{85}' || c == '\U{a0}'
    || c == '\U{1680}' || '\U{2000}' <= c <= '\U{200a}' || c == '\U{2028}' || c == '\U{2029}'
    || c == '\U{202f}' || c == '\U{205f}' || c == '\U{3000}'
  }

  predicate NoSpace(s: string) {
    forall i :: 0 <= i < |s| ==> !IsSpace(s[i])
  }

  /** A non-empty run of non-whitespace: what `str.split()` yields. */
  predicate IsToken(s: string) {
    s != [] && NoSpace(s)
  }

  /** True of a string that `strip()` leaves unchanged. */
  predicate IsStripped(s: string) {
    s == [] || (!IsSpace(s[0]) && !IsSpace(s[|s| - 1]))
  }

  function LStrip(s: string): (r: string)
    ensures |r| <= |s|
    ensures r == [] || !IsSpace(r[0])
  {
    if s != [] && IsSpace(s[0]) then LStrip(s[1..]) else s
  }

  function RStrip(s: string): (r: string)
    ensures |r| <= |s| && (r == [] || r[0] == s[0])
    ensures r == [] || !IsSpace(r[|r| - 1])
  {
    if s != [] && IsSpace(s[|s| - 1]) then RStrip(s[..|s| - 1]) else s
  }

  /** `str.strip()` */
  function Strip(s: string): (r: string)
    ensures IsStripped(r)
  {
    RStrip(LStrip(s))
  }

  lemma StripStripped(s: string)
    requires IsStripped(s)
    ensures Strip(s) == s
  {
  }

  lemma {:induction false} LStripStripped(sp: string, x: string)
    requires forall i :: 0 <= i < |sp| ==> IsSpace(sp[i])
    requires x == [] || !IsSpace(x[0])
    ensures LStrip(sp + x) == x
  {
    LStripSpaces(sp, x);
  }

  /** Leading whitespace before already stripped text is all that `strip()` removes. */
  lemma StripAfterSpaces(sp: string, x: string)
    requires forall i :: 0 <= i < |sp| ==> IsSpace(sp[i])
    requires IsStripped(x)
    ensures Strip(sp + x) == x
  {
    LStripStripped(sp, x);
  }

  lemma {:induction false} LStripNoChar(s: string, c: char)
    requires c !in s
    ensures c !in LStrip(s)
  {
    if s != [] && IsSpace(s[0]) {
      assert forall i :: 0 <= i < |s[1..]| ==> s[1..][i] == s[i + 1];
      LStripNoChar(s[1..], c);
    }
  }

  lemma {:induction false} RStripNoChar(s: string, c: char)
    requires c !in s
    ensures c !in RStrip(s)
  {
    if s != [] && IsSpace(s[|s| - 1]) {
      assert forall i :: 0 <= i < |s| - 1 ==> s[..|s| - 1][i] == s[i];
      RStripNoChar(s[..|s| - 1], c);
    }
  }

  /** `strip()` only removes characters, so it never introduces `c`. */
  lemma StripNoChar(s: string, c: char)
    requires c !in s
    ensures c !in Strip(s)
  {
    LStripNoChar(s, c);
    RStripNoChar(LStrip(s), c);
  }

  /** `str.strip(c)` for a single character `c`. */
  function StripChar(s: string, c: char): (r: string)
    ensures r == [] || (r[0] != c && r[|r| - 1] != c)
  {
    RStripChar(LStripChar(s, c), c)
  }

  function LStripChar(s: string, c: char): (r: string)
    ensures r == [] || r[0] != c
    ensures |r| <= |s| && r == s[|s| - |r|..]
  {
    if s != [] && s[0] == c then LStripChar(s[1..], c) else s
  }

  function RStripChar(s: string, c: char): (r: string)
    ensures r == [] || r[|r| - 1] != c
    ensures |r| <= |s| && r == s[..|r|]
  {
    if s != [] && s[|s| - 1] == c then RStripChar(s[..|s| - 1], c) else s
  }

  /** Trailing whitespace after already stripped text is all that `strip()` removes. */
  lemma StripBeforeSpaces(x: string, sp: string)
    requires IsStripped(x) && AllSpace(sp)
    ensures Strip(x + sp) == x
  {
    if x == [] {
      assert x + sp == sp;
      LStripEmpty(sp);
    } else {
      assert LStrip(x + sp) == x + sp;
      RStripSpaces(x, sp);
    }
  }

  lemma {:induction false} RStripSpaces(x: string, sp: string)
    requires x != [] && !IsSpace(x[|x| - 1]) && AllSpace(sp)
    ensures RStrip(x + sp) == x
    decreases |sp|
  {
    if sp == [] {
      assert x + sp == x;
    } else {
      assert (x + sp)[..|x + sp| - 1] == x + sp[..|sp| - 1];
      RStripSpaces(x, sp[..|sp| - 1]);
    }
  }

  /** `strip(c)` leaves text that neither begins nor ends with `c` alone. */
  lemma StripCharNone(s: string, c: char)
    requires s == [] || (s[0] != c && s[|s| - 1] != c)
    ensures StripChar(s, c) == s
  {
  }

  /** `strip(c)` removes one `c` from each end of text that is not itself wrapped in `c`. */
  lemma StripCharOnce(x: string, c: char)
    requires x == [] || (x[0] != c && x[|x| - 1] != c)
    ensures StripChar([c] + x + [c], c) == x
  {
    LStripCharOnce(x + [c], c);
    assert [c] + x + [c] == [c] + (x + [c]);
    if x == [] {
      assert LStripChar([c], c) == [];
    } else {
      assert LStripChar(x + [c], c) == x + [c];
      RStripCharOnce(x, c);
    }
  }

  lemma LStripCharOnce(y: string, c: char)
    ensures LStripChar([c] + y, c) == LStripChar(y, c)
  {
    assert ([c] + y)[1..] == y;
  }

  lemma RStripCharOnce(x: string, c: char)
    requires x == [] || x[|x| - 1] != c
    ensures RStripChar(x + [c], c) == x
  {
    assert (x + [c])[..|x|] == x;
  }

  function LowerChar(c: char): char {
    if 'A' <= c <= 'Z' then (c as int + 32) as char else c
  }

  /** `str.lower()` restricted to ASCII letters. */
  function Lower(s: string): (r: string)
    ensures |r| == |s|
    ensures forall i :: 0 <= i < |s| ==> r[i] == LowerChar(s[i])
  {
    seq(|s|, i requires 0 <= i < |s| => LowerChar(s[i]))
  }

  predicate StartsWith(s: string, p: string) {
    |p| <= |s| && s[..|p|] == p
  }

  /** `str.find(p)`: the index of the first occurrence of `p` in `s`. */
  function Find(s: string, p: string): (r: Option<nat>)
    ensures r.Some? ==> r.value + |p| <= |s| && s[r.value..r.value + |p|] == p
    ensures r.Some? ==> forall j :: 0 <= j < r.value ==> !StartsWith(s[j..], p)
    ensures r.None? ==> forall j :: 0 <= j <= |s| ==> !StartsWith(s[j..], p)
    decreases |s|
  {
    if StartsWith(s, p) then Some(0)
    else if s == [] then None
    else
      var r := Find(s[1..], p);
      SuffixShift(s);
      match r
      case Some(i) => Some(i + 1)
      case None => None
  }

  lemma SuffixShift(s: string)
    requires s != []
    ensures forall j :: 1 <= j <= |s| ==> s[j..] == s[1..][j - 1..]
  {
  }

  /** Python's `p in s` for strings. */
  predicate Contains(s: string, p: string) {
    Find(s, p).Some?
  }

  /** A pattern with a character the text lacks does not occur in it. */
  lemma {:induction false} AbsentChar(s: string, p: string, j: nat)
    requires j < |p| && p[j] !in s
    ensures !Contains(s, p)
    decreases |s|
  {
    if |p| <= |s| {
      assert s[..|p|][j] == s[j];
      assert s[j] != p[j];
    }
    if s != [] {
      assert forall i :: 0 <= i < |s| - 1 ==> s[1..][i] == s[i + 1];
      AbsentChar(s[1..], p, j);
    }
  }

  lemma ContainsAt(s: string, p: string, i: nat)
    requires i + |p| <= |s| && s[i..i + |p|] == p
    ensures Contains(s, p)
  {
    assert StartsWith(s[i..], p);
  }

  lemma ContainsInfix(a: string, p: string, b: string)
    ensures Contains(a + p + b, p)
  {
    ContainsAt(a + p + b, p, |a|);
  }

  lemma ContainsConcat(a: string, b: string, p: string)
    ensures Contains(a, p) ==> Contains(a + b, p)
    ensures Contains(b, p) ==> Contains(a + b, p)
  {
    if Contains(a, p) {
      ContainsInLeft(a, b, p);
    }
    if Contains(b, p) {
      ContainsInRight(a, b, p);
    }
  }

  lemma ContainsInLeft(a: string, b: string, p: string)
    requires Contains(a, p)
    ensures Contains(a + b, p)
  {
    var i := Find(a, p).value;
    assert (a + b)[i..i + |p|] == a[i..i + |p|];
    ContainsAt(a + b, p, i);
  }

  lemma ContainsInRight(a: string, b: string, p: string)
    requires Contains(b, p)
    ensures Contains(a + b, p)
  {
    var i := Find(b, p).value;
    assert (a + b)[|a| + i..|a| + i + |p|] == b[i..i + |p|];
    ContainsAt(a + b, p, |a| + i);
  }

  /** The first index of character `c` in `s`. */
  function IndexOf(s: string, c: char): (r: Option<nat>)
    ensures r.Some? ==> r.value < |s| && s[r.value] == c && c !in s[..r.value]
    ensures r.None? ==> c !in s
  {
    if s == [] then None
    else if s[0] == c then Some(0)
    else
      match IndexOf(s[1..], c)
      case Some(i) => (assert s[..i + 1] == [s[0]] + s[1..][..i]; Some(i + 1))
      case None => (assert s == [s[0]] + s[1..]; None)
  }

  lemma {:induction false} IndexOfConcat(a: string, c: char, b: string)
    requires c !in a
    ensures IndexOf(a + [c] + b, c) == Some(|a|)
  {
    if a != [] {
      assert (a + [c] + b)[1..] == a[1..] + [c] + b;
      IndexOfConcat(a[1..], c, b);
    }
  }

  /** `s.split(c, 1)` when it has two parts: the text before and after the first `c`. */
  function SplitOnce(s: string, c: char): (r: Option<(string, string)>)
    ensures r.Some? <==> c in s
    ensures r.Some? ==> s == r.value.0 + [c] + r.value.1 && c !in r.value.0
  {
    match IndexOf(s, c)
    case None => None
    case Some(i) => (assert s == s[..i] + [c] + s[i + 1..]; Some((s[..i], s[i + 1..])))
  }

  lemma SplitOnceConcat(a: string, c: char, b: string)
    requires c !in a
    ensures SplitOnce(a + [c] + b, c) == Some((a, b))
  {
    IndexOfConcat(a, c, b);
    var s := a + [c] + b;
    assert s[..|a|] == a && s[|a| + 1..] == b;
  }

  /** `s.split(c)` for a one-character separator. */
  function Split(s: string, c: char): (r: seq<string>)
    ensures |r| >= 1
    ensures forall k :: 0 <= k < |r| ==> c !in r[k]
    decreases |s|
  {
    match IndexOf(s, c)
    case None => [s]
    case Some(i) => [s[..i]] + Split(s[i + 1..], c)
  }

  /** `s.strip().split("\n")`: the lines of a command's trimmed output. */
  function StrippedLines(s: string): (r: seq<string>)
    ensures |r| >= 1 && forall k :: 0 <= k < |r| ==> '\n' !in r[k]
  {
    Split(Strip(s), '\n')
  }

  /** `sep.join(xs)` */
  function Join(sep: string, xs: seq<string>): string {
    if xs == [] then [] else if |xs| == 1 then xs[0] else xs[0] + sep + Join(sep, xs[1..])
  }

  /** A join of non-empty pieces starts with the first piece's first character and ends with the last piece's last. */
  lemma {:induction false} JoinEnds(sep: string, xs: seq<string>)
    requires |xs| >= 1 && forall k :: 0 <= k < |xs| ==> xs[k] != []
    ensures Join(sep, xs) != []
    ensures Join(sep, xs)[0] == xs[0][0]
    ensures Join(sep, xs)[|Join(sep, xs)| - 1] == xs[|xs| - 1][|xs[|xs| - 1]| - 1]
  {
    if |xs| > 1 {
      JoinEnds(sep, xs[1..]);
    }
  }

  /** A join of non-empty pieces whose first and last are stripped is stripped. */
  lemma JoinStripped(sep: string, xs: seq<string>)
    requires |xs| >= 1 && forall k :: 0 <= k < |xs| ==> xs[k] != []
    requires IsStripped(xs[0]) && IsStripped(xs[|xs| - 1])
    ensures IsStripped(Join(sep, xs))
  {
    JoinEnds(sep, xs);
  }

  /** A character in neither the separator nor any piece is not in their join. */
  lemma {:induction false} JoinNoChar(sep: string, xs: seq<string>, c: char)
    requires c !in sep && forall k :: 0 <= k < |xs| ==> c !in xs[k]
    ensures c !in Join(sep, xs)
  {
    if |xs| > 1 {
      JoinNoChar(sep, xs[1..], c);
    }
  }

  /** Tokens joined by spaces need no stripping. */
  lemma JoinTokensStripped(ts: seq<string>)
    requires |ts| >= 1 && forall k :: 0 <= k < |ts| ==> IsToken(ts[k])
    ensures IsToken(ts[0]) && Join(" ", ts) != []
    ensures IsStripped(Join(" ", ts)) && Join(" ", ts)[0] == ts[0][0]
  {
    JoinEnds(" ", ts);
    assert IsToken(ts[|ts| - 1]);
  }

  lemma {:induction false} SplitJoin(xs: seq<string>, c: char)
    requires |xs| >= 1
    requires forall k :: 0 <= k < |xs| ==> c !in xs[k]
    ensures Split(Join([c], xs), c) == xs
  {
    if |xs| > 1 {
      var rest := Join([c], xs[1..]);
      IndexOfConcat(xs[0], c, rest);
      var s := xs[0] + [c] + rest;
      assert s[..|xs[0]|] == xs[0] && s[|xs[0]| + 1..] == rest;
      SplitJoin(xs[1..], c);
      assert xs == [xs[0]] + xs[1..];
    } else {
      assert c !in xs[0];
    }
  }

  /** Length of the leading run of non-whitespace characters. */
  function TokenLen(t: string): (k: nat)
    ensures k <= |t|
    ensures NoSpace(t[..k])
    ensures k < |t| ==> IsSpace(t[k])
    ensures t != [] && !IsSpace(t[0]) ==> k >= 1
  {
    if t == [] || IsSpace(t[0]) then 0
    else
      var k := TokenLen(t[1..]);
      assert t[..k + 1] == [t[0]] + t[1..][..k];
      k + 1
  }

  /** `str.split()`: the maximal runs of non-whitespace, in order. */
  function SplitWs(s: string): (r: seq<string>)
    ensures forall k :: 0 <= k < |r| ==> IsToken(r[k])
    decreases |s|
  {
    var t := LStrip(s);
    if t == [] then []
    else
      var k := TokenLen(t);
      [t[..k]] + SplitWs(t[k..])
  }

  /** `str.split(maxsplit=2)`: two tokens, then the rest after the next whitespace run. */
  function SplitWsMax2(s: string): (r: seq<string>)
    ensures |r| <= 3
    ensures forall k :: 0 <= k < |r| && k < 2 ==> IsToken(r[k])
    ensures |r| == 3 ==> r[2] != [] && !IsSpace(r[2][0])
  {
    var t := LStrip(s);
    if t == [] then []
    else
      var k := TokenLen(t);
      var u := LStrip(t[k..]);
      if u == [] then [t[..k]]
      else
        var m := TokenLen(u);
        var v := LStrip(u[m..]);
        if v == [] then [t[..k], u[..m]] else [t[..k], u[..m], v]
  }

  lemma LStripSpaces(sp: string, x: string)
    requires forall i :: 0 <= i < |sp| ==> IsSpace(sp[i])
    ensures LStrip(sp + x) == LStrip(x)
  {
    if sp != [] {
      assert (sp + x)[0] == sp[0];
      assert (sp + x)[1..] == sp[1..] + x;
      LStripSpaces(sp[1..], x);
    } else {
      assert sp + x == x;
    }
  }

  lemma TokenLenPrefix(w: string, rest: string)
    requires NoSpace(w)
    requires rest == [] || IsSpace(rest[0])
    ensures TokenLen(w + rest) == |w|
  {
    if w != [] {
      assert (w + rest)[1..] == w[1..] + rest;
      TokenLenPrefix(w[1..], rest);
    }
  }

  /** Splitting a token followed by a whitespace-led (or empty) rest. */
  lemma SplitWsCons(w: string, rest: string)
    requires IsToken(w)
    requires rest == [] || IsSpace(rest[0])
    ensures SplitWs(w + rest) == [w] + SplitWs(rest)
  {
    var s := w + rest;
    assert LStrip(s) == s;
    TokenLenPrefix(w, rest);
    assert s[..|w|] == w && s[|w|..] == rest;
  }

  /** A single token is one field for `split(maxsplit=2)`. */
  lemma SplitWsMax2Token(w: string)
    requires IsToken(w)
    ensures SplitWsMax2(w) == [w]
  {
    assert LStrip(w) == w;
    TokenLenPrefix(w, []);
    assert w + [] == w && w[|w|..] == [];
  }

  /** `" " + c`, or nothing when `c` is empty. */
  function SpacedTail(c: string): string {
    if c == [] then [] else " " + c
  }

  /** Two tokens and a stripped remainder, separated by single spaces, split back. */
  lemma SplitWsMax2Fields(a: string, b: string, c: string)
    requires IsToken(a) && IsToken(b) && IsStripped(c)
    ensures SplitWsMax2(a + " " + b + SpacedTail(c)) == [a, b] + (if c == [] then [] else [c])
  {
    var tail := SpacedTail(c);
    Regroup4(a, " ", b, tail);
    SplitWsMax2Two(a, b, tail);
    if c == [] {
      assert LStrip(tail) == [];
    } else {
      LStripStripped(" ", c);
    }
  }

  lemma SplitWsMax2Two(a: string, b: string, tail: string)
    requires IsToken(a) && IsToken(b) && (tail == [] || IsSpace(tail[0]))
    ensures SplitWsMax2(a + (" " + (b + tail))) ==
      if LStrip(tail) == [] then [a, b] else [a, b, LStrip(tail)]
  {
    SplitWsMax2Cons(a, " " + (b + tail));
    SecondField(b, tail);
  }

  lemma Regroup4<T>(a: seq<T>, b: seq<T>, c: seq<T>, d: seq<T>)
    ensures a + b + c + d == a + (b + (c + d))
  {
  }

  lemma SecondField(b: string, tail: string)
    requires IsToken(b) && (tail == [] || IsSpace(tail[0]))
    ensures LStrip(" " + (b + tail)) == b + tail
    ensures TokenLen(b + tail) == |b|
    ensures (b + tail)[..|b|] == b && (b + tail)[|b|..] == tail
  {
    LStripStripped(" ", b + tail);
    TokenLenPrefix(b, tail);
  }

  /** The first field of `split(maxsplit=2)` is a leading token. */
  lemma SplitWsMax2Cons(a: string, rest: string)
    requires IsToken(a) && (rest == [] || IsSpace(rest[0]))
    ensures SplitWsMax2(a + rest) ==
      var u := LStrip(rest);
      if u == [] then [a]
      else
        var m := TokenLen(u);
        var v := LStrip(u[m..]);
        if v == [] then [a, u[..m]] else [a, u[..m], v]
  {
    var s := a + rest;
    assert LStrip(s) == s;
    TokenLenPrefix(a, rest);
    assert s[..|a|] == a && s[|a|..] == rest;
  }

  /** `str.split()` undoes joining tokens with single spaces. */
  lemma {:induction false} SplitWsJoin(ts: seq<string>)
    requires forall k :: 0 <= k < |ts| ==> IsToken(ts[k])
    ensures SplitWs(Join(" ", ts)) == ts
  {
    if ts == [] {
    } else if |ts| == 1 {
      SplitWsCons(ts[0], []);
      assert ts[0] + [] == ts[0];
    } else {
      var rest := Join(" ", ts[1..]);
      SplitWsCons(ts[0], " " + rest);
      assert ts[0] + " " + rest == ts[0] + (" " + rest);
      LStripSpaces(" ", rest);
      assert SplitWs(" " + rest) == SplitWs(rest) by {
        assert LStrip(" " + rest) == LStrip(rest);
        SplitWsSameLStrip(" " + rest, rest);
      }
      SplitWsJoin(ts[1..]);
      assert ts == [ts[0]] + ts[1..];
    }
  }

  lemma SplitWsSameLStrip(a: string, b: string)
    requires LStrip(a) == LStrip(b)
    ensures SplitWs(a) == SplitWs(b)
  {
  }

  predicate AllSpace(s: string) {
    forall i :: 0 <= i < |s| ==> IsSpace(s[i])
  }

  lemma {:induction false} LStripEmpty(x: string)
    ensures LStrip(x) == [] <==> AllSpace(x)
  {
    if x != [] {
      LStripEmpty(x[1..]);
      assert forall i :: 1 <= i < |x| ==> x[i] == x[1..][i - 1];
    }
  }

  lemma {:induction false} LStripConcat(s: string, y: string)
    requires LStrip(s) != []
    ensures LStrip(s + y) == LStrip(s) + y
  {
    assert (s + y)[0] == s[0];
    if IsSpace(s[0]) {
      assert (s + y)[1..] == s[1..] + y;
      LStripConcat(s[1..], y);
    }
  }

  lemma {:induction false} TokenLenAppend(t: string, sp: string)
    requires AllSpace(sp)
    ensures TokenLen(t + sp) == TokenLen(t)
  {
    if t == [] {
      assert t + sp == sp;
    } else {
      assert (t + sp)[0] == t[0];
      if !IsSpace(t[0]) {
        assert (t + sp)[1..] == t[1..] + sp;
        TokenLenAppend(t[1..], sp);
      }
    }
  }

  lemma BlankAppendSpaces(s: string, sp: string)
    requires LStrip(s) == [] && AllSpace(sp)
    ensures LStrip(s + sp) == []
  {
    LStripEmpty(s);
    assert AllSpace(s + sp);
    LStripEmpty(s + sp);
  }

  lemma TokenAppendSpaces(s: string, sp: string)
    requires LStrip(s) != [] && AllSpace(sp)
    ensures var t := LStrip(s); var k := TokenLen(t);
      SplitWs(s + sp) == [t[..k]] + SplitWs(t[k..] + sp)
  {
    var t := LStrip(s);
    var k := TokenLen(t);
    LStripConcat(s, sp);
    TokenLenAppend(t, sp);
    PrefixSuffixAppend(t, sp, k);
  }

  lemma PrefixSuffixAppend<T>(t: seq<T>, sp: seq<T>, k: nat)
    requires k <= |t|
    ensures (t + sp)[..k] == t[..k] && (t + sp)[k..] == t[k..] + sp
  {
  }

  /** Trailing whitespace does not change `str.split()`. */
  lemma {:induction false} SplitWsAppendSpaces(s: string, sp: string)
    requires AllSpace(sp)
    ensures SplitWs(s + sp) == SplitWs(s)
    decreases |s|
  {
    var t := LStrip(s);
    if t == [] {
      BlankAppendSpaces(s, sp);
    } else {
      var k := TokenLen(t);
      TokenAppendSpaces(s, sp);
      SplitWsAppendSpaces(t[k..], sp);
    }
  }

  lemma {:induction false} RStripSuffix(t: string)
    ensures t == RStrip(t) + t[|RStrip(t)|..]
    ensures AllSpace(t[|RStrip(t)|..])
  {
    if t != [] && IsSpace(t[|t| - 1]) {
      var u := t[..|t| - 1];
      RStripSuffix(u);
      assert t[|RStrip(t)|..] == u[|RStrip(u)|..] + [t[|t| - 1]];
    }
  }

  /** `s.strip().split() == s.split()` */
  lemma SplitWsStrip(s: string)
    ensures SplitWs(Strip(s)) == SplitWs(s)
  {
    var l := LStrip(s);
    RStripSuffix(l);
    SplitWsAppendSpaces(RStrip(l), l[|RStrip(l)|..]);
    assert LStrip(l) == l;
    SplitWsSameLStrip(l, s);
  }

  /** `str.replace(p, n)`: every non-overlapping occurrence, scanning left to right. */
  function ReplaceAll(s: string, p: string, n: string): string
    requires p != []
    decreases |s|
  {
    if s == [] then []
    else if StartsWith(s, p) then n + ReplaceAll(s[|p|..], p, n)
    else [s[0]] + ReplaceAll(s[1..], p, n)
  }

  /** Replacing a single character works one character at a time. */
  lemma ReplaceCharCons(x: char, s: string, c: char, n: string)
    ensures ReplaceAll([x] + s, [c], n) == (if x == c then n else [x]) + ReplaceAll(s, [c], n)
  {
    assert ([x] + s)[1..] == s;
    assert StartsWith([x] + s, [c]) <==> x == c;
  }

  lemma {:induction false} ReplaceCharConcat(a: string, b: string, c: char, n: string)
    ensures ReplaceAll(a + b, [c], n) == ReplaceAll(a, [c], n) + ReplaceAll(b, [c], n)
  {
    if a != [] {
      assert a + b == [a[0]] + (a[1..] + b);
      ReplaceCharCons(a[0], a[1..] + b, c, n);
      ReplaceCharConcat(a[1..], b, c, n);
      assert a == [a[0]] + a[1..];
      ReplaceCharCons(a[0], a[1..], c, n);
    } else {
      assert a + b == b;
    }
  }

  /** `ReplaceAll` is the identity on text without an occurrence of the pattern. */
  lemma {:induction false} ReplaceAbsent(s: string, p: string, n: string)
    requires p != []
    requires !Contains(s, p)
    ensures ReplaceAll(s, p, n) == s
  {
    if s != [] {
      assert s[0..] == s;
      assert !StartsWith(s, p);
      assert !Contains(s[1..], p);
      ReplaceAbsent(s[1..], p, n);
    }
  }

  /** A character of an occurring pattern occurs in the text. */
  lemma ContainsChar(s: string, p: string, c: char)
    requires Contains(s, p) && c in p
    ensures c in s
  {
    var i := Find(s, p).value;
    var j :| 0 <= j < |p| && p[j] == c;
    assert s[i..i + |p|][j] == c;
    assert s[i + j] == c;
  }

  /** An occurrence of `a + p` holds an occurrence of `p`. */
  lemma ContainsSuffix(s: string, a: string, p: string)
    requires Contains(s, a + p)
    ensures Contains(s, p)
  {
    var i := Find(s, a + p).value;
    assert s[i + |a|..i + |a| + |p|] == (a + p)[|a|..];
    ContainsAt(s, p, i + |a|);
  }

  /** A pattern at the front is replaced there. */
  lemma ReplacePrefix(p: string, v: string, n: string)
    requires p != []
    ensures ReplaceAll(p + v, p, n) == n + ReplaceAll(v, p, n)
  {
    assert (p + v)[..|p|] == p;
    assert (p + v)[|p|..] == v;
  }

  /** No occurrence of `p` starts inside `head` when `rest` follows it. */
  predicate NoMatchIn(head: string, rest: string, p: string)
    decreases |head|
  {
    head == [] || (!StartsWith(head + rest, p) && NoMatchIn(head[1..], rest, p))
  }

  lemma {:induction false} NoMatchInOf(head: string, rest: string, p: string)
    requires forall j :: 0 <= j < |head| ==> !StartsWith((head + rest)[j..], p)
    ensures NoMatchIn(head, rest, p)
    decreases |head|
  {
    if head != [] {
      var s := head + rest;
      assert s[0..] == s;
      DropHead(head, rest);
      forall j | 0 <= j < |head| - 1 ensures !StartsWith((head[1..] + rest)[j..], p) {
        assert (head[1..] + rest)[j..] == s[j + 1..];
      }
      NoMatchInOf(head[1..], rest, p);
    }
  }

  /** Text in front of the first occurrence is kept as it is. */
  lemma {:induction false} ReplaceKeepsHead(head: string, rest: string, p: string, n: string)
    requires p != [] && NoMatchIn(head, rest, p)
    ensures ReplaceAll(head + rest, p, n) == head + ReplaceAll(rest, p, n)
    decreases |head|
  {
    if head == [] {
      assert head + rest == rest;
    } else {
      DropHead(head, rest);
      ReplaceNoMatch(head + rest, p, n);
      ReplaceKeepsHead(head[1..], rest, p, n);
      ConsRegroup(head, ReplaceAll(rest, p, n));
    }
  }

  /** Where the pattern does not start, the first character is kept. */
  lemma ReplaceNoMatch(s: string, p: string, n: string)
    requires p != [] && s != [] && !StartsWith(s, p)
    ensures ReplaceAll(s, p, n) == [s[0]] + ReplaceAll(s[1..], p, n)
  {
  }

  lemma AppendAssoc<T>(a: seq<T>, b: seq<T>, c: seq<T>)
    ensures a + b + c == a + (b + c)
  {
  }

  lemma Regroup<T>(h: seq<T>, a: seq<T>, b: seq<T>, c: seq<T>)
    ensures h + a + b + c == h + (a + b + c)
  {
  }

  lemma DropHead<T>(head: seq<T>, rest: seq<T>)
    requires head != []
    ensures (head + rest)[0] == head[0] && (head + rest)[1..] == head[1..] + rest
  {
  }

  lemma ConsRegroup<T>(head: seq<T>, r: seq<T>)
    requires head != []
    ensures [head[0]] + (head[1..] + r) == head + r
  {
    assert head == [head[0]] + head[1..];
  }

  predicate IsDigit(c: char) {
    '0' <= c <= '9'
  }

  predicate AllDigits(s: string) {
    forall i :: 0 <= i < |s| ==> IsDigit(s[i])
  }

  function DigitValue(c: char): nat
    requires IsDigit(c)
  {
    c as int - '0' as int
  }

  function DigitChar(d: nat): (c: char)
    requires d < 10
    ensures IsDigit(c) && DigitValue(c) == d
  {
    ('0' as int + d) as char
  }

  /** The value of a run of decimal digits. */
  function DigitsValue(s: string): nat
    requires AllDigits(s)
  {
    if s == [] then 0 else 10 * DigitsValue(s[..|s| - 1]) + DigitValue(s[|s| - 1])
  }

  /** Python's `str(n)` for a natural number. */
  function NatToString(n: nat): (r: string)
    ensures r != [] && AllDigits(r)
  {
    if n < 10 then [DigitChar(n)] else NatToString(n / 10) + [DigitChar(n % 10)]
  }

  lemma {:induction false} NatToStringValue(n: nat)
    ensures DigitsValue(NatToString(n)) == n
  {
    if n >= 10 {
      var s := NatToString(n);
      assert s[..|s| - 1] == NatToString(n / 10);
      NatToStringValue(n / 10);
    }
  }

  /**
   * Python's `int(s)` on an already stripped string: an optional sign and
   * one or more digits; anything else is the ValueError case.
   */
  function ParseInt(s: string): (r: Option<int>)
    ensures r.Some? && s != [] && AllDigits(s) ==> r.value == DigitsValue(s)
  {
    if s != [] && (s[0] == '+' || s[0] == '-') then
      var ds := s[1..];
      if ds != [] && AllDigits(ds) then
        var v: int := DigitsValue(ds);
        Some(if s[0] == '-' then -v else v)
      else None
    else if s != [] && AllDigits(s) then Some(DigitsValue(s))
    else None
  }

  /** Length of the leading run of digits. */
  function DigitRunLen(t: string): (k: nat)
    ensures k <= |t| && AllDigits(t[..k])
    ensures k < |t| ==> !IsDigit(t[k])
  {
    if t == [] || !IsDigit(t[0]) then 0
    else
      var k := DigitRunLen(t[1..]);
      assert t[..k + 1] == [t[0]] + t[1..][..k];
      k + 1
  }

  /** `re.search(r"(\d+)", s)` followed by `int(match.group(1))`. */
  function FirstDigitRun(s: string): (r: Option<nat>)
    ensures r.None? <==> forall i :: 0 <= i < |s| ==> !IsDigit(s[i])
  {
    if s == [] then None
    else if IsDigit(s[0]) then Some(DigitsValue(s[..DigitRunLen(s)]))
    else
      var r := FirstDigitRun(s[1..]);
      assert forall i :: 1 <= i < |s| ==> s[i] == s[1..][i - 1];
      r
  }

  lemma {:induction false} FirstDigitRunAfter(p: string, n: nat, rest: string)
    requires forall i :: 0 <= i < |p| ==> !IsDigit(p[i])
    requires rest == [] || !IsDigit(rest[0])
    ensures FirstDigitRun(p + NatToString(n) + rest) == Some(n)
  {
    var d := NatToString(n);
    if p == [] {
      var s := d + rest;
      assert p + d + rest == s;
      DigitRunAll(d, rest);
      assert s[..|d|] == d;
      NatToStringValue(n);
    } else {
      assert (p + d + rest)[1..] == p[1..] + d + rest;
      FirstDigitRunAfter(p[1..], n, rest);
    }
  }

  /** A number at the end of a line with no digit before it is its first digit run. */
  lemma FirstDigitRunAtEnd(p: string, n: nat)
    requires forall i :: 0 <= i < |p| ==> !IsDigit(p[i])
    ensures FirstDigitRun(p + NatToString(n)) == Some(n)
  {
    FirstDigitRunAfter(p, n, []);
    assert p + NatToString(n) + [] == p + NatToString(n);
  }

  lemma DigitRunAll(d: string, rest: string)
    requires AllDigits(d)
    requires rest == [] || !IsDigit(rest[0])
    ensures DigitRunLen(d + rest) == |d|
  {
    if d != [] {
      assert (d + rest)[1..] == d[1..] + rest;
      DigitRunAll(d[1..], rest);
    }
  }

  function Max(a: int, b: int): int {
    if a >= b then a else b
  }
}
