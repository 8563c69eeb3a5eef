/**
 * String helpers with the JavaScript semantics the application relies on:
 * `trim`, `toLowerCase`, `endsWith`, `includes`, `split` and `join`, and the
 * decimal rendering of an integer inside a template literal.
 */
module Text {

  /** The characters `String.prototype.trim` strips and the regex class `\s` matches. */
  predicate IsWhitespace(c: char) {
    c == ' ' || c == '\t' || c == '\n' || c == '\r' || c == '\U{000B}' || c == '\U{000C}'
    || c == '\U{00A0}' || c == '\U{1680}' || ('\U{2000}' <= c <= '\U{200A}')
    || c == '\U{2028}' || c == '\U{2029}' || c == '\U{202F}' || c == '\U{205F}'
    || c == '\U{3000}' || c == '\U{FEFF}'
  }

  predicate NoWhitespace(s: string) {
    forall i :: 0 <= i < |s| ==> !IsWhitespace(s[i])
  }

  function TrimStart(s: string): (r: string)
    ensures |r| <= |s|
    ensures r == [] || !IsWhitespace(r[0])
    decreases |s|
  {
    if |s| > 0 && IsWhitespace(s[0]) then TrimStart(s[1..]) else s
  }

  function TrimEnd(s: string): (r: string)
    ensures |r| <= |s| && (r == [] || r[0] == s[0])
    ensures r == [] || !IsWhitespace(r[|r| - 1])
    decreases |s|
  {
    if |s| > 0 && IsWhitespace(s[|s| - 1]) then TrimEnd(s[..|s| - 1]) else s
  }

  /** `s.trim()`: white space removed at both ends. */
  function Trim(s: string): (r: string)
    ensures |r| <= |s|
    ensures r == [] || (!IsWhitespace(r[0]) && !IsWhitespace(r[|r| - 1]))
  {
    TrimEnd(TrimStart(s))
  }

  /** `!s || s.trim().length === 0` */
  predicate IsBlank(s: string) {
    Trim(s) == []
  }

  lemma {:induction false} TrimStartEmpty(s: string)
    ensures TrimStart(s) == [] <==> forall i :: 0 <= i < |s| ==> IsWhitespace(s[i])
    decreases |s|
  {
    if |s| > 0 {
      TrimStartEmpty(s[1..]);
      assert forall i :: 1 <= i < |s| ==> s[i] == s[1..][i - 1];
    }
  }

  lemma {:induction false} TrimEndEmpty(s: string)
    ensures TrimEnd(s) == [] ==> s == [] || IsWhitespace(s[0])
    decreases |s|
  {
    if |s| > 1 {
      TrimEndEmpty(s[..|s| - 1]);
    }
  }

  /** A string is blank exactly when every character of it is white space. */
  lemma BlankIsAllWhitespace(s: string)
    ensures IsBlank(s) <==> forall i :: 0 <= i < |s| ==> IsWhitespace(s[i])
  {
    TrimStartEmpty(s);
    TrimEndEmpty(TrimStart(s));
  }

  lemma {:induction false} TrimStartOfTrimmed(s: string)
    requires s == [] || !IsWhitespace(s[0])
    ensures TrimStart(s) == s
  {
  }

  lemma {:induction false} TrimEndOfTrimmed(s: string)
    requires s == [] || !IsWhitespace(s[|s| - 1])
    ensures TrimEnd(s) == s
  {
  }

  /** A string that neither starts nor ends with white space is its own trim. */
  lemma TrimOfTrimmed(s: string)
    requires s == [] || (!IsWhitespace(s[0]) && !IsWhitespace(s[|s| - 1]))
    ensures Trim(s) == s
  {
    TrimStartOfTrimmed(s);
    TrimEndOfTrimmed(s);
  }

  /** `c.toLowerCase()` for ASCII, Latin-1 and basic Cyrillic (U+0400..U+042F) capitals. */
  function LowerChar(c: char): (r: char)
    ensures IsWhitespace(r) <==> IsWhitespace(c)
  {
    if 'A' <= c <= 'Z' then (c as int + 32) as char
    else if '\U{0410}' <= c <= '\U{042F}' then (c as int + 32) as char
    else if '\U{0400}' <= c <= '\U{040F}' then (c as int + 80) as char
    else if '\U{00C0}' <= c <= '\U{00DE}' && c != '\U{00D7}' then (c as int + 32) as char
    else c
  }

  /** `c.toUpperCase()` on the same letters (inverse of LowerChar there). */
  function UpperChar(c: char): char {
    if 'a' <= c <= 'z' then (c as int - 32) as char
    else if '\U{0430}' <= c <= '\U{044F}' then (c as int - 32) as char
    else if '\U{0450}' <= c <= '\U{045F}' then (c as int - 80) as char
    else if '\U{00E0}' <= c <= '\U{00FE}' && c != '\U{00F7}' then (c as int - 32) as char
    else c
  }

  function Lower(s: string): (r: string)
    ensures |r| == |s|
  {
    seq(|s|, i requires 0 <= i < |s| => LowerChar(s[i]))
  }

  /** `s.charAt(0).toUpperCase() + s.slice(1)` */
  function Capitalize(s: string): (r: string)
    ensures |r| == |s|
  {
    if s == [] then [] else [UpperChar(s[0])] + s[1..]
  }

  predicate StartsWith(s: string, prefix: string) {
    |prefix| <= |s| && s[..|prefix|] == prefix
  }

  predicate EndsWith(s: string, suffix: string) {
    |suffix| <= |s| && s[|s| - |suffix|..] == suffix
  }

  lemma EndsWithAppend(s: string, suffix: string)
    ensures EndsWith(s + suffix, suffix)
  {
    assert (s + suffix)[|s|..] == suffix;
  }

  /** `s.includes(sub)` */
  predicate Contains(s: string, sub: string)
    decreases |s|
  {
    StartsWith(s, sub) || (|s| > 0 && Contains(s[1..], sub))
  }

  lemma {:induction false} LowerTrimStart(s: string)
    ensures Lower(TrimStart(s)) == TrimStart(Lower(s))
    decreases |s|
  {
    if |s| > 0 && IsWhitespace(s[0]) {
      assert Lower(s)[1..] == Lower(s[1..]);
      LowerTrimStart(s[1..]);
    }
  }

  lemma {:induction false} LowerTrimEnd(s: string)
    ensures Lower(TrimEnd(s)) == TrimEnd(Lower(s))
    decreases |s|
  {
    if |s| > 0 && IsWhitespace(s[|s| - 1]) {
      assert Lower(s)[..|s| - 1] == Lower(s[..|s| - 1]);
      LowerTrimEnd(s[..|s| - 1]);
    }
  }

  /** Lower-casing and trimming commute, because lower-casing keeps white space white. */
  lemma LowerTrimCommute(s: string)
    ensures Lower(Trim(s)) == Trim(Lower(s))
  {
    LowerTrimStart(s);
    LowerTrimEnd(TrimStart(s));
  }

  // ---------------------------------------------------------------------
  // Decimal rendering of integers, as `${n}` renders an integral number.

  function DigitChar(d: nat): char
    requires d < 10
  {
    ('0' as int + d) as char
  }

  predicate IsDigit(c: char) {
    '0' <= c <= '9'
  }

  function NatToString(n: nat): (r: string)
    ensures |r| >= 1
    ensures forall i :: 0 <= i < |r| ==> IsDigit(r[i])
    ensures (|r| == 1) == (n < 10)
  {
    if n < 10 then [DigitChar(n)] else NatToString(n / 10) + [DigitChar(n % 10)]
  }

  function IntToString(n: int): (r: string)
    ensures |r| >= 1
    ensures forall i :: 0 <= i < |r| ==> IsDigit(r[i]) || (i == 0 && r[i] == '-')
  {
    if n < 0 then "-" + NatToString(-n) else NatToString(n)
  }

  lemma {:induction false} NatToStringInjective(a: nat, b: nat)
    requires NatToString(a) == NatToString(b)
    ensures a == b
  {
    if a >= 10 && b >= 10 {
      var sa, sb := NatToString(a), NatToString(b);
      assert sa[..|sa| - 1] == NatToString(a / 10);
      assert sb[..|sb| - 1] == NatToString(b / 10);
      NatToStringInjective(a / 10, b / 10);
      assert sa[|sa| - 1] == DigitChar(a % 10);
      assert sb[|sb| - 1] == DigitChar(b % 10);
    }
  }

  /** Distinct integers render as distinct strings. */
  lemma IntToStringInjective(a: int, b: int)
    requires IntToString(a) == IntToString(b)
    ensures a == b
  {
    var s := IntToString(a);
    assert a < 0 <==> s[0] == '-';
    assert b < 0 <==> s[0] == '-';
    if a < 0 {
      assert NatToString(-a) == s[1..] == NatToString(-b);
      NatToStringInjective(-a, -b);
    } else {
      NatToStringInjective(a, b);
    }
  }

  // ---------------------------------------------------------------------
  // `split` and `join`.

  /** `s.split(sep)` for a one-character separator: every separator cuts, empty pieces stay. */
  function Split(s: string, sep: char): (r: seq<string>)
    ensures |r| >= 1
    decreases |s|
  {
    if s == [] then [[]]
    else if s[0] == sep then [[]] + Split(s[1..], sep)
    else
      var rest := Split(s[1..], sep);
      [[s[0]] + rest[0]] + rest[1..]
  }

  /** `words.join(sep)` */
  function Join(words: seq<string>, sep: string): string
    decreases |words|
  {
    if |words| == 0 then []
    else if |words| == 1 then words[0]
    else words[0] + sep + Join(words[1..], sep)
  }

  lemma JoinSnoc(words: seq<string>, w: string, sep: string)
    requires |words| >= 1
    ensures Join(words + [w], sep) == Join(words, sep) + sep + w
    decreases |words|
  {
    if |words| == 1 {
      assert words + [w] == [words[0], w];
    } else {
      assert (words + [w])[1..] == words[1..] + [w];
      JoinSnoc(words[1..], w, sep);
    }
  }

  /** Joining a first word onto a non-empty rest puts one separator between them. */
  lemma JoinCons(w: string, rest: seq<string>, sep: string)
    requires |rest| >= 1
    ensures Join([w] + rest, sep) == w + sep + Join(rest, sep)
  {
    assert ([w] + rest)[1..] == rest;
  }

  /** Growing the first word by a letter in front grows the joined string by that letter. */
  /** Joins of three, four and five words by single spaces, written out. */
  lemma Join3(a: string, b: string, c: string)
    ensures Join([a, b, c], " ") == a + " " + b + " " + c
  {
    assert [a, b, c][1..] == [b, c];
    assert [b, c][1..] == [c];
    assert Join([b, c], " ") == b + " " + c;
    assert Join([a, b, c], " ") == a + " " + (b + " " + c);
  }

  lemma Join4(a: string, b: string, c: string, d: string)
    ensures Join([a, b, c, d], " ") == a + " " + b + " " + c + " " + d
  {
    assert [a, b, c, d][1..] == [b, c, d];
    Join3(b, c, d);
  }

  lemma Join5(a: string, b: string, c: string, d: string, e: string)
    ensures Join([a, b, c, d, e], " ") == a + " " + b + " " + c + " " + d + " " + e
  {
    assert [a, b, c, d, e][1..] == [b, c, d, e];
    Join4(b, c, d, e);
  }

  lemma JoinExtendFirst(c: char, rest: seq<string>, sep: string)
    requires |rest| >= 1
    ensures Join([[c] + rest[0]] + rest[1..], sep) == [c] + Join(rest, sep)
  {
    if |rest| > 1 {
      JoinCons([c] + rest[0], rest[1..], sep);
      JoinCons(rest[0], rest[1..], sep);
      assert [rest[0]] + rest[1..] == rest;
    }
  }

  /** Splitting on a separator and joining with it gives the string back. */
  lemma {:induction false} JoinSplit(s: string, sep: char)
    ensures Join(Split(s, sep), [sep]) == s
    decreases |s|
  {
    if s == [] {
    } else if s[0] == sep {
      assert Split(s, sep) == [[]] + Split(s[1..], sep);
      JoinSplit(s[1..], sep);
      JoinCons([], Split(s[1..], sep), [sep]);
      assert s == [sep] + s[1..];
    } else {
      var rest := Split(s[1..], sep);
      assert Split(s, sep) == [[s[0]] + rest[0]] + rest[1..];
      JoinSplit(s[1..], sep);
      JoinExtendFirst(s[0], rest, [sep]);
      assert s == [s[0]] + s[1..];
    }
  }

  /** No piece of a split contains the separator. */
  lemma {:induction false} SplitPiecesAvoidSeparator(s: string, sep: char)
    ensures forall k, i :: 0 <= k < |Split(s, sep)| && 0 <= i < |Split(s, sep)[k]| ==> Split(s, sep)[k][i] != sep
    decreases |s|
  {
    if s != [] {
      SplitPiecesAvoidSeparator(s[1..], sep);
    }
  }

  /** One space in front of a word is all `TrimStart` removes. */
  lemma DropOneSpace(t: string)
    requires t != [] && !IsWhitespace(t[0])
    ensures TrimStart(" " + t) == t
  {
    assert (" " + t)[1..] == t;
  }

  /**
   * `s.split(/\s+/)`: maximal runs of white space cut the string; `current` is the piece
   * read so far. Leading or trailing white space yields an empty first or last piece.
   */
  function SplitWhitespaceFrom(s: string, current: string): (r: seq<string>)
    ensures |r| >= 1
    decreases |s|
  {
    if s == [] then [current]
    else if IsWhitespace(s[0]) then [current] + SplitWhitespaceFrom(TrimStart(s), [])
    else SplitWhitespaceFrom(s[1..], current + [s[0]])
  }

  function SplitWhitespace(s: string): seq<string> {
    SplitWhitespaceFrom(s, [])
  }

  lemma {:induction false} SplitWhitespaceWord(w: string, rest: string, current: string)
    requires NoWhitespace(w)
    ensures SplitWhitespaceFrom(w + rest, current) == SplitWhitespaceFrom(rest, current + w)
    decreases |w|
  {
    if w != [] {
      assert (w + rest)[0] == w[0];
      assert (w + rest)[1..] == w[1..] + rest;
      assert current + [w[0]] + w[1..] == current + w;
      SplitWhitespaceWord(w[1..], rest, current + [w[0]]);
    } else {
      assert w + rest == rest;
      assert current + w == current;
    }
  }

  /** A single-space join starts with the first word's first character. */
  lemma {:induction false} JoinStartsWithFirst(words: seq<string>)
    requires |words| >= 1 && words[0] != []
    ensures Join(words, " ") != [] && Join(words, " ")[0] == words[0][0]
  {
  }

  /**
   * Splitting a single-space join of non-empty words without white space recovers the words.
   */
  lemma {:induction false} SplitWhitespaceJoin(words: seq<string>, current: string)
    requires |words| >= 1
    requires forall k :: 0 <= k < |words| ==> words[k] != [] && NoWhitespace(words[k])
    ensures SplitWhitespaceFrom(Join(words, " "), current) == [current + words[0]] + words[1..]
    decreases |words|
  {
    if |words| == 1 {
      SplitWhitespaceWord(words[0], [], current);
      assert words[0] + [] == words[0];
    } else {
      var tail := Join(words[1..], " ");
      assert Join(words, " ") == words[0] + (" " + tail);
      SplitWhitespaceWord(words[0], " " + tail, current);
      SplitWhitespaceJoin(words[1..], []);
      JoinStartsWithFirst(words[1..]);
      DropOneSpace(tail);
      assert [] + words[1] == words[1];
      assert [words[1]] + words[2..] == words[1..];
    }
  }
}
