/**
 * The string operations the crawler (Python) and the bot (JavaScript) rely on:
 * splitting on one separator, joining, Python's whitespace split and strip,
 * and upper-casing, all on strings as sequences of characters.
 */
module Text {

  /** Python's `str.isspace()` for one character (what `split()` and `strip()` drop). */
  predicate IsSpace(c: char)
  {
    || ('\t' <= c <= '\r')           // \t \n \v \f \r
    || ('\U{001C}' <= c <= ' ')       // \x1c-\x1f and the space
    || c == '\U{0085}' || c == '\U{00A0}' || c == '\U{1680}'
    || ('\U{2000}' <= c <= '\U{200A}')
    || c == '\U{2028}' || c == '\U{2029}' || c == '\U{202F}' || c == '\U{205F}' || c == '\U{3000}'
  }

  predicate StartsWith(s: string, prefix: string)
  {
    |prefix| <= |s| && s[..|prefix|] == prefix
  }

  /** Position of the first occurrence of `c` in `s`. */
  function IndexOf(s: string, c: char): (i: nat)
    requires c in s
    ensures i < |s| && s[i] == c && c !in s[..i]
  {
    if s[0] == c then 0 else 1 + IndexOf(s[1..], c)
  }

  /**
   * `s.split(sep)` with a one-character separator, as Python's `str.split(sep)`
   * and JavaScript's `String.prototype.split(sep)` both behave: the fields between
   * separators, at least one field, empty fields kept.
   */
  function Split(s: string, sep: char): (r: seq<string>)
    ensures |r| >= 1
    ensures sep in s ==> |r| >= 2
    decreases |s|
  {
    if sep !in s then [s]
    else
      var i := IndexOf(s, sep);
      [s[..i]] + Split(s[i + 1..], sep)
  }

  /** No field of a split holds the separator, and every character of a field comes from the string. */
  lemma {:induction false} SplitFields(s: string, sep: char)
    ensures forall f | f in Split(s, sep) :: sep !in f && forall c | c in f :: c in s
    decreases |s|
  {
    if sep in s {
      var i := IndexOf(s, sep);
      SplitFields(s[i + 1..], sep);
      assert forall c | c in s[i + 1..] :: c in s;
      assert forall c | c in s[..i] :: c in s;
    }
  }

  /** `sep.join(ws)` in Python, `ws.join(sep)` in JavaScript. */
  function Join(ws: seq<string>, sep: char): string
    decreases |ws|
  {
    if ws == [] then ""
    else if |ws| == 1 then ws[0]
    else ws[0] + [sep] + Join(ws[1..], sep)
  }

  /** The first separator after a separator-free prefix sits right after that prefix. */
  lemma {:induction false} IndexOfAfterPrefix(a: string, c: char, b: string)
    requires c !in a
    ensures IndexOf(a + [c] + b, c) == |a|
    decreases |a|
  {
    if a != [] {
      assert (a + [c] + b)[1..] == a[1..] + [c] + b;
      IndexOfAfterPrefix(a[1..], c, b);
    }
  }

  /** A split at a first separator gives the part before it, then the split of the rest. */
  lemma SplitAtFirst(a: string, sep: char, b: string)
    requires sep !in a
    ensures Split(a + [sep] + b, sep) == [a] + Split(b, sep)
  {
    var s := a + [sep] + b;
    assert s[|a|] == sep;
    IndexOfAfterPrefix(a, sep, b);
    assert s[..|a|] == a;
    assert s[|a| + 1..] == b;
  }

  /** Splitting a joined list gives the list back when no item contains the separator. */
  lemma {:induction false} SplitJoin(ws: seq<string>, sep: char)
    requires |ws| >= 1
    requires forall w | w in ws :: sep !in w
    ensures Split(Join(ws, sep), sep) == ws
    decreases |ws|
  {
    if |ws| > 1 {
      var rest := Join(ws[1..], sep);
      assert Join(ws, sep) == ws[0] + [sep] + rest;
      assert ws[0] in ws;
      SplitJoin(ws[1..], sep);
      SplitAtFirst(ws[0], sep, rest);
      assert ws == [ws[0]] + ws[1..];
    }
  }

  /** Joining two non-empty lists puts one separator between their joins. */
  lemma {:induction false} JoinConcat(a: seq<string>, b: seq<string>, sep: char)
    requires a != [] && b != []
    ensures Join(a + b, sep) == Join(a, sep) + [sep] + Join(b, sep)
    decreases |a|
  {
    assert (a + b)[0] == a[0];
    assert (a + b)[1..] == a[1..] + b;
    if |a| > 1 {
      JoinConcat(a[1..], b, sep);
    }
  }

  /** Putting an item in front of a concatenation puts it in front of its first part. */
  lemma ConsAppend<T>(h: T, a: seq<T>, b: seq<T>)
    ensures [h] + (a + b) == [h] + a + b
  {
  }

  /** Splitting at a separator splits each side on its own: the fields of the left, then those of the right. */
  lemma {:induction false} SplitConcat(x: string, sep: char, y: string)
    ensures Split(x + [sep] + y, sep) == Split(x, sep) + Split(y, sep)
    decreases |x|
  {
    if sep !in x {
      SplitAtFirst(x, sep, y);
    } else {
      var i := IndexOf(x, sep);
      var tail := x[i + 1..];
      assert x == x[..i] + [sep] + tail;
      assert x + [sep] + y == x[..i] + [sep] + (tail + [sep] + y);
      SplitAtFirst(x[..i], sep, tail + [sep] + y);
      SplitConcat(tail, sep, y);
      var f, fs, gs := x[..i], Split(tail, sep), Split(y, sep);
      assert Split(x, sep) == [f] + fs;
      ConsAppend(f, fs, gs);
    }
  }

  /** A character that is not the separator and appears in no item does not appear in the joined string. */
  lemma {:induction false} JoinAvoids(ws: seq<string>, sep: char, c: char)
    requires c != sep
    requires forall w | w in ws :: c !in w
    ensures c !in Join(ws, sep)
    decreases |ws|
  {
    if |ws| > 1 {
      assert ws[0] in ws;
      JoinAvoids(ws[1..], sep, c);
    } else if |ws| == 1 {
      assert ws[0] in ws;
    }
  }

  /** Every character of `s` replaced by `d` where it equals `c` (`s.replace(c, d)`). */
  function ReplaceChar(s: string, c: char, d: char): string
  {
    seq(|s|, i requires 0 <= i < |s| => if s[i] == c then d else s[i])
  }

  /** Replacing a character in a concatenation replaces it in each part. */
  lemma ReplaceConcat(x: string, y: string, c: char, d: char)
    ensures ReplaceChar(x + y, c, d) == ReplaceChar(x, c, d) + ReplaceChar(y, c, d)
  {
  }

  /** Replacing the separator of a join by `d` gives the join by `d`, when no item holds the separator. */
  lemma {:induction false} JoinReplaceSep(ws: seq<string>, sep: char, d: char)
    requires forall w | w in ws :: sep !in w
    ensures ReplaceChar(Join(ws, sep), sep, d) == Join(ws, d)
    decreases |ws|
  {
    if ws == [] {
      assert ReplaceChar("", sep, d) == "";
    } else {
      assert ws[0] in ws;
      ReplaceAbsent(ws[0], sep, d);
      if |ws| > 1 {
        var rest := Join(ws[1..], sep);
        assert forall w | w in ws[1..] :: w in ws;
        JoinReplaceSep(ws[1..], sep, d);
        ReplaceConcat(ws[0] + [sep], rest, sep, d);
        ReplaceConcat(ws[0], [sep], sep, d);
        assert ReplaceChar([sep], sep, d) == [d];
      }
    }
  }

  /** Length of the leading run of non-space characters. */
  function TokenLength(s: string): (k: nat)
    requires s != [] && !IsSpace(s[0])
    ensures 1 <= k <= |s|
    decreases |s|
  {
    if |s| == 1 || IsSpace(s[1]) then 1 else 1 + TokenLength(s[1..])
  }

  /** The token is space-free and ends at a space or at the end of the string. */
  lemma {:induction false} TokenLengthBounds(s: string)
    requires s != [] && !IsSpace(s[0])
    ensures forall i | 0 <= i < TokenLength(s) :: !IsSpace(s[i])
    ensures TokenLength(s) < |s| ==> IsSpace(s[TokenLength(s)])
    decreases |s|
  {
    if |s| > 1 && !IsSpace(s[1]) {
      TokenLengthBounds(s[1..]);
    }
  }

  /**
   * Python's `s.split()` with no argument: the maximal runs of non-space
   * characters, so every token is non-empty and space-free.
   */
  function SplitWhitespace(s: string): seq<string>
    decreases |s|
  {
    if s == [] then []
    else if IsSpace(s[0]) then SplitWhitespace(s[1..])
    else
      var k := TokenLength(s);
      [s[..k]] + SplitWhitespace(s[k..])
  }

  /** Every token of a whitespace split is non-empty, space-free and made of characters of the string. */
  lemma {:induction false} SplitWhitespaceTokens(s: string)
    ensures forall t | t in SplitWhitespace(s) :: t != [] && forall c | c in t :: !IsSpace(c) && c in s
    decreases |s|
  {
    if s != [] {
      if IsSpace(s[0]) {
        SplitWhitespaceTokens(s[1..]);
        assert forall c | c in s[1..] :: c in s;
      } else {
        var k := TokenLength(s);
        TokenLengthBounds(s);
        SplitWhitespaceTokens(s[k..]);
        assert forall c | c in s[k..] :: c in s;
        assert forall c | c in s[..k] :: c in s && !IsSpace(c);
      }
    }
  }

  /** Replacing a character that does not occur leaves the string as it is. */
  lemma ReplaceAbsent(s: string, c: char, d: char)
    requires c !in s
    ensures ReplaceChar(s, c, d) == s
  {
    assert forall i | 0 <= i < |s| :: s[i] != c;
  }

  /** A non-empty run of non-space characters. */
  predicate IsToken(w: string)
  {
    w != [] && forall i | 0 <= i < |w| :: !IsSpace(w[i])
  }

  /** A token followed by a space (or nothing) is the first token. */
  lemma SplitWhitespaceWord(w: string, rest: string)
    requires IsToken(w)
    requires rest == [] || IsSpace(rest[0])
    ensures SplitWhitespace(w + rest) == [w] + SplitWhitespace(rest)
  {
    var s := w + rest;
    assert s[0] == w[0];
    TokenLengthBounds(s);
    var k := TokenLength(s);
    assert forall i | 0 <= i < |w| :: s[i] == w[i] && !IsSpace(s[i]);
    assert |w| < |s| ==> s[|w|] == rest[0];
    assert k == |w|;
    assert s[..k] == w;
    assert s[k..] == rest;
  }

  /** The space after a token is skipped before the next one. */
  lemma SplitWhitespaceWordSpace(w: string, rest: string)
    requires IsToken(w)
    ensures SplitWhitespace(w + [' '] + rest) == [w] + SplitWhitespace(rest)
  {
    var tail := [' '] + rest;
    SplitWhitespaceWord(w, tail);
    assert w + [' '] + rest == w + tail;
    assert tail[1..] == rest;
  }

  /** A space splits a whitespace split in two: the tokens before it, then those after it. */
  lemma {:induction false} SplitWhitespaceAtSpace(x: string, c: char, y: string)
    requires IsSpace(c)
    ensures SplitWhitespace(x + [c] + y) == SplitWhitespace(x) + SplitWhitespace(y)
    decreases |x|
  {
    var s := x + [c] + y;
    if x == [] {
      assert s[1..] == y;
    } else if IsSpace(x[0]) {
      assert s[0] == x[0];
      assert s[1..] == x[1..] + [c] + y;
      SplitWhitespaceAtSpace(x[1..], c, y);
      assert SplitWhitespace(s) == SplitWhitespace(x[1..] + [c] + y);
    } else {
      var k := TokenLength(x);
      TokenLengthBounds(x);
      var w, tail := x[..k], x[k..];
      assert IsToken(w);
      assert tail != [] ==> tail[0] == x[k];
      assert x == w + tail;
      assert s == w + (tail + [c] + y);
      SplitWhitespaceWord(w, tail + [c] + y);
      SplitWhitespaceWord(w, tail);
      SplitWhitespaceAtSpace(tail, c, y);
      var ts, us := SplitWhitespace(tail), SplitWhitespace(y);
      ConsAppend(w, ts, us);
    }
  }

  /** Splitting tokens joined by single spaces gives them back. */
  lemma {:induction false} SplitWhitespaceJoin(ws: seq<string>)
    requires forall w | w in ws :: IsToken(w)
    ensures SplitWhitespace(Join(ws, ' ')) == ws
    decreases |ws|
  {
    if |ws| == 1 {
      assert ws[0] in ws;
      SplitWhitespaceWord(ws[0], []);
      assert ws[0] + [] == ws[0];
    } else if |ws| > 1 {
      assert ws[0] in ws;
      assert forall w | w in ws[1..] :: w in ws;
      SplitWhitespaceJoin(ws[1..]);
      SplitWhitespaceWordSpace(ws[0], Join(ws[1..], ' '));
      assert ws == [ws[0]] + ws[1..];
    }
  }

  /** The end of the run of spaces that starts at `i`. */
  function SpacesFrom(s: string, i: nat): (j: nat)
    requires i <= |s|
    ensures i <= j <= |s|
    ensures forall k | i <= k < j :: IsSpace(s[k])
    ensures j == |s| || !IsSpace(s[j])
    decreases |s| - i
  {
    if i < |s| && IsSpace(s[i]) then SpacesFrom(s, i + 1) else i
  }

  /** The start of the run of spaces that ends at `j`, going back no further than `floor`. */
  function SpacesBefore(s: string, floor: nat, j: nat): (i: nat)
    requires floor <= j <= |s|
    ensures floor <= i <= j
    ensures forall k | i <= k < j :: IsSpace(s[k])
    ensures i == floor || !IsSpace(s[i - 1])
    decreases j - floor
  {
    if floor < j && IsSpace(s[j - 1]) then SpacesBefore(s, floor, j - 1) else j
  }

  /** Where Python's `s.strip()` starts: after the leading spaces. */
  function StripLo(s: string): nat
  {
    SpacesFrom(s, 0)
  }

  /** Where Python's `s.strip()` ends: before the trailing spaces, never before StripLo. */
  function StripHi(s: string): (hi: nat)
    ensures StripLo(s) <= hi <= |s|
  {
    SpacesBefore(s, StripLo(s), |s|)
  }

  /** Python's `s.strip()`. */
  function Strip(s: string): string
  {
    s[StripLo(s)..StripHi(s)]
  }

  /** No space is left at either end of `Strip(s)`. */
  lemma StripEnds(s: string)
    ensures var r := Strip(s); r == [] || (!IsSpace(r[0]) && !IsSpace(r[|r| - 1]))
  {
    var lo, hi := StripLo(s), StripHi(s);
    if lo < hi {
      assert Strip(s)[0] == s[lo];
      assert Strip(s)[hi - lo - 1] == s[hi - 1];
    }
  }

  /** `Strip(s)` is a slice of `s` with only spaces cut away and no space left at either end. */
  lemma StripIsTrimmedSlice(s: string)
    ensures var r := Strip(s);
      && (r == [] || (!IsSpace(r[0]) && !IsSpace(r[|r| - 1])))
      && exists lo, hi | 0 <= lo <= hi <= |s| ::
        && r == s[lo..hi]
        && (forall i | 0 <= i < lo :: IsSpace(s[i]))
        && (forall i | hi <= i < |s| :: IsSpace(s[i]))
  {
    StripEnds(s);
    var lo, hi := StripLo(s), StripHi(s);
    assert Strip(s) == s[lo..hi];
  }

  /** A string with no space at either end is its own strip. */
  lemma StripUnpadded(s: string)
    requires s != [] && !IsSpace(s[0]) && !IsSpace(s[|s| - 1])
    ensures Strip(s) == s
  {
    assert StripLo(s) == 0;
    assert StripHi(s) == |s|;
  }

  /** Stripping keeps only characters of the original. */
  lemma StripChars(s: string)
    ensures forall c | c in Strip(s) :: c in s
  {
    var lo := StripLo(s);
    var r := Strip(s);
    forall c | c in r ensures c in s {
      var i :| 0 <= i < |r| && r[i] == c;
      assert s[lo + i] == c;
    }
  }

  /**
   * Python's `str.upper()` for one character, over ASCII letters and the basic
   * Cyrillic block (а-я to А-Я, ѐ-џ to Ѐ-Џ); every other character is unchanged.
   */
  function UpperChar(c: char): char
  {
    if 'a' <= c <= 'z' then (c as int - 32) as char
    else if '\U{0430}' <= c <= '\U{044F}' then (c as int - 32) as char
    else if '\U{0450}' <= c <= '\U{045F}' then (c as int - 80) as char
    else c
  }

  function Upper(s: string): string
  {
    seq(|s|, i requires 0 <= i < |s| => UpperChar(s[i]))
  }

  /** A word is upper-case when upper-casing leaves it as it is. */
  predicate IsUpperCase(w: string)
  {
    Upper(w) == w
  }

  /** Upper-casing changes only letters: spaces, commas and newlines are neither created nor removed. */
  lemma UpperCharKeepsSeparators(c: char)
    ensures IsSpace(UpperChar(c)) <==> IsSpace(c)
    ensures UpperChar(c) == ',' <==> c == ','
    ensures UpperChar(c) == '\n' <==> c == '\n'
    ensures UpperChar(UpperChar(c)) == UpperChar(c)
  {
  }

  /** An upper-cased word is upper-case, and has its spaces, commas and newlines exactly where the original has them. */
  lemma UpperProperties(s: string)
    ensures IsUpperCase(Upper(s))
    ensures forall i | 0 <= i < |s| ::
      && (IsSpace(Upper(s)[i]) <==> IsSpace(s[i]))
      && (Upper(s)[i] == ',' <==> s[i] == ',')
      && (Upper(s)[i] == '\n' <==> s[i] == '\n')
  {
    var u := Upper(s);
    forall i | 0 <= i < |s|
      ensures UpperChar(u[i]) == u[i] && (IsSpace(u[i]) <==> IsSpace(s[i]))
      ensures (u[i] == ',' <==> s[i] == ',') && (u[i] == '\n' <==> s[i] == '\n')
    {
      UpperCharKeepsSeparators(s[i]);
    }
    assert Upper(u) == u;
  }
}
