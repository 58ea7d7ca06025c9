/**
 * The JavaScript string operations the bot relies on, over `string` (a sequence
 * of code points): the `\s` and `\d` character classes, `trim`, `toLowerCase`,
 * `split` on one character or on `/\s+/`, `join`, `startsWith`, `endsWith`,
 * `includes`, and the three `replace` patterns the image command uses.
 */
module Text {

  /** LineTerminator code points (ECMAScript section 12.3). */
  predicate IsLineTerminator(c: char)
  {
    c == '\n' || c == '\r' || c == '\U{2028}' || c == '\U{2029}'
  }

  /**
   * The `\s` class and what `trim` removes: WhiteSpace (ECMAScript section 12.2,
   * with the Zs code points of Unicode) together with LineTerminator.
   * U+200B ZERO WIDTH SPACE is not in it.
   */
  predicate IsSpace(c: char)
  {
    || IsLineTerminator(c)
    || c == '\t' || c == '\U{000B}' || c == '\U{000C}' || c == ' '
    || c == '\U{00A0}' || c == '\U{FEFF}' || c == '\U{1680}'
    || ('\U{2000}' <= c <= '\U{200A}')
    || c == '\U{202F}' || c == '\U{205F}' || c == '\U{3000}'
  }

  /** The `\d` class of a regular expression without the `u` flag. */
  predicate IsDigit(c: char)
  {
    '0' <= c <= '9'
  }

  /** Case folding of one code point: ASCII upper case to lower case, everything else unchanged. */
  function LowerChar(c: char): (r: char)
    ensures IsSpace(r) <==> IsSpace(c)
    ensures IsDigit(r) <==> IsDigit(c)
    ensures !('A' <= r <= 'Z')
  {
    if 'A' <= c <= 'Z' then (c as int + 32) as char else c
  }

  /** `toLowerCase`, code point by code point. */
  function Lower(s: string): (r: string)
    ensures |r| == |s|
    ensures forall i :: 0 <= i < |s| ==> r[i] == LowerChar(s[i])
  {
    seq(|s|, i requires 0 <= i < |s| => LowerChar(s[i]))
  }

  predicate IsLower(s: string)
  {
    Lower(s) == s
  }

  lemma LowerIsLower(s: string)
    ensures IsLower(Lower(s))
  {
  }

  /** A text without ASCII upper case is its own lower-cased form. */
  lemma LowerNoUpper(s: string)
    requires forall i :: 0 <= i < |s| ==> !('A' <= s[i] <= 'Z')
    ensures Lower(s) == s
  {
  }

  lemma LowerConcat(a: string, b: string)
    ensures Lower(a + b) == Lower(a) + Lower(b)
  {
  }

  predicate StartsWith(s: string, p: string)
  {
    |p| <= |s| && s[..|p|] == p
  }

  predicate EndsWith(s: string, p: string)
  {
    |p| <= |s| && s[|s| - |p|..] == p
  }

  /** `s.includes(t)`. */
  predicate Contains(s: string, t: string)
    decreases |s|
  {
    StartsWith(s, t) || (s != [] && Contains(s[1..], t))
  }

  /** A string with no whitespace at either end, as `trim` leaves it. */
  predicate IsTrimmed(s: string)
  {
    s == [] || (!IsSpace(s[0]) && !IsSpace(s[|s| - 1]))
  }

  function TrimStart(s: string): (r: string)
    ensures |r| <= |s| && r == s[|s| - |r|..]
    ensures forall i :: 0 <= i < |s| - |r| ==> IsSpace(s[i])
    ensures r == [] || !IsSpace(r[0])
  {
    if s != [] && IsSpace(s[0]) then TrimStart(s[1..]) else s
  }

  function TrimEnd(s: string): (r: string)
    ensures |r| <= |s| && r == s[..|r|]
    ensures forall i :: |r| <= i < |s| ==> IsSpace(s[i])
    ensures r == [] || !IsSpace(r[|r| - 1])
  {
    if s != [] && IsSpace(s[|s| - 1]) then TrimEnd(s[..|s| - 1]) else s
  }

  /** `String.prototype.trim`. */
  function Trim(s: string): (r: string)
    ensures IsTrimmed(r)
  {
    TrimEnd(TrimStart(s))
  }

  lemma {:induction false} TrimStartOfTrimmed(s: string)
    requires s == [] || !IsSpace(s[0])
    ensures TrimStart(s) == s
  {
  }

  lemma {:induction false} TrimEndOfTrimmed(s: string)
    requires s == [] || !IsSpace(s[|s| - 1])
    ensures TrimEnd(s) == s
  {
  }

  /** Trimming a string that is already trimmed changes nothing. */
  lemma TrimOfTrimmed(s: string)
    requires IsTrimmed(s)
    ensures Trim(s) == s
  {
    TrimStartOfTrimmed(s);
    TrimEndOfTrimmed(s);
  }

  lemma TrimStartSpace(w: string)
    ensures TrimStart(" " + w) == TrimStart(w)
  {
    var s := " " + w;
    assert s[0] == ' ' && s[1..] == w;
    assert IsSpace(s[0]);
  }

  lemma TrimEndSpace(w: string)
    ensures TrimEnd(w + " ") == TrimEnd(w)
  {
    var s := w + " ";
    assert s[|s| - 1] == ' ' && s[..|s| - 1] == w;
    assert IsSpace(s[|s| - 1]);
  }

  /** A single leading space is trimmed away. */
  lemma TrimSpaceBefore(w: string)
    requires IsTrimmed(w)
    ensures Trim(" " + w) == w
  {
    TrimStartSpace(w);
    assert TrimStart(" " + w) == w by { TrimStartOfTrimmed(w); }
    assert TrimEnd(w) == w by { TrimEndOfTrimmed(w); }
  }

  /** A single trailing space is trimmed away. */
  lemma TrimSpaceAfter(w: string)
    requires IsTrimmed(w)
    ensures Trim(w + " ") == w
  {
    if w == [] {
      assert w + " " == " " + w;
      TrimStartSpace(w);
    } else {
      assert TrimStart(w + " ") == w + " " by {
        assert (w + " ")[0] == w[0];
        TrimStartOfTrimmed(w + " ");
      }
      TrimEndSpace(w);
      assert TrimEnd(w) == w by { TrimEndOfTrimmed(w); }
    }
  }

  /** A character absent from a string is absent from its trimmed form. */
  lemma TrimKeepsOut(s: string, c: char)
    requires c !in s
    ensures c !in Trim(s)
  {
    var t := TrimStart(s);
    assert forall k :: 0 <= k < |t| ==> t[k] == s[|s| - |t| + k];
  }

  /** Position of the first `c` in `s`, or `|s|` when there is none. */
  function IndexOf(s: string, c: char): (i: nat)
    ensures i <= |s|
    ensures i < |s| ==> s[i] == c
    ensures forall j :: 0 <= j < i ==> s[j] != c
  {
    if s == [] then 0 else if s[0] == c then 0 else 1 + IndexOf(s[1..], c)
  }

  /** `s.split(c)` for a one-character separator. */
  function Split(s: string, c: char): (parts: seq<string>)
    ensures |parts| >= 1
    ensures forall k :: 0 <= k < |parts| ==> c !in parts[k]
    decreases |s|
  {
    var i := IndexOf(s, c);
    if i == |s| then [s] else [s[..i]] + Split(s[i + 1..], c)
  }

  /** `parts.join(sep)`. */
  function Join(parts: seq<string>, sep: string): string
  {
    if |parts| == 0 then ""
    else if |parts| == 1 then parts[0]
    else parts[0] + sep + Join(parts[1..], sep)
  }

  /** Joining a part in front of a non-empty list puts the separator between them. */
  lemma JoinCons(p: string, rest: seq<string>, sep: string)
    requires rest != []
    ensures Join([p] + rest, sep) == p + sep + Join(rest, sep)
  {
    assert ([p] + rest)[1..] == rest;
  }

  /** Six parts joined: each separator sits between two neighbours. */
  lemma JoinSix(a: string, b: string, c: string, d: string, e: string, f: string, sep: string)
    ensures Join([a, b, c, d, e, f], sep) == a + sep + b + sep + c + sep + d + sep + e + sep + f
  {
    assert [a, b, c, d, e, f] == [a] + [b, c, d, e, f];
    JoinCons(a, [b, c, d, e, f], sep);
    assert [b, c, d, e, f] == [b] + [c, d, e, f];
    JoinCons(b, [c, d, e, f], sep);
    assert [c, d, e, f] == [c] + [d, e, f];
    JoinCons(c, [d, e, f], sep);
    assert [d, e, f] == [d] + [e, f];
    JoinCons(d, [e, f], sep);
    assert [e, f] == [e] + [f];
    JoinCons(e, [f], sep);
  }

  /** Joining one more part appends the separator and the part. */
  lemma {:induction false} JoinSnoc(xs: seq<string>, last: string, sep: string)
    requires xs != []
    ensures Join(xs + [last], sep) == Join(xs, sep) + sep + last
    decreases |xs|
  {
    if |xs| == 1 {
      assert (xs + [last])[1..] == [last];
    } else {
      assert (xs + [last])[1..] == xs[1..] + [last];
      JoinSnoc(xs[1..], last, sep);
    }
  }

  /** Splitting a joined list gives back the list, when no element holds the separator. */
  lemma {:induction false} SplitJoin(parts: seq<string>, c: char)
    requires |parts| >= 1
    requires forall k :: 0 <= k < |parts| ==> c !in parts[k]
    ensures Split(Join(parts, [c]), c) == parts
  {
    var p := parts[0];
    if |parts| == 1 {
      IndexOfUpTo(p, c);
    } else {
      var rest := Join(parts[1..], [c]);
      assert Join(parts, [c]) == p + ([c] + rest);
      SplitAfter(p, rest, c);
      SplitJoin(parts[1..], c);
      assert parts == [p] + parts[1..];
    }
  }

  /** A separator-free piece, the separator, then any text: the piece is split off first. */
  lemma SplitAfter(p: string, rest: string, c: char)
    requires c !in p
    ensures Split(p + ([c] + rest), c) == [p] + Split(rest, c)
  {
    var s := p + ([c] + rest);
    IndexOfPrefix(p, [c] + rest, c);
    assert s[..|p|] == p;
    assert s[|p| + 1..] == rest;
  }

  /** A text without the separator is one piece. */
  lemma SplitNone(p: string, c: char)
    requires c !in p
    ensures Split(p, c) == [p]
  {
    IndexOfUpTo(p, c);
  }

  lemma IndexOfUpTo(p: string, c: char)
    requires c !in p
    ensures IndexOf(p, c) == |p|
  {
  }

  lemma {:induction false} IndexOfPrefix(p: string, t: string, c: char)
    requires c !in p && t != [] && t[0] == c
    ensures IndexOf(p + t, c) == |p|
  {
    if p != [] {
      assert (p + t)[1..] == p[1..] + t;
      IndexOfPrefix(p[1..], t, c);
    }
  }

  /** A character absent from a string is absent from every piece of its split. */
  lemma {:induction false} SplitKeepsOut(s: string, c: char, x: char)
    requires x !in s
    ensures forall k :: 0 <= k < |Split(s, c)| ==> x !in Split(s, c)[k]
    decreases |s|
  {
    var i := IndexOf(s, c);
    if i < |s| {
      SplitKeepsOut(s[i + 1..], c, x);
    }
  }

  /** Joining the pieces of a split restores the string. */
  lemma {:induction false} JoinSplit(s: string, c: char)
    ensures Join(Split(s, c), [c]) == s
    decreases |s|
  {
    var i := IndexOf(s, c);
    if i < |s| {
      var rest := Split(s[i + 1..], c);
      JoinSplit(s[i + 1..], c);
      assert Split(s, c) == [s[..i]] + rest;
      assert ([s[..i]] + rest)[1..] == rest;
      assert Join([s[..i]] + rest, [c]) == s[..i] + [c] + Join(rest, [c]);
      assert s == s[..i] + [c] + s[i + 1..];
    }
  }

  /** First position at or after `i` that holds no whitespace, or `|s|`. */
  function SkipSpaces(s: string, i: nat): (j: nat)
    requires i <= |s|
    ensures i <= j <= |s|
    ensures forall k :: i <= k < j ==> IsSpace(s[k])
    ensures j < |s| ==> !IsSpace(s[j])
    decreases |s| - i
  {
    if i < |s| && IsSpace(s[i]) then SkipSpaces(s, i + 1) else i
  }

  /** First whitespace position in `s`, or `|s|`. */
  function FirstSpace(s: string): (i: nat)
    ensures i <= |s|
    ensures i < |s| ==> IsSpace(s[i])
    ensures forall k :: 0 <= k < i ==> !IsSpace(s[k])
  {
    if s == [] then 0 else if IsSpace(s[0]) then 0 else 1 + FirstSpace(s[1..])
  }

  /** `s.split(/\s+/)`: the pieces between maximal runs of whitespace. */
  function SplitWs(s: string): (parts: seq<string>)
    ensures |parts| >= 1
    decreases |s|
  {
    var i := FirstSpace(s);
    if i == |s| then [s] else [s[..i]] + SplitWs(s[SkipSpaces(s, i)..])
  }

  predicate NoSpaces(s: string)
  {
    forall k :: 0 <= k < |s| ==> !IsSpace(s[k])
  }

  /**
   * Splitting a trimmed, non-empty text on whitespace yields its words: every piece
   * is non-empty and holds no whitespace, and the first piece leads the text.
   */
  lemma {:induction false} SplitWsOfTrimmed(s: string)
    requires s != [] && IsTrimmed(s)
    ensures forall k :: 0 <= k < |SplitWs(s)| ==> SplitWs(s)[k] != [] && NoSpaces(SplitWs(s)[k])
    ensures StartsWith(s, SplitWs(s)[0])
    decreases |s|
  {
    var i := FirstSpace(s);
    if i < |s| {
      var j := SkipSpaces(s, i);
      assert !IsSpace(s[|s| - 1]);
      assert j < |s|;
      SplitWsOfTrimmed(s[j..]);
    }
  }

  /** A word list joined by single spaces splits back into the same words. */
  lemma {:induction false} SplitWsJoin(words: seq<string>)
    requires |words| >= 1
    requires forall k :: 0 <= k < |words| ==> words[k] != [] && NoSpaces(words[k])
    ensures SplitWs(Join(words, " ")) == words
  {
    var w := words[0];
    FirstSpaceOfWord(w, []);
    if |words| > 1 {
      var rest := Join(words[1..], " ");
      var s := w + " " + rest;
      JoinWordsStart(words[1..]);
      FirstSpaceOfWord(w, " " + rest);
      assert SkipSpaces(s, |w|) == |w| + 1 by {
        assert s[|w|] == ' ';
        assert s[|w| + 1] == rest[0];
      }
      assert s[..|w|] == w;
      assert s[|w| + 1..] == rest;
      SplitWsJoin(words[1..]);
    }
  }

  lemma {:induction false} JoinWordsStart(words: seq<string>)
    requires |words| >= 1
    requires forall k :: 0 <= k < |words| ==> words[k] != [] && NoSpaces(words[k])
    ensures Join(words, " ") != [] && Join(words, " ")[0] == words[0][0]
  {
  }

  lemma {:induction false} FirstSpaceOfWord(w: string, t: string)
    requires NoSpaces(w)
    requires t == [] || IsSpace(t[0])
    ensures FirstSpace(w + t) == |w|
    decreases |w|
  {
    if w != [] {
      assert (w + t)[1..] == w[1..] + t;
      FirstSpaceOfWord(w[1..], t);
    }
  }

  /** `replace(/\D+/g, "")`: keep the ASCII digits, in order. */
  function KeepDigits(s: string): (r: string)
    ensures forall k :: 0 <= k < |r| ==> IsDigit(r[k])
    ensures r == "" <==> forall k :: 0 <= k < |s| ==> !IsDigit(s[k])
  {
    if s == [] then []
    else if IsDigit(s[0]) then [s[0]] + KeepDigits(s[1..])
    else
      var r := KeepDigits(s[1..]);
      assert (forall k :: 0 <= k < |s| ==> !IsDigit(s[k])) <==> (forall k :: 0 <= k < |s[1..]| ==> !IsDigit(s[1..][k])) by {
        if forall k :: 0 <= k < |s[1..]| ==> !IsDigit(s[1..][k]) {
          forall k | 0 <= k < |s| ensures !IsDigit(s[k]) {
            if k > 0 { assert s[k] == s[1..][k - 1]; }
          }
        }
      }
      r
  }

  /** Digit filtering distributes over concatenation. */
  lemma {:induction false} KeepDigitsAppend(a: string, b: string)
    ensures KeepDigits(a + b) == KeepDigits(a) + KeepDigits(b)
    decreases |a|
  {
    if a == [] {
      assert a + b == b;
    } else {
      assert (a + b)[0] == a[0];
      assert (a + b)[1..] == a[1..] + b;
      KeepDigitsAppend(a[1..], b);
    }
  }

  /** A run of digits is kept whole. */
  lemma {:induction false} KeepAllDigits(s: string)
    requires forall k :: 0 <= k < |s| ==> IsDigit(s[k])
    ensures KeepDigits(s) == s
  {
    if s != [] {
      KeepAllDigits(s[1..]);
    }
  }

  /** `replace(/x/g, "")` for one code point `x`. */
  function RemoveAll(s: string, x: char): (r: string)
    ensures x !in r
    ensures forall k :: 0 <= k < |r| ==> r[k] in s
  {
    if s == [] then []
    else if s[0] == x then RemoveAll(s[1..], x)
    else [s[0]] + RemoveAll(s[1..], x)
  }

  /** No two neighbouring code points are both whitespace. */
  predicate NoDoubleSpace(s: string)
  {
    forall k :: 0 <= k < |s| - 1 ==> !(IsSpace(s[k]) && IsSpace(s[k + 1]))
  }

  /** `replace(/\s+/g, " ")`: every maximal whitespace run becomes one space. */
  function CollapseSpaces(s: string): (r: string)
    ensures |r| <= |s|
    ensures r == [] <==> s == []
    ensures r != [] ==> (IsSpace(r[0]) <==> IsSpace(s[0]))
    ensures forall k :: 0 <= k < |r| ==> r[k] == ' ' || r[k] in s
    decreases |s|
  {
    if s == [] then []
    else if IsSpace(s[0]) then " " + CollapseSpaces(s[SkipSpaces(s, 0)..])
    else [s[0]] + CollapseSpaces(s[1..])
  }

  /** After collapsing, no two whitespace code points stand side by side. */
  lemma {:induction false} CollapseSpacesNoDouble(s: string)
    ensures NoDoubleSpace(CollapseSpaces(s))
    decreases |s|
  {
    if s != [] {
      if IsSpace(s[0]) {
        CollapseSpacesNoDouble(s[SkipSpaces(s, 0)..]);
      } else {
        CollapseSpacesNoDouble(s[1..]);
      }
    }
  }

  /** Decimal rendering of a natural number, as a template literal prints it. */
  function NatToString(n: nat): (r: string)
    ensures r != [] && forall k :: 0 <= k < |r| ==> IsDigit(r[k])
  {
    var d := ['0' + (n % 10) as char];
    if n < 10 then d else NatToString(n / 10) + d
  }
}
