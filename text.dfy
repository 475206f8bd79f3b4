/**
 * The handful of Python `str` operations that the backend's validators and
 * parsers rely on, stated over Dafny strings (`seq<char>`).
 *
 * Whitespace is exactly the set of characters for which Python's
 * `str.isspace()` holds; case mapping and digit tests cover ASCII only.
 */
module Text {

  /** Python's `str.isspace()` for a single character. */
  predicate IsSpace(c: char)
  {
    c == ' ' || ('\t' <= c <= '\r') || ('\U{1C}' <= c <= '\U{1F}') ||
    c == '\U{85}' || c == '\U{A0}' || c == '\U{1680}' ||
    ('\U{2000}' <= c <= '\U{200A}') || c == '\U{2028}' || c == '\U{2029}' ||
    c == '\U{202F}' || c == '\U{205F}' || c == '\U{3000}'
  }

  /** True when `not s.strip()` holds in Python: `s` is empty or all whitespace. */
  predicate IsBlank(s: string)
  {
    forall i :: 0 <= i < |s| ==> IsSpace(s[i])
  }

  /** `s.lstrip()` */
  function LStrip(s: string): (r: string)
    ensures |r| <= |s| && r == s[|s| - |r|..]
    ensures r == [] || !IsSpace(r[0])
    ensures forall i :: 0 <= i < |s| - |r| ==> IsSpace(s[i])
    ensures r == [] <==> IsBlank(s)
  {
    if s == [] || !IsSpace(s[0]) then s else LStrip(s[1..])
  }

  /** `s.rstrip()` */
  function RStrip(s: string): (r: string)
    ensures |r| <= |s| && r == s[..|r|]
    ensures r == [] || !IsSpace(r[|r| - 1])
    ensures forall i :: |r| <= i < |s| ==> IsSpace(s[i])
    ensures r == [] <==> IsBlank(s)
  {
    if s == [] || !IsSpace(s[|s| - 1]) then s else RStrip(s[..|s| - 1])
  }

  /** No whitespace at either end of `s`. */
  predicate Trimmed(s: string)
  {
    s == [] || (!IsSpace(s[0]) && !IsSpace(s[|s| - 1]))
  }

  /** A non-empty string with no whitespace at either end: what `s.strip()` gives for a non-blank `s`. */
  predicate Stripped(s: string)
  {
    s != [] && Trimmed(s)
  }

  /** `r` is `s[i..j]`, and everything of `s` outside `i..j` is whitespace. */
  predicate SliceBetweenSpaces(s: string, r: string, i: int, j: int)
  {
    0 <= i <= j <= |s| && r == s[i..j] &&
    (forall k :: 0 <= k < i ==> IsSpace(s[k])) && (forall k :: j <= k < |s| ==> IsSpace(s[k]))
  }

  /** `s.strip()`: the part of `s` between its leading and trailing whitespace, with no whitespace left at either end. */
  function Strip(s: string): (r: string)
    ensures exists i, j :: SliceBetweenSpaces(s, r, i, j)
    ensures |r| <= |s|
    ensures Trimmed(r)
    ensures r == [] <==> IsBlank(s)
    ensures forall i :: 0 <= i < |r| ==> r[i] in s
  {
    var l := LStrip(s);
    StripInside(s, l);
    InnerSlice(s, l, RStrip(l));
    StripSlice(s, l, RStrip(l));
    RStrip(l)
  }

  /** Right-stripping the left-stripped string leaves no whitespace at either end, and is empty only for a blank one. */
  lemma StripInside(s: string, l: string)
    requires l == LStrip(s)
    ensures Trimmed(RStrip(l))
    ensures RStrip(l) == [] <==> IsBlank(s)
  {
    var r := RStrip(l);
    if l == [] {
      assert r == [];
    } else {
      assert !IsSpace(l[0]);
      assert !IsBlank(l);
      assert r != [];
      assert r[0] == l[0];
    }
  }

  /** A prefix of a suffix of `s`, cut where only whitespace is dropped, lies between whitespace in `s`. */
  lemma StripSlice(s: string, l: string, r: string)
    requires |l| <= |s| && l == s[|s| - |l|..] && forall k :: 0 <= k < |s| - |l| ==> IsSpace(s[k])
    requires |r| <= |l| && r == l[..|r|] && forall k :: |r| <= k < |l| ==> IsSpace(l[k])
    ensures exists i, j :: SliceBetweenSpaces(s, r, i, j)
  {
    var i := |s| - |l|;
    var j := i + |r|;
    PrefixOfSuffix(s, l, r);
    forall k | j <= k < |s| ensures IsSpace(s[k]) {
      assert s[k] == l[k - i];
    }
    assert SliceBetweenSpaces(s, r, i, j);
  }

  /** A prefix of a suffix is a slice. */
  lemma PrefixOfSuffix<T>(s: seq<T>, l: seq<T>, r: seq<T>)
    requires |l| <= |s| && l == s[|s| - |l|..]
    requires |r| <= |l| && r == l[..|r|]
    ensures r == s[|s| - |l|..|s| - |l| + |r|]
    ensures forall k :: |s| - |l| <= k < |s| ==> s[k] == l[k - (|s| - |l|)]
  {
  }

  /** Every element of a prefix of a suffix occurs in the whole sequence. */
  lemma InnerSlice<T>(s: seq<T>, l: seq<T>, r: seq<T>)
    requires |l| <= |s| && l == s[|s| - |l|..]
    requires |r| <= |l| && r == l[..|r|]
    ensures forall i :: 0 <= i < |r| ==> r[i] in s
  {
    forall i | 0 <= i < |r| ensures r[i] in s {
      assert r[i] == l[i] == s[|s| - |l| + i];
    }
  }

  /** Stripping twice changes nothing. */
  lemma StripIdempotent(s: string)
    ensures Strip(Strip(s)) == Strip(s)
  {
    var r := Strip(s);
    if r != [] {
      assert !IsSpace(r[0]);
      assert LStrip(r) == r;
      assert RStrip(r) == r;
    }
  }

  /** Python's `s[:n]` for a non-negative `n`: the first `n` characters, or all of a shorter `s`. */
  function Take(s: string, n: nat): (r: string)
    ensures |r| == (if |s| <= n then |s| else n)
    ensures r == s[..|r|]
  {
    if |s| <= n then s else s[..n]
  }

  /** Python's `xs[:count]` on any list: a negative count drops that many from the end. */
  function SliceTo<T>(xs: seq<T>, count: int): (r: seq<T>)
    ensures count >= 0 ==> |r| == (if count < |xs| then count else |xs|)
    ensures count < 0 ==> |r| == (if |xs| + count < 0 then 0 else |xs| + count)
    ensures r == xs[..|r|]
  {
    if count >= 0 then (if count < |xs| then xs[..count] else xs)
    else if |xs| + count < 0 then [] else xs[..|xs| + count]
  }

  /** `s.lstrip(chars)` */
  function LStripChars(s: string, chars: set<char>): (r: string)
    ensures |r| <= |s| && r == s[|s| - |r|..]
    ensures r == [] || r[0] !in chars
    ensures forall i :: 0 <= i < |s| - |r| ==> s[i] in chars
  {
    if s == [] || s[0] !in chars then s else LStripChars(s[1..], chars)
  }

  /** The ASCII digits: the characters for which the parsers' `line[0].isdigit()` holds. */
  predicate IsDigit(c: char)
  {
    '0' <= c <= '9'
  }

  function LowerChar(c: char): char
  {
    if 'A' <= c <= 'Z' then (c as int + 32) as char else c
  }

  function UpperChar(c: char): char
  {
    if 'a' <= c <= 'z' then (c as int - 32) as char else c
  }

  /** `s.lower()` on ASCII letters. */
  function Lower(s: string): (r: string)
    ensures |r| == |s| && forall i :: 0 <= i < |s| ==> r[i] == LowerChar(s[i])
  {
    seq(|s|, i requires 0 <= i < |s| => LowerChar(s[i]))
  }

  /** Lower-casing maps no character to or from whitespace, so it keeps a trimmed string trimmed. */
  lemma LowerKeepsTrimmed(s: string)
    ensures Trimmed(s) ==> Trimmed(Lower(s))
    ensures Lower(s) == [] <==> s == []
  {
  }

  /** `s.upper()` on ASCII letters. */
  function Upper(s: string): (r: string)
    ensures |r| == |s| && forall i :: 0 <= i < |s| ==> r[i] == UpperChar(s[i])
  {
    seq(|s|, i requires 0 <= i < |s| => UpperChar(s[i]))
  }

  /** Python's `sub in s` for strings. */
  predicate Contains(s: string, sub: string)
  {
    exists i :: 0 <= i <= |s| - |sub| && OccursAt(s, sub, i)
  }

  /** `sub` occurs in `s` starting at position `i`. */
  predicate OccursAt(s: string, sub: string, i: int)
  {
    0 <= i && i + |sub| <= |s| && s[i..i + |sub|] == sub
  }

  /** Text put between a prefix and a suffix occurs in the result, right after the prefix. */
  lemma ContainsMiddle(pre: string, sub: string, post: string)
    ensures OccursAt(pre + sub + post, sub, |pre|) && Contains(pre + sub + post, sub)
  {
    var t := pre + sub + post;
    assert t[|pre|..|pre| + |sub|] == sub;
    assert OccursAt(t, sub, |pre|);
  }

  predicate StartsWith(s: string, prefix: string)
  {
    |prefix| <= |s| && s[..|prefix|] == prefix
  }

  predicate EndsWith(s: string, suffix: string)
  {
    |suffix| <= |s| && s[|s| - |suffix|..] == suffix
  }

  /** `head + tail` starts with `head`, and what follows it is `tail`. */
  lemma Prefixed(head: string, tail: string)
    ensures StartsWith(head + tail, head) && (head + tail)[|head|..] == tail
  {
    assert (head + tail)[..|head|] == head;
  }

  /** A string built as `head + middle + tail` starts with `head` and ends with `tail`. */
  lemma JoinedEnds(head: string, middle: string, tail: string)
    ensures StartsWith(head + middle + tail, head) && EndsWith(head + middle + tail, tail)
  {
    var t := head + middle + tail;
    assert t[..|head|] == head;
    assert t[|t| - |tail|..] == tail;
  }

  /** Position of the first occurrence of `sep` in `s` at or after `from`. */
  function FindFrom(s: string, sep: string, from: nat): (r: int)
    requires |sep| > 0
    ensures r == -1 || (from <= r && OccursAt(s, sep, r))
    ensures forall j :: from <= j < (if r == -1 then |s| else r) ==> !OccursAt(s, sep, j)
    decreases |s| - from
  {
    if from + |sep| > |s| then -1
    else if s[from..from + |sep|] == sep then from
    else FindFrom(s, sep, from + 1)
  }

  /** `s.split(sep)` for a non-empty separator. */
  function SplitOn(s: string, sep: string): (r: seq<string>)
    requires |sep| > 0
    ensures |r| >= 1
    decreases |s|
  {
    var i := FindFrom(s, sep, 0);
    if i == -1 then [s] else [s[..i]] + SplitOn(s[i + |sep|..], sep)
  }

  /** `sep.join(parts)` */
  function Join(parts: seq<string>, sep: string): (r: string)
  {
    if parts == [] then []
    else if |parts| == 1 then parts[0]
    else parts[0] + sep + Join(parts[1..], sep)
  }

  /** Splitting and joining with the same separator gives the input back. */
  lemma {:induction false} JoinSplitOn(s: string, sep: string)
    requires |sep| > 0
    ensures Join(SplitOn(s, sep), sep) == s
    decreases |s|
  {
    var i := FindFrom(s, sep, 0);
    if i == -1 {
      assert SplitOn(s, sep) == [s];
    } else {
      var rest := s[i + |sep|..];
      var parts := SplitOn(rest, sep);
      JoinSplitOn(rest, sep);
      var whole := [s[..i]] + parts;
      assert SplitOn(s, sep) == whole;
      assert whole[0] == s[..i] && whole[1..] == parts && |whole| > 1;
      assert Join(whole, sep) == s[..i] + sep + rest;
      assert s[i..i + |sep|] == sep;
      assert s == s[..i] + s[i..i + |sep|] + rest;
    }
  }

  /** Number of occurrences of `c` in `s`. */
  function CountChar(s: string, c: char): nat
  {
    if s == [] then 0 else (if s[0] == c then 1 else 0) + CountChar(s[1..], c)
  }

  lemma {:induction false} CountCharAppend(a: string, b: string, c: char)
    ensures CountChar(a + b, c) == CountChar(a, c) + CountChar(b, c)
  {
    if a == [] {
      assert a + b == b;
    } else {
      assert (a + b)[0] == a[0] && (a + b)[1..] == a[1..] + b;
      CountCharAppend(a[1..], b, c);
    }
  }

  lemma {:induction false} CountCharAbsent(s: string, c: char)
    requires forall j :: 0 <= j < |s| ==> s[j] != c
    ensures CountChar(s, c) == 0
  {
    if s != [] { CountCharAbsent(s[1..], c); }
  }

  /** Splitting on one character gives one more piece than there are separators. */
  lemma {:induction false} SplitOnCharCount(s: string, c: char)
    ensures |SplitOn(s, [c])| == CountChar(s, c) + 1
    decreases |s|
  {
    var i := FindFrom(s, [c], 0);
    if i == -1 {
      forall j | 0 <= j < |s| ensures s[j] != c {
        assert !OccursAt(s, [c], j);
        assert s[j..j + 1] == [s[j]];
      }
      CountCharAbsent(s, c);
    } else {
      var rest := s[i + 1..];
      SplitOnCharCount(rest, c);
      forall j | 0 <= j < i ensures s[..i][j] != c {
        assert !OccursAt(s, [c], j);
        assert s[j..j + 1] == [s[j]];
      }
      CountCharAbsent(s[..i], c);
      assert s == s[..i] + ([c] + rest);
      CountCharAppend(s[..i], [c] + rest, c);
      assert ([c] + rest)[1..] == rest;
    }
  }

  /** No piece of `s.split(c)` contains the separator `c`. */
  lemma {:induction false} SplitOnCharPieces(s: string, c: char)
    ensures forall p :: p in SplitOn(s, [c]) ==> c !in p
    decreases |s|
  {
    var i := FindFrom(s, [c], 0);
    var bound := if i == -1 then |s| else i;
    forall j | 0 <= j < bound ensures s[j] != c {
      assert !OccursAt(s, [c], j);
      assert s[j..j + 1] == [s[j]];
    }
    if i != -1 {
      SplitOnCharPieces(s[i + 1..], c);
    }
  }

  /** `s[..k]` is the text before the first `c` in `s`: no `c` in it, and `k` is the end or a `c`. */
  predicate FirstField(s: string, c: char, k: int)
  {
    0 <= k <= |s| && c !in s[..k] && (k == |s| || s[k] == c)
  }

  /** The first field ends at one place only. */
  lemma FirstFieldUnique(s: string, c: char, k: int, m: int)
    requires FirstField(s, c, k) && FirstField(s, c, m)
    ensures k == m
  {
  }

  /** The first piece of `s.split(c)` is the text before the first `c`. */
  lemma SplitOnFirst(s: string, c: char)
    ensures exists k :: FirstField(s, c, k) && SplitOn(s, [c])[0] == s[..k]
  {
    var i := FindFrom(s, [c], 0);
    var k := if i == -1 then |s| else i;
    forall j | 0 <= j < k ensures s[j] != c {
      assert !OccursAt(s, [c], j);
      assert s[j..j + 1] == [s[j]];
    }
    if i != -1 {
      assert s[i..i + 1] == [c];
    }
    assert FirstField(s, c, k);
  }

  /** `s.split(c)[0]`: the text before the first `c`, or all of `s` without one. */
  function FirstPiece(s: string, c: char): (r: string)
    ensures exists k :: FirstField(s, c, k) && r == s[..k]
  {
    SplitOnFirst(s, c);
    SplitOn(s, [c])[0]
  }

  /** `s.split()`: the maximal runs of non-whitespace characters, in order. */
  function Words(s: string): seq<string>
    decreases |s|
  {
    var t := LStrip(s);
    if t == [] then []
    else
      var n := WordLength(t);
      [t[..n]] + Words(t[n..])
  }

  /** Every piece `s.split()` returns is a non-empty run without whitespace. */
  lemma {:induction false} WordsAreWords(s: string)
    ensures forall k :: 0 <= k < |Words(s)| ==> IsWord(Words(s)[k])
    decreases |s|
  {
    var t := LStrip(s);
    if t != [] {
      var n := WordLength(t);
      var w := t[..n];
      assert IsWord(w) by {
        assert forall k :: 0 <= k < n ==> w[k] == t[k];
      }
      var rest := Words(t[n..]);
      WordsAreWords(t[n..]);
      assert Words(s) == [w] + rest;
      AllWordsCons(w, rest);
    }
  }

  lemma AllWordsCons(w: string, rest: seq<string>)
    requires IsWord(w) && forall k :: 0 <= k < |rest| ==> IsWord(rest[k])
    ensures forall k :: 0 <= k < |[w] + rest| ==> IsWord(([w] + rest)[k])
  {
    forall k | 0 < k < |rest| + 1 ensures ([w] + rest)[k] == rest[k - 1] {
    }
  }

  /** A non-empty string without whitespace. */
  predicate IsWord(w: string)
  {
    w != [] && forall k :: 0 <= k < |w| ==> !IsSpace(w[k])
  }

  /** Length of the run of non-whitespace characters at the start of `t`. */
  function WordLength(t: string): (n: nat)
    ensures n <= |t|
    ensures forall k :: 0 <= k < n ==> !IsSpace(t[k])
    ensures n == |t| || IsSpace(t[n])
    ensures t != [] && !IsSpace(t[0]) ==> n > 0
  {
    if t == [] || IsSpace(t[0]) then 0 else 1 + WordLength(t[1..])
  }

  /** Decimal rendering of a natural number, as Python's `str(n)` or an f-string does. */
  function NatToString(n: nat): (r: string)
    ensures |r| >= 1 && forall k :: 0 <= k < |r| ==> IsDigit(r[k])
    decreases n
  {
    if n < 10 then [DigitChar(n)] else NatToString(n / 10) + [DigitChar(n % 10)]
  }

  function DigitChar(d: nat): (c: char)
    requires d < 10
    ensures IsDigit(c)
  {
    ('0' as int + d) as char
  }

  /** Value of a non-empty string of ASCII digits. */
  function DigitsValue(s: string): nat
    requires forall k :: 0 <= k < |s| ==> IsDigit(s[k])
  {
    if s == [] then 0
    else
      assert IsDigit(s[|s| - 1]);
      DigitsValue(s[..|s| - 1]) * 10 + (s[|s| - 1] as int - '0' as int)
  }

  /** Reading back the rendering of `n` gives `n`: distinct numbers render differently. */
  lemma {:induction false} NatToStringRoundTrip(n: nat)
    ensures DigitsValue(NatToString(n)) == n
    decreases n
  {
    if n >= 10 {
      NatToStringRoundTrip(n / 10);
      var r := NatToString(n);
      assert r[..|r| - 1] == NatToString(n / 10);
    }
  }

  /** Decimal rendering of an integer, with a minus sign when negative. */
  function IntToString(i: int): (r: string)
    ensures |r| >= 1
    ensures i >= 0 ==> r == NatToString(i)
    ensures i < 0 ==> r[0] == '-' && r[1..] == NatToString(-i)
  {
    if i < 0 then "-" + NatToString(-i) else NatToString(i)
  }

  /** `s.rfind(c)`: the last position of `c` in `s`, or -1. */
  function LastIndexOf(s: string, c: char): (r: int)
    ensures -1 <= r < |s|
    ensures r >= 0 ==> s[r] == c
    ensures forall k :: r < k < |s| ==> s[k] != c
  {
    if s == [] then -1
    else if s[|s| - 1] == c then |s| - 1
    else LastIndexOf(s[..|s| - 1], c)
  }

  lemma NatToStringInjective(m: nat, n: nat)
    requires NatToString(m) == NatToString(n)
    ensures m == n
  {
    NatToStringRoundTrip(m);
    NatToStringRoundTrip(n);
  }
}
