/** The JavaScript string operations the digest renderer is built from,
    over strings taken as sequences of characters. */
module Text {

  /** The code points JavaScript's `\s` class and `String.prototype.trim`
      treat as white space: ECMAScript WhiteSpace and LineTerminator. */
  predicate IsSpace(c: char) {
    ('\t' <= c <= '\r') || c == ' ' || c == '\U{00A0}' || c == '\U{1680}' ||
    ('\U{2000}' <= c <= '\U{200A}') || c == '\U{2028}' || c == '\U{2029}' ||
    c == '\U{202F}' || c == '\U{205F}' || c == '\U{3000}' || c == '\U{FEFF}'
  }

  /** `s.substring(0, n)` for a non-negative `n`. */
  function Take(s: string, n: nat): (r: string)
    ensures |r| == if n < |s| then n else |s|
    ensures r == s[..|r|]
  {
    if n < |s| then s[..n] else s
  }

  /** `s.replace(/c/g, rep)`: every occurrence of `c` becomes `rep`. */
  function ReplaceChar(s: string, c: char, rep: string): (r: string)
    ensures c !in rep ==> c !in r
    ensures |rep| == 1 ==> |r| == |s|
    ensures |rep| == 1 ==> forall i :: 0 <= i < |s| ==> r[i] == if s[i] == c then rep[0] else s[i]
  {
    if s == [] then []
    else (if s[0] == c then rep else [s[0]]) + ReplaceChar(s[1..], c, rep)
  }

  /** Replacing a character by itself changes nothing. */
  lemma {:induction false} ReplaceCharBySelf(s: string, c: char)
    ensures ReplaceChar(s, c, [c]) == s
  {
    if s != [] {
      ReplaceCharBySelf(s[1..], c);
      assert s == [s[0]] + s[1..];
    }
  }

  /** Leading white space removed (the first half of `trim`). */
  function TrimStart(s: string): (r: string)
    ensures |r| <= |s|
    ensures r == [] || !IsSpace(r[0])
    ensures forall i :: 0 <= i < |s| - |r| ==> IsSpace(s[i])
  {
    if s != [] && IsSpace(s[0]) then TrimStart(s[1..]) else s
  }

  /** What `TrimStart` keeps is a suffix of its input. */
  lemma {:induction false} TrimStartSuffix(s: string)
    ensures TrimStart(s) == s[|s| - |TrimStart(s)|..]
  {
    if s != [] && IsSpace(s[0]) {
      TrimStartSuffix(s[1..]);
      assert s[1..][|s| - 1 - |TrimStart(s[1..])|..] == s[|s| - |TrimStart(s)|..];
    }
  }

  /** Trailing white space removed (the second half of `trim`). */
  function TrimEnd(s: string): (r: string)
    ensures |r| <= |s| && r == s[..|r|]
    ensures r == [] || !IsSpace(r[|r| - 1])
    ensures forall i :: |r| <= i < |s| ==> IsSpace(s[i])
  {
    if s != [] && IsSpace(s[|s| - 1]) then TrimEnd(s[..|s| - 1]) else s
  }

  /** `String.prototype.trim`: the slice of `s` left once the white space
      before and after it is removed; it neither starts nor ends with white space. */
  function Trim(s: string): (r: string)
    ensures |r| <= |s|
    ensures r == [] || (!IsSpace(r[0]) && !IsSpace(r[|r| - 1]))
    ensures forall c :: c in r ==> c in s
    ensures var k := |s| - |TrimStart(s)|;
      k + |r| <= |s| && r == s[k..k + |r|] &&
      (forall i :: 0 <= i < k ==> IsSpace(s[i])) &&
      (forall i :: k + |r| <= i < |s| ==> IsSpace(s[i]))
  {
    TrimStartSuffix(s);
    var t := TrimStart(s);
    var r := TrimEnd(t);
    var k := |s| - |t|;
    assert forall i :: k + |r| <= i < |s| ==> s[i] == t[i - k];
    r
  }

  /** A sentence terminator of `split(/[。？！\n]/)`. */
  predicate IsTerminator(c: char) {
    c == '。' || c == '？' || c == '！' || c == '\n'
  }

  /** `s.split(/[。？！\n]/)[0]`: the text before the first terminator. */
  function FirstSentence(s: string): (r: string)
    ensures |r| <= |s| && r == s[..|r|]
    ensures forall i :: 0 <= i < |r| ==> !IsTerminator(r[i])
    ensures |r| < |s| ==> IsTerminator(s[|r|])
  {
    if s == [] || IsTerminator(s[0]) then [] else [s[0]] + FirstSentence(s[1..])
  }

  function FirstIndexOf(s: string, c: char): (i: nat)
    requires c in s
    ensures i < |s| && s[i] == c && c !in s[..i]
  {
    if s[0] == c then 0
    else
      var j := FirstIndexOf(s[1..], c);
      assert s[..j + 1] == [s[0]] + s[1..][..j];
      1 + j
  }

  /** No `<` is followed, anywhere later, by a `>`: nothing left that `/<[^>]*>/` matches. */
  ghost predicate NoTagPair(s: string) {
    forall i, j :: 0 <= i < j < |s| && s[i] == '<' ==> s[j] != '>'
  }

  /** `s.replace(/<[^>]*>/g, '')`: scanning left to right, each `<` that has a `>`
      somewhere after it is deleted together with everything up to and including
      the first such `>`. */
  function StripTags(s: string): (r: string)
    ensures |r| <= |s|
    ensures forall c :: c in r ==> c in s
    ensures NoTagPair(r)
    ensures NoTagPair(s) ==> r == s
    decreases |s|
  {
    if s == [] then []
    else if s[0] == '<' && '>' in s[1..] then
      var k := FirstIndexOf(s[1..], '>');
      var rest := s[k + 2..];
      assert s[k + 1] == '>';
      var r := StripTags(rest);
      assert forall c :: c in rest ==> c in s;
      r
    else
      var tail := StripTags(s[1..]);
      assert forall c :: c in s[1..] ==> c in s;
      var r := [s[0]] + tail;
      assert forall j :: 0 < j < |r| ==> r[j] == tail[j - 1];
      assert forall j :: 0 < j < |r| && r[0] == '<' ==> r[j] != '>' by {
        forall j | 0 < j < |r| && r[0] == '<' ensures r[j] != '>' {
          assert r[j] in tail;
        }
      }
      NoTagPairTail(s);
      r
  }

  /** Dropping the first character keeps a text free of tag pairs. */
  lemma NoTagPairTail(s: string)
    requires s != []
    ensures NoTagPair(s) ==> NoTagPair(s[1..])
  {
    if NoTagPair(s) {
      NoTagPairSlice(s, 1, |s|);
    }
  }

  /** Text before the first `<` is kept as it is. */
  lemma {:induction false} StripTagsKeepsText(a: string, b: string)
    requires '<' !in a
    ensures StripTags(a + b) == a + StripTags(b)
    decreases |a|
  {
    if a != [] {
      var s := a + b;
      assert s[0] == a[0] && s[0] != '<';
      assert s[1..] == a[1..] + b;
      assert StripTags(s) == [a[0]] + StripTags(a[1..] + b);
      StripTagsKeepsText(a[1..], b);
      assert a == [a[0]] + a[1..];
    } else {
      assert a + b == b;
    }
  }

  /** The first `c` of `x + [c] + y` is the one after `x` when `x` holds none. */
  lemma {:induction false} FirstIndexAfter(x: string, c: char, y: string)
    requires c !in x
    ensures FirstIndexOf(x + [c] + y, c) == |x|
  {
    if x != [] {
      assert (x + [c] + y)[1..] == x[1..] + [c] + y;
      FirstIndexAfter(x[1..], c, y);
    }
  }

  /** A `<`, the text up to the first `>` after it, and that `>` are deleted together. */
  lemma StripTagsDropsTag(m: string, b: string)
    requires '>' !in m
    ensures StripTags("<" + m + ">" + b) == StripTags(b)
  {
    var s := "<" + m + ">" + b;
    assert s[1..] == m + ['>'] + b;
    FirstIndexAfter(m, '>', b);
    assert s[|m| + 2..] == b;
  }

  /** The text with every white-space character removed. */
  function NonSpace(s: string): string {
    if s == [] then [] else (if IsSpace(s[0]) then [] else [s[0]]) + NonSpace(s[1..])
  }

  /** Removing leading white space does not change the non-space text. */
  lemma {:induction false} NonSpaceTrimStart(s: string)
    ensures NonSpace(TrimStart(s)) == NonSpace(s)
  {
    if s != [] && IsSpace(s[0]) {
      NonSpaceTrimStart(s[1..]);
    }
  }

  /** `s.replace(/\s+/g, ' ')`: every maximal run of white space becomes one
      space. The result keeps the non-space text of `s` and has no two white-space
      characters in a row, and its only white space is the plain space. */
  function CollapseSpaces(s: string): (r: string)
    ensures |r| <= |s|
    ensures s != [] ==> r != [] && r[0] == (if IsSpace(s[0]) then ' ' else s[0])
    ensures forall c :: c in r ==> c == ' ' || c in s
    ensures NonSpace(r) == NonSpace(s)
    ensures forall i :: 0 <= i < |r| && IsSpace(r[i]) ==> r[i] == ' '
    ensures forall i :: 0 < i < |r| && IsSpace(r[i]) ==> !IsSpace(r[i - 1])
    decreases |s|
  {
    if s == [] then []
    else if IsSpace(s[0]) then
      TrimStartSuffix(s[1..]);
      var t := TrimStart(s[1..]);
      var tail := CollapseSpaces(t);
      assert forall c :: c in t ==> c in s;
      NonSpaceTrimStart(s[1..]);
      var r := [' '] + tail;
      assert r[1..] == tail;
      assert forall i :: 0 < i < |r| ==> r[i] == tail[i - 1];
      r
    else
      var tail := CollapseSpaces(s[1..]);
      assert forall c :: c in s[1..] ==> c in s;
      var r := [s[0]] + tail;
      assert r[1..] == tail;
      assert forall i :: 0 < i < |r| ==> r[i] == tail[i - 1];
      r
  }

  /** Leading white space followed by a non-space character (or nothing) is removed entirely. */
  lemma {:induction false} TrimStartRun(w: string, b: string)
    requires forall i :: 0 <= i < |w| ==> IsSpace(w[i])
    requires b == [] || !IsSpace(b[0])
    ensures TrimStart(w + b) == b
  {
    if w != [] {
      assert (w + b)[1..] == w[1..] + b;
      TrimStartRun(w[1..], b);
    } else {
      assert w + b == b;
    }
  }

  /** A whole run of white space, however long, becomes exactly one space. */
  lemma CollapseRun(w: string, b: string)
    requires w != [] && forall i :: 0 <= i < |w| ==> IsSpace(w[i])
    requires b == [] || !IsSpace(b[0])
    ensures CollapseSpaces(w + b) == [' '] + CollapseSpaces(b)
  {
    assert (w + b)[1..] == w[1..] + b;
    TrimStartRun(w[1..], b);
  }

  /** A non-space character is kept, and collapsing goes on after it. */
  lemma CollapseKeeps(c: char, b: string)
    requires !IsSpace(c)
    ensures CollapseSpaces([c] + b) == [c] + CollapseSpaces(b)
  {
    assert ([c] + b)[1..] == b;
  }

  lemma NoTagPairSlice(s: string, i: nat, j: nat)
    requires i <= j <= |s| && NoTagPair(s)
    ensures NoTagPair(s[i..j])
  {
    var t := s[i..j];
    forall a, b | 0 <= a < b < |t| && t[a] == '<' ensures t[b] != '>' {
      assert t[a] == s[i + a] && t[b] == s[i + b];
    }
  }

  lemma NoTagPairTrim(s: string)
    requires NoTagPair(s)
    ensures NoTagPair(Trim(s))
  {
    TrimStartSuffix(s);
    var t := TrimStart(s);
    NoTagPairSlice(s, |s| - |t|, |s|);
    var r := TrimEnd(t);
    NoTagPairSlice(t, 0, |r|);
  }

  /** Replacing a character other than `<` and `>` by another such character
      creates no new tag pair. */
  lemma NoTagPairReplace(s: string, c: char, d: char)
    requires NoTagPair(s) && c != '<' && c != '>' && d != '<' && d != '>'
    ensures NoTagPair(ReplaceChar(s, c, [d]))
  {
    var r := ReplaceChar(s, c, [d]);
    forall a, b | 0 <= a < b < |r| && r[a] == '<' ensures r[b] != '>' {
      assert s[a] == '<';
    }
  }

  lemma {:induction false} NoTagPairCollapse(s: string)
    requires NoTagPair(s)
    ensures NoTagPair(CollapseSpaces(s))
    decreases |s|
  {
    if s == [] {
    } else if IsSpace(s[0]) {
      TrimStartSuffix(s[1..]);
      var t := TrimStart(s[1..]);
      NoTagPairSlice(s, |s| - |t|, |s|);
      assert t == s[|s| - |t|..];
      NoTagPairCollapse(t);
    } else {
      NoTagPairSlice(s, 1, |s|);
      NoTagPairCollapse(s[1..]);
      var tail := CollapseSpaces(s[1..]);
      var r := [s[0]] + tail;
      forall a, b | 0 <= a < b < |r| && r[a] == '<' ensures r[b] != '>' {
        assert r[b] == tail[b - 1];
        if a == 0 {
          assert r[b] in tail;
        } else {
          assert r[a] == tail[a - 1];
        }
      }
    }
  }

  // Decimal numerals

  function Digit(d: nat): (c: char)
    requires d < 10
    ensures '0' <= c <= '9'
  {
    (48 + d) as char
  }

  /** `String(n)` for a non-negative integer: its decimal numeral. */
  function NatToString(n: nat): (r: string)
    ensures |r| >= 1
    ensures forall i :: 0 <= i < |r| ==> '0' <= r[i] <= '9'
    ensures |r| > 1 ==> r[0] != '0'
    ensures n < 10 <==> |r| == 1
    decreases n
  {
    if n < 10 then [Digit(n)] else NatToString(n / 10) + [Digit(n % 10)]
  }

  /** A numeral of two or more digits is one digit longer than the numeral of its tens. */
  lemma NumeralStep(n: nat)
    requires n >= 10
    ensures |NatToString(n)| == |NatToString(n / 10)| + 1
  {
  }

  /** The value a string of decimal digits denotes. */
  function DecimalValue(s: string): nat
    requires forall i :: 0 <= i < |s| ==> '0' <= s[i] <= '9'
  {
    if s == [] then 0
    else DecimalValue(s[..|s| - 1]) * 10 + (s[|s| - 1] as int - 48)
  }

  /** The numeral of `n` denotes `n`. */
  lemma {:induction false} NatToStringRoundTrip(n: nat)
    ensures DecimalValue(NatToString(n)) == n
    decreases n
  {
    if n >= 10 {
      NatToStringRoundTrip(n / 10);
      var s := NatToString(n);
      assert s[..|s| - 1] == NatToString(n / 10);
    }
  }

  /** `s.padStart(2, '0')`. */
  function PadStart2(s: string): (r: string)
    ensures |r| == if |s| < 2 then 2 else |s|
    ensures r[|r| - |s|..] == s
    ensures forall i :: 0 <= i < |r| - |s| ==> r[i] == '0'
  {
    if |s| == 0 then "00" else if |s| == 1 then "0" + s else s
  }

  /** `String(n).padStart(2, '0')`. */
  function TwoDigits(n: nat): string {
    PadStart2(NatToString(n))
  }

  /** Below 100, `TwoDigits` is the tens digit followed by the units digit. */
  lemma TwoDigitsBelowHundred(n: nat)
    requires n < 100
    ensures TwoDigits(n) == [Digit(n / 10), Digit(n % 10)]
  {
    if n >= 10 {
      assert NatToString(n / 10) == [Digit(n / 10)];
      assert NatToString(n) == [Digit(n / 10), Digit(n % 10)];
    } else {
      assert NatToString(n) == [Digit(n)];
      assert n / 10 == 0 && n % 10 == n;
    }
  }
}
