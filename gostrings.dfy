/** Models of the Go library functions the wrapper relies on: `strings.TrimSpace`,
    `strings.Split`, `strings.Join`, `strings.Index` (for a single character) and
    `strconv.Itoa`. Strings are sequences of characters; the separators involved
    (',', ':' and ' ') are ASCII, so byte and character positions agree on them. */
module GoStrings {

  /** `unicode.IsSpace`: the ASCII white space characters, U+0085, U+00A0 and the
      Unicode space separators. */
  predicate IsSpace(c: char) {
    var n := c as int;
    (9 <= n <= 13) || n == 32 || n == 0x85 || n == 0xA0 || n == 0x1680
    || (0x2000 <= n <= 0x200A) || n == 0x2028 || n == 0x2029 || n == 0x202F
    || n == 0x205F || n == 0x3000
  }

  /** The index of the first character of `s` at or after `i` that is not white
      space, or `|s|`. */
  function SkipSpace(s: string, i: nat): (k: nat)
    requires i <= |s|
    ensures i <= k <= |s|
    decreases |s| - i
  {
    if i == |s| || !IsSpace(s[i]) then i else SkipSpace(s, i + 1)
  }

  /** The length of `s[..n]` without its trailing white space. */
  function KeepNonSpace(s: string, n: nat): (k: nat)
    requires n <= |s|
    ensures k <= n
  {
    if n == 0 || !IsSpace(s[n - 1]) then n else KeepNonSpace(s, n - 1)
  }

  /** `strings.TrimSpace`. */
  function TrimSpace(s: string): string
  {
    var start := SkipSpace(s, 0);
    var t := s[start..];
    t[..KeepNonSpace(t, |t|)]
  }

  lemma {:induction false} SkipSpaceSpec(s: string, i: nat)
    requires i <= |s|
    ensures var k := SkipSpace(s, i);
      (k == |s| || !IsSpace(s[k])) && forall j :: i <= j < k ==> IsSpace(s[j])
    decreases |s| - i
  {
    if i < |s| && IsSpace(s[i]) {
      SkipSpaceSpec(s, i + 1);
    }
  }

  lemma {:induction false} KeepNonSpaceSpec(s: string, n: nat)
    requires n <= |s|
    ensures var k := KeepNonSpace(s, n);
      (k == 0 || !IsSpace(s[k - 1])) && forall j :: k <= j < n ==> IsSpace(s[j])
  {
    if n > 0 && IsSpace(s[n - 1]) {
      KeepNonSpaceSpec(s, n - 1);
    }
  }

  /** `TrimSpace` removes white space at both ends and nothing else: the result
      is an infix `s[k..k + |r|]` that neither starts nor ends with white space,
      and everything outside it is white space. */
  lemma TrimSpaceSpec(s: string)
    ensures var k, r := SkipSpace(s, 0), TrimSpace(s);
      k + |r| <= |s| && r == s[k..k + |r|]
      && (r == [] || (!IsSpace(r[0]) && !IsSpace(r[|r| - 1])))
      && (forall i :: 0 <= i < k ==> IsSpace(s[i]))
      && (forall i :: k + |r| <= i < |s| ==> IsSpace(s[i]))
  {
    var k := SkipSpace(s, 0);
    var t := s[k..];
    var m := KeepNonSpace(t, |t|);
    SkipSpaceSpec(s, 0);
    KeepNonSpaceSpec(t, |t|);
    forall i | k + m <= i < |s| ensures IsSpace(s[i]) {
      assert s[i] == t[i - k];
    }
    if m > 0 {
      assert t[0] == s[k];
    }
  }

  /** Number of occurrences of `c` in `s`. */
  function Count(s: string, c: char): (n: nat)
    ensures n <= |s|
    ensures n == 0 <==> c !in s
  {
    if s == [] then 0 else (if s[0] == c then 1 else 0) + Count(s[1..], c)
  }

  /** `strings.Split(s, string(sep))`: the pieces between the separators, in order;
      never empty, and `[""]` for the empty string. */
  function Split(s: string, sep: char): (parts: seq<string>)
    ensures |parts| >= 1
  {
    SplitFrom(s, sep, 0, 0)
  }

  /** The pieces of `s[start..]`, when the piece that starts at `start` is
      already known to extend at least to `i`. */
  function SplitFrom(s: string, sep: char, start: nat, i: nat): (parts: seq<string>)
    requires start <= i <= |s|
    ensures |parts| >= 1
    decreases |s| - i
  {
    if i == |s| then [s[start..]]
    else if s[i] == sep then [s[start..i]] + SplitFrom(s, sep, i + 1, i + 1)
    else SplitFrom(s, sep, start, i + 1)
  }

  /** `strings.Join(parts, string(sep))`. */
  function Join(parts: seq<string>, sep: char): string
  {
    if parts == [] then ""
    else if |parts| == 1 then parts[0]
    else parts[0] + [sep] + Join(parts[1..], sep)
  }

  lemma {:induction false} CountSplit(s: string, c: char, i: nat)
    requires i < |s|
    ensures Count(s[i..], c) == (if s[i] == c then 1 else 0) + Count(s[i + 1..], c)
  {
    assert s[i..][1..] == s[i + 1..];
  }

  lemma {:induction false} SplitFromPieces(s: string, sep: char, start: nat, i: nat)
    requires start <= i <= |s| && sep !in s[start..i]
    ensures var parts := SplitFrom(s, sep, start, i);
      |parts| == Count(s[i..], sep) + 1 && forall k :: 0 <= k < |parts| ==> sep !in parts[k]
    decreases |s| - i
  {
    if i < |s| {
      CountSplit(s, sep, i);
      if s[i] == sep {
        SplitFromPieces(s, sep, i + 1, i + 1);
      } else {
        assert s[start..i + 1] == s[start..i] + [s[i]];
        SplitFromPieces(s, sep, start, i + 1);
      }
    }
  }

  /** The pieces of a split hold no separator, and there is one more piece than
      there are separators. */
  lemma SplitPieces(s: string, sep: char)
    ensures forall k :: 0 <= k < |Split(s, sep)| ==> sep !in Split(s, sep)[k]
    ensures |Split(s, sep)| == Count(s, sep) + 1
  {
    assert s[0..] == s;
    SplitFromPieces(s, sep, 0, 0);
  }

  lemma {:induction false} JoinSplitFrom(s: string, sep: char, start: nat, i: nat)
    requires start <= i <= |s|
    ensures Join(SplitFrom(s, sep, start, i), sep) == s[start..]
    decreases |s| - i
  {
    if i < |s| {
      if s[i] == sep {
        JoinSplitFrom(s, sep, i + 1, i + 1);
        var rest := SplitFrom(s, sep, i + 1, i + 1);
        assert ([s[start..i]] + rest)[1..] == rest;
        assert s[start..] == s[start..i] + [sep] + s[i + 1..];
      } else {
        JoinSplitFrom(s, sep, start, i + 1);
      }
    }
  }

  /** Joining the pieces of a split with the same separator gives the string back. */
  lemma JoinSplit(s: string, sep: char)
    ensures Join(Split(s, sep), sep) == s
  {
    JoinSplitFrom(s, sep, 0, 0);
    assert s[0..] == s;
  }

  lemma {:induction false} SplitFromNoSep(s: string, sep: char, start: nat, i: nat)
    requires start <= i <= |s| && sep !in s[i..]
    ensures SplitFrom(s, sep, start, i) == [s[start..]]
    decreases |s| - i
  {
    if i < |s| {
      assert s[i] == s[i..][0];
      assert s[i + 1..] == s[i..][1..];
      SplitFromNoSep(s, sep, start, i + 1);
    }
  }

  /** Splitting only looks at the text from `start` on. */
  lemma {:induction false} SplitFromShift(p: string, b: string, sep: char, start: nat, i: nat)
    requires start <= i <= |b|
    ensures SplitFrom(p + b, sep, |p| + start, |p| + i) == SplitFrom(b, sep, start, i)
    decreases |b| - i
  {
    var s := p + b;
    if i == |b| {
      assert s[|p| + start..] == b[start..];
    } else {
      assert s[|p| + i] == b[i];
      if b[i] == sep {
        SplitFromShift(p, b, sep, i + 1, i + 1);
        assert s[|p| + start..|p| + i] == b[start..i];
      } else {
        SplitFromShift(p, b, sep, start, i + 1);
      }
    }
  }

  lemma {:induction false} SplitFromFirst(a: string, b: string, sep: char, i: nat)
    requires i <= |a| && sep !in a
    ensures SplitFrom(a + [sep] + b, sep, 0, i) == [a] + SplitFrom(b, sep, 0, 0)
    decreases |a| - i
  {
    var s := a + [sep] + b;
    if i == |a| {
      assert s[i] == sep && s[0..i] == a;
      assert s == (a + [sep]) + b;
      SplitFromShift(a + [sep], b, sep, 0, 0);
    } else {
      assert s[i] == a[i];
      SplitFromFirst(a, b, sep, i + 1);
    }
  }

  /** Splitting a join of separator-free pieces gives the pieces back. */
  lemma {:induction false} SplitJoin(parts: seq<string>, sep: char)
    requires |parts| >= 1
    requires forall k :: 0 <= k < |parts| ==> sep !in parts[k]
    ensures Split(Join(parts, sep), sep) == parts
  {
    if |parts| == 1 {
      SplitFromNoSep(parts[0], sep, 0, 0);
      assert parts[0][0..] == parts[0];
    } else {
      SplitJoin(parts[1..], sep);
      SplitFromFirst(parts[0], Join(parts[1..], sep), sep, 0);
      assert [parts[0]] + parts[1..] == parts;
    }
  }

  lemma AppendAssoc<T>(a: seq<T>, b: seq<T>, c: seq<T>)
    ensures a + b + c == a + (b + c)
  {
  }

  /** Appending a piece to a join adds a separator only after a non-empty list. */
  lemma {:induction false} JoinSnoc(parts: seq<string>, x: string, sep: char)
    ensures Join(parts + [x], sep) == if parts == [] then x else Join(parts, sep) + [sep] + x
  {
    if |parts| > 1 {
      JoinSnoc(parts[1..], x, sep);
      assert (parts + [x])[1..] == parts[1..] + [x];
    } else if |parts| == 1 {
      assert (parts + [x])[1..] == [x];
    }
  }

  /** A join of non-empty pieces starts with the first piece's first character
      and ends with the last piece's last character. */
  lemma {:induction false} JoinEnds(parts: seq<string>, sep: char)
    requires |parts| >= 1 && forall k :: 0 <= k < |parts| ==> parts[k] != ""
    ensures var j := Join(parts, sep);
      |j| >= 1 && j[0] == parts[0][0] && j[|j| - 1] == parts[|parts| - 1][|parts[|parts| - 1]| - 1]
  {
    if |parts| > 1 {
      JoinEnds(parts[1..], sep);
    }
  }

  /** The position of the first `c` at or after `k`, or -1. */
  function IndexFrom(s: string, c: char, k: nat): (i: int)
    requires k <= |s|
    ensures i == -1 || k <= i < |s|
    ensures i == -1 <==> c !in s[k..]
    ensures i >= 0 ==> s[i] == c && c !in s[k..i]
    decreases |s| - k
  {
    if k == |s| then -1
    else
      assert s[k..] == [s[k]] + s[k + 1..];
      if s[k] == c then k
      else
        var j := IndexFrom(s, c, k + 1);
        assert j >= 0 ==> s[k..j] == [s[k]] + s[k + 1..j];
        j
  }

  /** `strings.Index(s, string(c))`: the position of the first `c`, or -1. */
  function IndexOf(s: string, c: char): (i: int)
    ensures -1 <= i < |s|
    ensures i == -1 <==> c !in s
    ensures i >= 0 ==> s[i] == c && c !in s[..i]
  {
    assert s[0..] == s;
    IndexFrom(s, c, 0)
  }

  function DigitChar(d: nat): (c: char)
    requires d < 10
  {
    ('0' as int + d) as char
  }

  function DigitValue(c: char): (d: int)
  {
    if '0' <= c <= '9' then c as int - '0' as int else -1
  }

  predicate IsDigits(s: string) {
    forall i :: 0 <= i < |s| ==> '0' <= s[i] <= '9'
  }

  /** Decimal digits of a natural number, most significant first. */
  function NatDigits(n: nat): (s: string)
    ensures |s| >= 1 && IsDigits(s)
    ensures s[0] == '0' ==> n == 0
  {
    if n < 10 then [DigitChar(n)] else NatDigits(n / 10) + [DigitChar(n % 10)]
  }

  /** `strconv.Itoa`: decimal, with a leading '-' for negative numbers. */
  function Itoa(n: int): (s: string)
    ensures |s| >= 1 && ' ' !in s && ',' !in s && '0' <= s[|s| - 1] <= '9'
  {
    var d := NatDigits(if n < 0 then -n else n);
    assert ' ' !in d && ',' !in d by {
      assert forall i :: 0 <= i < |d| ==> '0' <= d[i] <= '9';
    }
    if n < 0 then "-" + d else d
  }

  /** Value of a string of decimal digits. */
  function DigitsValue(s: string): (n: nat)
    requires IsDigits(s)
  {
    if s == [] then 0 else DigitsValue(s[..|s| - 1]) * 10 + DigitValue(s[|s| - 1])
  }

  /** `strconv.Atoi` on what `Itoa` produces. */
  function Atoi(s: string): (n: int)
    requires |s| >= 1 && (IsDigits(s) || (s[0] == '-' && IsDigits(s[1..])))
  {
    if s[0] == '-' then -(DigitsValue(s[1..]) as int) else DigitsValue(s)
  }

  lemma {:induction false} NatDigitsValue(n: nat)
    ensures DigitsValue(NatDigits(n)) == n
  {
    if n >= 10 {
      NatDigitsValue(n / 10);
      var s := NatDigits(n / 10) + [DigitChar(n % 10)];
      assert s[..|s| - 1] == NatDigits(n / 10);
      assert DigitValue(s[|s| - 1]) == n % 10;
    }
  }

  /** `Itoa` loses nothing: reading the digits back gives the number. */
  lemma ItoaRoundTrip(n: int)
    ensures var s := Itoa(n);
      (IsDigits(s) || (s[0] == '-' && IsDigits(s[1..]))) && Atoi(s) == n
  {
    var d := NatDigits(if n < 0 then -n else n);
    NatDigitsValue(if n < 0 then -n else n);
    if n < 0 {
      var s := "-" + d;
      assert Itoa(n) == s && s[0] == '-' && s[1..] == d;
    } else {
      assert Itoa(n) == d;
    }
  }
}
