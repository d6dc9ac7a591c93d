/** The parts of Go's `strings` and `fmt` packages that the lessons rely on,
    over byte strings (a `char` stands for one byte). */
module Strings {

  /** strings.Split with a one-byte separator: the text between consecutive
      separators, left to right. There is always at least one piece. */
  function Split(s: string, sep: char): (r: seq<string>)
    ensures |r| >= 1
    ensures forall i :: 0 <= i < |r| ==> sep !in r[i]
  {
    if |s| == 0 then [""]
    else
      var rest := Split(s[1..], sep);
      if s[0] == sep then [""] + rest
      else [[s[0]] + rest[0]] + rest[1..]
  }

  /** strings.Join with a one-byte separator. */
  function Join(parts: seq<string>, sep: char): string
  {
    if |parts| == 0 then ""
    else if |parts| == 1 then parts[0]
    else parts[0] + [sep] + Join(parts[1..], sep)
  }

  /** strings.Count for a one-byte pattern. */
  function CountChar(s: string, c: char): nat
  {
    if |s| == 0 then 0 else (if s[0] == c then 1 else 0) + CountChar(s[1..], c)
  }

  /** Joining the pieces of a split gives back the original text. */
  lemma {:induction false} JoinSplit(s: string, sep: char)
    ensures Join(Split(s, sep), sep) == s
  {
    if |s| > 0 {
      var rest := Split(s[1..], sep);
      JoinSplit(s[1..], sep);
      if s[0] == sep {
        assert Split(s, sep) == [""] + rest;
        assert ([""] + rest)[1..] == rest;
      } else {
        var r := Split(s, sep);
        assert r == [[s[0]] + rest[0]] + rest[1..];
        if |rest| > 1 {
          assert r[1..] == rest[1..];
          assert Join(rest, sep) == rest[0] + [sep] + Join(rest[1..], sep);
        }
      }
    }
  }

  /** A split yields one more piece than there are separators. */
  lemma {:induction false} SplitCount(s: string, sep: char)
    ensures |Split(s, sep)| == CountChar(s, sep) + 1
  {
    if |s| > 0 {
      SplitCount(s[1..], sep);
    }
  }

  lemma {:induction false} SplitWithoutSeparator(x: string, sep: char)
    requires sep !in x
    ensures Split(x, sep) == [x]
  {
    if |x| > 0 {
      SplitWithoutSeparator(x[1..], sep);
      assert [x[0]] + x[1..] == x;
    }
  }

  lemma {:induction false} SplitAfterPiece(x: string, sep: char, y: string)
    requires sep !in x
    ensures Split(x + [sep] + y, sep) == [x] + Split(y, sep)
  {
    var s := x + [sep] + y;
    if |x| == 0 {
      assert s[1..] == y;
    } else {
      assert s[1..] == x[1..] + [sep] + y;
      SplitAfterPiece(x[1..], sep, y);
      assert [x[0]] + x[1..] == x;
    }
  }

  /** Splitting a join of separator-free pieces gives back the pieces. */
  lemma {:induction false} SplitJoin(parts: seq<string>, sep: char)
    requires |parts| >= 1
    requires forall i :: 0 <= i < |parts| ==> sep !in parts[i]
    ensures Split(Join(parts, sep), sep) == parts
  {
    if |parts| == 1 {
      SplitWithoutSeparator(parts[0], sep);
    } else {
      SplitJoin(parts[1..], sep);
      SplitAfterPiece(parts[0], sep, Join(parts[1..], sep));
      assert [parts[0]] + parts[1..] == parts;
    }
  }

  /** strings.HasPrefix. */
  predicate HasPrefix(s: string, prefix: string)
  {
    |prefix| <= |s| && s[..|prefix|] == prefix
  }

  /** strings.HasSuffix. */
  predicate HasSuffix(s: string, suffix: string)
  {
    |suffix| <= |s| && s[|s| - |suffix|..] == suffix
  }

  /** strings.Contains: the pattern occurs at some offset. */
  predicate Contains(s: string, pattern: string)
    decreases |s|
  {
    HasPrefix(s, pattern) || (|s| > 0 && Contains(s[1..], pattern))
  }

  /** Contains, read as an occurrence at a definite offset. */
  lemma {:induction false} ContainsAt(s: string, pattern: string, k: nat)
    requires k + |pattern| <= |s| && s[k..k + |pattern|] == pattern
    ensures Contains(s, pattern)
  {
    if k > 0 {
      assert s[1..][k - 1..k - 1 + |pattern|] == s[k..k + |pattern|];
      ContainsAt(s[1..], pattern, k - 1);
    }
  }

  /** An occurrence survives text put in front of the string. */
  lemma {:induction false} ContainsAfter(a: string, b: string, pattern: string)
    requires Contains(b, pattern)
    ensures Contains(a + b, pattern)
  {
    if |a| == 0 {
      assert a + b == b;
    } else {
      assert (a + b)[1..] == a[1..] + b;
      ContainsAfter(a[1..], b, pattern);
    }
  }

  /** An occurrence survives text put after the string. */
  lemma {:induction false} ContainsBefore(b: string, c: string, pattern: string)
    requires Contains(b, pattern)
    ensures Contains(b + c, pattern)
  {
    if HasPrefix(b, pattern) {
      assert (b + c)[..|pattern|] == b[..|pattern|];
    } else {
      assert (b + c)[1..] == b[1..] + c;
      ContainsBefore(b[1..], c, pattern);
    }
  }

  /** Every part occurs in the joined text. */
  lemma {:induction false} JoinContainsEach(parts: seq<string>, sep: char, k: nat)
    requires k < |parts|
    ensures Contains(Join(parts, sep), parts[k])
  {
    var first := parts[0];
    if k == 0 {
      if |parts| > 1 {
        assert Join(parts, sep) == first + ([sep] + Join(parts[1..], sep));
      }
      assert Join(parts, sep)[..|first|] == first;
    } else {
      JoinContainsEach(parts[1..], sep, k - 1);
      ContainsAfter(first + [sep], Join(parts[1..], sep), parts[k]);
    }
  }

  /** A one-byte pattern is contained exactly when the byte occurs. */
  lemma {:induction false} ContainsChar(s: string, c: char)
    ensures Contains(s, [c]) <==> c in s
  {
    if |s| > 0 {
      ContainsChar(s[1..], c);
      assert s == [s[0]] + s[1..];
    }
  }

  /** strings.TrimSuffix for a one-byte suffix. */
  function TrimSuffix(s: string, c: char): (r: string)
    ensures HasSuffix(s, [c]) ==> r + [c] == s
    ensures !HasSuffix(s, [c]) ==> r == s
  {
    if |s| > 0 && s[|s| - 1] == c then s[..|s| - 1] else s
  }

  /** strings.ReplaceAll: one left-to-right pass that replaces
      non-overlapping occurrences of a non-empty pattern. */
  function ReplaceAll(s: string, pattern: string, replacement: string): string
    requires |pattern| > 0
    decreases |s|
  {
    if |s| < |pattern| then s
    else if s[..|pattern|] == pattern then replacement + ReplaceAll(s[|pattern|..], pattern, replacement)
    else [s[0]] + ReplaceAll(s[1..], pattern, replacement)
  }

  /** Two bytes put in front one at a time. */
  lemma ConsPair(a: char, b: char, t: string)
    ensures [a] + ([b] + t) == [a, b] + t
  {
    assert [a, b] == [a] + [b];
  }

  /** A match at the front is replaced and the pass continues after it. */
  lemma ReplaceAllMatch(pattern: string, t: string, replacement: string)
    requires |pattern| > 0
    ensures ReplaceAll(pattern + t, pattern, replacement) == replacement + ReplaceAll(t, pattern, replacement)
  {
    assert (pattern + t)[..|pattern|] == pattern;
    assert (pattern + t)[|pattern|..] == t;
  }

  /** Without a match of a two-byte pattern at the front, the first byte
      is kept. */
  lemma ReplaceAllSkipPair(x: char, t: string, a: char, b: char, replacement: string)
    requires x != a || |t| == 0 || t[0] != b
    ensures ReplaceAll([x] + t, [a, b], replacement) == [x] + ReplaceAll(t, [a, b], replacement)
  {
    assert ([x] + t)[1..] == t;
    if |t| == 0 {
      assert ReplaceAll(t, [a, b], replacement) == t;
    } else {
      assert ([x] + t)[..2] == [x, t[0]];
    }
  }

  predicate IsDigit(c: char) { '0' <= c <= '9' }

  predicate IsUpperOrDigit(c: char) { 'A' <= c <= 'Z' || IsDigit(c) }

  predicate AllDigits(s: string) { forall i :: 0 <= i < |s| ==> IsDigit(s[i]) }

  /** The regular expression ^\d{8}$. */
  predicate IsEightDigits(s: string) { |s| == 8 && AllDigits(s) }

  /** Digits, optionally followed by a dot and more digits. */
  predicate IsUnsignedDecimal(s: string)
  {
    var parts := Split(s, '.');
    (|parts| == 1 || |parts| == 2) && forall i :: 0 <= i < |parts| ==> |parts[i]| > 0 && AllDigits(parts[i])
  }

  /** The regular expression ^-?\d+(\.\d+)?$. */
  predicate IsNumber(s: string)
  {
    if |s| > 0 && s[0] == '-' then IsUnsignedDecimal(s[1..]) else IsUnsignedDecimal(s)
  }

  /** Go's byte-wise `<` on strings. */
  predicate Less(a: string, b: string)
    decreases |a|
  {
    if |a| == 0 then |b| > 0
    else if |b| == 0 then false
    else if a[0] != b[0] then a[0] < b[0]
    else Less(a[1..], b[1..])
  }

  function DigitChar(d: nat): char
    requires d < 10
  {
    '0' + d as char
  }

  function DigitValue(c: char): nat
    requires IsDigit(c)
  {
    (c - '0') as nat
  }

  /** The decimal text of a natural number, most significant digit first. */
  function NatToString(n: nat): (r: string)
    ensures |r| >= 1 && AllDigits(r)
  {
    if n < 10 then [DigitChar(n)] else NatToString(n / 10) + [DigitChar(n % 10)]
  }

  /** fmt.Sprintf("%d", n) and strconv.Itoa. */
  function IntToString(n: int): string
  {
    if n < 0 then "-" + NatToString(-n) else NatToString(n)
  }

  /** The value of a string of decimal digits. */
  function ParseDigits(s: string): nat
    requires AllDigits(s)
  {
    if |s| == 0 then 0 else 10 * ParseDigits(s[..|s| - 1]) + DigitValue(s[|s| - 1])
  }

  /** Reading back the decimal text of a number gives the number. */
  lemma {:induction false} ParseNatToString(n: nat)
    ensures ParseDigits(NatToString(n)) == n
  {
    var r := NatToString(n);
    if n >= 10 {
      ParseNatToString(n / 10);
      assert r[..|r| - 1] == NatToString(n / 10);
    }
  }

  /** Different numbers have different decimal texts. */
  lemma NatToStringInjective(a: nat, b: nat)
    requires a != b
    ensures NatToString(a) != NatToString(b)
  {
    ParseNatToString(a);
    ParseNatToString(b);
  }

  /** Different keys built as prefix + decimal number are different strings. */
  lemma NumberedKeysDistinct(prefix: string, a: nat, b: nat)
    requires a != b
    ensures prefix + NatToString(a) != prefix + NatToString(b)
  {
    NatToStringInjective(a, b);
    assert (prefix + NatToString(a))[|prefix|..] == NatToString(a);
    assert (prefix + NatToString(b))[|prefix|..] == NatToString(b);
  }

  /** For two ASCII digits, the byte-wise range check on a month is the
      numeric check 1 <= month <= 12. */
  lemma MonthCheckNumeric(month: string)
    requires |month| == 2 && AllDigits(month)
    ensures !(Less(month, "01") || Less("12", month)) <==> 1 <= ParseDigits(month) <= 12
  {
    TwoDigitValue("01");
    TwoDigitValue("12");
    LessTwoDigits(month, "01");
    LessTwoDigits("12", month);
  }

  lemma TwoDigitValue(s: string)
    requires |s| == 2 && AllDigits(s)
    ensures ParseDigits(s) == 10 * DigitValue(s[0]) + DigitValue(s[1])
  {
    assert s[..1][..0] == [];
    assert s[..1] == [s[0]];
    assert ParseDigits(s[..1]) == DigitValue(s[0]);
  }

  /** On two ASCII digits, byte-wise order is numeric order. */
  lemma LessTwoDigits(a: string, b: string)
    requires |a| == 2 && AllDigits(a) && |b| == 2 && AllDigits(b)
    ensures Less(a, b) <==> ParseDigits(a) < ParseDigits(b)
  {
    TwoDigitValue(a);
    TwoDigitValue(b);
    assert Less(a, b) <==> a[0] < b[0] || (a[0] == b[0] && Less(a[1..], b[1..]));
    assert Less(a[1..], b[1..]) <==> a[1] < b[1] by {
      assert a[1..][1..] == [] && b[1..][1..] == [];
    }
  }
}
