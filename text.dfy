/** String operations the filter panel and the dog card rely on. */
module Text {

  /** The two character classes the filter inputs keep: `[0-9]` and `[0-9\n]`. */
  datatype CharClass = Digits | DigitsOrNewline

  predicate InClass(c: char, cls: CharClass)
  {
    ('0' <= c <= '9') || (cls == DigitsOrNewline && c == '\n')
  }

  predicate AllIn(s: string, cls: CharClass)
  {
    forall i :: 0 <= i < |s| ==> InClass(s[i], cls)
  }

  /** Index of the first character outside `cls`, or `|s|` when there is none. */
  function FirstOutside(s: string, cls: CharClass): (i: nat)
    ensures i <= |s|
    ensures AllIn(s[..i], cls)
    ensures i < |s| ==> !InClass(s[i], cls)
  {
    if s == [] || !InClass(s[0], cls) then 0
    else
      var k := FirstOutside(s[1..], cls);
      assert s[..k + 1] == [s[0]] + s[1..][..k];
      k + 1
  }

  /**
   * `s.replace(/[^0-9]/, "")` (and likewise for `[^0-9\n]`): the pattern has no `g`
   * flag, so only the first character outside the class is dropped.
   */
  function ReplaceFirstOutside(s: string, cls: CharClass): (r: string)
    ensures AllIn(s, cls) ==> r == s
    ensures !AllIn(s, cls) ==> |r| == |s| - 1
    ensures !AllIn(s, cls) ==>
      exists i :: 0 <= i < |s| && !InClass(s[i], cls) && AllIn(s[..i], cls) && r == s[..i] + s[i + 1..]
  {
    var i := FirstOutside(s, cls);
    if i == |s| then
      assert s[..i] == s;
      s
    else
      s[..i] + s[i + 1..]
  }

  /** How many characters of `s` lie outside `cls`. */
  function CountOutside(s: string, cls: CharClass): nat
  {
    if s == [] then 0 else (if InClass(s[0], cls) then 0 else 1) + CountOutside(s[1..], cls)
  }

  lemma {:induction false} CountOutsideAppend(a: string, b: string, cls: CharClass)
    ensures CountOutside(a + b, cls) == CountOutside(a, cls) + CountOutside(b, cls)
  {
    if a == [] {
      assert a + b == b;
    } else {
      assert (a + b)[1..] == a[1..] + b;
      CountOutsideAppend(a[1..], b, cls);
    }
  }

  lemma {:induction false} CountOutsideZero(s: string, cls: CharClass)
    ensures CountOutside(s, cls) == 0 <==> AllIn(s, cls)
  {
    if s != [] {
      CountOutsideZero(s[1..], cls);
      assert AllIn(s, cls) <==> InClass(s[0], cls) && AllIn(s[1..], cls) by {
        if InClass(s[0], cls) && AllIn(s[1..], cls) {
          forall i | 0 <= i < |s| ensures InClass(s[i], cls) {
            if i > 0 { assert s[i] == s[1..][i - 1]; }
          }
        }
      }
    }
  }

  /** The replacement removes exactly one offending character, so any later ones survive. */
  lemma {:induction false} ReplaceRemovesOne(s: string, cls: CharClass)
    ensures CountOutside(ReplaceFirstOutside(s, cls), cls) ==
            if CountOutside(s, cls) == 0 then 0 else CountOutside(s, cls) - 1
  {
    CountOutsideZero(s, cls);
    var i := FirstOutside(s, cls);
    if i < |s| {
      assert s == s[..i] + ([s[i]] + s[i + 1..]);
      CountOutsideAppend(s[..i], [s[i]] + s[i + 1..], cls);
      CountOutsideAppend([s[i]], s[i + 1..], cls);
      CountOutsideAppend(s[..i], s[i + 1..], cls);
      CountOutsideZero(s[..i], cls);
      assert [s[i]][1..] == [];
    }
  }

  /** `s.split(sep)` in JavaScript: always at least one part; empty parts are kept. */
  function Split(s: string, sep: char): (parts: seq<string>)
    ensures |parts| >= 1
    ensures forall k :: 0 <= k < |parts| ==> sep !in parts[k]
  {
    if s == [] then [[]]
    else
      var rest := Split(s[1..], sep);
      if s[0] == sep then [[]] + rest else [[s[0]] + rest[0]] + rest[1..]
  }

  /** `parts.join(sep)` in JavaScript; the empty array joins to the empty string. */
  function Join(parts: seq<string>, sep: char): (s: string)
    ensures parts == [] ==> s == []
    ensures |parts| >= 1 ==> parts[0] <= s
    ensures |parts| >= 2 ==> |s| > |parts[0]| && s[|parts[0]|] == sep
  {
    if parts == [] then []
    else if |parts| == 1 then parts[0]
    else parts[0] + [sep] + Join(parts[1..], sep)
  }

  /** Joining the parts of a split gives back the original text. */
  lemma {:induction false} JoinSplit(s: string, sep: char)
    ensures Join(Split(s, sep), sep) == s
  {
    if s != [] {
      var rest := Split(s[1..], sep);
      JoinSplit(s[1..], sep);
      if s[0] == sep {
        assert ([[]] + rest)[1..] == rest;
      } else {
        var parts := [[s[0]] + rest[0]] + rest[1..];
        if |rest| == 1 {
          assert parts == [[s[0]] + rest[0]];
        } else {
          assert parts[1..] == rest[1..];
          assert Join(rest, sep) == rest[0] + [sep] + Join(rest[1..], sep);
          assert Join(parts, sep) == [s[0]] + (rest[0] + [sep] + Join(rest[1..], sep));
        }
        assert s == [s[0]] + s[1..];
      }
    }
  }

  lemma {:induction false} SplitNoSep(p: string, sep: char)
    requires sep !in p
    ensures Split(p, sep) == [p]
  {
    if p != [] {
      SplitNoSep(p[1..], sep);
      assert [p[0]] + p[1..] == p;
    }
  }

  lemma {:induction false} SplitAfterPart(p: string, s: string, sep: char)
    requires sep !in p
    ensures Split(p + [sep] + s, sep) == [p] + Split(s, sep)
  {
    var t := p + [sep] + s;
    if p == [] {
      assert t[1..] == s;
    } else {
      assert t[1..] == p[1..] + [sep] + s;
      SplitAfterPart(p[1..], s, sep);
      assert [p[0]] + p[1..] == p;
    }
  }

  /** Splitting a join of separator-free parts gives back the parts. */
  lemma {:induction false} SplitJoin(parts: seq<string>, sep: char)
    requires |parts| >= 1
    requires forall k :: 0 <= k < |parts| ==> sep !in parts[k]
    ensures Split(Join(parts, sep), sep) == parts
  {
    if |parts| == 1 {
      SplitNoSep(parts[0], sep);
    } else {
      SplitJoin(parts[1..], sep);
      SplitAfterPart(parts[0], Join(parts[1..], sep), sep);
      assert [parts[0]] + parts[1..] == parts;
    }
  }

  /** Joining digit-only lines with newlines gives text of digits and newlines. */
  lemma {:induction false} JoinDigitLines(lines: seq<string>)
    requires forall k :: 0 <= k < |lines| ==> AllIn(lines[k], Digits)
    ensures AllIn(Join(lines, '\n'), DigitsOrNewline)
  {
    if |lines| > 1 {
      JoinDigitLines(lines[1..]);
      var head, tail := lines[0], Join(lines[1..], '\n');
      var j := head + ['\n'] + tail;
      forall i | 0 <= i < |j| ensures InClass(j[i], DigitsOrNewline) {
        if i < |head| {
          assert j[i] == head[i];
        } else if i > |head| {
          assert j[i] == tail[i - |head| - 1];
        }
      }
    }
  }

  function DigitChar(d: nat): (c: char)
    requires d < 10
    ensures InClass(c, Digits) && c as int - '0' as int == d
  {
    ('0' as int + d) as char
  }

  /** The base-10 digits of a non-negative integer, with no leading zeros. */
  function Decimal(n: nat): (s: string)
    ensures |s| >= 1 && AllIn(s, Digits)
    ensures s[0] == '0' <==> n == 0
    ensures n == 0 ==> s == "0"
    ensures s[0] != '-'
  {
    if n < 10 then [DigitChar(n)] else Decimal(n / 10) + [DigitChar(n % 10)]
  }

  /** The value of a string of decimal digits. */
  function DigitsValue(s: string): nat
    requires AllIn(s, Digits)
  {
    if s == [] then 0
    else
      assert AllIn(s[..|s| - 1], Digits);
      10 * DigitsValue(s[..|s| - 1]) + (s[|s| - 1] as int - '0' as int)
  }

  /** Reading a rendered number back gives the number. */
  lemma {:induction false} DecimalRoundTrip(n: nat)
    ensures DigitsValue(Decimal(n)) == n
  {
    if n >= 10 {
      var q, d := n / 10, n % 10;
      DecimalRoundTrip(q);
      var s := Decimal(n);
      assert s == Decimal(q) + [DigitChar(d)];
      assert s[..|s| - 1] == Decimal(q);
      assert s[|s| - 1] as int - '0' as int == d;
      assert DigitsValue(s) == 10 * q + d;
    }
  }

  /** The decimal rendering of an integer: a minus sign before the digits of a negative one. */
  function IntText(n: int): (s: string)
    ensures |s| >= 1
  {
    if n < 0 then "-" + Decimal(-n) else Decimal(n)
  }

  lemma DecimalInjective(a: nat, b: nat)
    requires Decimal(a) == Decimal(b)
    ensures a == b
  {
    DecimalRoundTrip(a);
    DecimalRoundTrip(b);
  }

  lemma MinusPrefix(d: string)
    ensures ("-" + d)[0] == '-' && ("-" + d)[1..] == d
  {
  }

  lemma SignOfText(n: int)
    ensures IntText(n)[0] == '-' <==> n < 0
  {
    if n < 0 {
      MinusPrefix(Decimal(-n));
    }
  }

  /** Different integers render differently. */
  lemma IntTextInjective(a: int, b: int)
    requires IntText(a) == IntText(b)
    ensures a == b
  {
    if a < 0 && b < 0 {
      MinusPrefix(Decimal(-a));
      MinusPrefix(Decimal(-b));
      DecimalInjective(-a, -b);
    } else if a >= 0 && b >= 0 {
      DecimalInjective(a, b);
    } else {
      SignOfText(a);
      SignOfText(b);
    }
  }
}
