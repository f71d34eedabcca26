/** String helpers with JavaScript's meaning: `split`, `join`, `trim`,
    `String(n)` for integers, `parseInt` and ASCII `toLowerCase`. */
module Text {
  import opened Wrappers

  // ---------------------------------------------------------------------
  // split / join

  /** `s.split(sep)` for a one-character separator: always at least one part. */
  function Split(s: string, sep: char): (parts: seq<string>)
    ensures |parts| >= 1
    decreases |s|
  {
    if |s| == 0 then [""]
    else
      var rest := Split(s[1..], sep);
      if s[0] == sep then [""] + rest
      else [[s[0]] + rest[0]] + rest[1..]
  }

  /** No part of a split holds the separator. */
  lemma {:induction false} SplitPartsFree(s: string, sep: char)
    ensures forall k :: 0 <= k < |Split(s, sep)| ==> sep !in Split(s, sep)[k]
    decreases |s|
  {
    if |s| > 0 {
      SplitPartsFree(s[1..], sep);
    }
  }

  /** `parts.join(sep)`. */
  function Join(parts: seq<string>, sep: char): string
    decreases |parts|
  {
    if |parts| == 0 then ""
    else if |parts| == 1 then parts[0]
    else parts[0] + [sep] + Join(parts[1..], sep)
  }

  /** `parts.join('')`. */
  function Concat(parts: seq<string>): string
    decreases |parts|
  {
    if |parts| == 0 then "" else parts[0] + Concat(parts[1..])
  }

  lemma {:induction false} SplitNoSep(s: string, sep: char)
    requires sep !in s
    ensures Split(s, sep) == [s]
    decreases |s|
  {
    if |s| > 0 {
      assert sep !in s[1..];
      SplitNoSep(s[1..], sep);
      assert [s[0]] + s[1..] == s;
    }
  }

  /** Splitting at a separator splits the two sides independently. */
  lemma {:induction false} SplitAppend(a: string, sep: char, b: string)
    ensures Split(a + [sep] + b, sep) == Split(a, sep) + Split(b, sep)
    decreases |a|
  {
    if |a| == 0 {
      assert a + [sep] + b == [sep] + b;
      assert ([sep] + b)[1..] == b;
    } else {
      assert (a + [sep] + b)[1..] == a[1..] + [sep] + b;
      SplitAppend(a[1..], sep, b);
    }
  }

  /** Splitting a join of separator-free parts gives the parts back. */
  lemma {:induction false} SplitJoin(parts: seq<string>, sep: char)
    requires |parts| >= 1
    requires forall k :: 0 <= k < |parts| ==> sep !in parts[k]
    ensures Split(Join(parts, sep), sep) == parts
    decreases |parts|
  {
    if |parts| == 1 {
      SplitNoSep(parts[0], sep);
    } else {
      SplitJoin(parts[1..], sep);
      SplitAppend(parts[0], sep, Join(parts[1..], sep));
      SplitNoSep(parts[0], sep);
      assert [parts[0]] + parts[1..] == parts;
    }
  }

  /** Each body followed by a line end. */
  function Terminated(bodies: seq<string>): seq<string>
  {
    seq(|bodies|, k requires 0 <= k < |bodies| => bodies[k] + "\n")
  }

  /** The first terminated line, then the rest. */
  lemma TerminatedCons(bodies: seq<string>)
    requires |bodies| > 0
    ensures Concat(Terminated(bodies)) == bodies[0] + "\n" + Concat(Terminated(bodies[1..]))
  {
    assert Terminated(bodies)[1..] == Terminated(bodies[1..]);
  }

  /** Splitting lines that each end in a newline gives their bodies and one empty tail. */
  lemma {:induction false} SplitTerminated(bodies: seq<string>)
    requires forall k :: 0 <= k < |bodies| ==> '\n' !in bodies[k]
    ensures Split(Concat(Terminated(bodies)), '\n') == bodies + [""]
    decreases |bodies|
  {
    if |bodies| > 0 {
      var rest := Concat(Terminated(bodies[1..]));
      assert Split(rest, '\n') == bodies[1..] + [""] by {
        SplitTerminated(bodies[1..]);
      }
      assert Split(bodies[0] + "\n" + rest, '\n') == [bodies[0]] + Split(rest, '\n') by {
        SplitAppend(bodies[0], '\n', rest);
        SplitNoSep(bodies[0], '\n');
      }
      TerminatedCons(bodies);
      assert [bodies[0]] + (bodies[1..] + [""]) == bodies + [""];
    }
  }

  /** Joining the parts of a split gives the string back. */
  lemma {:induction false} JoinSplit(s: string, sep: char)
    ensures Join(Split(s, sep), sep) == s
    decreases |s|
  {
    if |s| > 0 {
      JoinSplit(s[1..], sep);
      var rest := Split(s[1..], sep);
      if s[0] == sep {
        assert ([""] + rest)[1..] == rest;
      } else {
        var parts := [[s[0]] + rest[0]] + rest[1..];
        if |rest| > 1 {
          assert parts[1..] == rest[1..];
          assert Join(rest, sep) == rest[0] + [sep] + Join(rest[1..], sep);
        }
      }
      assert [s[0]] + s[1..] == s;
    }
  }

  // ---------------------------------------------------------------------
  // whitespace and trim

  /** ECMAScript WhiteSpace and LineTerminator characters, which `trim` removes. */
  predicate IsSpace(c: char)
  {
    || c == '\t' || c == '\n' || c == '\U{000B}' || c == '\U{000C}' || c == '\r'
    || c == ' ' || c == '\U{00A0}' || c == '\U{1680}'
    || ('\U{2000}' <= c <= '\U{200A}')
    || c == '\U{2028}' || c == '\U{2029}' || c == '\U{202F}' || c == '\U{205F}'
    || c == '\U{3000}' || c == '\U{FEFF}'
  }

  /** Leading whitespace removed: a suffix of `s` whose dropped part is all whitespace. */
  function TrimStart(s: string): (r: string)
    ensures |r| <= |s| && r == s[|s| - |r|..]
    ensures |r| > 0 ==> !IsSpace(r[0])
    ensures forall k :: 0 <= k < |s| - |r| ==> IsSpace(s[k])
    decreases |s|
  {
    if |s| > 0 && IsSpace(s[0]) then TrimStart(s[1..]) else s
  }

  /** Trailing whitespace removed: a prefix of `s` whose dropped part is all whitespace. */
  function TrimEnd(s: string): (r: string)
    ensures |r| <= |s| && r == s[..|r|]
    ensures |r| > 0 ==> !IsSpace(r[|r| - 1])
    ensures forall k :: |r| <= k < |s| ==> IsSpace(s[k])
    decreases |s|
  {
    if |s| > 0 && IsSpace(s[|s| - 1]) then TrimEnd(s[..|s| - 1]) else s
  }

  /** `s.trim()`. */
  function Trim(s: string): string
  {
    TrimEnd(TrimStart(s))
  }

  /** Every character is whitespace. */
  predicate Blank(s: string)
  {
    forall k :: 0 <= k < |s| ==> IsSpace(s[k])
  }

  /** `s.trim() === ''` exactly when `s` is blank. */
  lemma TrimEmptyIffBlank(s: string)
    ensures Trim(s) == "" <==> Blank(s)
  {
    var t := TrimStart(s);
    if Trim(s) == "" {
      assert |t| == 0;
    } else {
      var r := Trim(s);
      assert !IsSpace(r[0]);
      assert r[0] == t[0] == s[|s| - |t|];
    }
  }

  /** The `j`-th value of a split line, or `None` (undefined) past its end. */
  function ValueAt(values: seq<string>, j: nat): Option<string>
  {
    if j < |values| then Some(values[j]) else None
  }

  /** The lines whose trimmed text is not empty (see `TrimEmptyIffBlank`), in order. */
  function NonBlank(lines: seq<string>): seq<string>
    decreases |lines|
  {
    if |lines| == 0 then []
    else (if !Blank(lines[0]) then [lines[0]] else []) + NonBlank(lines[1..])
  }

  /** The kept lines are lines of the input, none of them blank, and every
      line that is not blank is kept (in order: see `NonBlankAppend`). */
  lemma {:induction false} NonBlankKeeps(lines: seq<string>)
    ensures |NonBlank(lines)| <= |lines|
    ensures forall k :: 0 <= k < |NonBlank(lines)| ==> !Blank(NonBlank(lines)[k]) && NonBlank(lines)[k] in lines
    ensures forall k :: 0 <= k < |lines| && !Blank(lines[k]) ==> lines[k] in NonBlank(lines)
    decreases |lines|
  {
    if |lines| > 0 {
      NonBlankKeeps(lines[1..]);
      var rest := NonBlank(lines[1..]);
      assert NonBlank(lines) == (if !Blank(lines[0]) then [lines[0]] else []) + rest;
      forall k | 0 <= k < |lines| && !Blank(lines[k])
        ensures lines[k] in NonBlank(lines)
      {
        if k > 0 {
          assert lines[k] == lines[1..][k - 1];
        }
      }
      assert forall k :: 0 <= k < |rest| ==> rest[k] in lines by {
        forall k | 0 <= k < |rest|
          ensures rest[k] in lines
        {
          assert rest[k] in lines[1..];
        }
      }
    }
  }

  lemma {:induction false} NonBlankAppend(a: seq<string>, b: seq<string>)
    ensures NonBlank(a + b) == NonBlank(a) + NonBlank(b)
    decreases |a|
  {
    if |a| > 0 {
      assert (a + b)[1..] == a[1..] + b;
      NonBlankAppend(a[1..], b);
    } else {
      assert a + b == b;
    }
  }

  lemma {:induction false} NonBlankAll(lines: seq<string>)
    requires forall k :: 0 <= k < |lines| ==> !Blank(lines[k])
    ensures NonBlank(lines) == lines
    decreases |lines|
  {
    if |lines| > 0 {
      NonBlankAll(lines[1..]);
      assert [lines[0]] + lines[1..] == lines;
    }
  }


  // ---------------------------------------------------------------------
  // decimal text of integers

  predicate IsDigit(c: char)
  {
    '0' <= c <= '9'
  }

  predicate AllDigits(s: string)
  {
    forall k :: 0 <= k < |s| ==> IsDigit(s[k])
  }

  function DigitChar(d: nat): (c: char)
    requires d < 10
    ensures IsDigit(c) && c as int - '0' as int == d
  {
    ('0' as int + d) as char
  }

  /** Value of a decimal digit string. */
  function DecimalValue(s: string): nat
    requires AllDigits(s)
    decreases |s|
  {
    if |s| == 0 then 0
    else DecimalValue(s[..|s| - 1]) * 10 + (s[|s| - 1] as int - '0' as int)
  }

  /** `String(n)` for a natural number: decimal digits, no leading zero. */
  function NatText(n: nat): (s: string)
    ensures |s| >= 1 && AllDigits(s)
    ensures |s| > 1 ==> s[0] != '0'
    decreases n
  {
    if n < 10 then [DigitChar(n)] else NatText(n / 10) + [DigitChar(n % 10)]
  }

  /** `String(n)` for an integer. */
  function IntText(n: int): string
  {
    if n < 0 then "-" + NatText(-n) else NatText(n)
  }

  lemma {:induction false} NatTextValue(n: nat)
    ensures DecimalValue(NatText(n)) == n
    decreases n
  {
    if n >= 10 {
      NatTextValue(n / 10);
      var s := NatText(n);
      assert s[..|s| - 1] == NatText(n / 10);
    }
  }

  /** Different natural numbers print differently. */
  lemma NatTextInjective(a: nat, b: nat)
    requires NatText(a) == NatText(b)
    ensures a == b
  {
    NatTextValue(a);
    NatTextValue(b);
  }

  /** Different numbers print differently. */
  lemma IntTextInjective(m: int, n: int)
    requires IntText(m) == IntText(n)
    ensures m == n
  {
    if m < 0 && n < 0 {
      assert NatText(-m) == IntText(m)[1..] == NatText(-n);
      NatTextInjective(-m, -n);
    } else if m >= 0 && n >= 0 {
      NatTextInjective(m, n);
    }
  }

  // ---------------------------------------------------------------------
  // parseInt

  /** Value of `c` as a digit in `radix` (10 or 16), if it is one. */
  function DigitIn(c: char, radix: nat): Option<nat>
  {
    if '0' <= c <= '9' && (c as int - '0' as int) < radix then Some(c as int - '0' as int)
    else if radix == 16 && 'a' <= c <= 'f' then Some(c as int - 'a' as int + 10)
    else if radix == 16 && 'A' <= c <= 'F' then Some(c as int - 'A' as int + 10)
    else None
  }

  /** The longest prefix of `s` made of digits in `radix`. */
  function DigitPrefix(s: string, radix: nat): (p: string)
    ensures |p| <= |s| && p == s[..|p|]
    ensures forall k :: 0 <= k < |p| ==> DigitIn(p[k], radix).Some?
    ensures |p| < |s| ==> DigitIn(s[|p|], radix).None?
    decreases |s|
  {
    if |s| > 0 && DigitIn(s[0], radix).Some? then [s[0]] + DigitPrefix(s[1..], radix) else ""
  }

  function RadixValue(s: string, radix: nat): nat
    requires forall k :: 0 <= k < |s| ==> DigitIn(s[k], radix).Some?
    decreases |s|
  {
    if |s| == 0 then 0
    else RadixValue(s[..|s| - 1], radix) * radix + DigitIn(s[|s| - 1], radix).value
  }

  /** The unsigned part of `parseInt`: an optional `0x` prefix, then the
      longest digit prefix; `None` when there is no digit. */
  function ParseUnsigned(u: string): Option<nat>
  {
    var hex := |u| >= 2 && u[0] == '0' && (u[1] == 'x' || u[1] == 'X');
    var radix := if hex then 16 else 10;
    var d := DigitPrefix(if hex then u[2..] else u, radix);
    if |d| == 0 then None else Some(RadixValue(d, radix))
  }

  /** JavaScript's `parseInt(s)` with no radix: leading whitespace, an optional
      sign, then the unsigned part; `None` is NaN. */
  function ParseInt(s: string): Option<int>
  {
    var t := TrimStart(s);
    if |t| > 0 && t[0] == '-' then Negated(ParseUnsigned(t[1..]))
    else if |t| > 0 && t[0] == '+' then AsInt(ParseUnsigned(t[1..]))
    else AsInt(ParseUnsigned(t))
  }

  function AsInt(v: Option<nat>): Option<int>
  {
    match v
    case None => None
    case Some(x) => Some(x as int)
  }

  function Negated(v: Option<nat>): Option<int>
  {
    match v
    case None => None
    case Some(x) => Some(-(x as int))
  }

  lemma {:induction false} DecimalIsRadix10(s: string)
    requires AllDigits(s)
    ensures forall k :: 0 <= k < |s| ==> DigitIn(s[k], 10).Some?
    ensures RadixValue(s, 10) == DecimalValue(s)
    decreases |s|
  {
    if |s| > 0 {
      DecimalIsRadix10(s[..|s| - 1]);
    }
  }

  lemma {:induction false} DigitPrefixAll(s: string)
    requires AllDigits(s)
    ensures DigitPrefix(s, 10) == s
    decreases |s|
  {
    if |s| > 0 {
      DigitPrefixAll(s[1..]);
      assert [s[0]] + s[1..] == s;
    }
  }

  lemma ParseUnsignedText(m: nat)
    ensures ParseUnsigned(NatText(m)) == Some(m)
  {
    var d := NatText(m);
    DigitPrefixAll(d);
    DecimalIsRadix10(d);
    NatTextValue(m);
    assert |d| >= 2 ==> d[0] != '0';
  }

  /** `parseInt(String(n)) === n` for every integer `n`. */
  lemma ParseIntText(n: int)
    ensures ParseInt(IntText(n)) == Some(n)
  {
    var m: nat := if n < 0 then -n else n;
    ParseUnsignedText(m);
    var d := NatText(m);
    if n < 0 {
      assert IntText(n) == "-" + d;
      ParseIntSigned(d, m);
    } else {
      assert IntText(n) == d;
      ParseIntPlain(d, m);
    }
  }

  lemma ParseIntSigned(d: string, m: nat)
    requires |d| > 0 && IsDigit(d[0]) && ParseUnsigned(d) == Some(m)
    ensures ParseInt("-" + d) == Some(-(m as int))
  {
    var s := "-" + d;
    assert TrimStart(s) == s by {
      assert !IsSpace(s[0]);
    }
    assert s[1..] == d;
  }

  lemma ParseIntPlain(d: string, m: nat)
    requires |d| > 0 && IsDigit(d[0]) && ParseUnsigned(d) == Some(m)
    ensures ParseInt(d) == Some(m)
  {
    assert TrimStart(d) == d by {
      assert !IsSpace(d[0]);
    }
  }

  // ---------------------------------------------------------------------
  // case and characters

  /** `toLowerCase` restricted to the ASCII letters. */
  function LowerChar(c: char): char
  {
    if 'A' <= c <= 'Z' then (c as int + 32) as char else c
  }

  /** `s.toLowerCase()` on ASCII: no capital is left, and every character
      that is not a capital is kept where it was. */
  function ToLower(s: string): (r: string)
    ensures |r| == |s|
    ensures forall k :: 0 <= k < |r| ==> !('A' <= r[k] <= 'Z')
    ensures forall k :: 0 <= k < |s| && !('A' <= s[k] <= 'Z') ==> r[k] == s[k]
    ensures forall k :: 0 <= k < |s| && 'A' <= s[k] <= 'Z' ==> r[k] as int == s[k] as int + 32
  {
    seq(|s|, k requires 0 <= k < |s| => LowerChar(s[k]))
  }

  /** `a` and `b` are the same letter up to ASCII case: equal, or one is the
      capital whose small letter (32 code points on) is the other. */
  predicate SameIgnoringCase(a: char, b: char)
  {
    || a == b
    || ('A' <= a <= 'Z' && b as int == a as int + 32)
    || ('A' <= b <= 'Z' && a as int == b as int + 32)
  }

  lemma LowerCharSame(a: char, b: char)
    ensures LowerChar(a) == LowerChar(b) <==> SameIgnoringCase(a, b)
  {
  }

  /** Two strings lowercase alike exactly when they have the same length and
      agree letter by letter up to ASCII case. */
  lemma ToLowerSame(s: string, t: string)
    ensures ToLower(s) == ToLower(t) <==> |s| == |t| && forall k :: 0 <= k < |s| ==> SameIgnoringCase(s[k], t[k])
  {
    if ToLower(s) == ToLower(t) {
      forall k | 0 <= k < |s|
        ensures SameIgnoringCase(s[k], t[k])
      {
        assert ToLower(s)[k] == ToLower(t)[k];
        LowerCharSame(s[k], t[k]);
      }
    }
    if |s| == |t| && forall k :: 0 <= k < |s| ==> SameIgnoringCase(s[k], t[k]) {
      forall k | 0 <= k < |s|
        ensures ToLower(s)[k] == ToLower(t)[k]
      {
        LowerCharSame(s[k], t[k]);
      }
    }
  }

  /** `s.includes(sub)`. */
  predicate Contains(s: string, sub: string)
    decreases |s|
  {
    |sub| <= |s| && (s[..|sub|] == sub || Contains(s[1..], sub))
  }

  /** A text cannot contain a word whose first character it lacks. */
  lemma {:induction false} NotContainsFirst(s: string, sub: string)
    requires |sub| > 0 && sub[0] !in s
    ensures !Contains(s, sub)
    decreases |s|
  {
    if |sub| <= |s| {
      assert s[..|sub|][0] == s[0];
      NotContainsFirst(s[1..], sub);
    }
  }

  /** `s` with every character of `drop` removed. */
  function Without(s: string, drop: set<char>): string
    decreases |s|
  {
    if |s| == 0 then ""
    else (if s[0] in drop then "" else [s[0]]) + Without(s[1..], drop)
  }

  lemma {:induction false} WithoutAppend(a: string, b: string, drop: set<char>)
    ensures Without(a + b, drop) == Without(a, drop) + Without(b, drop)
    decreases |a|
  {
    if |a| > 0 {
      assert (a + b)[1..] == a[1..] + b;
      WithoutAppend(a[1..], b, drop);
    } else {
      assert a + b == b;
    }
  }

  lemma {:induction false} WithoutNone(s: string, drop: set<char>)
    requires forall c :: c in s ==> c !in drop
    ensures Without(s, drop) == s
    decreases |s|
  {
    if |s| > 0 {
      WithoutNone(s[1..], drop);
      assert [s[0]] + s[1..] == s;
    }
  }

  /** Removing characters keeps only characters of `s` that are not dropped. */
  lemma {:induction false} WithoutKeeps(s: string, drop: set<char>)
    ensures forall c :: c in Without(s, drop) ==> c in s && c !in drop
    decreases |s|
  {
    if |s| > 0 {
      WithoutKeeps(s[1..], drop);
    }
  }
}
