/**
 * The JavaScript string built-ins the palette codec relies on, with their ECMAScript
 * meaning: `trim`, `split(/\r?\n/)`, `split(/\s+/)`, `parseInt(s, radix)`,
 * `Number.prototype.toString(radix)` and `padStart`. Strings are sequences of Unicode scalar
 * values (`char`s), not UTF-16 code units; numbers are exact integers.
 */
module JsText {
  import opened Wrappers

  /** The characters `trim` removes and `\s` matches: ECMAScript WhiteSpace and LineTerminator. */
  predicate IsSpace(ch: char)
  {
    ch == '\t' || ch == '\n' || ch == '\U{B}' || ch == '\U{C}' || ch == '\r' || ch == ' ' ||
    ch == '\U{A0}' || ch == '\U{1680}' || ('\U{2000}' <= ch <= '\U{200A}') ||
    ch == '\U{2028}' || ch == '\U{2029}' || ch == '\U{202F}' || ch == '\U{205F}' ||
    ch == '\U{3000}' || ch == '\U{FEFF}'
  }

  predicate NoSpace(s: string)
  {
    forall i :: 0 <= i < |s| ==> !IsSpace(s[i])
  }

  function Spaces(k: nat): (s: string)
    ensures |s| == k && forall i :: 0 <= i < k ==> s[i] == ' '
  {
    if k == 0 then [] else Spaces(k - 1) + [' ']
  }

  // ---------------------------------------------------------------------------------------
  // trim
  // ---------------------------------------------------------------------------------------

  /** The length of the leading run of white space. */
  function LeadingSpaces(s: string): (k: nat)
    ensures k <= |s|
    ensures forall i :: 0 <= i < k ==> IsSpace(s[i])
    ensures k < |s| ==> !IsSpace(s[k])
  {
    if |s| > 0 && IsSpace(s[0]) then 1 + LeadingSpaces(s[1..]) else 0
  }

  /** The length of s without its trailing run of white space. */
  function TrailingStart(s: string): (k: nat)
    ensures k <= |s|
    ensures forall i :: k <= i < |s| ==> IsSpace(s[i])
    ensures k > 0 ==> !IsSpace(s[k - 1])
  {
    if |s| > 0 && IsSpace(s[|s| - 1]) then TrailingStart(s[..|s| - 1]) else |s|
  }

  /** `s.trim()`: the part of s between its leading and its trailing white space. */
  function Trim(s: string): (t: string)
    ensures |t| > 0 ==> !IsSpace(t[0]) && !IsSpace(t[|t| - 1])
    ensures forall ch :: ch in t ==> ch in s
    ensures NoSpace(s) ==> t == s
  {
    var rest := s[LeadingSpaces(s)..];
    rest[..TrailingStart(rest)]
  }

  /** Leading spaces before a character other than white space are exactly the leading run. */
  lemma {:induction false} LeadingSpacesOf(a: nat, m: string)
    requires |m| > 0 && !IsSpace(m[0])
    ensures LeadingSpaces(Spaces(a) + m) == a
  {
    var s := Spaces(a) + m;
    if a > 0 {
      assert s[0] == ' ';
      assert s[1..] == Spaces(a - 1) + m;
      LeadingSpacesOf(a - 1, m);
    } else {
      assert s[0] == m[0];
    }
  }

  /** Trailing spaces after a character other than white space are exactly the trailing run. */
  lemma {:induction false} TrailingStartOf(m: string, b: nat)
    requires |m| > 0 && !IsSpace(m[|m| - 1])
    ensures TrailingStart(m + Spaces(b)) == |m|
  {
    var s := m + Spaces(b);
    if b > 0 {
      assert s[|s| - 1] == ' ';
      assert s[..|s| - 1] == m + Spaces(b - 1);
      TrailingStartOf(m, b - 1);
    } else {
      assert s == m;
    }
  }

  /** Trimming removes exactly the white space around a word-bounded middle. */
  lemma TrimAround(a: nat, m: string, b: nat)
    requires |m| > 0 && !IsSpace(m[0]) && !IsSpace(m[|m| - 1])
    ensures Trim(Spaces(a) + m + Spaces(b)) == m
  {
    var s := Spaces(a) + m + Spaces(b);
    assert s == Spaces(a) + (m + Spaces(b));
    assert (m + Spaces(b))[0] == m[0];
    LeadingSpacesOf(a, m + Spaces(b));
    assert s[a..] == m + Spaces(b);
    TrailingStartOf(m, b);
    assert (m + Spaces(b))[..|m|] == m;
  }

  // ---------------------------------------------------------------------------------------
  // split
  // ---------------------------------------------------------------------------------------

  /** The index of the first line feed, or |s| when there is none. */
  function LineEnd(s: string): (i: nat)
    ensures i <= |s|
    ensures '\n' !in s[..i]
    ensures i < |s| ==> s[i] == '\n'
  {
    if |s| == 0 || s[0] == '\n' then 0 else 1 + LineEnd(s[1..])
  }

  /** A line that was followed by "\r\n" loses its '\r'. */
  function DropCR(s: string): string
  {
    if |s| > 0 && s[|s| - 1] == '\r' then s[..|s| - 1] else s
  }

  /** `s.split(/\r?\n/)`: the pieces between line feeds, each of them but the last without
      the carriage return that preceded its line feed. */
  function Lines(s: string): (ls: seq<string>)
    ensures |ls| >= 1
    decreases |s|
  {
    var i := LineEnd(s);
    if i == |s| then [s] else [DropCR(s[..i])] + Lines(s[i + 1..])
  }

  /** In a string whose first line feed follows `a`, the line ends after `a`. */
  lemma {:induction false} LineEndAfter(a: string, rest: string)
    requires '\n' !in a
    ensures LineEnd(a + "\n" + rest) == |a|
  {
    var s := a + "\n" + rest;
    if |a| > 0 {
      assert a[0] in a;
      assert s[1..] == a[1..] + "\n" + rest;
      assert forall ch :: ch in a[1..] ==> ch in a;
      LineEndAfter(a[1..], rest);
    }
  }

  /** Without a line feed, the line runs to the end. */
  lemma {:induction false} LineEndNone(s: string)
    requires '\n' !in s
    ensures LineEnd(s) == |s|
  {
    if |s| > 0 {
      assert s[0] in s;
      assert forall ch :: ch in s[1..] ==> ch in s;
      LineEndNone(s[1..]);
    }
  }

  /** A line ended by a line feed is split off as the first piece. */
  lemma LinesCons(a: string, rest: string)
    requires '\n' !in a
    ensures Lines(a + "\n" + rest) == [DropCR(a)] + Lines(rest)
  {
    var s := a + "\n" + rest;
    LineEndAfter(a, rest);
    assert s[..|a|] == a;
    assert s[|a| + 1..] == rest;
  }

  /** A string without line feeds is one line. */
  lemma LinesSingle(s: string)
    requires '\n' !in s
    ensures Lines(s) == [s]
  {
    LineEndNone(s);
  }

  /** The length of the leading run of characters other than white space. */
  function WordLen(s: string): (k: nat)
    ensures k <= |s|
    ensures forall i :: 0 <= i < k ==> !IsSpace(s[i])
    ensures k < |s| ==> IsSpace(s[k])
  {
    if |s| > 0 && !IsSpace(s[0]) then 1 + WordLen(s[1..]) else 0
  }

  /** The maximal runs of characters other than white space, in order. On a trimmed, non-empty
      string this is `s.split(/\s+/)`. */
  function Words(s: string): (ws: seq<string>)
    ensures forall i :: 0 <= i < |ws| ==> |ws[i]| > 0 && NoSpace(ws[i])
    decreases |s|
  {
    if |s| == 0 then []
    else if IsSpace(s[0]) then Words(s[1..])
    else var n := WordLen(s); [s[..n]] + Words(s[n..])
  }

  /** Only white space. */
  predicate Blank(b: string)
  {
    forall i :: 0 <= i < |b| ==> IsSpace(b[i])
  }

  /** Leading white space is skipped. */
  lemma {:induction false} WordsSkip(b: string, rest: string)
    requires Blank(b)
    ensures Words(b + rest) == Words(rest)
  {
    if |b| > 0 {
      var s := b + rest;
      assert s[0] == b[0];
      assert s[1..] == b[1..] + rest;
      WordsSkip(b[1..], rest);
    } else {
      assert b + rest == rest;
    }
  }

  /** A word followed by white space (or by nothing) is the leading run. */
  lemma {:induction false} WordLenOf(w: string, rest: string)
    requires NoSpace(w)
    requires |rest| > 0 ==> IsSpace(rest[0])
    ensures WordLen(w + rest) == |w|
  {
    var s := w + rest;
    if |w| > 0 {
      assert s[0] == w[0];
      assert s[1..] == w[1..] + rest;
      WordLenOf(w[1..], rest);
    } else {
      assert s == rest;
    }
  }

  /** A word followed by white space (or by nothing) is the first word. */
  lemma WordsCons(w: string, rest: string)
    requires |w| > 0 && NoSpace(w)
    requires |rest| > 0 ==> IsSpace(rest[0])
    ensures Words(w + rest) == [w] + Words(rest)
  {
    var s := w + rest;
    assert s[0] == w[0];
    WordLenOf(w, rest);
    assert s[..|w|] == w && s[|w|..] == rest;
  }
  /** A word, then some white space, then the rest. */
  lemma WordThenGap(w: string, b: string, rest: string)
    requires |w| > 0 && NoSpace(w) && |b| > 0 && Blank(b)
    ensures Words(w + (b + rest)) == [w] + Words(rest)
  {
    assert (b + rest)[0] == b[0];
    WordsCons(w, b + rest);
    WordsSkip(b, rest);
  }



  // ---------------------------------------------------------------------------------------
  // parseInt and toString
  // ---------------------------------------------------------------------------------------

  /** The value of ch as a digit (0-9, then a-z or A-Z for 10 to 35); 36 for any other character. */
  function DigitValue(ch: char): (v: nat)
    ensures v <= 36
  {
    if '0' <= ch <= '9' then ch as int - '0' as int
    else if 'a' <= ch <= 'z' then ch as int - 'a' as int + 10
    else if 'A' <= ch <= 'Z' then ch as int - 'A' as int + 10
    else 36
  }

  /** The value of ch as a digit of the radix, if it is one. */
  function DigitOf(ch: char, radix: nat): (d: Option<nat>)
    ensures d.Some? ==> d.value < radix
  {
    if DigitValue(ch) < radix then Some(DigitValue(ch)) else None
  }

  predicate AllDigits(s: string, radix: nat)
  {
    forall i :: 0 <= i < |s| ==> DigitOf(s[i], radix).Some?
  }

  /** The length of the leading run of digits of the radix. */
  function DigitPrefix(s: string, radix: nat): (k: nat)
    ensures k <= |s| && AllDigits(s[..k], radix)
    ensures k < |s| ==> DigitOf(s[k], radix).None?
  {
    if |s| > 0 && DigitOf(s[0], radix).Some? then 1 + DigitPrefix(s[1..], radix) else 0
  }

  /** In a string of digits the leading run is the whole string. */
  lemma {:induction false} DigitPrefixAll(s: string, radix: nat)
    requires AllDigits(s, radix)
    ensures DigitPrefix(s, radix) == |s|
  {
    if |s| > 0 {
      assert DigitOf(s[0], radix).Some?;
      DigitPrefixAll(s[1..], radix);
    }
  }

  /** The number a string of digits denotes in the radix. */
  function Value(s: string, radix: nat): nat
    requires AllDigits(s, radix)
  {
    if |s| == 0 then 0 else Value(s[..|s| - 1], radix) * radix + DigitOf(s[|s| - 1], radix).value
  }

  /** `parseInt(s, radix)` for radix 10 or 16: skip leading white space, take one sign, then
      read the magnitude; None (NaN) when there is no digit. */
  function ParseInt(s: string, radix: nat): Option<int>
    requires radix == 10 || radix == 16
  {
    Signed(s[LeadingSpaces(s)..], radix)
  }

  /** A number after the leading white space: an optional sign, then the magnitude. */
  function Signed(t: string, radix: nat): Option<int>
    requires radix == 10 || radix == 16
  {
    if |t| > 0 && t[0] == '-' then Negated(Magnitude(t[1..], radix))
    else if |t| > 0 && t[0] == '+' then Magnitude(t[1..], radix)
    else Magnitude(t, radix)
  }

  /** What follows the sign: for radix 16 a "0x"/"0X" prefix is dropped, then the longest
      run of digits is read; None when that run is empty. */
  function Magnitude(u: string, radix: nat): Option<int>
    requires radix == 10 || radix == 16
  {
    var v := if radix == 16 && |u| >= 2 && u[0] == '0' && (u[1] == 'x' || u[1] == 'X') then u[2..] else u;
    var n := DigitPrefix(v, radix);
    if n == 0 then None else Some(Value(v[..n], radix))
  }

  function Negated(m: Option<int>): Option<int>
  {
    if m.Some? then Some(-m.value) else None
  }

  /** The lowercase digit character of d. */
  function DigitChar(d: nat): (ch: char)
    requires d < 16
    ensures DigitValue(ch) == d
    ensures '0' <= ch <= '9' || 'a' <= ch <= 'f'
  {
    if d < 10 then ('0' as int + d) as char else ('a' as int + d - 10) as char
  }

  /** The digits of n in the radix, without leading zeros ("0" for zero). */
  function NatDigits(n: nat, radix: nat): (s: string)
    requires radix == 10 || radix == 16
    ensures |s| > 0 && AllDigits(s, radix)
    decreases n
  {
    if n < radix then [DigitChar(n)]
    else
      var p := NatDigits(n / radix, radix);
      var c := DigitChar(n % radix);
      assert forall i :: 0 <= i < |p| ==> (p + [c])[i] == p[i];
      p + [c]
  }

  /** Division by the radix: quotient and remainder recompose n, and the quotient is smaller. */
  lemma DivStep(n: nat, radix: nat)
    requires radix == 10 || radix == 16
    requires n >= radix
    ensures 1 <= n / radix < n && (n / radix) * radix + n % radix == n
  {
    if radix == 10 {
      assert (n / 10) * 10 + n % 10 == n;
    } else {
      assert (n / 16) * 16 + n % 16 == n;
    }
  }

  /** The digits denote n; a single digit below the radix, no leading zero above it. */
  lemma {:induction false} NatDigitsValue(n: nat, radix: nat)
    requires radix == 10 || radix == 16
    ensures Value(NatDigits(n, radix), radix) == n
    ensures n < radix ==> |NatDigits(n, radix)| == 1
    ensures n >= radix ==> NatDigits(n, radix)[0] != '0'
    ensures n >= radix ==> |NatDigits(n, radix)| >= 2
    decreases n
  {
    var s := NatDigits(n, radix);
    if n >= radix {
      var q, r := n / radix, n % radix;
      DivStep(n, radix);
      var p := NatDigits(q, radix);
      NatDigitsValue(q, radix);
      assert s == p + [DigitChar(r)];
      assert s[..|s| - 1] == p;
      assert Value(s, radix) == Value(p, radix) * radix + r;
      assert q * radix + r == n;
      assert s[0] == p[0];
      if q < radix {
        assert p[0] == DigitChar(q) && q != 0;
      }
    }
  }

  /** `n.toString(radix)` of an integer: a minus sign for negatives, then its digits. */
  function IntString(n: int, radix: nat): (s: string)
    requires radix == 10 || radix == 16
    ensures |s| > 0
  {
    if n < 0 then "-" + NatDigits(-n, radix) else NatDigits(n, radix)
  }

  /** `parseInt` reads back what `toString` writes, in radix 10 and 16. */
  lemma ParseIntString(n: int, radix: nat)
    requires radix == 10 || radix == 16
    ensures ParseInt(IntString(n, radix), radix) == Some(n)
  {
    var m: nat := if n < 0 then -n else n;
    NatDigitsValue(m, radix);
    if n < 0 {
      var d := NatDigits(m, radix);
      assert ("-" + d)[1..] == d;
      ParseNegative("-" + d, radix);
    } else {
      ParseUnsigned(NatDigits(m, radix), radix);
    }
  }

  /** A digit is neither white space nor a sign. */
  lemma DigitIsNotSpace(ch: char, radix: nat)
    requires radix == 10 || radix == 16
    requires DigitOf(ch, radix).Some?
    ensures !IsSpace(ch) && ch != '-' && ch != '+'
  {
    assert '0' <= ch <= '9' || 'a' <= ch <= 'f' || 'A' <= ch <= 'F';
  }

  /** A run of digits is its own magnitude: it is read whole, and cannot start with "0x". */
  lemma MagnitudeOfDigits(d: string, radix: nat)
    requires radix == 10 || radix == 16
    requires |d| > 0 && AllDigits(d, radix)
    ensures Magnitude(d, radix) == Some(Value(d, radix))
  {
    DigitPrefixAll(d, radix);
    if |d| >= 2 {
      assert DigitOf(d[1], radix).Some?;
    }
    assert d[..|d|] == d;
  }

  /** A string that starts with anything but white space has no leading white space. */
  lemma NoLeadingSpace(s: string)
    requires |s| > 0 && !IsSpace(s[0])
    ensures s[LeadingSpaces(s)..] == s
  {
    assert LeadingSpaces(s) == 0;
  }

  /** A run of digits reads back as its value. */
  lemma ParseUnsigned(d: string, radix: nat)
    requires radix == 10 || radix == 16
    requires |d| > 0 && AllDigits(d, radix)
    ensures ParseInt(d, radix) == Some(Value(d, radix))
  {
    assert DigitOf(d[0], radix).Some?;
    DigitIsNotSpace(d[0], radix);
    NoLeadingSpace(d);
    MagnitudeOfDigits(d, radix);
  }

  /** A minus sign and a run of digits read back as minus the value of the digits. */
  lemma ParseNegative(s: string, radix: nat)
    requires radix == 10 || radix == 16
    requires |s| > 1 && s[0] == '-' && AllDigits(s[1..], radix)
    ensures ParseInt(s, radix) == Negated(Some(Value(s[1..], radix)))
  {
    NoLeadingSpace(s);
    MagnitudeOfDigits(s[1..], radix);
  }

  /** `s.padStart(n, " ")`. */
  function PadStart(s: string, n: nat): (p: string)
    ensures |s| <= n ==> p == Spaces(n - |s|) + s
    ensures |s| >= n ==> p == s
  {
    if |s| >= n then s else Spaces(n - |s|) + s
  }
}
