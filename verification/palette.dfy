/**
 * The GIMP palette (.gpl) codec of src/logic/palette-utils.js.
 *
 * `ParseGPL` reads a palette text line by line and collects one "#rrggbb" colour per colour
 * line; `GenerateGPL` writes the header and one "  r   g   b #hex" line per colour. Both are
 * loops over their input, proved against the functions `ParsedColors` and `GplText`; the
 * round trip `ParseGPL(GenerateGPL(cs, name))` gives back every valid colour in lowercase
 * six-digit form.
 */
module Palette {
  import opened Wrappers
  import opened JsText

  const HeaderLine := "GIMP Palette"
  const DefaultName := "AutoTrixel Palette"

  // ---------------------------------------------------------------------------------------
  // Parsing
  // ---------------------------------------------------------------------------------------

  /** `x.toString(16)`, with a leading "0" when that is a single character. */
  function Hex2(x: int): string
  {
    var h := IntString(x, 16);
    if |h| == 1 then "0" + h else h
  }

  /** The colour one line yields: none for a blank line, a comment, the header line or any
      line with a ':' (the other header fields); otherwise the first three words, read with
      `parseInt(_, 10)`, as "#" and three two-digit hex channels, when all three are numbers. */
  function LineColor(line: string): Option<string>
  {
    var t := Trim(line);
    if |t| == 0 || t[0] == '#' then None
    else if t == HeaderLine then None
    else if ':' in t then None
    else
      var parts := Words(t);
      if |parts| < 3 then None
      else
        var r, g, b := ParseInt(parts[0], 10), ParseInt(parts[1], 10), ParseInt(parts[2], 10);
        if r.Some? && g.Some? && b.Some? then Some("#" + Hex2(r.value) + Hex2(g.value) + Hex2(b.value))
        else None
  }

  function OptSeq(o: Option<string>): (s: seq<string>)
    ensures |s| <= 1
  {
    if o.Some? then [o.value] else []
  }

  /** What `read` yields for each line, in line order. */
  function Collected(read: string -> Option<string>, lines: seq<string>): seq<string>
  {
    if |lines| == 0 then [] else Collected(read, lines[..|lines| - 1]) + OptSeq(read(lines[|lines| - 1]))
  }

  /** The colours of a list of lines, in line order. */
  function ParsedColors(lines: seq<string>): seq<string>
  {
    Collected(LineColor, lines)
  }

  lemma ParsedStep(lines: seq<string>, i: int)
    requires 0 <= i < |lines|
    ensures ParsedColors(lines[..i + 1]) == ParsedColors(lines[..i]) + OptSeq(LineColor(lines[i]))
  {
    assert lines[..i + 1][..i] == lines[..i];
  }

  /** `parseGPL(content)`. */
  method ParseGPL(content: string) returns (colors: seq<string>)
    ensures colors == ParsedColors(Lines(content))
  {
    var lines := Lines(content);
    colors := [];
    var headerFound := false;
    for i := 0 to |lines|
      invariant colors == ParsedColors(lines[..i])
    {
      ParsedStep(lines, i);
      var trimmed := Trim(lines[i]);
      if |trimmed| == 0 || trimmed[0] == '#' {
        continue;
      }
      if trimmed == HeaderLine {
        headerFound := true;
        continue;
      }
      if ':' in trimmed {
        continue;
      }
      var parts := Words(trimmed);
      if |parts| >= 3 {
        var r := ParseInt(parts[0], 10);
        var g := ParseInt(parts[1], 10);
        var b := ParseInt(parts[2], 10);
        if r.Some? && g.Some? && b.Some? {
          var hex := "#" + Hex2(r.value) + Hex2(g.value) + Hex2(b.value);
          colors := colors + [hex];
        }
      }
    }
    assert lines[..|lines|] == lines;
  }

  /** "#" and six lowercase hex digits: the "#RRGGBB" form `parseGPL` promises. */
  predicate IsRrggbb(s: string)
  {
    |s| == 7 && s[0] == '#' && forall i :: 1 <= i < 7 ==> '0' <= s[i] <= '9' || 'a' <= s[i] <= 'f'
  }

  /** Three channels in 0..255 are written in the "#RRGGBB" form, each digit pair denoting
      its channel. */
  lemma ChannelsHex(r: int, g: int, b: int)
    requires 0 <= r < 256 && 0 <= g < 256 && 0 <= b < 256
    ensures var s := "#" + Hex2(r) + Hex2(g) + Hex2(b);
            IsRrggbb(s) && PairValue(s[1], s[2]) == r && PairValue(s[3], s[4]) == g && PairValue(s[5], s[6]) == b
  {
    HexByte(r);
    HexByte(g);
    HexByte(b);
    var s := "#" + Hex2(r) + Hex2(g) + Hex2(b);
    assert s[1..3] == Hex2(r) && s[3..5] == Hex2(g) && s[5..7] == Hex2(b);
  }

  /** A line yields a colour only when its first three words are numbers, and when those lie
      in 0..255 the colour is "#RRGGBB" with lowercase digits whose pairs denote the three
      numbers. */
  lemma LineColorShape(line: string)
    requires LineColor(line).Some?
    ensures var ws := Words(Trim(line));
            |ws| >= 3 && ParseInt(ws[0], 10).Some? && ParseInt(ws[1], 10).Some? && ParseInt(ws[2], 10).Some?
    ensures var ws := Words(Trim(line));
            var hex := LineColor(line).value;
            |ws| >= 3 && ParseInt(ws[0], 10).Some? && ParseInt(ws[1], 10).Some? && ParseInt(ws[2], 10).Some? &&
            0 <= ParseInt(ws[0], 10).value < 256 && 0 <= ParseInt(ws[1], 10).value < 256 &&
            0 <= ParseInt(ws[2], 10).value < 256 ==>
              IsRrggbb(hex) && PairValue(hex[1], hex[2]) == ParseInt(ws[0], 10).value &&
              PairValue(hex[3], hex[4]) == ParseInt(ws[1], 10).value &&
              PairValue(hex[5], hex[6]) == ParseInt(ws[2], 10).value
  {
    var ws := Words(Trim(line));
    var r, g, b := ParseInt(ws[0], 10), ParseInt(ws[1], 10), ParseInt(ws[2], 10);
    if 0 <= r.value < 256 && 0 <= g.value < 256 && 0 <= b.value < 256 {
      ChannelsHex(r.value, g.value, b.value);
    }
  }

  /** What is read from a list of lines is what is read from its parts, in order. */
  lemma {:induction false} CollectedAppend(read: string -> Option<string>, a: seq<string>, b: seq<string>)
    ensures Collected(read, a + b) == Collected(read, a) + Collected(read, b)
    decreases |b|
  {
    if |b| > 0 {
      var b' := b[..|b| - 1];
      assert (a + b)[..|a + b| - 1] == a + b';
      assert (a + b)[|a + b| - 1] == b[|b| - 1];
      CollectedAppend(read, a, b');
    } else {
      assert a + b == a;
    }
  }

  /** Lines that each yield a value yield those values, in order. */
  lemma {:induction false} CollectedEach(read: string -> Option<string>, ls: seq<string>, ns: seq<string>)
    requires |ls| == |ns| && forall i :: 0 <= i < |ls| ==> read(ls[i]) == Some(ns[i])
    ensures Collected(read, ls) == ns
    decreases |ls|
  {
    var n := |ls|;
    if n > 0 {
      CollectedEach(read, ls[..n - 1], ns[..n - 1]);
      assert ns == ns[..n - 1] + [ns[n - 1]];
    }
  }

  /** Lines that each yield nothing yield nothing. */
  lemma {:induction false} CollectedNone(read: string -> Option<string>, ls: seq<string>)
    requires forall i :: 0 <= i < |ls| ==> read(ls[i]) == None
    ensures Collected(read, ls) == []
    decreases |ls|
  {
    if |ls| > 0 {
      CollectedNone(read, ls[..|ls| - 1]);
    }
  }

  // ---------------------------------------------------------------------------------------
  // Channel formatting
  // ---------------------------------------------------------------------------------------

  predicate IsHexDigit(ch: char)
  {
    DigitOf(ch, 16).Some?
  }

  function Lower(ch: char): char
  {
    if 'A' <= ch <= 'Z' then (ch as int - 'A' as int + 'a' as int) as char else ch
  }

  /** The digit written for a hex digit's value is that digit in lower case. */
  lemma DigitCharLower(ch: char)
    requires IsHexDigit(ch)
    ensures DigitChar(DigitValue(ch)) == Lower(ch)
  {
  }

  /** A channel in 0..255 is written as exactly two lowercase hex digits that denote it. */
  lemma HexByte(x: int)
    requires 0 <= x < 256
    ensures |Hex2(x)| == 2
    ensures forall i :: 0 <= i < 2 ==> '0' <= Hex2(x)[i] <= '9' || 'a' <= Hex2(x)[i] <= 'f'
    ensures 16 * DigitValue(Hex2(x)[0]) + DigitValue(Hex2(x)[1]) == x
  {
    NatDigitsValue(x, 16);
    if x >= 16 {
      DivStep(x, 16);
      NatDigitsValue(x / 16, 16);
      assert NatDigits(x, 16) == [DigitChar(x / 16)] + [DigitChar(x % 16)];
    }
  }

  /** The value of two hex digits. */
  function PairValue(a: char, b: char): int
  {
    16 * DigitValue(a) + DigitValue(b)
  }

  /** `parseInt` reads two hex digits a, b as 16 a + b. */
  lemma ParsePair(a: char, b: char)
    requires IsHexDigit(a) && IsHexDigit(b)
    ensures ParseInt([a, b], 16) == Some(PairValue(a, b))
  {
    var s := [a, b];
    assert !IsSpace(a);
    assert LeadingSpaces(s) == 0;
    assert s[0..] == s;
    assert AllDigits(s, 16);
    DigitPrefixAll(s, 16);
    assert s[..2] == s;
    assert s[..1] == [a] && [a][..0] == [];
    assert Value([a], 16) == DigitValue(a);
    assert Value(s, 16) == 16 * DigitValue(a) + DigitValue(b);
    assert DigitValue('x') == 33 && DigitValue('X') == 33;
  }

  /** The value of two hex digits is written back as the two digits in lower case. */
  lemma HexPair(a: char, b: char)
    requires IsHexDigit(a) && IsHexDigit(b)
    ensures 0 <= PairValue(a, b) < 256 && Hex2(PairValue(a, b)) == [Lower(a), Lower(b)]
  {
    var v := 16 * DigitValue(a) + DigitValue(b);
    DigitCharLower(a);
    DigitCharLower(b);
    if v >= 16 {
      DivStep(v, 16);
      assert v / 16 == DigitValue(a) && v % 16 == DigitValue(b);
      assert NatDigits(v / 16, 16) == [DigitChar(DigitValue(a))];
      NatDigitsValue(v, 16);
      assert NatDigits(v, 16) == [DigitChar(DigitValue(a))] + [DigitChar(DigitValue(b))];
    } else {
      assert DigitValue(a) == 0 && a == '0';
      assert IntString(v, 16) == [DigitChar(DigitValue(b))];
    }
  }

  // ---------------------------------------------------------------------------------------
  // Generating
  // ---------------------------------------------------------------------------------------

  /** The channels `generateGPL` reads from a colour: each digit of "#rgb" doubled, the digit
      pairs of "#rrggbb", and 0, 0, 0 for any other length; None where `parseInt` gives NaN. */
  function HexChannels(hex: string): (Option<int>, Option<int>, Option<int>)
  {
    if |hex| == 4 then (ParseInt([hex[1], hex[1]], 16), ParseInt([hex[2], hex[2]], 16), ParseInt([hex[3], hex[3]], 16))
    else if |hex| == 7 then (ParseInt(hex[1..3], 16), ParseInt(hex[3..5], 16), ParseInt(hex[5..7], 16))
    else (Some(0), Some(0), Some(0))
  }

  /** `v.toString()`: "NaN" for NaN. */
  function NumberString(v: Option<int>): string
  {
    if v.Some? then IntString(v.value, 10) else "NaN"
  }

  /** The line written for one colour: the three channels padded to width 3, then the colour
      as given. */
  function ColorLine(hex: string): string
  {
    var (r, g, b) := HexChannels(hex);
    PadStart(NumberString(r), 3) + " " + PadStart(NumberString(g), 3) + " " + PadStart(NumberString(b), 3) + " " + hex
  }

  /** The four header lines: the magic line, the name, the column count and a comment. */
  function HeaderLines(name: string): seq<string>
  {
    [HeaderLine, "Name: " + name, "Columns: 4", "#"]
  }

  /** Lines, each ended by a line feed. */
  function Terminated(ls: seq<string>): string
  {
    if |ls| == 0 then "" else ls[0] + "\n" + Terminated(ls[1..])
  }

  /** The line written for each colour, in order. */
  function ColorLines(colors: seq<string>): (ls: seq<string>)
    ensures |ls| == |colors| && forall i :: 0 <= i < |colors| ==> ls[i] == ColorLine(colors[i])
  {
    seq(|colors|, i requires 0 <= i < |colors| => ColorLine(colors[i]))
  }

  /** The text `generateGPL` writes: the header lines, then one line per colour, each line
      ended by a line feed. */
  function GplText(colors: seq<string>, name: string): string
  {
    Terminated(HeaderLines(name) + ColorLines(colors))
  }

  lemma {:induction false} TerminatedSnoc(ls: seq<string>, i: int)
    requires 0 <= i < |ls|
    ensures Terminated(ls[..i + 1]) == Terminated(ls[..i]) + ls[i] + "\n"
    decreases i
  {
    if i > 0 {
      assert ls[..i + 1][1..] == ls[1..][..i];
      assert ls[..i][1..] == ls[1..][..i - 1];
      TerminatedSnoc(ls[1..], i - 1);
    } else {
      assert ls[..1][1..] == [];
    }
  }

  /** `generateGPL(colors, name)`. */
  method GenerateGPL(colors: seq<string>, name: string := DefaultName) returns (content: string)
    ensures content == GplText(colors, name)
  {
    ghost var all := HeaderLines(name) + ColorLines(colors);
    TerminatedSnoc(all, 0);
    assert all[..0] == [];
    content := HeaderLine + "\n";
    TerminatedSnoc(all, 1);
    content := content + ("Name: " + name) + "\n";
    TerminatedSnoc(all, 2);
    content := content + "Columns: 4" + "\n";
    TerminatedSnoc(all, 3);
    content := content + "#" + "\n";
    for i := 0 to |colors|
      invariant content == Terminated(all[..4 + i])
    {
      var hex := colors[i];
      var r, g, b := Some(0), Some(0), Some(0);
      if |hex| == 4 {
        r := ParseInt([hex[1], hex[1]], 16);
        g := ParseInt([hex[2], hex[2]], 16);
        b := ParseInt([hex[3], hex[3]], 16);
      } else if |hex| == 7 {
        r := ParseInt(hex[1..3], 16);
        g := ParseInt(hex[3..5], 16);
        b := ParseInt(hex[5..7], 16);
      }
      assert (r, g, b) == HexChannels(hex);
      var rStr := PadStart(NumberString(r), 3);
      var gStr := PadStart(NumberString(g), 3);
      var bStr := PadStart(NumberString(b), 3);
      var line := rStr + " " + gStr + " " + bStr + " " + hex;
      assert line == ColorLine(hex);
      TerminatedSnoc(all, 4 + i);
      content := content + line + "\n";
    }
    assert all[..4 + |colors|] == all;
  }

  /** The lines of the generated text: the four header lines, one line per colour in order,
      and the empty piece after the final line feed. */
  lemma GplLines(colors: seq<string>, name: string)
    requires '\n' !in name
    requires forall i :: 0 <= i < |colors| ==> '\n' !in colors[i]
    ensures Lines(GplText(colors, name)) == DropEach(HeaderLines(name) + ColorLines(colors)) + [""]
  {
    var all := HeaderLines(name) + ColorLines(colors);
    HeaderSingle(name);
    ColorLinesSingle(colors);
    SingleLinesAppend(HeaderLines(name), ColorLines(colors));
    TerminatedLines(all);
  }

  /** None of the given strings holds a line feed. */
  predicate SingleLines(ls: seq<string>)
  {
    forall i :: 0 <= i < |ls| ==> '\n' !in ls[i]
  }

  lemma HeaderSingle(name: string)
    requires '\n' !in name
    ensures SingleLines(HeaderLines(name))
  {
    assert '\n' !in "Name: ";
  }

  lemma ColorLinesSingle(colors: seq<string>)
    requires forall i :: 0 <= i < |colors| ==> '\n' !in colors[i]
    ensures SingleLines(ColorLines(colors))
  {
    forall i | 0 <= i < |colors| ensures '\n' !in ColorLines(colors)[i] {
      ColorLineSingle(colors[i]);
    }
  }

  lemma SingleLinesAppend(a: seq<string>, b: seq<string>)
    requires SingleLines(a) && SingleLines(b)
    ensures SingleLines(a + b)
  {
    forall i | 0 <= i < |a + b| ensures '\n' !in (a + b)[i] {
      if i >= |a| {
        assert (a + b)[i] == b[i - |a|];
      }
    }
  }

  /** Each line without a final carriage return. */
  function DropEach(ls: seq<string>): (ds: seq<string>)
    ensures |ds| == |ls| && forall i :: 0 <= i < |ls| ==> ds[i] == DropCR(ls[i])
  {
    seq(|ls|, i requires 0 <= i < |ls| => DropCR(ls[i]))
  }

  /** Splitting terminated lines gives them back, and the empty piece after the last one. */
  lemma {:induction false} TerminatedLines(ls: seq<string>)
    requires forall i :: 0 <= i < |ls| ==> '\n' !in ls[i]
    ensures Lines(Terminated(ls)) == DropEach(ls) + [""]
    decreases |ls|
  {
    if |ls| == 0 {
      LinesSingle("");
    } else {
      var rest := ls[1..];
      assert forall i :: 0 <= i < |rest| ==> rest[i] == ls[i + 1];
      TerminatedLines(rest);
      assert Terminated(ls) == ls[0] + "\n" + Terminated(rest);
      TerminatedCons(ls[0], Terminated(rest), DropEach(rest));
      DropEachCons(ls);
    }
  }

  /** One more terminated line in front adds its line in front of the split. */
  lemma TerminatedCons(head: string, tail: string, lines: seq<string>)
    requires '\n' !in head && Lines(tail) == lines + [""]
    ensures Lines(head + "\n" + tail) == [DropCR(head)] + lines + [""]
  {
    LinesCons(head, tail);
  }

  lemma DropEachCons(ls: seq<string>)
    requires |ls| > 0
    ensures DropEach(ls) == [DropCR(ls[0])] + DropEach(ls[1..])
  {
  }

  /** A colour line is one line when the colour is. */
  lemma ColorLineSingle(hex: string)
    requires '\n' !in hex
    ensures '\n' !in ColorLine(hex)
  {
    var (r, g, b) := HexChannels(hex);
    NumberStringChars(r);
    NumberStringChars(g);
    NumberStringChars(b);
  }

  /** A number's text has no line feed, white space or ':'. */
  lemma NumberStringChars(v: Option<int>)
    ensures '\n' !in PadStart(NumberString(v), 3) && ':' !in NumberString(v)
    ensures NoSpace(NumberString(v))
  {
    var s := NumberString(v);
    if v.Some? {
      var d := NatDigits(if v.value < 0 then -v.value else v.value, 10);
      DecimalChars(d);
      DecimalNoSpace(d);
      assert s == d || s == "-" + d;
    }
    PadKeepsLine(s, 3);
  }

  lemma PadKeepsLine(s: string, n: nat)
    requires '\n' !in s
    ensures '\n' !in PadStart(s, n)
  {
  }

  // ---------------------------------------------------------------------------------------
  // Round trip
  // ---------------------------------------------------------------------------------------

  /** A colour `generateGPL` reads correctly: "#" and three or six hex digits. */
  predicate ValidHex(h: string)
  {
    |h| > 0 && h[0] == '#' &&
    ((|h| == 4 && IsHexDigit(h[1]) && IsHexDigit(h[2]) && IsHexDigit(h[3])) ||
     (|h| == 7 && IsHexDigit(h[1]) && IsHexDigit(h[2]) && IsHexDigit(h[3]) &&
      IsHexDigit(h[4]) && IsHexDigit(h[5]) && IsHexDigit(h[6])))
  }

  /** A valid colour in the form `parseGPL` produces: "#", six lowercase hex digits, each
      digit of a three-digit colour doubled. */
  function Normalised(h: string): string
    requires ValidHex(h)
  {
    if |h| == 4 then ['#', Lower(h[1]), Lower(h[1]), Lower(h[2]), Lower(h[2]), Lower(h[3]), Lower(h[3])]
    else ['#', Lower(h[1]), Lower(h[2]), Lower(h[3]), Lower(h[4]), Lower(h[5]), Lower(h[6])]
  }

  /** What a channel of 0..255 looks like in decimal: one to three digits, read back by
      `parseInt`. */
  lemma DecimalToken(v: int)
    requires 0 <= v < 256
    ensures var d := IntString(v, 10);
            1 <= |d| <= 3 && NoSpace(d) && ':' !in d && '0' <= d[0] <= '9' &&
            ParseInt(d, 10) == Some(v)
  {
    var d := NatDigits(v, 10);
    ParseIntString(v, 10);
    DecimalChars(d);
    DecimalLength(v);
    DecimalNoSpace(d);
  }

  /** A number below 1000 has at most three decimal digits. */
  lemma DecimalLength(v: nat)
    requires v < 1000
    ensures |NatDigits(v, 10)| <= 3
  {
    if v >= 10 {
      DivStep(v, 10);
      assert |NatDigits(v, 10)| == |NatDigits(v / 10, 10)| + 1;
      if v / 10 >= 10 {
        DivStep(v / 10, 10);
        assert |NatDigits(v / 10, 10)| == |NatDigits(v / 10 / 10, 10)| + 1;
        NatDigitsValue(v / 10 / 10, 10);
      } else {
        NatDigitsValue(v / 10, 10);
      }
    }
  }

  /** Decimal digits are neither white space nor ':'. */
  lemma DecimalNoSpace(d: string)
    requires forall i :: 0 <= i < |d| ==> '0' <= d[i] <= '9'
    ensures NoSpace(d) && ':' !in d
  {
  }

  /** The characters of a decimal digit string are '0' to '9'. */
  lemma DecimalChars(d: string)
    requires AllDigits(d, 10)
    ensures forall i :: 0 <= i < |d| ==> '0' <= d[i] <= '9'
  {
    forall i | 0 <= i < |d| ensures '0' <= d[i] <= '9' {
      assert DigitOf(d[i], 10).Some?;
    }
  }

  /** A colour line with three channels of 0..255, after trimming. */
  function ChannelText(d1: string, d2: string, d3: string, h: string): string
  {
    d1 + " " + PadStart(d2, 3) + " " + PadStart(d3, 3) + " " + h
  }

  /** The words of a colour line are its three channels and the colour. */
  lemma ChannelWords(d1: string, d2: string, d3: string, h: string)
    requires |d1| > 0 && NoSpace(d1) && |d2| > 0 && NoSpace(d2) && |d3| > 0 && NoSpace(d3)
    requires |d2| <= 3 && |d3| <= 3 && |h| > 0 && NoSpace(h)
    ensures Words(ChannelText(d1, d2, d3, h)) == [d1, d2, d3, h]
  {
    var g2, g3 := " " + Spaces(3 - |d2|), " " + Spaces(3 - |d3|);
    GapShape(d1, Spaces(3 - |d2|), d2, Spaces(3 - |d3|), d3, h);
    assert Blank(g2) && Blank(g3) && Blank(" ");
    GappedWords(d1, g2, d2, g3, d3, " ", h);
  }

  /** Four words separated by white space. */
  lemma GappedWords(d1: string, g2: string, d2: string, g3: string, d3: string, g4: string, h: string)
    requires |d1| > 0 && NoSpace(d1) && |d2| > 0 && NoSpace(d2) && |d3| > 0 && NoSpace(d3)
    requires |h| > 0 && NoSpace(h)
    requires |g2| > 0 && Blank(g2) && |g3| > 0 && Blank(g3) && |g4| > 0 && Blank(g4)
    ensures Words(d1 + (g2 + (d2 + (g3 + (d3 + (g4 + h)))))) == [d1, d2, d3, h]
  {
    assert h + "" == h;
    WordsCons(h, "");
    WordThenGap(d3, g4, h);
    WordThenGap(d2, g3, d3 + (g4 + h));
    WordThenGap(d1, g2, d2 + (g3 + (d3 + (g4 + h))));
  }

  /** Regrouping a line of words separated by single spaces and padding. */
  lemma GapShape(a: string, s2: string, b: string, s3: string, c: string, h: string)
    ensures a + " " + (s2 + b) + " " + (s3 + c) + " " + h ==
            a + ((" " + s2) + (b + ((" " + s3) + (c + (" " + h)))))
  {
  }

  /** Regrouping a line whose first word is padded. */
  lemma LeadShape(s1: string, a: string, p2: string, p3: string, h: string)
    ensures s1 + a + " " + p2 + " " + p3 + " " + h == s1 + (a + " " + p2 + " " + p3 + " " + h) + []
  {
  }

  /** Padding adds only spaces, so it brings in no ':'. */
  lemma PadColonFree(d: string)
    requires ':' !in d
    ensures ':' !in PadStart(d, 3)
  {
    if |d| < 3 {
      var sp := Spaces(3 - |d|);
      assert ':' !in sp;
      assert PadStart(d, 3) == sp + d;
    }
  }

  lemma ColonFree(a: string, b: string, c: string, h: string)
    requires ':' !in a && ':' !in b && ':' !in c && ':' !in h
    ensures ':' !in a + " " + b + " " + c + " " + h
  {
  }

  /** A colour line whose channels are 0..255 parses to "#" and their two-digit hex forms. */
  lemma ParseChannelLine(v1: int, v2: int, v3: int, h: string)
    requires 0 <= v1 < 256 && 0 <= v2 < 256 && 0 <= v3 < 256
    requires |h| > 0 && NoSpace(h) && ':' !in h
    ensures var d1, d2, d3 := IntString(v1, 10), IntString(v2, 10), IntString(v3, 10);
            LineColor(PadStart(d1, 3) + " " + PadStart(d2, 3) + " " + PadStart(d3, 3) + " " + h) ==
            Some("#" + Hex2(v1) + Hex2(v2) + Hex2(v3))
  {
    var d1, d2, d3 := IntString(v1, 10), IntString(v2, 10), IntString(v3, 10);
    DecimalToken(v1);
    DecimalToken(v2);
    DecimalToken(v3);
    TrimChannelLine(d1, d2, d3, h);
    ChannelWords(d1, d2, d3, h);
    ReadChannels(PadStart(d1, 3) + " " + PadStart(d2, 3) + " " + PadStart(d3, 3) + " " + h,
                 ChannelText(d1, d2, d3, h), d1, d2, d3, h, v1, v2, v3);
  }

  /** A line that trims to at least three words, the first three of them numbers, yields "#"
      and the numbers' two-digit hex forms. */
  lemma ReadChannels(line: string, m: string, d1: string, d2: string, d3: string, h: string, v1: int, v2: int, v3: int)
    requires Trim(line) == m && |m| > 0 && m[0] != '#' && m != HeaderLine && ':' !in m
    requires Words(m) == [d1, d2, d3, h]
    requires ParseInt(d1, 10) == Some(v1) && ParseInt(d2, 10) == Some(v2) && ParseInt(d3, 10) == Some(v3)
    ensures LineColor(line) == Some("#" + Hex2(v1) + Hex2(v2) + Hex2(v3))
  {
  }

  /** Trimming a colour line leaves its channels and colour separated by white space; the
      result is not blank, not a comment, not the header line and has no ':'. */
  lemma TrimChannelLine(d1: string, d2: string, d3: string, h: string)
    requires 1 <= |d1| <= 3 && NoSpace(d1) && ':' !in d1 && '0' <= d1[0] <= '9'
    requires ':' !in d2 && ':' !in d3
    requires |h| > 0 && NoSpace(h) && ':' !in h
    ensures var m := ChannelText(d1, d2, d3, h);
            Trim(PadStart(d1, 3) + " " + PadStart(d2, 3) + " " + PadStart(d3, 3) + " " + h) == m &&
            |m| > 0 && m[0] != '#' && m != HeaderLine && ':' !in m
  {
    var m := ChannelText(d1, d2, d3, h);
    var line := PadStart(d1, 3) + " " + PadStart(d2, 3) + " " + PadStart(d3, 3) + " " + h;
    LeadShape(Spaces(3 - |d1|), d1, PadStart(d2, 3), PadStart(d3, 3), h);
    assert Spaces(0) == [];
    assert line == Spaces(3 - |d1|) + m + Spaces(0);
    assert m[0] == d1[0];
    assert m[|m| - 1] == h[|h| - 1];
    TrimAround(3 - |d1|, m, 0);
    assert m != HeaderLine by {
      assert HeaderLine[0] == 'G';
    }
    PadColonFree(d2);
    PadColonFree(d3);
    ColonFree(d1, PadStart(d2, 3), PadStart(d3, 3), h);
  }

  /** The channels `generateGPL` reads from a valid colour are the values of its digit
      pairs, and their hex forms spell the normalised colour. */
  lemma ValidChannels(h: string)
    requires ValidHex(h)
    ensures HexChannels(h).0.Some? && HexChannels(h).1.Some? && HexChannels(h).2.Some?
    ensures 0 <= HexChannels(h).0.value < 256 && 0 <= HexChannels(h).1.value < 256 && 0 <= HexChannels(h).2.value < 256
    ensures "#" + Hex2(HexChannels(h).0.value) + Hex2(HexChannels(h).1.value) + Hex2(HexChannels(h).2.value) == Normalised(h)
  {
    if |h| == 4 {
      ShortChannels(h);
      SpellChannels(h[1], h[1], h[2], h[2], h[3], h[3]);
    } else {
      LongChannels(h);
      SpellChannels(h[1], h[2], h[3], h[4], h[5], h[6]);
    }
  }

  lemma ShortChannels(h: string)
    requires ValidHex(h) && |h| == 4
    ensures HexChannels(h) == (Some(PairValue(h[1], h[1])), Some(PairValue(h[2], h[2])), Some(PairValue(h[3], h[3])))
  {
    ParsePair(h[1], h[1]);
    ParsePair(h[2], h[2]);
    ParsePair(h[3], h[3]);
  }

  lemma LongChannels(h: string)
    requires ValidHex(h) && |h| == 7
    ensures HexChannels(h) == (Some(PairValue(h[1], h[2])), Some(PairValue(h[3], h[4])), Some(PairValue(h[5], h[6])))
  {
    assert h[1..3] == [h[1], h[2]] && h[3..5] == [h[3], h[4]] && h[5..7] == [h[5], h[6]];
    ParsePair(h[1], h[2]);
    ParsePair(h[3], h[4]);
    ParsePair(h[5], h[6]);
  }

  /** Three digit pairs, as channels written back in hex, spell "#" and the six digits in
      lower case. */
  lemma SpellChannels(a: char, b: char, c: char, d: char, e: char, f: char)
    requires IsHexDigit(a) && IsHexDigit(b) && IsHexDigit(c) && IsHexDigit(d) && IsHexDigit(e) && IsHexDigit(f)
    ensures 0 <= PairValue(a, b) < 256 && 0 <= PairValue(c, d) < 256 && 0 <= PairValue(e, f) < 256
    ensures "#" + Hex2(PairValue(a, b)) + Hex2(PairValue(c, d)) + Hex2(PairValue(e, f)) ==
            ['#', Lower(a), Lower(b), Lower(c), Lower(d), Lower(e), Lower(f)]
  {
    HexPair(a, b);
    HexPair(c, d);
    HexPair(e, f);
  }

  /** The line written for a valid colour parses back to the normalised colour. */
  lemma ColorLineRoundTrip(h: string)
    requires ValidHex(h)
    ensures LineColor(ColorLine(h)) == Some(Normalised(h))
    ensures DropCR(ColorLine(h)) == ColorLine(h)
  {
    ValidChannels(h);
    var r, g, b := HexChannels(h).0.value, HexChannels(h).1.value, HexChannels(h).2.value;
    ValidHexChars(h);
    ParseChannelLine(r, g, b, h);
    ColorLineOf(h, r, g, b);
  }

  /** A valid colour has no white space, no ':' and does not end in a carriage return. */
  lemma ValidHexChars(h: string)
    requires ValidHex(h)
    ensures NoSpace(h) && ':' !in h && '\n' !in h && h[|h| - 1] != '\r'
  {
  }

  /** The line written for a colour whose channels read as numbers. */
  lemma ColorLineOf(h: string, r: int, g: int, b: int)
    requires HexChannels(h) == (Some(r), Some(g), Some(b))
    requires |h| > 0 && h[|h| - 1] != '\r'
    ensures ColorLine(h) == PadStart(IntString(r, 10), 3) + " " + PadStart(IntString(g, 10), 3) + " " + PadStart(IntString(b, 10), 3) + " " + h
    ensures DropCR(ColorLine(h)) == ColorLine(h)
  {
    var line := ColorLine(h);
    assert line[|line| - 1] == h[|h| - 1];
  }

  /** A character other than white space survives trimming. */
  lemma TrimKeeps(s: string, i: int)
    requires 0 <= i < |s| && !IsSpace(s[i])
    ensures s[i] in Trim(s)
  {
    var a := LeadingSpaces(s);
    assert a <= i;
    var rest := s[a..];
    assert rest[i - a] == s[i];
    assert TrailingStart(rest) > i - a;
    assert Trim(s)[i - a] == s[i];
  }

  /** The header lines yield no colour. */
  lemma HeaderYieldsNothing(name: string)
    ensures ParsedColors(DropEach(HeaderLines(name))) == []
  {
    var ls := DropEach(HeaderLines(name));
    forall i | 0 <= i < |ls| ensures LineColor(ls[i]) == None {
      if i == 0 {
        MagicLineYieldsNothing();
      } else if i == 1 {
        assert ls[1][4] == ':';
        ColonLineYieldsNothing(ls[1], 4);
      } else if i == 2 {
        assert ls[2][7] == ':';
        ColonLineYieldsNothing(ls[2], 7);
      } else {
        CommentLineYieldsNothing();
      }
    }
    CollectedNone(LineColor, ls);
  }

  lemma MagicLineYieldsNothing()
    ensures LineColor(DropCR(HeaderLine)) == None
  {
    TrimAround(0, HeaderLine, 0);
    assert Spaces(0) + HeaderLine + Spaces(0) == HeaderLine;
  }

  lemma CommentLineYieldsNothing()
    ensures LineColor(DropCR("#")) == None
  {
    assert Trim("#") == "#";
  }

  /** A line with a ':' anywhere yields no colour. */
  lemma ColonLineYieldsNothing(line: string, i: int)
    requires 0 <= i < |line| && line[i] == ':'
    ensures LineColor(line) == None
  {
    TrimKeeps(line, i);
  }

  /** Every valid colour, normalised. */
  function NormalisedAll(colors: seq<string>): (ns: seq<string>)
    requires forall i :: 0 <= i < |colors| ==> ValidHex(colors[i])
    ensures |ns| == |colors| && forall i :: 0 <= i < |colors| ==> ns[i] == Normalised(colors[i])
  {
    seq(|colors|, i requires 0 <= i < |colors| => Normalised(colors[i]))
  }

  /** The colour lines parse back to the normalised colours, in order. */
  lemma ColorLinesRoundTrip(colors: seq<string>)
    requires forall i :: 0 <= i < |colors| ==> ValidHex(colors[i])
    ensures ParsedColors(DropEach(ColorLines(colors))) == NormalisedAll(colors)
  {
    var ls, ns := DropEach(ColorLines(colors)), NormalisedAll(colors);
    forall i | 0 <= i < |ls| ensures LineColor(ls[i]) == Some(ns[i]) {
      ColorLineRoundTrip(colors[i]);
    }
    CollectedEach(LineColor, ls, ns);
  }

  /** Round trip: parsing the generated text of valid colours and a one-line name gives back
      the colours, in order, in lowercase six-digit form. */
  lemma RoundTrip(colors: seq<string>, name: string)
    requires '\n' !in name
    requires forall i :: 0 <= i < |colors| ==> ValidHex(colors[i])
    ensures ParsedColors(Lines(GplText(colors, name))) == NormalisedAll(colors)
  {
    ValidHexSingleLine(colors);
    GplLines(colors, name);
    GeneratedLinesParse(colors, name);
  }

  /** The header lines, the colour lines and the empty last piece yield the colours. */
  lemma GeneratedLinesParse(colors: seq<string>, name: string)
    requires forall i :: 0 <= i < |colors| ==> ValidHex(colors[i])
    ensures ParsedColors(DropEach(HeaderLines(name) + ColorLines(colors)) + [""]) == NormalisedAll(colors)
  {
    var hs, cs := HeaderLines(name), ColorLines(colors);
    DropEachAppend(hs, cs);
    HeaderYieldsNothing(name);
    ColorLinesRoundTrip(colors);
    ParsedPieces(DropEach(hs), DropEach(cs), NormalisedAll(colors));
  }

  /** Lines that yield nothing, then lines that yield ns, then an empty piece, yield ns. */
  lemma ParsedPieces(hs: seq<string>, cs: seq<string>, ns: seq<string>)
    requires ParsedColors(hs) == [] && ParsedColors(cs) == ns
    ensures ParsedColors(hs + cs + [""]) == ns
  {
    CollectedThree(LineColor, hs, cs, [""]);
    BlankYieldsNothing();
  }

  lemma DropEachAppend(a: seq<string>, b: seq<string>)
    ensures DropEach(a + b) == DropEach(a) + DropEach(b)
  {
  }

  lemma ValidHexSingleLine(colors: seq<string>)
    requires forall i :: 0 <= i < |colors| ==> ValidHex(colors[i])
    ensures forall i :: 0 <= i < |colors| ==> '\n' !in colors[i]
  {
    forall i | 0 <= i < |colors| ensures '\n' !in colors[i] {
      ValidHexChars(colors[i]);
    }
  }

  lemma BlankYieldsNothing()
    ensures ParsedColors([""]) == []
  {
    assert Trim("") == "";
  }

  lemma CollectedThree(read: string -> Option<string>, a: seq<string>, b: seq<string>, c: seq<string>)
    ensures Collected(read, a + b + c) == Collected(read, a) + Collected(read, b) + Collected(read, c)
  {
    CollectedAppend(read, a + b, c);
    CollectedAppend(read, a, b);
  }
}
