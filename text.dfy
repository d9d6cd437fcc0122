/** The string operations the compiler relies on, with JavaScript's meaning:
    `String.prototype.split` with a one-character separator, `join`, `trim`,
    ASCII `toLowerCase`, and the unary `+` that turns a token into a number. */
module Text {
  import opened Wrappers

  /** `parts.join(sep)` for a one-character separator. */
  function Join(parts: seq<string>, sep: char): string
  {
    if |parts| == 0 then ""
    else if |parts| == 1 then parts[0]
    else parts[0] + [sep] + Join(parts[1..], sep)
  }

  /** `parts.join("")`. */
  function Concat(parts: seq<string>): string
  {
    if parts == [] then "" else parts[0] + Concat(parts[1..])
  }

  /** `s.split(sep)`: the maximal pieces between separators, at least one
      (the empty string splits into one empty piece). */
  function Split(s: string, sep: char): (parts: seq<string>)
    ensures |parts| >= 1
    ensures forall i :: 0 <= i < |parts| ==> sep !in parts[i]
    ensures Join(parts, sep) == s
  {
    if s == [] then [""]
    else
      var rest := Split(s[1..], sep);
      if s[0] == sep then [""] + rest
      else [[s[0]] + rest[0]] + rest[1..]
  }

  /** Splitting is the inverse of joining pieces that hold no separator. */
  lemma {:induction false} SplitJoin(parts: seq<string>, sep: char)
    requires |parts| >= 1
    requires forall i :: 0 <= i < |parts| ==> sep !in parts[i]
    ensures Split(Join(parts, sep), sep) == parts
  {
    if |parts| == 1 {
      SplitPlain(parts[0], sep);
    } else {
      SplitJoin(parts[1..], sep);
      SplitAfterPiece(parts[0], Join(parts[1..], sep), sep);
    }
  }

  lemma {:induction false} SplitPlain(p: string, sep: char)
    requires sep !in p
    ensures Split(p, sep) == [p]
  {
    if p != [] {
      SplitPlain(p[1..], sep);
    }
  }

  lemma {:induction false} SplitAfterPiece(p: string, r: string, sep: char)
    requires sep !in p
    ensures Split(p + [sep] + r, sep) == [p] + Split(r, sep)
  {
    if p == [] {
      assert p + [sep] + r == [sep] + r;
      assert ([sep] + r)[1..] == r;
    } else {
      assert (p + [sep] + r)[1..] == p[1..] + [sep] + r;
      SplitAfterPiece(p[1..], r, sep);
      assert [p[0]] + p[1..] == p;
    }
  }

  /** The characters `String.prototype.trim` removes and unary `+` ignores
      (JavaScript's WhiteSpace and LineTerminator, without the other Unicode
      space separators). */
  const Spaces: set<char> :=
    {' ', '\t', '\n', '\r', '\U{B}', '\U{C}', '\U{A0}', '\U{FEFF}', '\U{2028}', '\U{2029}'}

  predicate IsSpace(c: char)
  {
    c in Spaces
  }

  predicate AllSpace(s: string)
  {
    forall i :: 0 <= i < |s| ==> IsSpace(s[i])
  }

  function TrimStart(s: string): (r: string)
    ensures |r| <= |s| && r == s[|s| - |r|..] && AllSpace(s[..|s| - |r|])
    ensures r != [] ==> !IsSpace(r[0])
    ensures r == [] <==> AllSpace(s)
  {
    if s == [] then s
    else if !IsSpace(s[0]) then
      TrimStartNone(s);
      s
    else
      var r := TrimStart(s[1..]);
      TrimStartStep(s, r);
      r
  }

  /** Nothing is cut from a string that starts with a non-space. */
  lemma TrimStartNone(s: string)
    requires s != [] && !IsSpace(s[0])
    ensures s == s[|s| - |s|..] && AllSpace(s[..|s| - |s|]) && !AllSpace(s)
  {
    assert s[..0] == [] && s[0..] == s;
  }

  /** Cutting one leading space keeps the facts `TrimStart` promises. */
  lemma TrimStartStep(s: string, r: string)
    requires s != [] && IsSpace(s[0])
    requires |r| <= |s[1..]| && r == s[1..][|s[1..]| - |r|..] && AllSpace(s[1..][..|s[1..]| - |r|])
    requires r == [] <==> AllSpace(s[1..])
    requires r != [] ==> !IsSpace(r[0])
    ensures |r| <= |s| && r == s[|s| - |r|..] && AllSpace(s[..|s| - |r|])
    ensures r != [] ==> !IsSpace(r[0])
    ensures r == [] <==> AllSpace(s)
  {
    var k := |s| - |r|;
    assert s[1..][k - 1..] == s[k..];
    forall i | 0 <= i < k
      ensures IsSpace(s[..k][i])
    {
      if i > 0 {
        assert s[..k][i] == s[1..][..k - 1][i - 1];
      }
    }
    AllSpaceCons(s);
  }

  lemma AllSpaceCons(s: string)
    requires s != []
    ensures AllSpace(s) <==> IsSpace(s[0]) && AllSpace(s[1..])
  {
    assert forall i :: 0 < i < |s| ==> s[i] == s[1..][i - 1];
  }

  function TrimEnd(s: string): (r: string)
    ensures |r| <= |s| && r == s[..|r|] && AllSpace(s[|r|..])
    ensures r != [] ==> !IsSpace(r[|r| - 1])
    ensures r == [] <==> AllSpace(s)
  {
    if s == [] || !IsSpace(s[|s| - 1]) then s
    else
      var r := TrimEnd(s[..|s| - 1]);
      assert s[|r|..] == s[..|s| - 1][|r|..] + [s[|s| - 1]];
      r
  }

  /** `r` is a slice of `s` with nothing but spaces before and after it. */
  predicate IsMiddle(s: string, r: string)
  {
    exists i :: 0 <= i <= |s| - |r| && r == s[i..i + |r|] && AllSpace(s[..i]) && AllSpace(s[i + |r|..])
  }

  /** `s.trim()`: the middle of `s` once the spaces at both ends are cut. */
  function Trim(s: string): (r: string)
    ensures |r| <= |s|
    ensures IsMiddle(s, r)
    ensures r != [] ==> !IsSpace(r[0]) && !IsSpace(r[|r| - 1])
    ensures r == [] <==> AllSpace(s)
  {
    var t := TrimStart(s);
    var r := TrimEnd(t);
    TrimSlice(s, t, r);
    r
  }

  /** The trimmed middle is the slice of `s` between its end spaces. */
  lemma TrimSlice(s: string, t: string, r: string)
    requires |t| <= |s| && t == s[|s| - |t|..] && AllSpace(s[..|s| - |t|])
    requires t != [] ==> !IsSpace(t[0])
    requires t == [] <==> AllSpace(s)
    requires |r| <= |t| && r == t[..|r|] && AllSpace(t[|r|..])
    requires r != [] ==> !IsSpace(r[|r| - 1])
    requires r == [] <==> AllSpace(t)
    ensures |r| <= |s|
    ensures IsMiddle(s, r)
    ensures r != [] ==> !IsSpace(r[0]) && !IsSpace(r[|r| - 1])
    ensures r == [] <==> AllSpace(s)
  {
    var i := |s| - |t|;
    assert s[i + |r|..] == t[|r|..];
    assert r != [] ==> r[0] == t[0];
    if r == [] {
      assert t == [];
    }
  }

  /** A string with no space at either end is its own trim. */
  lemma TrimUnpadded(s: string)
    requires s != [] && !IsSpace(s[0]) && !IsSpace(s[|s| - 1])
    ensures Trim(s) == s
  {
    assert TrimStart(s) == s;
    assert TrimEnd(s) == s;
  }

  /** Trimming twice is trimming once. */
  lemma TrimIdempotent(s: string)
    ensures Trim(Trim(s)) == Trim(s)
  {
    if Trim(s) != [] {
      TrimUnpadded(Trim(s));
    }
  }

  /** ASCII `toLowerCase`. */
  function LowerChar(c: char): char
  {
    if 'A' <= c <= 'Z' then (c as int + 32) as char else c
  }

  function Lower(s: string): string
  {
    seq(|s|, i requires 0 <= i < |s| => LowerChar(s[i]))
  }

  predicate IsDigit(c: char)
  {
    '0' <= c <= '9'
  }

  predicate AllDigits(s: string)
  {
    forall i :: 0 <= i < |s| ==> IsDigit(s[i])
  }

  /** The value of a string of decimal digits, most significant first. */
  function DigitsValue(s: string): nat
    requires AllDigits(s)
  {
    if s == [] then 0
    else DigitsValue(s[..|s| - 1]) * 10 + (s[|s| - 1] as int - '0' as int)
  }

  /** A decimal integer with an optional sign, as unary `+` reads it. */
  function ParseDecimal(s: string): Option<int>
  {
    if |s| > 0 && (s[0] == '-' || s[0] == '+') then
      var d := s[1..];
      if d != [] && AllDigits(d) then
        Some(if s[0] == '-' then -(DigitsValue(d) as int) else DigitsValue(d))
      else None
    else if s != [] && AllDigits(s) then Some(DigitsValue(s))
    else None
  }

  /** Unary `+` on a token: surrounding spaces are ignored and an empty or
      all-space token is 0. `None` stands for NaN. */
  function ToNumber(tok: string): Option<int>
  {
    var t := Trim(tok);
    if t == [] then Some(0) else ParseDecimal(t)
  }

  /** The check `!(isNaN(+x) || Math.round(+x) != +x || +x <= 0)`. */
  predicate IsPositiveInt(tok: string)
  {
    var n := ToNumber(tok);
    n.Some? && n.value > 0
  }

  function DigitChar(d: nat): char
    requires d < 10
  {
    ('0' as int + d) as char
  }

  function NatToString(n: nat): (s: string)
    ensures s != [] && AllDigits(s)
  {
    if n < 10 then [DigitChar(n)] else NatToString(n / 10) + [DigitChar(n % 10)]
  }

  /** The decimal text JavaScript's template literals produce for an integer. */
  function IntToString(n: int): (s: string)
    ensures s != [] && !IsSpace(s[0]) && !IsSpace(s[|s| - 1])
  {
    if n < 0 then "-" + NatToString(-n) else NatToString(n)
  }

  lemma {:induction false} NatToStringValue(n: nat)
    ensures DigitsValue(NatToString(n)) == n
  {
    if n >= 10 {
      NatToStringValue(n / 10);
      var s := NatToString(n);
      assert s[..|s| - 1] == NatToString(n / 10);
    }
  }

  lemma ParseDigits(d: string)
    requires d != [] && AllDigits(d)
    ensures ParseDecimal(d) == Some(DigitsValue(d) as int)
  {
    assert IsDigit(d[0]);
  }

  lemma ParseNegative(d: string)
    requires d != [] && AllDigits(d)
    ensures ParseDecimal("-" + d) == Some(-(DigitsValue(d) as int))
  {
    assert ("-" + d)[1..] == d;
  }

  /** Reading back the text of a number gives the number. */
  lemma ToNumberOfIntToString(n: int)
    ensures ToNumber(IntToString(n)) == Some(n)
  {
    var s := IntToString(n);
    TrimUnpadded(s);
    assert ToNumber(s) == ParseDecimal(s);
    ParseIntToString(n);
  }

  lemma ParseIntToString(n: int)
    ensures ParseDecimal(IntToString(n)) == Some(n)
  {
    if n < 0 {
      var d := NatToString(-n);
      assert IntToString(n) == "-" + d;
      NatToStringValue(-n);
      ParseNegative(d);
    } else {
      var d := NatToString(n);
      assert IntToString(n) == d;
      NatToStringValue(n);
      ParseDigits(d);
    }
  }

  /** Spaces in front are cut by `TrimStart`. */
  lemma {:induction false} TrimStartPadded(a: string, x: string)
    requires AllSpace(a) && x != [] && !IsSpace(x[0])
    ensures TrimStart(a + x) == x
    decreases |a|
  {
    if a != [] {
      assert (a + x)[1..] == a[1..] + x;
      TrimStartPadded(a[1..], x);
    } else {
      assert a + x == x;
    }
  }

  /** Spaces behind are cut by `TrimEnd`. */
  lemma {:induction false} TrimEndPadded(x: string, b: string)
    requires AllSpace(b) && x != [] && !IsSpace(x[|x| - 1])
    ensures TrimEnd(x + b) == x
    decreases |b|
  {
    if b != [] {
      assert (x + b)[..|x + b| - 1] == x + b[..|b| - 1];
      TrimEndPadded(x, b[..|b| - 1]);
    } else {
      assert x + b == x;
    }
  }

  /** Unary `+` ignores the spaces around a number's text. */
  lemma ToNumberPadded(a: string, n: int, b: string)
    requires AllSpace(a) && AllSpace(b)
    ensures ToNumber(a + IntToString(n) + b) == Some(n)
  {
    var x := IntToString(n);
    assert a + x + b == a + (x + b);
    TrimStartPadded(a, x + b);
    TrimEndPadded(x, b);
    ToNumberOfIntToString(n);
    TrimUnpadded(x);
  }

  /** A line as the compiler sees it: not blank and with no space at either
      end, hence its own trim (`TrimUnpadded`). */
  predicate IsTrimmedLine(l: string)
  {
    l != [] && !IsSpace(l[0]) && !IsSpace(l[|l| - 1])
  }

  function NonBlankLines(parts: seq<string>): seq<string>
  {
    if parts == [] then []
    else
      var t := Trim(parts[0]);
      (if |t| == 0 then [] else [t]) + NonBlankLines(parts[1..])
  }

  /** `text.split("\n").map(val => val.trim()).filter(val => val)`. */
  function Lines(text: string): (ls: seq<string>)
    ensures forall i :: 0 <= i < |ls| ==> IsTrimmedLine(ls[i])
  {
    NonBlankLinesTrimmed(Split(text, '\n'));
    NonBlankLines(Split(text, '\n'))
  }

  /** Every line handed to the compiler is trimmed and not blank. */
  lemma {:induction false} NonBlankLinesTrimmed(parts: seq<string>)
    ensures forall i :: 0 <= i < |NonBlankLines(parts)| ==> IsTrimmedLine(NonBlankLines(parts)[i])
  {
    if parts != [] {
      NonBlankLinesTrimmed(parts[1..]);
      var t := Trim(parts[0]);
      NonBlankLinesUnfold(parts);
      AllTrimmedAppend(if |t| == 0 then [] else [t], NonBlankLines(parts[1..]));
    }
  }

  lemma NonBlankLinesUnfold(parts: seq<string>)
    requires parts != []
    ensures NonBlankLines(parts) == (if |Trim(parts[0])| == 0 then [] else [Trim(parts[0])]) + NonBlankLines(parts[1..])
  {
  }

  lemma AllTrimmedAppend(head: seq<string>, tail: seq<string>)
    requires forall i :: 0 <= i < |head| ==> IsTrimmedLine(head[i])
    requires forall i :: 0 <= i < |tail| ==> IsTrimmedLine(tail[i])
    ensures forall i :: 0 <= i < |head + tail| ==> IsTrimmedLine((head + tail)[i])
  {
    forall i | 0 <= i < |head + tail|
      ensures IsTrimmedLine((head + tail)[i])
    {
      if i < |head| {
        assert (head + tail)[i] == head[i];
      } else {
        assert (head + tail)[i] == tail[i - |head|];
      }
    }
  }

  /** Splitting at a separator placed between two strings splits each of
      them on its own. */
  lemma {:induction false} SplitAround(a: string, b: string, sep: char)
    ensures Split(a + [sep] + b, sep) == Split(a, sep) + Split(b, sep)
    decreases |a|
  {
    if a == [] {
      assert a + [sep] + b == [sep] + b;
      assert ([sep] + b)[1..] == b;
    } else {
      assert (a + [sep] + b)[0] == a[0];
      assert (a + [sep] + b)[1..] == a[1..] + [sep] + b;
      SplitAround(a[1..], b, sep);
    }
  }

  lemma {:induction false} NonBlankLinesAppend(a: seq<string>, b: seq<string>)
    ensures NonBlankLines(a + b) == NonBlankLines(a) + NonBlankLines(b)
    decreases |a|
  {
    if a == [] {
      assert a + b == b;
    } else {
      NonBlankLinesAppend(a[1..], b);
      NonBlankLinesAppendStep(a, b);
    }
  }

  /** One step of `NonBlankLinesAppend`: the first piece of `a`. */
  lemma NonBlankLinesAppendStep(a: seq<string>, b: seq<string>)
    requires a != []
    requires NonBlankLines(a[1..] + b) == NonBlankLines(a[1..]) + NonBlankLines(b)
    ensures NonBlankLines(a + b) == NonBlankLines(a) + NonBlankLines(b)
  {
    var t := Trim(a[0]);
    var head: seq<string> := if |t| == 0 then [] else [t];
    TailAppend(a, b);
    calc {
      NonBlankLines(a + b);
      head + NonBlankLines(a[1..] + b);
      head + (NonBlankLines(a[1..]) + NonBlankLines(b));
      == { AppendAssoc(head, NonBlankLines(a[1..]), NonBlankLines(b)); }
      (head + NonBlankLines(a[1..])) + NonBlankLines(b);
      NonBlankLines(a) + NonBlankLines(b);
    }
  }

  lemma TailAppend<T>(x: seq<T>, y: seq<T>)
    requires x != []
    ensures (x + y)[0] == x[0] && (x + y)[1..] == x[1..] + y
  {
  }

  lemma ConsTail<T>(x: seq<T>)
    requires x != []
    ensures [x[0]] + x[1..] == x
  {
  }

  lemma AppendAssoc<T>(x: seq<T>, y: seq<T>, z: seq<T>)
    ensures x + (y + z) == (x + y) + z
  {
  }

  /** The lines of two texts joined by a line break are the lines of the
      first followed by the lines of the second. */
  lemma LinesAppend(s: string, t: string)
    ensures Lines(s + ['\n'] + t) == Lines(s) + Lines(t)
  {
    SplitAround(s, t, '\n');
    NonBlankLinesAppend(Split(s, '\n'), Split(t, '\n'));
  }

  /** A text without a line break is one line: dropped when blank, trimmed
      otherwise. */
  lemma LinesOfOne(p: string)
    requires '\n' !in p
    ensures Lines(p) == if AllSpace(p) then [] else [Trim(p)]
  {
    SplitPlain(p, '\n');
    NonBlankLinesOne(p);
  }

  lemma NonBlankLinesOne(p: string)
    ensures NonBlankLines([p]) == if AllSpace(p) then [] else [Trim(p)]
  {
    assert [p][0] == p && [p][1..] == [];
    assert NonBlankLines([p]) == (if |Trim(p)| == 0 then [] else [Trim(p)]) + NonBlankLines([]);
  }

  /** Lines that are trimmed, not blank and free of line breaks. */
  predicate PlainLines(ls: seq<string>)
  {
    ls == [] || (IsTrimmedLine(ls[0]) && '\n' !in ls[0] && PlainLines(ls[1..]))
  }

  /** Such lines, joined by line breaks, are read back as they were. */
  lemma LinesOfJoin(ls: seq<string>)
    requires PlainLines(ls)
    ensures Lines(Join(ls, '\n')) == ls
  {
    NonBlankOfJoin(ls);
  }

  lemma {:induction false} NonBlankOfJoin(ls: seq<string>)
    requires PlainLines(ls)
    ensures NonBlankLines(Split(Join(ls, '\n'), '\n')) == ls
    decreases |ls|
  {
    if ls == [] {
      calc {
        NonBlankLines(Split(Join(ls, '\n'), '\n'));
        == { SplitPlain("", '\n'); }
        NonBlankLines([""]);
        == { NonBlankLinesOne(""); }
        ls;
      }
    } else if |ls| == 1 {
      calc {
        NonBlankLines(Split(Join(ls, '\n'), '\n'));
        NonBlankLines(Split(ls[0], '\n'));
        == { PlainLine(ls[0]); }
        [ls[0]];
        ls;
      }
    } else {
      NonBlankOfJoin(ls[1..]);
      NonBlankOfJoinStep(ls);
    }
  }

  /** One step of `NonBlankOfJoin`: the first of several lines. */
  lemma NonBlankOfJoinStep(ls: seq<string>)
    requires |ls| > 1 && IsTrimmedLine(ls[0]) && '\n' !in ls[0]
    requires NonBlankLines(Split(Join(ls[1..], '\n'), '\n')) == ls[1..]
    ensures NonBlankLines(Split(Join(ls, '\n'), '\n')) == ls
  {
    var l, rest := ls[0], ls[1..];
    calc {
      NonBlankLines(Split(Join(ls, '\n'), '\n'));
      == { JoinFirst(ls, '\n'); }
      NonBlankLines(Split(l + ['\n'] + Join(rest, '\n'), '\n'));
      == { NonBlankCons(l, Join(rest, '\n'), rest); }
      [l] + rest;
      == { ConsTail(ls); }
      ls;
    }
  }

  lemma NonBlankCons(l: string, j: string, rest: seq<string>)
    requires IsTrimmedLine(l) && '\n' !in l
    requires NonBlankLines(Split(j, '\n')) == rest
    ensures NonBlankLines(Split(l + ['\n'] + j, '\n')) == [l] + rest
  {
    PlainLine(l);
    SplitAround(l, j, '\n');
    NonBlankLinesAppend(Split(l, '\n'), Split(j, '\n'));
  }

  /** A trimmed, non-blank line without a line break is split and read as
      itself. */
  lemma PlainLine(l: string)
    requires IsTrimmedLine(l) && '\n' !in l
    ensures NonBlankLines(Split(l, '\n')) == [l]
  {
    SplitPlain(l, '\n');
    NonBlankLinesOne(l);
    TrimUnpadded(l);
  }

  lemma JoinFirst(ls: seq<string>, sep: char)
    requires |ls| > 1
    ensures Join(ls, sep) == ls[0] + [sep] + Join(ls[1..], sep)
  {
  }

  /** `line.toLowerCase().split(" ")`: the lower-cased line cut at every
      space, so that the tokens joined by spaces give it back. */
  function Tokens(line: string): (toks: seq<string>)
    ensures |toks| >= 1
    ensures forall i :: 0 <= i < |toks| ==> ' ' !in toks[i]
    ensures Join(toks, ' ') == Lower(line)
  {
    Split(Lower(line), ' ')
  }

  /** A string that `toLowerCase` leaves alone. */
  predicate NoUpper(s: string)
  {
    forall i :: 0 <= i < |s| ==> !('A' <= s[i] <= 'Z')
  }

  lemma LowerNoUpper(s: string)
    requires NoUpper(s)
    ensures Lower(s) == s
  {
  }

  /** A non-empty token with no space and no upper-case letter. */
  predicate Word(s: string)
  {
    s != [] && NoUpper(s) && forall i :: 0 <= i < |s| ==> !IsSpace(s[i])
  }

  /** Every character of a join is the separator or a character of a part. */
  lemma {:induction false} JoinHas(parts: seq<string>, sep: char, k: nat)
    requires k < |Join(parts, sep)|
    ensures Join(parts, sep)[k] == sep || exists i, j :: 0 <= i < |parts| && 0 <= j < |parts[i]| && Join(parts, sep)[k] == parts[i][j]
    decreases |parts|
  {
    if |parts| > 1 {
      var rest := Join(parts[1..], sep);
      if k > |parts[0]| {
        JoinHas(parts[1..], sep, k - |parts[0]| - 1);
        var c := rest[k - |parts[0]| - 1];
        if c != sep {
          var i, j :| 0 <= i < |parts[1..]| && 0 <= j < |parts[1..][i]| && c == parts[1..][i][j];
          assert c == parts[i + 1][j];
        }
      } else if k < |parts[0]| {
        assert Join(parts, sep)[k] == parts[0][k];
      }
    }
  }

  /** Joining words by a space gives a line with no upper-case letter. */
  lemma JoinNoUpper(parts: seq<string>, sep: char)
    requires !('A' <= sep <= 'Z')
    requires forall i :: 0 <= i < |parts| ==> NoUpper(parts[i])
    ensures NoUpper(Join(parts, sep))
  {
    forall k | 0 <= k < |Join(parts, sep)| ensures !('A' <= Join(parts, sep)[k] <= 'Z') {
      JoinHas(parts, sep, k);
    }
  }

  /** Words joined by a separator that is neither a space nor upper case
      form a word. */
  lemma JoinWord(parts: seq<string>, sep: char)
    requires |parts| >= 1 && forall i :: 0 <= i < |parts| ==> Word(parts[i])
    requires !IsSpace(sep) && !('A' <= sep <= 'Z')
    ensures Word(Join(parts, sep))
  {
    JoinNoUpper(parts, sep);
    var j := Join(parts, sep);
    assert |parts| > 1 ==> j == parts[0] + [sep] + Join(parts[1..], sep);
    assert j[0] == parts[0][0];
    forall k | 0 <= k < |j| ensures !IsSpace(j[k]) {
      JoinHas(parts, sep, k);
    }
  }

  lemma Join3(a: string, b: string, c: string)
    ensures Join([a, b, c], ' ') == a + " " + b + " " + c
  {
    assert [a, b, c][1..] == [b, c];
    assert [b, c][1..] == [c];
    assert Join([b, c], ' ') == b + [' '] + c;
    assert " " == [' '];
    assert a + [' '] + (b + [' '] + c) == a + [' '] + b + [' '] + c;
  }

  lemma Join5(a: string, b: string, c: string, d: string, e: string)
    ensures Join([a, b, c, d, e], ' ') == a + " " + b + " " + c + " " + d + " " + e
  {
    assert [a, b, c, d, e][1..] == [b, c, d, e];
    assert [b, c, d, e][1..] == [c, d, e];
    Join3(c, d, e);
    assert " " == [' '];
    assert a + [' '] + (b + [' '] + (c + " " + d + " " + e)) == a + " " + b + " " + c + " " + d + " " + e;
  }

  /** Tokenising words joined by single spaces gives the words back. */
  lemma TokensOfWords(parts: seq<string>)
    requires |parts| >= 1 && forall i :: 0 <= i < |parts| ==> Word(parts[i])
    ensures Tokens(Join(parts, ' ')) == parts
  {
    JoinNoUpper(parts, ' ');
    LowerNoUpper(Join(parts, ' '));
    SplitJoin(parts, ' ');
  }

  /** Three words joined by single spaces tokenise back into the three. */
  lemma TokensOfThree(a: string, b: string, c: string)
    requires Word(a) && Word(b) && Word(c)
    ensures Tokens(a + " " + b + " " + c) == [a, b, c]
  {
    Join3(a, b, c);
    TokensOfWords([a, b, c]);
  }

  lemma TokensOfFive(a: string, b: string, c: string, d: string, e: string)
    requires Word(a) && Word(b) && Word(c) && Word(d) && Word(e)
    ensures Tokens(a + " " + b + " " + c + " " + d + " " + e) == [a, b, c, d, e]
  {
    Join5(a, b, c, d, e);
    TokensOfWords([a, b, c, d, e]);
  }

  /** The decimal text of an integer is a word. */
  lemma IntToStringWord(n: int)
    ensures Word(IntToString(n)) && IntToString(n)[0] != '@' && ',' !in IntToString(n)
  {
    var d := NatToString(if n < 0 then -n else n);
    assert forall i :: 0 <= i < |d| ==> IsDigit(d[i]);
    if n < 0 {
      assert forall i :: 1 <= i < |IntToString(n)| ==> IntToString(n)[i] == d[i - 1];
    }
  }
}
