/**
 * The string operations the tracker uses: String.prototype.split on one
 * character, String.prototype.trim, and the part of JavaScript's `Number(s)`
 * conversion that a start time or a CSV field goes through.
 */
module Text {
  import opened Optional

  /** JavaScript's white space and line terminators: what `trim` removes and `Number` ignores. */
  predicate IsSpace(c: char)
  {
    c == '\t' || c == '\n' || c == '\U{000B}' || c == '\U{000C}' || c == '\r' || c == ' '
    || c == '\U{00A0}' || c == '\U{1680}' || ('\U{2000}' <= c <= '\U{200A}')
    || c == '\U{2028}' || c == '\U{2029}' || c == '\U{202F}' || c == '\U{205F}'
    || c == '\U{3000}' || c == '\U{FEFF}'
  }

  // ---------------------------------------------------------------- split

  /** `s.split(sep)`: the pieces between occurrences of `sep`; the empty string gives `[""]`. */
  function Split(s: string, sep: char): (parts: seq<string>)
    ensures |parts| >= 1
  {
    if s == [] then [""]
    else
      var rest := Split(s[1..], sep);
      if s[0] == sep then [""] + rest
      else [[s[0]] + rest[0]] + rest[1..]
  }

  /** `parts.join(sep)`. */
  function Join(parts: seq<string>, sep: char): string
    requires |parts| >= 1
  {
    if |parts| == 1 then parts[0] else parts[0] + [sep] + Join(parts[1..], sep)
  }

  /** Joining the pieces of a split gives back the original string. */
  lemma {:induction false} JoinSplit(s: string, sep: char)
    ensures Join(Split(s, sep), sep) == s
  {
    if s != [] {
      var rest := Split(s[1..], sep);
      JoinSplit(s[1..], sep);
      assert s == [s[0]] + s[1..];
      if s[0] == sep {
        JoinAfterEmpty(rest, sep);
      } else {
        JoinGrowFirst(s[0], rest, sep);
      }
    }
  }

  /** An empty first piece contributes only its separator. */
  lemma JoinAfterEmpty(parts: seq<string>, sep: char)
    requires |parts| >= 1
    ensures Join([""] + parts, sep) == [sep] + Join(parts, sep)
  {
    assert ([""] + parts)[1..] == parts;
  }

  /** A character put in front of the first piece comes first in the join. */
  lemma JoinGrowFirst(c: char, parts: seq<string>, sep: char)
    requires |parts| >= 1
    ensures Join([[c] + parts[0]] + parts[1..], sep) == [c] + Join(parts, sep)
  {
    var grown := [[c] + parts[0]] + parts[1..];
    if |parts| > 1 {
      var tail := Join(parts[1..], sep);
      assert grown[1..] == parts[1..];
      assert Join(grown, sep) == ([c] + parts[0]) + [sep] + tail;
      assert ([c] + parts[0]) + [sep] + tail == [c] + (parts[0] + [sep] + tail);
    }
  }

  /** A string without `sep` splits into itself alone. */
  lemma {:induction false} SplitNoSeparator(s: string, sep: char)
    requires sep !in s
    ensures Split(s, sep) == [s]
  {
    if s != [] {
      SplitNoSeparator(s[1..], sep);
      assert s == [s[0]] + s[1..];
    }
  }

  /** A separator after a piece without separators starts a new piece. */
  lemma {:induction false} SplitAfterPiece(a: string, sep: char, t: string)
    requires sep !in a
    ensures Split(a + [sep] + t, sep) == [a] + Split(t, sep)
  {
    if a == [] {
      assert a + [sep] + t == [sep] + t;
      assert ([sep] + t)[1..] == t;
    } else {
      assert (a + [sep] + t)[1..] == a[1..] + [sep] + t;
      SplitAfterPiece(a[1..], sep, t);
      assert [a[0]] + a[1..] == a;
    }
  }

  /** Splitting a join of separator-free pieces gives back the pieces. */
  lemma {:induction false} SplitJoin(parts: seq<string>, sep: char)
    requires |parts| >= 1
    requires forall k :: 0 <= k < |parts| ==> sep !in parts[k]
    ensures Split(Join(parts, sep), sep) == parts
  {
    if |parts| == 1 {
      SplitNoSeparator(parts[0], sep);
    } else {
      SplitJoin(parts[1..], sep);
      SplitAfterPiece(parts[0], sep, Join(parts[1..], sep));
      assert parts == [parts[0]] + parts[1..];
    }
  }

  // ---------------------------------------------------------------- trim

  /** How many characters at the start of `s` satisfy `p`, up to the first that does not. */
  function LeadingCount(s: string, p: char -> bool): (n: nat)
    ensures n <= |s|
  {
    if s != [] && p(s[0]) then 1 + LeadingCount(s[1..], p) else 0
  }

  /** How many characters at the end of `s` satisfy `p`, back to the last that does not. */
  function TrailingCount(s: string, p: char -> bool): (n: nat)
    ensures n <= |s|
  {
    if s != [] && p(s[|s| - 1]) then 1 + TrailingCount(s[..|s| - 1], p) else 0
  }

  /** The leading run satisfies `p`, and the character after it, if any, does not. */
  lemma {:induction false} LeadingCountSpec(s: string, p: char -> bool)
    ensures var n := LeadingCount(s, p);
            (forall k :: 0 <= k < n ==> p(s[k])) && (n < |s| ==> !p(s[n]))
  {
    if s != [] && p(s[0]) {
      var rest := s[1..];
      LeadingCountSpec(rest, p);
      var n := LeadingCount(s, p);
      forall k | 0 < k < n
        ensures p(s[k])
      {
        assert s[k] == rest[k - 1];
      }
      if n < |s| {
        assert s[n] == rest[n - 1];
      }
    }
  }

  /** The trailing run satisfies `p`, and the character before it, if any, does not. */
  lemma {:induction false} TrailingCountSpec(s: string, p: char -> bool)
    ensures var n := TrailingCount(s, p);
            (forall k :: |s| - n <= k < |s| ==> p(s[k])) && (n < |s| ==> !p(s[|s| - n - 1]))
  {
    if s != [] && p(s[|s| - 1]) {
      var init := s[..|s| - 1];
      TrailingCountSpec(init, p);
      var n := TrailingCount(s, p);
      forall k | |s| - n <= k < |s| - 1
        ensures p(s[k])
      {
        assert s[k] == init[k];
      }
      if n < |s| {
        assert s[|s| - n - 1] == init[|init| - (n - 1) - 1];
      }
    }
  }

  /**
   * Dropping the leading and then the trailing run leaves a slice of `s`
   * that neither starts nor ends with a character satisfying `p`, with only
   * such characters before and after it.
   */
  lemma Strip(s: string, p: char -> bool)
    ensures var i := LeadingCount(s, p); var t := s[i..]; var r := t[..|t| - TrailingCount(t, p)];
            (r == [] || (!p(r[0]) && !p(r[|r| - 1])))
            && i + |r| <= |s| && r == s[i..i + |r|]
            && (forall k :: 0 <= k < i ==> p(s[k]))
            && (forall k :: i + |r| <= k < |s| ==> p(s[k]))
  {
    var i := LeadingCount(s, p);
    var t := s[i..];
    var m := TrailingCount(t, p);
    var r := t[..|t| - m];
    LeadingCountSpec(s, p);
    TrailingCountSpec(t, p);
    if r != [] {
      assert r[0] == s[i];
      assert r[|r| - 1] == t[|t| - m - 1];
    }
    forall k | i + |r| <= k < |s|
      ensures p(s[k])
    {
      assert s[k] == t[k - i];
    }
  }

  /** `s.trimStart()`: `s` after its leading white space. */
  function TrimStart(s: string): string
  {
    s[LeadingCount(s, IsSpace)..]
  }

  /** `s.trimEnd()`: `s` before its trailing white space. */
  function TrimEnd(s: string): string
  {
    s[..|s| - TrailingCount(s, IsSpace)]
  }

  /** `s.trim()`. */
  function Trim(s: string): (r: string)
    ensures |r| <= |s|
  {
    TrimEnd(TrimStart(s))
  }

  /**
   * `trim` leaves the slice of `s` that starts after the leading white space
   * and is followed only by white space, and that slice neither starts nor
   * ends with white space.
   */
  lemma TrimSpec(s: string)
    ensures var r := Trim(s); var i := |s| - |TrimStart(s)|;
            (r == [] || (!IsSpace(r[0]) && !IsSpace(r[|r| - 1])))
            && i + |r| <= |s| && r == s[i..i + |r|]
            && (forall k :: 0 <= k < i ==> IsSpace(s[k]))
            && (forall k :: i + |r| <= k < |s| ==> IsSpace(s[k]))
  {
    Strip(s, IsSpace);
  }

  /** A string with no white space at either end is its own trim. */
  lemma TrimOfTrimmed(s: string)
    requires s == [] || (!IsSpace(s[0]) && !IsSpace(s[|s| - 1]))
    ensures Trim(s) == s
  {
    assert LeadingCount(s, IsSpace) == 0;
    assert TrimStart(s) == s;
    assert TrailingCount(s, IsSpace) == 0;
  }

  /** Trimming twice is trimming once. */
  lemma TrimIdempotent(s: string)
    ensures Trim(Trim(s)) == Trim(s)
  {
    TrimSpec(s);
    TrimOfTrimmed(Trim(s));
  }

  // ---------------------------------------------------------------- numbers

  predicate IsDigit(c: char)
  {
    '0' <= c <= '9'
  }

  predicate AllDigits(s: string)
  {
    forall k :: 0 <= k < |s| ==> IsDigit(s[k])
  }

  /** The value of a string of decimal digits; the empty string is 0. */
  function DigitsValue(s: string): (n: nat)
    requires AllDigits(s)
  {
    if s == [] then 0 else DigitsValue(s[..|s| - 1]) * 10 + (s[|s| - 1] - '0') as int
  }

  /**
   * `Math.trunc(Number(s))` for the decimal forms: optional white space, then
   * nothing at all (0), or an optional sign followed by digits with an optional
   * fractional part. `None` stands for NaN.
   */
  function JsInteger(s: string): (r: Option<int>)
  {
    var t := Trim(s);
    if t == [] then Some(0)
    else if t[0] == '-' then
      match UnsignedDecimal(t[1..])
      case Some(n) => Some(-(n as int))
      case None => None
    else if t[0] == '+' then UnsignedDecimal(t[1..])
    else UnsignedDecimal(t)
  }

  /** The integer part of digits with an optional '.' and fraction, at least one digit in all. */
  function UnsignedDecimal(s: string): (r: Option<nat>)
  {
    var pieces := Split(s, '.');
    if |pieces| > 2 || !AllDigits(pieces[0]) then None
    else if |pieces| == 1 then (if pieces[0] == [] then None else Some(DigitsValue(pieces[0])))
    else if !AllDigits(pieces[1]) || (pieces[0] == [] && pieces[1] == []) then None
    else Some(DigitsValue(pieces[0]))
  }

  /** The two-digit decimal rendering of 0..99, as an `<input type="time">` writes hours and minutes. */
  function TwoDigits(n: nat): (s: string)
    requires n < 100
    ensures |s| == 2 && AllDigits(s)
  {
    [('0' as int + n / 10) as char, ('0' as int + n % 10) as char]
  }

  /** Reading back a two-digit rendering gives the number. */
  lemma TwoDigitsValue(n: nat)
    requires n < 100
    ensures DigitsValue(TwoDigits(n)) == n
  {
    var s := TwoDigits(n);
    assert s[..1] == [s[0]];
    assert DigitsValue(s[..1]) == n / 10;
  }

  /** A character that may occur in the decimal text `Number` reads: white space, a digit, a sign or '.'. */
  predicate IsNumeralChar(c: char)
  {
    IsSpace(c) || IsDigit(c) || c == '+' || c == '-' || c == '.'
  }

  /** Every character of a string other than the separator ends up in some piece of its split. */
  lemma {:induction false} SplitKeepsChar(s: string, sep: char, c: char)
    requires c in s && c != sep
    ensures exists j :: 0 <= j < |Split(s, sep)| && c in Split(s, sep)[j]
  {
    var parts := Split(s, sep);
    var rest := Split(s[1..], sep);
    if s[0] == c {
      assert parts[0] == [c] + rest[0];
    } else {
      assert c in s[1..] by { var m :| 0 <= m < |s| && s[m] == c; assert s[1..][m - 1] == c; }
      SplitKeepsChar(s[1..], sep, c);
      var j :| 0 <= j < |rest| && c in rest[j];
      if s[0] == sep {
        assert parts[j + 1] == rest[j];
      } else if j == 0 {
        assert parts[0] == [s[0]] + rest[0];
      } else {
        assert parts[j] == rest[j];
      }
    }
  }

  /** Unsigned decimal text holding a character that is neither a digit nor '.' is NaN. */
  lemma UnsignedDecimalNaN(u: string, c: char)
    requires c in u && !IsDigit(c) && c != '.'
    ensures UnsignedDecimal(u) == None
  {
    var pieces := Split(u, '.');
    SplitKeepsChar(u, '.', c);
    var j :| 0 <= j < |pieces| && c in pieces[j];
    var m :| 0 <= m < |pieces[j]| && pieces[j][m] == c;
    if |pieces| <= 2 {
      assert !AllDigits(pieces[j]);
    }
  }

  /**
   * Text holding a character that no decimal numeral has converts to NaN.
   * (JavaScript also reads `Infinity` and the exponent, hexadecimal, binary
   * and octal forms, which this conversion does not model.)
   */
  lemma JsIntegerNaN(s: string, k: nat)
    requires k < |s| && !IsNumeralChar(s[k])
    ensures JsInteger(s) == None
  {
    TrimSpec(s);
    var t := Trim(s);
    var i := |s| - |TrimStart(s)|;
    assert i <= k < i + |t|;
    var c := s[k];
    assert t[k - i] == c;
    if t[0] == '-' || t[0] == '+' {
      assert t[1..][k - i - 1] == c;
      UnsignedDecimalNaN(t[1..], c);
    } else {
      UnsignedDecimalNaN(t, c);
    }
  }

  /** A run of digits converts to its own value. */
  lemma {:induction false} JsIntegerOfDigits(s: string)
    requires s != [] && AllDigits(s)
    ensures JsInteger(s) == Some(DigitsValue(s))
  {
    TrimOfTrimmed(s);
    assert forall k :: 0 <= k < |s| ==> s[k] != '.';
    SplitNoSeparator(s, '.');
    assert UnsignedDecimal(s) == Some(DigitsValue(s));
  }
}
