// The few Python string built-ins the scripts rely on: str.strip(),
// str.split(sep), int(s) and str(n), on strings of characters.

module Text {
  import opened Common

  /** The characters for which Python's str.isspace() holds. */
  predicate IsSpace(c: char) {
    if c <= ' ' then ('\t' <= c <= '\r') || ('\U{1C}' <= c)
    else if c <= '\U{A0}' then c == '\U{85}' || c == '\U{A0}'
    else
      || c == '\U{1680}' || ('\U{2000}' <= c <= '\U{200A}')
      || c == '\U{2028}' || c == '\U{2029}' || c == '\U{202F}' || c == '\U{205F}' || c == '\U{3000}'
  }

  predicate AllSpace(s: string) {
    forall i :: 0 <= i < |s| ==> IsSpace(s[i])
  }

  /** The number of whitespace characters that open s. */
  function LeadingSpaces(s: string): (k: nat)
    ensures k <= |s|
  {
    if |s| > 0 && IsSpace(s[0]) then 1 + LeadingSpaces(s[1..]) else 0
  }

  /** The number of whitespace characters that close s. */
  function TrailingSpaces(s: string): (k: nat)
    ensures k <= |s|
  {
    if |s| > 0 && IsSpace(s[|s| - 1]) then 1 + TrailingSpaces(s[..|s| - 1]) else 0
  }

  /** LeadingSpaces counts the whole whitespace run at the start, and no more. */
  lemma {:induction false} LeadingSpacesRun(s: string)
    ensures var k := LeadingSpaces(s);
      AllSpace(s[..k]) && (k == |s| || !IsSpace(s[k]))
  {
    if |s| > 0 && IsSpace(s[0]) {
      LeadingSpacesRun(s[1..]);
      var k := LeadingSpaces(s);
      assert s[..k] == [s[0]] + s[1..][..k - 1];
    }
  }

  /** TrailingSpaces counts the whole whitespace run at the end, and no more. */
  lemma {:induction false} TrailingSpacesRun(s: string)
    ensures var k := TrailingSpaces(s);
      AllSpace(s[|s| - k..]) && (k == |s| || !IsSpace(s[|s| - k - 1]))
  {
    if |s| > 0 && IsSpace(s[|s| - 1]) {
      var rest := s[..|s| - 1];
      TrailingSpacesRun(rest);
      var k := TrailingSpaces(s);
      assert s[|s| - k..] == rest[|rest| - (k - 1)..] + [s[|s| - 1]];
    }
  }

  /** Python's `s.strip()`: s without its leading and trailing whitespace. */
  function Strip(s: string): (t: string)
    ensures |t| <= |s|
  {
    var rest := s[LeadingSpaces(s)..];
    rest[..|rest| - TrailingSpaces(rest)]
  }

  /**
   * What Strip removes is whitespace at either end and only that, and what
   * it leaves neither starts nor ends with whitespace.
   */
  lemma StripRemovesOnlySpace(s: string)
    ensures var t := Strip(s);
      && (t == [] || (!IsSpace(t[0]) && !IsSpace(t[|t| - 1])))
      && exists i :: 0 <= i <= |s| - |t| && t == s[i..i + |t|] && AllSpace(s[..i]) && AllSpace(s[i + |t|..])
  {
    var i := LeadingSpaces(s);
    var rest := s[i..];
    var j := |rest| - TrailingSpaces(rest);
    var t := rest[..j];
    LeadingSpacesRun(s);
    TrailingSpacesRun(rest);
    if j > 0 {
      assert t[0] == s[i];
      assert t[j - 1] == rest[|rest| - TrailingSpaces(rest) - 1];
    }
    assert t == s[i..i + j];
    assert s[i + j..] == rest[j..];
  }

  predicate IsDigit(c: char) { '0' <= c <= '9' }

  predicate AllDigits(s: string) {
    forall i :: 0 <= i < |s| ==> IsDigit(s[i])
  }

  function DigitValue(c: char): nat
    requires IsDigit(c)
  {
    (c as int - '0' as int) as nat
  }

  function DigitChar(d: nat): (c: char)
    requires d < 10
    ensures IsDigit(c) && DigitValue(c) == d
  {
    (d + '0' as int) as char
  }

  /** The value of a decimal numeral, most significant digit first. */
  function DigitsValue(s: string): nat
    requires AllDigits(s)
  {
    if s == [] then 0 else DigitsValue(s[..|s| - 1]) * 10 + DigitValue(s[|s| - 1])
  }

  /** Python's `str(n)` for a non-negative integer. */
  function NatToString(n: nat): (s: string)
    ensures |s| >= 1 && AllDigits(s)
    ensures n > 0 ==> s[0] != '0'
  {
    if n < 10 then [DigitChar(n)] else NatToString(n / 10) + [DigitChar(n % 10)]
  }

  /**
   * Python's `int(s)` for a string: surrounding whitespace is ignored (peeled
   * off one character at a time, ParseIntStrips shows this is Strip), and
   * what is left must be a numeral.
   */
  function ParseInt(s: string): (r: Option<int>)
    decreases |s|
  {
    if |s| > 0 && IsSpace(s[0]) then ParseInt(s[1..])
    else if |s| > 0 && IsSpace(s[|s| - 1]) then ParseInt(s[..|s| - 1])
    else ParseNumeral(s)
  }

  /**
   * A numeral: an optional sign followed by at least one decimal digit;
   * anything else raises ValueError (here None).
   */
  function ParseNumeral(t: string): (r: Option<int>)
    ensures r.Some? <==> (|t| > 0 && AllDigits(t)) || (|t| > 1 && (t[0] == '+' || t[0] == '-') && AllDigits(t[1..]))
  {
    if |t| > 0 && (t[0] == '+' || t[0] == '-') then
      var digits := t[1..];
      if |digits| > 0 && AllDigits(digits) then
        Some(if t[0] == '-' then -(DigitsValue(digits) as int) else DigitsValue(digits))
      else None
    else if |t| > 0 && AllDigits(t) then Some(DigitsValue(t))
    else None
  }

  /** `int(s)` is the numeral left once `s.strip()` has removed the surrounding whitespace. */
  lemma {:induction false} ParseIntStrips(s: string)
    ensures ParseInt(s) == ParseNumeral(Strip(s))
    decreases |s|
  {
    if |s| > 0 && IsSpace(s[0]) {
      ParseIntStrips(s[1..]);
      assert s[LeadingSpaces(s)..] == s[1..][LeadingSpaces(s[1..])..];
    } else if |s| > 0 && IsSpace(s[|s| - 1]) {
      var t := s[..|s| - 1];
      ParseIntStrips(t);
      assert t[0] == s[0];
      assert LeadingSpaces(s) == 0 && LeadingSpaces(t) == 0;
      assert TrailingSpaces(s) == 1 + TrailingSpaces(t);
      assert s[0..] == s && t[0..] == t;
      assert Strip(s) == s[..|s| - TrailingSpaces(s)] == t[..|t| - TrailingSpaces(t)] == Strip(t);
    } else if s != [] {
      StripOfNonSpace(s);
    }
  }

  /** Python's `s.split(sep)`: the pieces between the occurrences of sep. */
  function SplitOn(s: string, sep: char): (parts: seq<string>)
    ensures |parts| >= 1
    ensures forall k :: 0 <= k < |parts| ==> sep !in parts[k]
    ensures JoinWith(parts, sep) == s
  {
    if s == [] then [""]
    else
      var rest := SplitOn(s[1..], sep);
      if s[0] == sep then
        assert JoinWith([""] + rest, sep) == "" + [sep] + JoinWith(rest, sep);
        [""] + rest
      else
        var parts := [[s[0]] + rest[0]] + rest[1..];
        assert parts[1..] == rest[1..];
        parts
  }

  /** Python's `sep.join(parts)`. */
  function JoinWith(parts: seq<string>, sep: char): string
    requires |parts| >= 1
  {
    if |parts| == 1 then parts[0] else parts[0] + [sep] + JoinWith(parts[1..], sep)
  }

  lemma {:induction false} DigitsValueOfNatToString(n: nat)
    ensures DigitsValue(NatToString(n)) == n
  {
    if n >= 10 {
      var s := NatToString(n);
      var prefix := NatToString(n / 10);
      assert s[..|s| - 1] == prefix;
      DigitsValueOfNatToString(n / 10);
    }
  }

  /** Reading back what str(n) wrote gives n. */
  lemma ParseIntOfNatToString(n: nat)
    ensures ParseInt(NatToString(n)) == Some(n)
  {
    var s := NatToString(n);
    StripOfNonSpace(s);
    DigitsValueOfNatToString(n);
  }

  /** Distinct numbers print differently. */
  lemma NatToStringInjective(m: nat, n: nat)
    requires NatToString(m) == NatToString(n)
    ensures m == n
  {
    DigitsValueOfNatToString(m);
    DigitsValueOfNatToString(n);
  }

  /** Strip leaves a string alone when both of its ends are not whitespace. */
  lemma StripOfNonSpace(s: string)
    requires s != [] && !IsSpace(s[0]) && !IsSpace(s[|s| - 1])
    ensures Strip(s) == s
  {
    assert LeadingSpaces(s) == 0;
    assert TrailingSpaces(s) == 0;
  }

  /** Splitting what was joined gives the pieces back, when no piece holds the separator. */
  lemma {:induction false} SplitOfJoin(parts: seq<string>, sep: char)
    requires |parts| >= 1
    requires forall k :: 0 <= k < |parts| ==> sep !in parts[k]
    ensures SplitOn(JoinWith(parts, sep), sep) == parts
  {
    if |parts| == 1 {
      SplitOfPiece(parts[0], [], sep);
    } else {
      SplitOfJoin(parts[1..], sep);
      SplitOfPiece(parts[0], [sep] + JoinWith(parts[1..], sep), sep);
      assert parts[0] + [sep] + JoinWith(parts[1..], sep) == parts[0] + ([sep] + JoinWith(parts[1..], sep));
      assert ([sep] + JoinWith(parts[1..], sep))[1..] == JoinWith(parts[1..], sep);
    }
  }

  /** A piece without the separator is glued onto the first part of what follows it. */
  lemma {:induction false} SplitOfPiece(piece: string, tail: string, sep: char)
    requires sep !in piece
    requires tail == [] || tail[0] == sep
    ensures var parts := SplitOn(piece + tail, sep);
      var rest := if tail == [] then [] else SplitOn(tail[1..], sep);
      parts == [piece] + rest
  {
    if piece == [] {
      assert piece + tail == tail;
    } else {
      SplitOfPiece(piece[1..], tail, sep);
      assert (piece + tail)[1..] == piece[1..] + tail;
      assert [piece[0]] + piece[1..] == piece;
    }
  }
}
