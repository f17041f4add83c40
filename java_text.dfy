/**
 * The few java.lang.String operations the server's parsers rely on, with
 * Java's own meaning: `trim` strips every character at or below U+0020 from
 * both ends, `indexOf` finds the first occurrence or answers -1.
 */
module JavaText {
  import opened Wrappers

  /** The characters String.trim removes. */
  predicate IsTrimmable(c: char)
  {
    c <= ' '
  }

  /** Neither end of `s` is a trimmable character. */
  predicate Trimmed(s: string)
  {
    |s| == 0 || (!IsTrimmable(s[0]) && !IsTrimmable(s[|s| - 1]))
  }

  /** String.indexOf(c): the first position holding `c`, or -1. */
  function IndexOf(s: string, c: char): (i: int)
    ensures -1 <= i < |s|
    ensures i == -1 <==> c !in s
    ensures i >= 0 ==> s[i] == c
  {
    if |s| == 0 then -1
    else if s[0] == c then 0
    else
      var j := IndexOf(s[1..], c);
      if j == -1 then -1 else j + 1
  }

  /** IndexOf finds the first occurrence. */
  lemma {:induction false} IndexOfFirst(s: string, c: char)
    requires IndexOf(s, c) >= 0
    ensures c !in s[..IndexOf(s, c)]
  {
    if s[0] != c {
      IndexOfFirst(s[1..], c);
      assert s[..IndexOf(s, c)] == [s[0]] + s[1..][..IndexOf(s[1..], c)];
    }
  }

  /** Drops the trimmable characters at the front. */
  function TrimStart(s: string): (r: string)
    ensures |r| <= |s|
    ensures |r| > 0 ==> !IsTrimmable(r[0])
  {
    if |s| > 0 && IsTrimmable(s[0]) then TrimStart(s[1..]) else s
  }

  /** Drops the trimmable characters at the back. */
  function TrimEnd(s: string): (r: string)
    ensures |r| <= |s| && (|r| > 0 ==> r[0] == s[0])
    ensures |r| > 0 ==> !IsTrimmable(r[|r| - 1])
  {
    if |s| > 0 && IsTrimmable(s[|s| - 1]) then TrimEnd(s[..|s| - 1]) else s
  }

  /** String.trim(): a string with trimmable ends is cut down, any other comes back as it is. */
  function Trim(s: string): (r: string)
    ensures Trimmed(r) && |r| <= |s|
    ensures Trimmed(s) ==> r == s
  {
    TrimEnd(TrimStart(s))
  }

  /** What TrimStart keeps is a suffix of its input. */
  lemma {:induction false} TrimStartSuffix(s: string)
    ensures TrimStart(s) == s[|s| - |TrimStart(s)|..]
  {
    if |s| > 0 && IsTrimmable(s[0]) {
      TrimStartSuffix(s[1..]);
    }
  }

  /** What TrimEnd keeps is a prefix of its input. */
  lemma {:induction false} TrimEndPrefix(s: string)
    ensures TrimEnd(s) == s[..|TrimEnd(s)|]
  {
    if |s| > 0 && IsTrimmable(s[|s| - 1]) {
      TrimEndPrefix(s[..|s| - 1]);
    }
  }

  /** Trimming adds no character. */
  lemma TrimIsInside(s: string)
    ensures forall c :: c in Trim(s) ==> c in s
  {
    var a := TrimStart(s);
    TrimStartSuffix(s);
    TrimEndPrefix(a);
  }

  /** A leading space in front of a trimmed string is all that trimming removes. */
  lemma TrimAfterSpace(s: string)
    requires Trimmed(s)
    ensures Trim(" " + s) == s
  {
    assert (" " + s)[1..] == s;
    assert TrimStart(" " + s) == TrimStart(s) == s;
  }

  /** TrimEnd stops at a non-trimmable first character at the latest. */
  lemma {:induction false} TrimEndKeepsHead(s: string)
    requires |s| > 0 && !IsTrimmable(s[0])
    ensures |TrimEnd(s)| > 0
  {
    if IsTrimmable(s[|s| - 1]) {
      TrimEndKeepsHead(s[..|s| - 1]);
    }
  }

  /** The first occurrence of `c` after a stretch free of `c` sits right after the stretch. */
  lemma {:induction false} IndexOfAfter(p: string, c: char, q: string)
    requires c !in p
    ensures IndexOf(p + [c] + q, c) == |p|
  {
    if |p| > 0 {
      assert (p + [c] + q)[1..] == p[1..] + [c] + q;
      IndexOfAfter(p[1..], c, q);
    } else {
      assert (p + [c] + q)[0] == c;
    }
  }

  /** A string with no trimmable character at all. */
  predicate Word(s: string)
  {
    |s| > 0 && forall k :: 0 <= k < |s| ==> !IsTrimmable(s[k])
  }

  /** The words of `ws` joined by single spaces, followed by `last`. */
  function JoinWords(ws: seq<string>, last: string): (line: string)
    ensures |line| >= |last|
  {
    if |ws| == 0 then last else ws[0] + " " + JoinWords(ws[1..], last)
  }

  /** ASCII upper-casing, standing for String.toUpperCase on the class names the client offers. */
  function ToUpper(s: string): (r: string)
    ensures |r| == |s|
    ensures forall k :: 0 <= k < |s| ==> ('a' <= s[k] <= 'z' ==> r[k] as int == s[k] as int - 32)
    ensures forall k :: 0 <= k < |s| ==> (!('a' <= s[k] <= 'z') ==> r[k] == s[k])
  {
    if |s| == 0 then ""
    else [if 'a' <= s[0] <= 'z' then (s[0] as int - 32) as char else s[0]] + ToUpper(s[1..])
  }

  /** Every character is one of the ASCII digits. */
  predicate AllDigits(s: string)
  {
    forall k :: 0 <= k < |s| ==> '0' <= s[k] <= '9'
  }

  /** The number a string of decimal digits denotes, most significant first. */
  function DecimalValue(s: string): (v: nat)
    requires AllDigits(s)
  {
    if |s| == 0 then 0
    else DecimalValue(s[..|s| - 1]) * 10 + (s[|s| - 1] as int - '0' as int)
  }

  function Pow10(n: nat): (p: nat)
    ensures p >= 1
  {
    if n == 0 then 1 else 10 * Pow10(n - 1)
  }

  lemma {:induction false} Pow10Monotone(m: nat, n: nat)
    requires m <= n
    ensures Pow10(m) <= Pow10(n)
  {
    if m < n {
      Pow10Monotone(m, n - 1);
    }
  }

  /** A string of n digits denotes less than 10^n. */
  lemma {:induction false} DecimalBelow(s: string)
    requires AllDigits(s)
    ensures DecimalValue(s) < Pow10(|s|)
  {
    if |s| > 0 {
      var init := s[..|s| - 1];
      assert AllDigits(init);
      DecimalBelow(init);
      assert DecimalValue(init) + 1 <= Pow10(|init|);
    }
  }

  /** A string of n digits that starts with a non-zero digit denotes at least 10^(n-1). */
  lemma {:induction false} DecimalAtLeast(s: string)
    requires AllDigits(s) && |s| > 0 && s[0] != '0'
    ensures DecimalValue(s) >= Pow10(|s| - 1)
  {
    if |s| > 1 {
      var init := s[..|s| - 1];
      assert AllDigits(init) && init[0] == s[0];
      DecimalAtLeast(init);
    }
  }

  const IntMin := -2147483648
  const IntMax := 2147483647

  /**
   * Integer.parseInt(s): an optional '-' or '+', then at least one digit,
   * and a value an int can hold; anything else throws NumberFormatException,
   * here None.
   */
  function ParseInt(s: string): (r: Option<int>)
    ensures r.Some? ==> IntMin <= r.value <= IntMax
    ensures |s| == 0 ==> r.None?
    ensures |s| > 0 && AllDigits(s) ==>
      (r.Some? <==> DecimalValue(s) <= IntMax) && (r.Some? ==> r.value == DecimalValue(s))
  {
    if |s| == 0 then None
    else
      var body := if s[0] == '-' || s[0] == '+' then s[1..] else s;
      if |body| == 0 || !AllDigits(body) then None
      else
        var d: int := DecimalValue(body);
        var v := if s[0] == '-' then -d else d;
        if IntMin <= v <= IntMax then Some(v) else None
  }

  /** Up to nine digits always make an int. */
  lemma NineDigitsParse(s: string)
    requires 0 < |s| <= 9 && AllDigits(s)
    ensures ParseInt(s) == Some(DecimalValue(s))
  {
    DecimalBelow(s);
    Pow10Monotone(|s|, 9);
    assert Pow10(9) == 1000000000;
  }
}
