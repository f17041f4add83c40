/**
 * The text-field document that admits only digits. Each call to insert a
 * string walks the string once; after every character it inserts, at the
 * same offset, all digits seen so far. The text therefore receives the digit
 * prefixes in reverse order of length. Filtered and InsertFiltered are the
 * evidently intended version, which inserts the digits once.
 */
module NumberDocuments {
  import opened Wrappers

  /** Character.isDigit, restricted to the ASCII digits. */
  predicate IsDigit(c: char)
  {
    '0' <= c <= '9'
  }

  /** The digits of `s`, in order. */
  function Digits(s: string): (d: string)
    ensures |d| <= |s|
    ensures forall k :: 0 <= k < |d| ==> IsDigit(d[k])
  {
    if |s| == 0 then ""
    else Digits(s[..|s| - 1]) + (if IsDigit(s[|s| - 1]) then [s[|s| - 1]] else "")
  }

  /**
   * Everything one insertString(str) adds at the offset: with p_i the digits
   * among the first i characters, p_n + ... + p_1.
   */
  function Stacked(s: string): string
  {
    if |s| == 0 then "" else Digits(s) + Stacked(s[..|s| - 1])
  }

  /** The text after inserting `s` at `offs`, or None when the document refuses the offset. */
  function AfterInsert(text: string, offs: int, s: string): Option<string>
  {
    if Stacked(s) == "" then Some(text)
    else if 0 <= offs <= |text| then Some(text[..offs] + Stacked(s) + text[offs..])
    else None
  }

  /** Digits of a prefix are a prefix of the digits. */
  lemma {:induction false} DigitsOfPrefix(s: string, i: nat)
    requires i <= |s|
    ensures |Digits(s[..i])| <= |Digits(s)| && Digits(s[..i]) == Digits(s)[..|Digits(s[..i])|]
    decreases |s|
  {
    if i < |s| {
      assert s[..i] == s[..|s| - 1][..i];
      DigitsOfPrefix(s[..|s| - 1], i);
    } else {
      assert s[..i] == s;
    }
  }

  /** No character that is not a digit ever enters the document. */
  lemma {:induction false} OnlyDigitsInserted(s: string)
    ensures forall k :: 0 <= k < |Stacked(s)| ==> IsDigit(Stacked(s)[k])
    decreases |s|
  {
    if |s| > 0 {
      OnlyDigitsInserted(s[..|s| - 1]);
      var d := Digits(s);
      var rest := Stacked(s[..|s| - 1]);
      assert Stacked(s) == d + rest;
      assert forall k :: |d| <= k < |d + rest| ==> (d + rest)[k] == rest[k - |d|];
    }
  }

  /** Something is inserted exactly when the string holds a digit. */
  lemma {:induction false} StackedEmpty(s: string)
    ensures Stacked(s) == "" <==> Digits(s) == ""
    decreases |s|
  {
    if |s| > 0 {
      DigitsOfPrefix(s, |s| - 1);
      StackedEmpty(s[..|s| - 1]);
    }
  }

  /** A string without digits leaves the text as it was, at any offset. */
  lemma NoDigitsNoChange(text: string, offs: int, s: string)
    requires Digits(s) == ""
    ensures AfterInsert(text, offs, s) == Some(text)
  {
    StackedEmpty(s);
  }

  /** A single digit inserts exactly that digit. */
  lemma SingleDigit(text: string, offs: int, c: char)
    requires IsDigit(c) && 0 <= offs <= |text|
    ensures AfterInsert(text, offs, [c]) == Some(text[..offs] + [c] + text[offs..])
  {
    assert [c][..0] == "";
    assert Digits([c]) == [c];
    assert Stacked([c]) == [c];
  }

  /** Typing "12" into an empty field gives "121". */
  lemma TwelveGivesOneTwoOne()
    ensures AfterInsert("", 0, "12") == Some("121")
  {
    assert "12"[..1] == "1";
    assert "1"[..0] == "";
    assert Digits("1") == "1";
    assert Stacked("1") == "1";
    assert Digits("12") == Digits("1") + "2" == "12";
    assert Stacked("12") == Digits("12") + Stacked("1");
    assert ""[..0] + Stacked("12") + ""[0..] == "121";
  }

  /** The text in front of the offset is never touched, and the old text stays in order around the insert. */
  lemma PrefixKept(text: string, offs: int, s: string)
    requires AfterInsert(text, offs, s).Some? && 0 <= offs <= |text|
    ensures var t := AfterInsert(text, offs, s).value;
      |t| == |text| + |Stacked(s)| && t[..offs] == text[..offs]
      && t[offs + |Stacked(s)|..] == text[offs..]
  {
  }

  /** The digits of one more character: its own digit, if it is one, goes at the end. */
  lemma DigitsStep(s: string, i: nat)
    requires i < |s|
    ensures Digits(s[..i + 1]) == Digits(s[..i]) + (if IsDigit(s[i]) then [s[i]] else "")
  {
    assert s[..i + 1][..i] == s[..i];
  }

  /** One pass of the loop: the piece for the first i + 1 characters goes in front of what is there. */
  lemma InsertStep(t0: string, offs: int, s: string, i: nat, before: string)
    requires i < |s| && Some(before) == AfterInsert(t0, offs, s[..i])
    requires Digits(s[..i + 1]) == "" || 0 <= offs <= |before|
    ensures var piece := Digits(s[..i + 1]);
      Some(if piece == "" then before else before[..offs] + piece + before[offs..])
        == AfterInsert(t0, offs, s[..i + 1])
  {
    assert s[..i + 1][..i] == s[..i];
    StackedEmpty(s[..i]);
    StackedEmpty(s[..i + 1]);
    DigitsOfPrefix(s[..i + 1], i);
    var piece := Digits(s[..i + 1]);
    assert Stacked(s[..i + 1]) == piece + Stacked(s[..i]);
    if Stacked(s[..i]) != "" {
      assert 0 <= offs <= |t0|;
      assert before[..offs] == t0[..offs];
      assert before[offs..] == Stacked(s[..i]) + t0[offs..];
      assert piece != "";
      assert before[..offs] + piece + before[offs..] == t0[..offs] + Stacked(s[..i + 1]) + t0[offs..];
    } else {
      assert before == t0;
      assert Stacked(s[..i + 1]) == piece;
    }
  }

  /** The first non-empty piece at a bad offset is refused before anything changed. */
  lemma RefusedStep(t0: string, offs: int, s: string, i: nat, before: string)
    requires i < |s| && Some(before) == AfterInsert(t0, offs, s[..i])
    requires Digits(s[..i + 1]) != "" && !(0 <= offs <= |before|)
    ensures before == t0 && AfterInsert(t0, offs, s) == None
  {
    StackedEmpty(s[..i]);
    DigitsOfPrefix(s, i + 1);
    StackedEmpty(s);
  }

  /** The evidently intended effect: the digits of `s`, once, at `offs`. */
  function Filtered(text: string, offs: int, s: string): (r: Option<string>)
    ensures Digits(s) == "" ==> r == Some(text)
    ensures Digits(s) != "" ==> (r.Some? <==> 0 <= offs <= |text|)
    ensures r.Some? ==> |r.value| == |text| + |Digits(s)|
  {
    if Digits(s) == "" then Some(text)
    else if 0 <= offs <= |text| then Some(text[..offs] + Digits(s) + text[offs..])
    else None
  }

  /** The digits of two strings in a row are the digits of each, in a row. */
  lemma {:induction false} DigitsAppend(a: string, b: string)
    ensures Digits(a + b) == Digits(a) + Digits(b)
    decreases |b|
  {
    if |b| == 0 {
      assert a + b == a;
    } else {
      assert (a + b)[..|a + b| - 1] == a + b[..|b| - 1];
      DigitsAppend(a, b[..|b| - 1]);
    }
  }

  /** Pasting `a + b` at once leaves the same text as typing `a` and then `b` right after it. */
  lemma PasteIsTyping(text: string, offs: int, a: string, b: string)
    requires 0 <= offs <= |text|
    ensures Filtered(text, offs, a).Some?
    ensures Filtered(Filtered(text, offs, a).value, offs + |Digits(a)|, b) == Filtered(text, offs, a + b)
  {
    DigitsAppend(a, b);
    var da, db := Digits(a), Digits(b);
    if da == "" {
      assert da + db == db;
    } else if db == "" {
      assert da + db == da;
    } else {
      Splice(text, offs, da, db);
    }
  }

  /** Two pieces put in one after the other at the same place read as one piece. */
  lemma Splice(text: string, offs: int, da: string, db: string)
    requires 0 <= offs <= |text|
    ensures var t := text[..offs] + da + text[offs..];
      t[..offs + |da|] + db + t[offs + |da|..] == text[..offs] + (da + db) + text[offs..]
  {
    var t := text[..offs] + da + text[offs..];
    assert t[..offs + |da|] == text[..offs] + da;
    assert t[offs + |da|..] == text[offs..];
  }

  /** A single character is filtered the same way by both versions. */
  lemma OneCharacterAgrees(text: string, offs: int, c: char)
    ensures Filtered(text, offs, [c]) == AfterInsert(text, offs, [c])
  {
    assert [c][..0] == "";
    assert Digits([c]) == Digits("") + (if IsDigit(c) then [c] else "");
    assert Stacked([c]) == Digits([c]);
  }

  /** Typing "12" into an empty field gives "12". */
  lemma TwelveGivesTwelve()
    ensures Filtered("", 0, "12") == Some("12")
  {
    assert "12"[..1] == "1";
    assert "1"[..0] == "";
    assert Digits("1") == "1";
    assert Digits("12") == Digits("1") + "2" == "12";
    assert ""[..0] + "12" + ""[0..] == "12";
  }

  class NumberDocument {
    var text: string

    constructor ()
      ensures text == ""
    {
      text := "";
    }

    /**
     * PlainDocument.insertString: an empty piece is ignored; a piece at an
     * offset outside the text is refused (BadLocationException).
     */
    method InsertPiece(offs: int, piece: string) returns (ok: bool)
      modifies this
      ensures ok <==> (piece == "" || 0 <= offs <= |old(text)|)
      ensures text == if ok && piece != "" then old(text)[..offs] + piece + old(text)[offs..] else old(text)
    {
      if piece == "" {
        return true;
      }
      if offs < 0 || offs > |text| {
        return false;
      }
      text := text[..offs] + piece + text[offs..];
      return true;
    }

    /**
     * insertString(offs, str): None is a null string. `ok` is false when the
     * underlying document threw; the text is then as before.
     */
    method InsertString(offs: int, str: Option<string>) returns (ok: bool)
      modifies this
      ensures str.None? ==> ok && text == old(text)
      ensures str.Some? ==> (ok <==> AfterInsert(old(text), offs, str.value).Some?)
      ensures str.Some? && ok ==> Some(text) == AfterInsert(old(text), offs, str.value)
      ensures !ok ==> text == old(text)
    {
      if str == None {
        return true;
      }
      ok := InsertDigits(offs, str.value);
    }

    /** `digits[length++] = ch` when `ch` is a digit. */
    static method Keep(digits: array<char>, length: nat, ch: char) returns (n: nat)
      requires length < digits.Length
      modifies digits
      ensures n == length + (if IsDigit(ch) then 1 else 0)
      ensures digits[..n] == old(digits[..length]) + (if IsDigit(ch) then [ch] else "")
    {
      n := length;
      if IsDigit(ch) {
        digits[n] := ch;
        n := n + 1;
      }
    }

    /** insertString as evidently intended: the loop only gathers the digits, which go in once. */
    method InsertFiltered(offs: int, str: Option<string>) returns (ok: bool)
      modifies this
      ensures str.None? ==> ok && text == old(text)
      ensures str.Some? ==> (ok <==> Filtered(old(text), offs, str.value).Some?)
      ensures str.Some? && ok ==> Some(text) == Filtered(old(text), offs, str.value)
      ensures !ok ==> text == old(text)
    {
      if str == None {
        return true;
      }
      var s := str.value;
      var digits := new char[|s|];
      var length := 0;
      var i := 0;
      while i < |s|
        invariant 0 <= i <= |s| && 0 <= length <= i
        invariant digits[..length] == Digits(s[..i])
        invariant text == old(text)
      {
        DigitsStep(s, i);
        length := Keep(digits, length, s[i]);
        i := i + 1;
      }
      assert s[..i] == s;
      ok := InsertPiece(offs, digits[..length]);
    }

    /** The loop of insertString: after each character, the digits so far go in at `offs`. */
    method InsertDigits(offs: int, s: string) returns (ok: bool)
      modifies this
      ensures ok ==> Some(text) == AfterInsert(old(text), offs, s)
      ensures !ok ==> text == old(text) && AfterInsert(old(text), offs, s) == None
    {
      var digits := new char[|s|];
      var length := 0;
      var i := 0;
      while i < |s|
        invariant 0 <= i <= |s| && 0 <= length <= i
        invariant digits[..length] == Digits(s[..i])
        invariant Some(text) == AfterInsert(old(text), offs, s[..i])
      {
        DigitsStep(s, i);
        length := Keep(digits, length, s[i]);
        ghost var before := text;
        ok := InsertPiece(offs, digits[..length]);
        if !ok {
          RefusedStep(old(text), offs, s, i, before);
          return;
        }
        InsertStep(old(text), offs, s, i, before);
        i := i + 1;
      }
      assert s[..i] == s;
      return true;
    }
  }
}
