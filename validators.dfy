/** The input validators of js/utils.js: validateEmail, validatePhone and
    escapeQuotes. The two regular expressions are modelled by what they
    match; the character class `\s` is Text.IsSpace and `\d` is an ASCII
    digit. */
module Validators {
  import opened Text
  import opened ProductData

  // ---------------------------------------------------------------------
  // validateEmail: /^[^\s@]+@[^\s@]+\.[^\s@]+$/

  /** One run of `[^\s@]+`. */
  predicate EmailPart(s: string) {
    s != [] && forall i :: 0 <= i < |s| ==> !IsSpace(s[i]) && s[i] != '@'
  }

  /** The expression matches with its '@' at index i and its '.' at index j. */
  predicate EmailMatchAt(s: string, i: int, j: int) {
    0 < i < j < |s| && s[i] == '@' && s[j] == '.'
    && EmailPart(s[..i]) && EmailPart(s[i + 1..j]) && EmailPart(s[j + 1..])
  }

  /** validateEmail: the regular expression matches the whole string. */
  predicate ValidateEmail(s: string) {
    exists i, j :: 0 < i < j < |s| && EmailMatchAt(s, i, j)
  }

  /** The text has a '.' with at least one character on each side. */
  predicate HasInnerDot(d: string) {
    exists j :: 0 < j < |d| - 1 && d[j] == '.'
  }

  /** The characterisation of validateEmail without the regular expression:
      no whitespace, exactly one '@', not at the start, and the part after
      it holds a '.' with text on both sides. */
  predicate EmailShape(s: string) {
    var at := IndexOfChar(s, '@');
    NoSpace(s) && CountChar(s, '@') == 1 && 0 < at < |s| && HasInnerDot(s[at + 1..])
  }

  /** A match splits the string into the local part, '@' and a domain with
      no further '@'. */
  lemma EmailMatchAtom(s: string, i: int, j: int)
    requires EmailMatchAt(s, i, j)
    ensures NoSpace(s)
    ensures IndexOfChar(s, '@') == i
    ensures CountChar(s, '@') == 1
  {
    assert s == s[..i] + [s[i]] + s[i + 1..j] + [s[j]] + s[j + 1..];
    forall k | 0 <= k < |s|
      ensures !IsSpace(s[k]) && (k != i ==> s[k] != '@')
    {
      if k < i {
        assert s[k] == s[..i][k];
      } else if i < k < j {
        assert s[k] == s[i + 1..j][k - i - 1];
      } else if k > j {
        assert s[k] == s[j + 1..][k - j - 1];
      }
    }
    assert s == s[..i] + ([s[i]] + s[i + 1..]);
    CountCharAbsent(s[..i], '@');
    CountCharAbsent(s[i + 1..], '@');
    CountCharAppend(s[..i], [s[i]] + s[i + 1..], '@');
    CountCharAppend([s[i]], s[i + 1..], '@');
  }

  /** validateEmail holds exactly for the strings of that shape: a valid
      address has one '@', no whitespace, and a '.' with text on both sides
      after the '@'; conversely every such string passes. */
  lemma ValidateEmailShape(s: string)
    ensures ValidateEmail(s) <==> EmailShape(s)
  {
    if ValidateEmail(s) {
      var i, j :| 0 < i < j < |s| && EmailMatchAt(s, i, j);
      EmailMatchShape(s, i, j);
    }
    if EmailShape(s) {
      EmailShapeMatch(s);
    }
  }

  lemma EmailMatchShape(s: string, i: int, j: int)
    requires EmailMatchAt(s, i, j)
    ensures EmailShape(s)
  {
    EmailMatchAtom(s, i, j);
    var d := s[i + 1..];
    assert d[j - i - 1] == '.';
    assert s[j + 1..] == d[j - i..];
  }

  lemma EmailShapeMatch(s: string)
    requires EmailShape(s)
    ensures ValidateEmail(s)
  {
    var i := IndexOfChar(s, '@');
    var d := s[i + 1..];
    var jd :| 0 < jd < |d| - 1 && d[jd] == '.';
    var j := i + 1 + jd;
    assert s[j] == '.';
    assert s == s[..i] + ([s[i]] + d);
    CountCharAppend(s[..i], [s[i]] + d, '@');
    CountCharAppend([s[i]], d, '@');
    CountCharZero(d, '@');
    forall k | 0 <= k < |s| && k != i
      ensures !IsSpace(s[k]) && s[k] != '@'
    {
      if k > i {
        assert s[k] == d[k - i - 1];
      }
    }
    assert EmailPart(s[..i]);
    assert EmailPart(s[i + 1..j]);
    assert EmailPart(s[j + 1..]);
    assert EmailMatchAt(s, i, j);
  }

  /** A plain address passes; one without a dot after the '@', one with
      whitespace and one with an empty local part do not. */
  lemma ValidateEmailExamples()
    ensures ValidateEmail("ana@shop.mk")
    ensures !ValidateEmail("ana@shop")
    ensures !ValidateEmail("a na@shop.mk")
    ensures !ValidateEmail("@shop.mk")
  {
    assert EmailMatchAt("ana@shop.mk", 3, 8);
    ValidateEmailShape("ana@shop");
    assert !HasInnerDot("shop");
    ValidateEmailShape("a na@shop.mk");
    assert IsSpace("a na@shop.mk"[1]);
    ValidateEmailShape("@shop.mk");
  }

  // ---------------------------------------------------------------------
  // validatePhone: /^[\d\s\-\+\(\)]+$/ and at least ten digits

  predicate PhoneChar(c: char) {
    IsDigit(c) || IsSpace(c) || c == '-' || c == '+' || c == '(' || c == ')'
  }

  /** `phone.replace(/\D/g, '')`: the digits, in order. */
  function DigitsOnly(s: string): (r: string)
    ensures |r| <= |s|
    ensures forall i :: 0 <= i < |r| ==> IsDigit(r[i])
  {
    if s == [] then []
    else DigitsOnly(s[..|s| - 1]) + (if IsDigit(s[|s| - 1]) then [s[|s| - 1]] else [])
  }

  /** validatePhone. */
  predicate ValidatePhone(s: string) {
    |s| > 0 && (forall i :: 0 <= i < |s| ==> PhoneChar(s[i])) && |DigitsOnly(s)| >= 10
  }

  lemma {:induction false} DigitsOnlyAppend(a: string, b: string)
    ensures DigitsOnly(a + b) == DigitsOnly(a) + DigitsOnly(b)
    decreases |b|
  {
    if b == [] {
      assert a + b == a;
    } else {
      var b' := b[..|b| - 1];
      assert (a + b)[..|a + b| - 1] == a + b';
      DigitsOnlyAppend(a, b');
    }
  }

  /** Stripping keeps every digit and only digits: a string of digits is its
      own strip, and a string without digits strips to nothing. */
  lemma {:induction false} DigitsOnlyExtremes(s: string)
    ensures (forall i :: 0 <= i < |s| ==> IsDigit(s[i])) ==> DigitsOnly(s) == s
    ensures (forall i :: 0 <= i < |s| ==> !IsDigit(s[i])) ==> DigitsOnly(s) == []
  {
    if s != [] {
      DigitsOnlyExtremes(s[..|s| - 1]);
      assert s == s[..|s| - 1] + [s[|s| - 1]];
    }
  }

  /** The non-empty test is implied by the digit count: validatePhone holds
      exactly when only allowed characters occur and at least ten of them
      are digits, and then the string has at least ten characters. */
  lemma ValidatePhoneDigits(s: string)
    ensures ValidatePhone(s) <==> (forall i :: 0 <= i < |s| ==> PhoneChar(s[i])) && |DigitsOnly(s)| >= 10
    ensures ValidatePhone(s) ==> |s| >= 10
  {
  }

  /** Ten digits pass; eight digits, or a dotted number, do not. */
  lemma ValidatePhoneExamples()
    ensures ValidatePhone("0701234567")
    ensures !ValidatePhone("070-1234")
    ensures !ValidatePhone("070.123.4567")
  {
    DigitsOnlyExtremes("0701234567");
    assert !PhoneChar("070.123.4567"[3]);
  }

  // ---------------------------------------------------------------------
  // escapeQuotes

  /** `replace(/c/g, rep)`: every occurrence of c becomes rep. */
  function ReplaceChar(s: string, c: char, rep: string): string {
    if s == [] then []
    else ReplaceChar(s[..|s| - 1], c, rep) + (if s[|s| - 1] == c then rep else [s[|s| - 1]])
  }

  /** escapeQuotes: a falsy argument gives ''; otherwise each `'` becomes
      `\'` and then each `"` becomes `&quot;`. */
  function EscapeQuotes(str: Option<string>): string {
    if str.None? || str.value == "" then ""
    else ReplaceChar(ReplaceChar(str.value, '\'', "\\'"), '"', "&quot;")
  }

  /** Every `'` in t is directly preceded by a backslash. */
  predicate QuotesEscaped(t: string) {
    forall i :: 0 <= i < |t| && t[i] == '\'' ==> i > 0 && t[i - 1] == '\\'
  }

  /** Replacing a character absent from the text changes nothing, and the
      replaced character is gone when the replacement does not contain it. */
  lemma {:induction false} ReplaceCharFacts(s: string, c: char, rep: string)
    ensures (forall i :: 0 <= i < |s| ==> s[i] != c) ==> ReplaceChar(s, c, rep) == s
    ensures c !in rep ==> c !in ReplaceChar(s, c, rep)
    ensures forall d :: d != c && d !in rep ==> (d in ReplaceChar(s, c, rep) <==> d in s)
  {
    if s != [] {
      var init := s[..|s| - 1];
      ReplaceCharFacts(init, c, rep);
      assert s == init + [s[|s| - 1]];
    }
  }

  lemma QuotesEscapedAppend(a: string, b: string)
    requires QuotesEscaped(a)
    requires forall i :: 0 < i < |b| && b[i] == '\'' ==> b[i - 1] == '\\'
    requires b != [] && b[0] == '\'' ==> a != [] && a[|a| - 1] == '\\'
    ensures QuotesEscaped(a + b)
  {
    var t := a + b;
    forall i | 0 <= i < |t| && t[i] == '\''
      ensures i > 0 && t[i - 1] == '\\'
    {
      if i < |a| {
        assert a[i] == '\'';
      } else {
        assert b[i - |a|] == '\'';
      }
    }
  }

  /** The first pass escapes every single quote. */
  lemma {:induction false} FirstPassEscapes(s: string)
    ensures QuotesEscaped(ReplaceChar(s, '\'', "\\'"))
  {
    if s != [] {
      var init := s[..|s| - 1];
      FirstPassEscapes(init);
      var r := ReplaceChar(init, '\'', "\\'");
      var b: string := if s[|s| - 1] == '\'' then "\\'" else [s[|s| - 1]];
      QuotesEscapedAppend(r, b);
    }
  }

  /** The second pass keeps every single quote escaped: it only rewrites
      double quotes, into text without quotes or a trailing backslash. */
  lemma {:induction false} SecondPassKeepsEscapes(t: string)
    requires QuotesEscaped(t)
    ensures QuotesEscaped(ReplaceChar(t, '"', "&quot;"))
    ensures t != [] && t[|t| - 1] == '\\' ==> ReplaceChar(t, '"', "&quot;")[|ReplaceChar(t, '"', "&quot;")| - 1] == '\\'
  {
    if t != [] {
      var init, last := t[..|t| - 1], t[|t| - 1];
      assert QuotesEscaped(init) by {
        forall i | 0 <= i < |init| && init[i] == '\''
          ensures i > 0 && init[i - 1] == '\\'
        {
          assert t[i] == '\'';
        }
      }
      SecondPassKeepsEscapes(init);
      var r := ReplaceChar(init, '"', "&quot;");
      var b: string := if last == '"' then "&quot;" else [last];
      if last == '\'' {
        assert |t| > 1 && t[|t| - 2] == '\\';
        assert init[|init| - 1] == '\\';
      }
      QuotesEscapedAppend(r, b);
    }
  }

  /** escapeQuotes leaves no double quote, every single quote behind a
      backslash, and changes nothing in text without quotes. */
  lemma EscapeQuotesSafe(str: Option<string>)
    ensures '"' !in EscapeQuotes(str)
    ensures QuotesEscaped(EscapeQuotes(str))
    ensures str.Some? && '\'' !in str.value && '"' !in str.value ==> EscapeQuotes(str) == str.value
  {
    if str.Some? && str.value != "" {
      var s := str.value;
      var once := ReplaceChar(s, '\'', "\\'");
      assert QuotesEscaped(EscapeQuotes(str)) by {
        FirstPassEscapes(s);
        SecondPassKeepsEscapes(once);
      }
      assert '"' !in EscapeQuotes(str) by {
        ReplaceCharFacts(once, '"', "&quot;");
      }
      if '\'' !in s && '"' !in s {
        ReplaceCharFacts(s, '\'', "\\'");
        assert once == s;
        ReplaceCharFacts(once, '"', "&quot;");
      }
    }
  }

  /** Absent and empty arguments give the empty string. */
  lemma EscapeQuotesFalsy()
    ensures EscapeQuotes(None) == "" && EscapeQuotes(Some("")) == ""
  {
  }

  /** The escaping cannot be undone: a double quote and the entity text
      `&quot;` escape to the same string. */
  lemma EscapeQuotesNotInjective()
    ensures EscapeQuotes(Some("\"")) == EscapeQuotes(Some("&quot;"))
  {
    var q := "&quot;";
    assert ReplaceChar(q, '\'', "\\'") == q by {
      assert forall i :: 0 <= i < |q| ==> q[i] != '\'';
      ReplaceCharFacts(q, '\'', "\\'");
    }
    assert ReplaceChar(q, '"', q) == q by {
      assert forall i :: 0 <= i < |q| ==> q[i] != '"';
      ReplaceCharFacts(q, '"', q);
    }
    assert ReplaceChar("\"", '\'', "\\'") == "\"";
    assert ReplaceChar("\"", '"', q) == q;
  }
}
