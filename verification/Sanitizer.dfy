/** Label values: `sanitizeLabelValue` and the regular expressions around it. */
module Sanitizer {
  import opened Text

  const NOT_SET := "na"

  predicate IsAlnum(c: char) {
    'A' <= c <= 'Z' || 'a' <= c <= 'z' || '0' <= c <= '9'
  }

  predicate IsLabelChar(c: char) {
    IsAlnum(c) || c == '-' || c == '_' || c == '.'
  }

  /** `labelValueRegex`: an alphanumeric, optionally followed by label characters and a
      closing alphanumeric. */
  predicate ValidLabelValue(s: string) {
    && |s| >= 1
    && IsAlnum(s[0])
    && (|s| == 1 || (IsAlnum(s[|s| - 1]) && forall i :: 0 < i < |s| - 1 ==> IsLabelChar(s[i])))
  }

  /** `invalidCharsRegex` replaced by "-". */
  function ReplaceInvalid(s: string): (r: string)
    ensures |r| == |s|
    ensures forall i :: 0 <= i < |s| ==> r[i] == if IsLabelChar(s[i]) then s[i] else '-'
  {
    if s == "" then "" else [if IsLabelChar(s[0]) then s[0] else '-'] + ReplaceInvalid(s[1..])
  }

  /** `leadingJunkRegex` replaced by "". */
  function TrimLeadingJunk(s: string): string {
    if s == "" || IsAlnum(s[0]) then s else TrimLeadingJunk(s[1..])
  }

  /** `trailingJunkRegex` replaced by "". */
  function TrimTrailingJunk(s: string): string {
    if s == "" || IsAlnum(s[|s| - 1]) then s else TrimTrailingJunk(s[..|s| - 1])
  }

  /** `unicode.IsSpace`. */
  predicate IsSpace(c: char) {
    || '\t' <= c <= '\r' || c == ' ' || c == '\U{0085}' || c == '\U{00A0}' || c == '\U{1680}'
    || '\U{2000}' <= c <= '\U{200a}' || c == '\U{2028}' || c == '\U{2029}' || c == '\U{202f}'
    || c == '\U{205f}' || c == '\U{3000}'
  }

  /** `strings.TrimSpace`. */
  function TrimSpace(s: string): string {
    if s == "" then ""
    else if IsSpace(s[0]) then TrimSpace(s[1..])
    else if IsSpace(s[|s| - 1]) then TrimSpace(s[..|s| - 1])
    else s
  }

  /** The value after replacing and trimming, before the last two checks. */
  function Cleaned(value: string): string {
    TrimTrailingJunk(TrimLeadingJunk(ReplaceInvalid(value)))
  }

  function Sanitize(value: string): string {
    if value == "" then NOT_SET
    else if value == "N/A" then NOT_SET
    else
      var sanitized := Cleaned(value);
      if sanitized == "" then NOT_SET
      else if !ValidLabelValue(sanitized) then NOT_SET
      else TrimSpace(sanitized)
  }

  /** `i` and `j` are the first and the last alphanumeric of `s`. */
  ghost predicate Span(s: string, i: nat, j: nat) {
    && i <= j < |s| && IsAlnum(s[i]) && IsAlnum(s[j])
    && forall k :: 0 <= k < i || j < k < |s| ==> !IsAlnum(s[k])
  }

  predicate NoAlnum(s: string) {
    forall k :: 0 <= k < |s| ==> !IsAlnum(s[k])
  }

  lemma {:induction false} TrimLeadingToSpan(s: string, i: nat, j: nat)
    requires Span(s, i, j)
    ensures TrimLeadingJunk(s) == s[i..]
  {
    if i > 0 {
      TrimLeadingToSpan(s[1..], i - 1, j - 1);
    }
  }

  lemma {:induction false} TrimTrailingToSpan(s: string, j: nat)
    requires Span(s, 0, j)
    ensures TrimTrailingJunk(s) == s[..j + 1]
  {
    if j + 1 < |s| {
      TrimTrailingToSpan(s[..|s| - 1], j);
    }
  }

  lemma {:induction false} TrimNoAlnum(s: string)
    requires NoAlnum(s)
    ensures TrimLeadingJunk(s) == ""
  {
    if s != "" {
      TrimNoAlnum(s[1..]);
    }
  }

  lemma {:induction false} FindSpan(s: string) returns (i: nat, j: nat)
    requires !NoAlnum(s)
    ensures Span(s, i, j)
  {
    i := 0;
    while !IsAlnum(s[i])
      invariant i < |s| && forall k :: 0 <= k < i ==> !IsAlnum(s[k])
      decreases |s| - i
    {
      i := i + 1;
    }
    j := |s| - 1;
    while !IsAlnum(s[j])
      invariant i <= j < |s| && forall k :: j < k < |s| ==> !IsAlnum(s[k])
      decreases j
    {
      j := j - 1;
    }
  }

  lemma {:induction false} ReplaceInvalidAt(value: string, k: nat)
    requires k < |value|
    ensures IsAlnum(ReplaceInvalid(value)[k]) <==> IsAlnum(value[k])
    ensures IsLabelChar(ReplaceInvalid(value)[k])
  {
    assert ReplaceInvalid(value)[k] == if IsLabelChar(value[k]) then value[k] else '-';
  }

  lemma {:induction false} SpanIsValid(s: string, i: nat, j: nat)
    requires Span(s, i, j) && forall k :: 0 <= k < |s| ==> IsLabelChar(s[k])
    ensures ValidLabelValue(s[i..j + 1])
  {
    var t := s[i..j + 1];
    assert t[0] == s[i] && t[|t| - 1] == s[j];
  }

  lemma {:induction false} ReplaceInvalidKeepsSpan(value: string, i: nat, j: nat)
    requires Span(value, i, j)
    ensures Span(ReplaceInvalid(value), i, j)
    ensures ValidLabelValue(ReplaceInvalid(value)[i..j + 1])
  {
    var r := ReplaceInvalid(value);
    forall k | 0 <= k < |r|
      ensures (IsAlnum(r[k]) <==> IsAlnum(value[k])) && IsLabelChar(r[k])
    {
      ReplaceInvalidAt(value, k);
    }
    SpanIsValid(r, i, j);
  }

  lemma {:induction false} TrimToSpan(s: string, i: nat, j: nat)
    requires Span(s, i, j)
    ensures TrimTrailingJunk(TrimLeadingJunk(s)) == s[i..j + 1]
  {
    TrimLeadingToSpan(s, i, j);
    assert Span(s[i..], 0, j - i);
    TrimTrailingToSpan(s[i..], j - i);
  }

  lemma {:induction false} CleanedIsSpan(value: string, i: nat, j: nat)
    requires Span(value, i, j)
    ensures Cleaned(value) == ReplaceInvalid(value)[i..j + 1]
    ensures ValidLabelValue(Cleaned(value))
    ensures TrimSpace(Cleaned(value)) == Cleaned(value)
  {
    ReplaceInvalidKeepsSpan(value, i, j);
    TrimToSpan(ReplaceInvalid(value), i, j);
  }

  /** The rejection after trimming never fires, and the final TrimSpace changes nothing. */
  lemma {:induction false} RejectionUnreachable(value: string)
    requires Cleaned(value) != ""
    ensures ValidLabelValue(Cleaned(value)) && TrimSpace(Cleaned(value)) == Cleaned(value)
  {
    if NoAlnum(value) {
      CleanedNoAlnum(value);
    } else {
      var i, j := FindSpan(value);
      CleanedIsSpan(value, i, j);
    }
  }

  lemma {:induction false} CleanedNoAlnum(value: string)
    requires NoAlnum(value)
    ensures Cleaned(value) == ""
  {
    TrimNoAlnum(ReplaceInvalid(value));
  }

  /** What the sanitiser returns: the text from the first to the last alphanumeric, with
      every other character that a label may not hold turned into "-"; and "na" for "N/A"
      and for a text without an alphanumeric. */
  lemma {:induction false} SanitizeKeepsSpan(value: string)
    ensures NoAlnum(value) || value == "N/A" ==> Sanitize(value) == NOT_SET
    ensures forall i: nat, j: nat :: Span(value, i, j) && value != "N/A" ==>
              Sanitize(value) == ReplaceInvalid(value)[i..j + 1]
  {
    if NoAlnum(value) {
      CleanedNoAlnum(value);
    }
    forall i: nat, j: nat | Span(value, i, j) && value != "N/A"
      ensures Sanitize(value) == ReplaceInvalid(value)[i..j + 1]
    {
      CleanedIsSpan(value, i, j);
    }
  }

  lemma {:induction false} SanitizeIsValid(value: string)
    ensures ValidLabelValue(Sanitize(value))
  {
    if Cleaned(value) != "" {
      RejectionUnreachable(value);
    }
  }

  /** Exactly the valid label values are left alone. */
  lemma {:induction false} SanitizeFixesExactlyValid(value: string)
    ensures Sanitize(value) == value <==> ValidLabelValue(value)
    ensures Sanitize(Sanitize(value)) == Sanitize(value)
  {
    SanitizeIsValid(value);
    ValidIsFixed(Sanitize(value));
    if ValidLabelValue(value) {
      ValidIsFixed(value);
    }
  }

  lemma {:induction false} ValidIsFixed(value: string)
    requires ValidLabelValue(value)
    ensures Sanitize(value) == value
  {
    assert value != "N/A" by {
      assert !IsLabelChar("N/A"[1]) && !ValidLabelValue("N/A");
    }
    assert Span(value, 0, |value| - 1);
    SanitizeKeepsSpan(value);
    assert ReplaceInvalid(value)[0..|value|] == value;
  }

  // ---------------------------------------------------------------------------------------
  // The same with the characters written out.
  // ---------------------------------------------------------------------------------------

  /** A single character is kept exactly if it is a letter or a digit of ASCII. */
  lemma {:induction false} SanitizeOneCharacter(c: char)
    ensures Sanitize([c]) == if 'A' <= c <= 'Z' || 'a' <= c <= 'z' || '0' <= c <= '9' then [c] else "na"
  {
    SanitizeKeepsSpan([c]);
    if IsAlnum(c) {
      assert Span([c], 0, 0);
      assert ReplaceInvalid([c])[0..1] == [c];
    } else {
      assert NoAlnum([c]);
    }
  }

  lemma {:induction false} SanitizeUnset()
    ensures Sanitize("") == "na" && Sanitize("N/A") == "na"
  {
  }

  /** From the first letter or digit to the last one, letters, digits, '-', '_' and '.' stay, and
      every other character becomes '-'. */
  lemma {:induction false} SanitizeSpelledOut(value: string, i: nat, j: nat, k: nat)
    requires value != "N/A" && i <= k <= j < |value| && Span(value, i, j)
    ensures |Sanitize(value)| == j - i + 1
    ensures var c := value[k];
            Sanitize(value)[k - i] ==
              if 'A' <= c <= 'Z' || 'a' <= c <= 'z' || '0' <= c <= '9' || c in {'-', '_', '.'} then c else '-'
  {
    SanitizeKeepsSpan(value);
    assert Sanitize(value) == ReplaceInvalid(value)[i..j + 1];
    assert ReplaceInvalid(value)[k] == if IsLabelChar(value[k]) then value[k] else '-';
  }

  /** Between two letters. */
  lemma {:induction false} SanitizeBetween(c: char)
    ensures Sanitize(['a', c, 'b']) ==
            ['a', if 'A' <= c <= 'Z' || 'a' <= c <= 'z' || '0' <= c <= '9' || c in {'-', '_', '.'} then c else '-', 'b']
  {
    var value := ['a', c, 'b'];
    assert value[0] != "N/A"[0];
    assert Span(value, 0, 2);
    SanitizeSpelledOut(value, 0, 2, 0);
    SanitizeSpelledOut(value, 0, 2, 1);
    SanitizeSpelledOut(value, 0, 2, 2);
  }

  /** `TrimSpace` leaves nothing of a text exactly if the text is all white space. */
  lemma {:induction false} BlankIsWhiteSpace(s: string)
    ensures TrimSpace(s) == "" <==> OnlyWhiteSpace(s)
  {
    if s != "" {
      if IsSpace(s[0]) {
        BlankIsWhiteSpace(s[1..]);
      } else if IsSpace(s[|s| - 1]) {
        BlankIsWhiteSpace(s[..|s| - 1]);
        assert s[..|s| - 1][0] == s[0];
      }
    }
  }

  /** Nothing but the white space of Unicode (the property White_Space). */
  predicate OnlyWhiteSpace(s: string) {
    forall i :: 0 <= i < |s| ==>
      s[i] in {'\t', '\n', '\U{0B}', '\U{0C}', '\r', ' ', '\U{85}', '\U{A0}', '\U{1680}', '\U{2000}', '\U{2001}',
               '\U{2002}', '\U{2003}', '\U{2004}', '\U{2005}', '\U{2006}', '\U{2007}', '\U{2008}', '\U{2009}',
               '\U{200A}', '\U{2028}', '\U{2029}', '\U{202F}', '\U{205F}', '\U{3000}'}
  }
}
