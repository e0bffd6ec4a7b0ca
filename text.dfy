/**
 * Text helpers shared by every component: line-ending normalisation and trimming
 * (`normalize_text`), character-bounded truncation with an ellipsis (`safe_slice`),
 * string extraction from JSON payloads (`value_string`), the UTF-8 byte length that
 * Rust's `String::len` reports, and integer clamping (`clamp_i64`).
 */
module Text {
  import opened Wrappers
  import JsonValue

  /** The ellipsis `safe_slice` appends after a cut, U+2026. */
  const Ellipsis: char := '\U{2026}'

  /** Unicode White_Space: the characters Rust's `str::trim` removes. */
  predicate IsWhitespace(c: char) {
    || ('\U{9}' <= c <= '\U{D}')
    || c == ' '
    || c == '\U{85}'
    || c == '\U{A0}'
    || c == '\U{1680}'
    || ('\U{2000}' <= c <= '\U{200A}')
    || c == '\U{2028}'
    || c == '\U{2029}'
    || c == '\U{202F}'
    || c == '\U{205F}'
    || c == '\U{3000}'
  }

  function Min(a: int, b: int): int { if a <= b then a else b }

  function Max(a: int, b: int): int { if a >= b then a else b }

  // ---------------------------------------------------------------------------
  // ASCII classes and case
  // ---------------------------------------------------------------------------

  /** `char::is_ascii_alphanumeric`. */
  predicate IsAsciiAlnum(c: char) {
    ('0' <= c <= '9') || ('a' <= c <= 'z') || ('A' <= c <= 'Z')
  }

  predicate IsAsciiLowerAlnum(c: char) {
    ('0' <= c <= '9') || ('a' <= c <= 'z')
  }

  function LowerChar(c: char): char {
    if 'A' <= c <= 'Z' then (c as int + 32) as char else c
  }

  /** `to_ascii_lowercase`: lower-casing of the ASCII letters only. */
  function AsciiLower(s: string): (r: string)
    ensures |r| == |s|
    ensures forall k | 0 <= k < |s| :: r[k] == LowerChar(s[k])
    ensures forall k | 0 <= k < |r| :: !('A' <= r[k] <= 'Z')
  {
    if s == [] then [] else [LowerChar(s[0])] + AsciiLower(s[1..])
  }

  lemma AsciiLowerIdempotent(s: string)
    ensures AsciiLower(AsciiLower(s)) == AsciiLower(s)
  {
  }

  // ---------------------------------------------------------------------------
  // Trimming
  // ---------------------------------------------------------------------------

  /** The number of leading whitespace characters. */
  function LeadingBlanks(s: string): (n: nat)
    ensures n <= |s|
  {
    if s != [] && IsWhitespace(s[0]) then 1 + LeadingBlanks(s[1..]) else 0
  }

  /** The leading run is all whitespace, and it stops at the first non-blank character. */
  lemma {:induction false} LeadingBlanksRun(s: string)
    ensures var n := LeadingBlanks(s);
      && (forall k | 0 <= k < n :: IsWhitespace(s[k]))
      && (n < |s| ==> !IsWhitespace(s[n]))
  {
    if s != [] && IsWhitespace(s[0]) {
      LeadingBlanksRun(s[1..]);
      assert forall k | 1 <= k < |s| :: s[1..][k - 1] == s[k];
    }
  }

  /** The number of trailing whitespace characters. */
  function TrailingBlanks(s: string): (n: nat)
    ensures n <= |s|
  {
    if s != [] && IsWhitespace(s[|s| - 1]) then 1 + TrailingBlanks(s[..|s| - 1]) else 0
  }

  /** The trailing run is all whitespace, and it stops at the last non-blank character. */
  lemma {:induction false} TrailingBlanksRun(s: string)
    ensures var n := TrailingBlanks(s);
      && (forall k | |s| - n <= k < |s| :: IsWhitespace(s[k]))
      && (n < |s| ==> !IsWhitespace(s[|s| - n - 1]))
  {
    if s != [] && IsWhitespace(s[|s| - 1]) {
      TrailingBlanksRun(s[..|s| - 1]);
    }
  }

  /** `str::trim`: what lies between the leading and the trailing whitespace. */
  function Trim(s: string): (r: string)
    ensures |r| <= |s|
  {
    var lead := LeadingBlanks(s);
    LeadingBlanksRun(s);
    TrailingBlanksRun(s);
    if lead == |s| then [] else s[lead..|s| - TrailingBlanks(s)]
  }

  /** Trimmed text neither starts nor ends with whitespace. */
  lemma TrimEnds(s: string)
    ensures var r := Trim(s); r != [] ==> !IsWhitespace(r[0]) && !IsWhitespace(r[|r| - 1])
  {
    LeadingBlanksRun(s);
    TrailingBlanksRun(s);
  }

  /** Trimming keeps a contiguous run of `s` that starts and ends with a non-blank character,
      and everything it drops is whitespace. */
  lemma TrimShape(s: string)
    ensures var r, lead := Trim(s), LeadingBlanks(s);
      && lead + |r| <= |s|
      && r == s[lead..lead + |r|]
      && (forall k | 0 <= k < lead :: IsWhitespace(s[k]))
      && (forall k | lead + |r| <= k < |s| :: IsWhitespace(s[k]))
  {
    LeadingBlanksRun(s);
    TrailingBlanksRun(s);
  }

  /** A string made of whitespace only (the empty string included). */
  predicate IsBlank(s: string) {
    forall k | 0 <= k < |s| :: IsWhitespace(s[k])
  }

  /** `s.trim().is_empty()` holds exactly for the blank strings. */
  lemma TrimBlank(s: string)
    ensures Trim(s) == [] <==> IsBlank(s)
  {
    var lead := LeadingBlanks(s);
    LeadingBlanksRun(s);
    TrailingBlanksRun(s);
    if lead < |s| {
      assert !IsWhitespace(s[lead]);
      assert |s| - TrailingBlanks(s) > lead;
    }
  }

  /** A string with no surrounding whitespace is left alone by trimming. */
  lemma TrimUntouched(s: string)
    requires s != [] && !IsWhitespace(s[0]) && !IsWhitespace(s[|s| - 1])
    ensures Trim(s) == s
  {
    assert LeadingBlanks(s) == 0;
    assert TrailingBlanks(s) == 0;
    assert s[0..|s|] == s;
  }

  /** Trimming is idempotent. */
  lemma TrimIdempotent(s: string)
    ensures Trim(Trim(s)) == Trim(s)
  {
    var r := Trim(s);
    TrimEnds(s);
    if r != [] {
      TrimUntouched(r);
    }
  }

  // ---------------------------------------------------------------------------
  // normalize_text
  // ---------------------------------------------------------------------------

  /** All characters of `s` except `c`, in order. */
  function Without(s: string, c: char): (r: string)
    ensures |r| <= |s|
  {
    if s == [] then [] else (if s[0] == c then [] else [s[0]]) + Without(s[1..], c)
  }

  /** `str::replace("\r\n", "\n")`: one left-to-right pass that turns every CR LF pair it meets
      into a lone LF. */
  function ReplaceCrlf(s: string): (r: string)
    ensures |r| <= |s|
  {
    if |s| >= 2 && s[0] == '\r' && s[1] == '\n' then "\n" + ReplaceCrlf(s[2..])
    else if s == [] then []
    else [s[0]] + ReplaceCrlf(s[1..])
  }

  /** The replacement only ever drops carriage returns, and leaves CR-free text alone. */
  lemma {:induction false} ReplaceCrlfDropsOnlyCr(s: string)
    ensures Without(ReplaceCrlf(s), '\r') == Without(s, '\r')
    ensures (forall k | 0 <= k < |s| :: s[k] != '\r') ==> ReplaceCrlf(s) == s
  {
    if |s| >= 2 && s[0] == '\r' && s[1] == '\n' {
      var rest := ReplaceCrlf(s[2..]);
      ReplaceCrlfDropsOnlyCr(s[2..]);
      assert s[1..][1..] == s[2..];
      assert ("\n" + rest)[1..] == rest;
    } else if s != [] {
      var rest := ReplaceCrlf(s[1..]);
      ReplaceCrlfDropsOnlyCr(s[1..]);
      assert ([s[0]] + rest)[1..] == rest;
    }
  }

  /** `normalize_text`: CR LF becomes LF, then surrounding whitespace is trimmed. */
  function Normalize(text: string): (r: string)
    ensures |r| <= |text|
  {
    Trim(ReplaceCrlf(text))
  }

  /** Normalised text neither starts nor ends with whitespace. */
  lemma NormalizeEnds(text: string)
    ensures var r := Normalize(text); r != [] ==> !IsWhitespace(r[0]) && !IsWhitespace(r[|r| - 1])
  {
    TrimEnds(ReplaceCrlf(text));
  }

  lemma {:induction false} ReplaceCrlfBlank(s: string)
    requires forall k | 0 <= k < |s| :: IsWhitespace(s[k])
    ensures forall k | 0 <= k < |ReplaceCrlf(s)| :: IsWhitespace(ReplaceCrlf(s)[k])
  {
    if |s| >= 2 && s[0] == '\r' && s[1] == '\n' {
      ReplaceCrlfBlank(s[2..]);
    } else if s != [] {
      ReplaceCrlfBlank(s[1..]);
    }
  }

  /** Blank text (whitespace only, the empty string included) normalises to "". */
  lemma NormalizeBlank(text: string)
    requires forall k | 0 <= k < |text| :: IsWhitespace(text[k])
    ensures Normalize(text) == []
  {
    ReplaceCrlfBlank(text);
    TrimBlank(ReplaceCrlf(text));
  }

  /** Normalised text without carriage returns is a fixed point of normalisation. */
  lemma NormalizeFixpoint(text: string)
    requires forall k | 0 <= k < |Normalize(text)| :: Normalize(text)[k] != '\r'
    ensures Normalize(Normalize(text)) == Normalize(text)
  {
    ReplaceCrlfDropsOnlyCr(Normalize(text));
    TrimIdempotent(ReplaceCrlf(text));
  }

  lemma ReplaceCrlfSample()
    ensures ReplaceCrlf("a\r\r\nb") == "a\r\nb"
  {
    assert "\r\nb"[2..] == "b";
    assert ReplaceCrlf("b") == "b";
    assert ReplaceCrlf("\r\nb") == "\nb";
    assert "\r\r\nb"[1..] == "\r\nb";
    assert ReplaceCrlf("\r\r\nb") == "\r\nb";
    assert "a\r\r\nb"[1..] == "\r\r\nb";
  }

  lemma TrimSample(s: string)
    requires |s| >= 2 && s[0] == 'a' && s[|s| - 1] == 'b'
    ensures Trim(s) == s
  {
    TrimUntouched(s);
  }

  lemma ReplaceCrlfSample2()
    ensures ReplaceCrlf("a\r\nb") == "a\nb"
  {
    assert "\r\nb"[2..] == "b";
    assert ReplaceCrlf("b") == "b";
    assert ReplaceCrlf("\r\nb") == "\nb";
    assert "a\r\nb"[1..] == "\r\nb";
  }

  /** The single replacement pass is not idempotent: "a\r\r\nb" normalises to "a\r\nb",
      which normalises again to "a\nb". */
  lemma NormalizeNotIdempotent()
    ensures Normalize("a\r\r\nb") == "a\r\nb"
    ensures Normalize(Normalize("a\r\r\nb")) == "a\nb"
  {
    var once := "a\r\nb";
    var twice := "a\nb";
    ReplaceCrlfSample();
    TrimSample(once);
    assert Normalize("a\r\r\nb") == once;
    ReplaceCrlfSample2();
    TrimSample(twice);
    assert Normalize(once) == twice;
  }

  // ---------------------------------------------------------------------------
  // Lengths: characters and UTF-8 bytes
  // ---------------------------------------------------------------------------

  /** Number of bytes UTF-8 uses for one code point. */
  function Utf8Width(c: char): nat {
    if c < '\U{80}' then 1 else if c < '\U{800}' then 2 else if c < '\U{10000}' then 3 else 4
  }

  /** `String::len`: the length of `s` in UTF-8 bytes. */
  function Utf8Len(s: string): (n: nat)
    ensures |s| <= n <= 4 * |s|
  {
    if s == [] then 0 else Utf8Width(s[0]) + Utf8Len(s[1..])
  }

  lemma {:induction false} Utf8LenConcat(a: string, b: string)
    ensures Utf8Len(a + b) == Utf8Len(a) + Utf8Len(b)
  {
    if a == [] {
      assert a + b == b;
    } else {
      assert (a + b)[1..] == a[1..] + b;
      Utf8LenConcat(a[1..], b);
    }
  }

  /** On ASCII text bytes and characters agree. */
  lemma {:induction false} Utf8LenAscii(s: string)
    requires forall k | 0 <= k < |s| :: s[k] < '\U{80}'
    ensures Utf8Len(s) == |s|
  {
    if s != [] {
      Utf8LenAscii(s[1..]);
    }
  }

  /** `s.chars().take(n).collect()`: the first `n` characters of `s`, or all of it. */
  function Take(s: string, n: nat): (r: string)
    ensures |r| == Min(n, |s|) && r == s[..|r|]
  {
    if |s| <= n then s else s[..n]
  }

  // ---------------------------------------------------------------------------
  // safe_slice
  // ---------------------------------------------------------------------------

  /** The value of `safe_slice(text, maxChars)`: the normalised text, cut to `maxChars`
      characters and marked with an ellipsis when it is longer. */
  function Slice(text: string, maxChars: nat): string {
    var t := Normalize(text);
    if |t| <= maxChars then t else t[..maxChars] + [Ellipsis]
  }

  /** `safe_slice`: copies characters of the normalised text one at a time until `maxChars`
      have been copied, then appends the ellipsis. */
  method SafeSlice(text: string, maxChars: nat) returns (out: string)
    ensures out == Slice(text, maxChars)
    ensures Normalize(text) == [] ==> out == []
    ensures |Normalize(text)| <= maxChars ==> out == Normalize(text)
    ensures |Normalize(text)| > maxChars ==>
              && |out| == maxChars + 1
              && out[..maxChars] == Normalize(text)[..maxChars]
              && out[maxChars] == Ellipsis
  {
    var t := Normalize(text);
    if t == [] {
      return t;
    }
    if |t| <= maxChars {
      return t;
    }
    out := [];
    var i := 0;
    while i < |t|
      invariant 0 <= i <= maxChars && i <= |t|
      invariant out == t[..i]
    {
      if i >= maxChars {
        break;
      }
      out := out + [t[i]];
      i := i + 1;
    }
    out := out + [Ellipsis];
  }

  /** The result never exceeds `maxChars + 1` characters and is empty exactly when the
      normalised text is. */
  lemma SliceBounds(text: string, maxChars: nat)
    ensures |Slice(text, maxChars)| <= maxChars + 1
    ensures |Slice(text, maxChars)| <= |Normalize(text)| + 1
    ensures Slice(text, maxChars) == [] <==> Normalize(text) == []
  {
  }

  // ---------------------------------------------------------------------------
  // value_string
  // ---------------------------------------------------------------------------

  /** `value_string`: the normalised string stored under `key`, or "" when `value` is absent,
      is not an object, lacks the key, or holds something other than a string there. */
  function ValueString(value: Option<JsonValue.Value>, key: string): (r: string)
    ensures JsonValue.StringField(value, key).None? ==> r == []
    ensures JsonValue.StringField(value, key).Some? ==>
              r == Normalize(JsonValue.StringField(value, key).value)
    ensures r != [] ==> !IsWhitespace(r[0]) && !IsWhitespace(r[|r| - 1])
  {
    match JsonValue.StringField(value, key)
    case Some(s) => NormalizeEnds(s); Normalize(s)
    case None => Normalize([])
  }

  // ---------------------------------------------------------------------------
  // clamp_i64
  // ---------------------------------------------------------------------------

  /** `n.max(lo).min(hi)`: with `lo <= hi` the result lies in `[lo, hi]`, equals `n` when `n`
      already does, and is the nearer bound otherwise. With `lo > hi` it is `hi`. */
  function Clamp(n: int, lo: int, hi: int): (r: int)
    ensures r <= hi
    ensures lo <= hi ==> lo <= r
    ensures lo <= n <= hi ==> r == n
    ensures n < lo && lo <= hi ==> r == lo
    ensures hi < n || hi < lo ==> r == hi
  {
    Min(Max(n, lo), hi)
  }
}
