/**
 * `tokenize`, the lexer behind memory retrieval: CJK Unified Ideographs become one-character
 * tokens, and everything else is split into runs of ASCII letters and digits.
 *
 * The method follows the source loop (a character buffer that is split on every
 * non-alphanumeric character whenever a CJK character or the end of input is reached);
 * `Lex` is an independent reference definition that reads the text one character at a
 * time, and the method is proved to compute it.
 */
module Tokenizer {
  import opened Text

  /** `is_cjk`: U+4E00 ..= U+9FFF. */
  predicate IsCjk(c: char) {
    '\U{4E00}' <= c <= '\U{9FFF}'
  }

  /** The characters that end up inside some token. */
  predicate IsTokenChar(c: char) {
    IsCjk(c) || IsAsciiAlnum(c)
  }

  /** A token `tokenize` may produce: one CJK character, or a non-empty lower-case ASCII word. */
  predicate IsToken(t: string) {
    || (|t| == 1 && IsCjk(t[0]))
    || (t != [] && forall k | 0 <= k < |t| :: IsAsciiLowerAlnum(t[k]))
  }

  // ---------------------------------------------------------------------------
  // Reference definition
  // ---------------------------------------------------------------------------

  function Flush(word: string): seq<string> {
    if word == [] then [] else [word]
  }

  /** Tokens of `s` when `word` is the ASCII run read just before it: a CJK character ends the
      run and is a token of its own, a letter or digit extends the run, any other character
      just ends it. */
  function Lex(s: string, word: string): seq<string> {
    if s == [] then Flush(word)
    else if IsCjk(s[0]) then Flush(word) + [[s[0]]] + Lex(s[1..], [])
    else if IsAsciiAlnum(s[0]) then Lex(s[1..], word + [s[0]])
    else Flush(word) + Lex(s[1..], [])
  }

  /** All characters of `s` that belong to some token, in order. */
  function TokenChars(s: string): string {
    if s == [] then [] else (if IsTokenChar(s[0]) then [s[0]] else []) + TokenChars(s[1..])
  }

  function Concat(ts: seq<string>): string {
    if ts == [] then [] else ts[0] + Concat(ts[1..])
  }

  lemma {:induction false} ConcatAppend(a: seq<string>, b: seq<string>)
    ensures Concat(a + b) == Concat(a) + Concat(b)
  {
    if a == [] {
      assert a + b == b;
    } else {
      assert (a + b)[1..] == a[1..] + b;
      ConcatAppend(a[1..], b);
    }
  }

  /** Every token of lower-cased text is a CJK character or a lower-case ASCII word. */
  lemma {:induction false} LexTokens(s: string, word: string)
    requires forall k | 0 <= k < |s| :: !('A' <= s[k] <= 'Z')
    requires forall k | 0 <= k < |word| :: IsAsciiLowerAlnum(word[k])
    ensures forall k | 0 <= k < |Lex(s, word)| :: IsToken(Lex(s, word)[k])
  {
    if s != [] {
      if IsCjk(s[0]) {
        LexTokens(s[1..], []);
      } else if IsAsciiAlnum(s[0]) {
        LexTokens(s[1..], word + [s[0]]);
      } else {
        LexTokens(s[1..], []);
      }
    }
  }

  /** Tokens keep the input's order and drop nothing but separators: concatenated, they are
      exactly the token characters of the input. */
  lemma {:induction false} LexConcat(s: string, word: string)
    ensures Concat(Lex(s, word)) == word + TokenChars(s)
  {
    ConcatFlush(word);
    if s == [] {
      assert word + TokenChars(s) == word;
    } else if IsCjk(s[0]) {
      LexConcat(s[1..], []);
      ConcatAtCjk(word, s[0], Lex(s[1..], []), TokenChars(s[1..]));
    } else if IsAsciiAlnum(s[0]) {
      LexConcat(s[1..], word + [s[0]]);
      assert (word + [s[0]]) + TokenChars(s[1..]) == word + ([s[0]] + TokenChars(s[1..]));
    } else {
      LexConcat(s[1..], []);
      ConcatAppend(Flush(word), Lex(s[1..], []));
      assert [] + TokenChars(s[1..]) == TokenChars(s[1..]);
    }
  }

  /** The CJK step of `LexConcat`: the flushed run, the character's own token, then the rest. */
  lemma ConcatAtCjk(word: string, c: char, rest: seq<string>, chars: string)
    requires Concat(rest) == [] + chars
    ensures Concat(Flush(word) + [[c]] + rest) == word + ([c] + chars)
  {
    ConcatAppend(Flush(word) + [[c]], rest);
    ConcatAppend(Flush(word), [[c]]);
    ConcatFlush(word);
    ConcatFlush([c]);
    assert [] + chars == chars;
  }

  lemma ConcatFlush(word: string)
    ensures Concat(Flush(word)) == word
  {
    if word != [] {
      assert Concat([word]) == word + Concat([]);
    }
  }

  /** Text with no token characters (blank text in particular) yields no tokens. */
  lemma {:induction false} LexNoTokenChars(s: string)
    requires forall k | 0 <= k < |s| :: !IsTokenChar(s[k])
    ensures Lex(s, []) == []
  {
    if s != [] {
      LexNoTokenChars(s[1..]);
    }
  }

  /** A CJK character splits the lexing in two. */
  lemma {:induction false} LexAtCjk(x: string, c: char, y: string, word: string)
    requires IsCjk(c)
    ensures Lex(x + [c] + y, word) == Lex(x, word) + [[c]] + Lex(y, [])
  {
    var s := x + [c] + y;
    if x == [] {
      assert s[0] == c && s[1..] == y;
    } else {
      assert s[0] == x[0] && s[1..] == x[1..] + [c] + y;
      if IsCjk(x[0]) {
        LexAtCjk(x[1..], c, y, []);
      } else if IsAsciiAlnum(x[0]) {
        LexAtCjk(x[1..], c, y, word + [x[0]]);
      } else {
        LexAtCjk(x[1..], c, y, []);
      }
    }
  }

  // ---------------------------------------------------------------------------
  // The source's buffer splitting
  // ---------------------------------------------------------------------------

  /** `str::split(|c| !c.is_ascii_alphanumeric())`: the pieces between separators, empty
      pieces included; there is always at least one. */
  function SplitParts(s: string): (parts: seq<string>)
    ensures |parts| >= 1
  {
    if s == [] then [[]]
    else if !IsAsciiAlnum(s[0]) then [[]] + SplitParts(s[1..])
    else var rest := SplitParts(s[1..]); [[s[0]] + rest[0]] + rest[1..]
  }

  /** The parts the source pushes: the non-empty ones. */
  function NonEmpty(parts: seq<string>): seq<string> {
    if parts == [] then [] else Flush(parts[0]) + NonEmpty(parts[1..])
  }

  /** Splitting a buffer without CJK characters and keeping the non-empty parts lexes it. */
  lemma {:induction false} SplitIsLex(s: string, word: string)
    requires forall k | 0 <= k < |s| :: !IsCjk(s[k])
    ensures var parts := SplitParts(s);
      NonEmpty([word + parts[0]] + parts[1..]) == Lex(s, word)
  {
    var parts := SplitParts(s);
    if s == [] {
      assert word + parts[0] == word && parts[1..] == [];
      assert [word + parts[0]] + parts[1..] == [word];
      assert NonEmpty([word]) == Flush(word) by {
        assert [word][1..] == [];
      }
    } else if !IsAsciiAlnum(s[0]) {
      var rest := SplitParts(s[1..]);
      SplitIsLex(s[1..], []);
      assert [] + rest[0] == rest[0];
      assert [rest[0]] + rest[1..] == rest;
      assert parts[0] == [] && parts[1..] == rest;
      var q := [word + parts[0]] + parts[1..];
      assert q[0] == word && q[1..] == rest;
    } else {
      var rest := SplitParts(s[1..]);
      SplitIsLex(s[1..], word + [s[0]]);
      assert word + parts[0] == (word + [s[0]]) + rest[0];
      assert parts[1..] == rest[1..];
    }
  }

  /** The inner loop of `tokenize`: push every non-empty part of the buffer. */
  method PushParts(tokens: seq<string>, buf: string) returns (out: seq<string>)
    requires forall k | 0 <= k < |buf| :: !IsCjk(buf[k])
    ensures out == tokens + Lex(buf, [])
  {
    var parts := SplitParts(buf);
    out := tokens;
    var j := 0;
    while j < |parts|
      invariant 0 <= j <= |parts|
      invariant out + NonEmpty(parts[j..]) == tokens + NonEmpty(parts)
    {
      assert parts[j..][1..] == parts[j + 1..];
      if parts[j] != [] {
        out := out + [parts[j]];
      }
      j := j + 1;
    }
    assert parts[j..] == [];
    SplitIsLex(buf, []);
    assert [] + parts[0] == parts[0];
    assert [parts[0]] + parts[1..] == parts;
  }

  // ---------------------------------------------------------------------------
  // tokenize
  // ---------------------------------------------------------------------------

  /** The text `tokenize` scans: normalised, then lower-cased. */
  function Prepared(text: string): string {
    AsciiLower(Normalize(text))
  }

  /** `tokenize`: prepares the text, then scans it. */
  method Tokenize(text: string) returns (tokens: seq<string>)
    ensures tokens == Lex(Prepared(text), [])
    ensures Normalize(text) == [] ==> tokens == []
    ensures forall k | 0 <= k < |tokens| :: IsToken(tokens[k])
    ensures Concat(tokens) == TokenChars(Prepared(text))
  {
    var t := Prepared(text);
    if t == [] {
      return [];
    }
    tokens := Scan(t);
    TokenizeFacts(text);
  }

  /** The character loop of `tokenize`: CJK characters are pushed as they come, other
      characters collect in `buf`, which is split and flushed at each CJK character and at
      the end. */
  method Scan(t: string) returns (tokens: seq<string>)
    ensures tokens == Lex(t, [])
  {
    tokens := [];
    var buf := "";
    var i := 0;
    assert buf + t[i..] == t;
    while i < |t|
      invariant 0 <= i <= |t|
      invariant forall k | 0 <= k < |buf| :: !IsCjk(buf[k])
      invariant tokens + Lex(buf + t[i..], []) == Lex(t, [])
    {
      var ch := t[i];
      if IsCjk(ch) {
        LexStepCjk(buf, t, i);
        if buf != [] {
          tokens := PushParts(tokens, buf);
          buf := [];
        } else {
          assert Lex(buf, []) == [];
        }
        tokens := tokens + [[ch]];
        i := i + 1;
        continue;
      }
      ShiftIntoBuffer(buf, t, i);
      buf := buf + [ch];
      i := i + 1;
    }
    assert buf + t[i..] == buf;
    if buf != [] {
      tokens := PushParts(tokens, buf);
    } else {
      assert Lex(buf, []) == [];
    }
  }

  lemma ShiftIntoBuffer(buf: string, t: string, i: nat)
    requires i < |t|
    ensures buf + t[i..] == (buf + [t[i]]) + t[i + 1..]
  {
    assert t[i..] == [t[i]] + t[i + 1..];
  }

  lemma LexStepCjk(buf: string, t: string, i: nat)
    requires i < |t| && IsCjk(t[i])
    ensures Lex(buf + t[i..], []) == Lex(buf, []) + [[t[i]]] + Lex([] + t[i + 1..], [])
  {
    assert buf + t[i..] == buf + [t[i]] + t[i + 1..];
    assert [] + t[i + 1..] == t[i + 1..];
    LexAtCjk(buf, t[i], t[i + 1..], []);
  }

  /** What the reference lexing of the prepared text promises. */
  lemma TokenizeFacts(text: string)
    ensures Normalize(text) == [] ==> Lex(Prepared(text), []) == []
    ensures forall k | 0 <= k < |Lex(Prepared(text), [])| :: IsToken(Lex(Prepared(text), [])[k])
    ensures Concat(Lex(Prepared(text), [])) == TokenChars(Prepared(text))
  {
    var t := Prepared(text);
    LexTokens(t, []);
    LexConcat(t, []);
  }
}
