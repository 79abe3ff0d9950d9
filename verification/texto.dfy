/** The tokenizer of `indexacao/texto.rs` (`ProcessadorTexto`): a stateless
    unit struct, so every operation here is a pure function.

    Character classes follow Rust's `char` methods. `IsWhitespace` is the exact
    Unicode White_Space set used by `char::is_whitespace`; letters, digits and
    case mapping are modelled on Latin-1 only (code points below 256), which
    covers the Portuguese catalogue text the system handles. */
module Texto {

  // ---------------------------------------------------------------------
  // Character classes

  /** `char::is_whitespace`. */
  predicate IsWhitespace(c: char) {
    ('\t' <= c <= '\r') || c == ' ' || c == '\U{85}' || c == '\U{A0}'
    || c == '\U{1680}' || ('\U{2000}' <= c <= '\U{200A}')
    || c == '\U{2028}' || c == '\U{2029}' || c == '\U{202F}'
    || c == '\U{205F}' || c == '\U{3000}'
  }

  /** `char::is_alphanumeric` on Latin-1: ASCII letters and digits, the
      Latin-1 letters, and the superscript digits and vulgar fractions
      (Unicode category No, which Rust counts as numeric). */
  predicate IsAlphanumeric(c: char) {
    ('0' <= c <= '9') || ('A' <= c <= 'Z') || ('a' <= c <= 'z')
    || c == '\U{AA}' || c == '\U{B2}' || c == '\U{B3}' || c == '\U{B5}'
    || c == '\U{B9}' || c == '\U{BA}' || ('\U{BC}' <= c <= '\U{BE}')
    || ('\U{C0}' <= c <= '\U{D6}') || ('\U{D8}' <= c <= '\U{F6}')
    || ('\U{F8}' <= c <= '\U{FF}')
  }

  /** The pattern handed to `trim_matches` by `processar`. */
  predicate NotAlphanumeric(c: char) {
    !IsAlphanumeric(c)
  }

  /** `char::to_lowercase` on Latin-1: 'A'..'Z' and 'À'..'Þ' (except the
      multiplication sign) move down by 32; every other character is kept. */
  function LowerChar(c: char): char {
    if ('A' <= c <= 'Z') || ('\U{C0}' <= c <= '\U{DE}' && c != '\U{D7}')
    then (c as int + 32) as char
    else c
  }

  // ---------------------------------------------------------------------
  // Properties of strings

  predicate IsLower(s: string) {
    forall i :: 0 <= i < |s| ==> LowerChar(s[i]) == s[i]
  }

  predicate NoWhitespace(s: string) {
    forall i :: 0 <= i < |s| ==> !IsWhitespace(s[i])
  }

  /** What `processar` promises of each token it returns. */
  predicate IsToken(t: string) {
    && t != []
    && NoWhitespace(t)
    && IsLower(t)
    && IsAlphanumeric(t[0])
    && IsAlphanumeric(t[|t| - 1])
  }

  // ---------------------------------------------------------------------
  // The library operations `processar` is built from

  /** `str::to_lowercase`, character by character. */
  function Lower(s: string): (r: string)
    ensures |r| == |s|
  {
    seq(|s|, i requires 0 <= i < |s| => LowerChar(s[i]))
  }

  /** Lower-casing gives a lower-case string, keeps whitespace and creates no
      letter or digit. */
  lemma LowerKeeps(s: string)
    ensures IsLower(Lower(s))
    ensures forall i :: 0 <= i < |s| ==> IsWhitespace(Lower(s)[i]) == IsWhitespace(s[i])
    ensures (forall i :: 0 <= i < |s| ==> !IsAlphanumeric(s[i])) ==>
              forall i :: 0 <= i < |s| ==> !IsAlphanumeric(Lower(s)[i])
  {
  }

  /** The number of characters matching `drop` at the start of `s`. */
  function LeadingMatches(s: string, drop: char -> bool): (n: nat)
    ensures n <= |s|
    ensures forall i :: 0 <= i < n ==> drop(s[i])
    ensures n < |s| ==> !drop(s[n])
  {
    if s == [] || !drop(s[0]) then 0 else 1 + LeadingMatches(s[1..], drop)
  }

  /** The index where the run of characters matching `drop` at the end of
      `s` begins. */
  function TrailingMatches(s: string, drop: char -> bool): (n: nat)
    ensures n <= |s|
    ensures forall i :: n <= i < |s| ==> drop(s[i])
    ensures 0 < n ==> !drop(s[n - 1])
  {
    if s == [] || !drop(s[|s| - 1]) then |s| else TrailingMatches(s[..|s| - 1], drop)
  }

  /** A slice of a whitespace-free, lower-case string is both too. */
  lemma SliceKeeps(s: string, a: nat, b: nat)
    requires a <= b <= |s|
    ensures NoWhitespace(s) ==> NoWhitespace(s[a..b])
    ensures IsLower(s) ==> IsLower(s[a..b])
  {
    var r := s[a..b];
    assert forall i :: 0 <= i < |r| ==> r[i] == s[a + i];
  }

  /** `str::trim_matches(drop)`: the slice of `s` between the runs of
      characters matching `drop` at either end; inner characters are kept.
      With `drop` = `IsWhitespace` this is `str::trim`. */
  function TrimMatches(s: string, drop: char -> bool): (r: string)
    ensures r != [] ==> !drop(r[0]) && !drop(r[|r| - 1])
    ensures r == [] <==> forall i :: 0 <= i < |s| ==> drop(s[i])
  {
    var a := LeadingMatches(s, drop);
    var b := TrailingMatches(s, drop);
    if b <= a then [] else s[a..b]
  }

  lemma TrimMatchesKeeps(s: string, drop: char -> bool)
    ensures NoWhitespace(s) ==> NoWhitespace(TrimMatches(s, drop))
    ensures IsLower(s) ==> IsLower(TrimMatches(s, drop))
  {
    var a := LeadingMatches(s, drop);
    var b := TrailingMatches(s, drop);
    if a < b {
      SliceKeeps(s, a, b);
    }
  }

  /** The longest prefix of `s` without whitespace. */
  function Word(s: string): (w: string)
    ensures |w| <= |s| && w == s[..|w|]
    ensures NoWhitespace(w)
    ensures |w| < |s| ==> IsWhitespace(s[|w|])
  {
    if s == [] || IsWhitespace(s[0]) then [] else [s[0]] + Word(s[1..])
  }

  /** `str::split_whitespace`: the maximal whitespace-free runs of `s`. */
  function SplitWhitespace(s: string): (ws: seq<string>)
    ensures |ws| <= |s|
    decreases |s|
  {
    if s == [] then []
    else if IsWhitespace(s[0]) then SplitWhitespace(s[1..])
    else
      var w := Word(s);
      [w] + SplitWhitespace(s[|w|..])
  }

  /** The `map(trim_matches(!is_alphanumeric))` / `filter(!is_empty)` stage
      of `processar`. */
  function Tokens(words: seq<string>): (ts: seq<string>)
    ensures |ts| <= |words|
  {
    if words == [] then [] else TokenDe(words[0]) + Tokens(words[1..])
  }

  /** What one piece contributes: its trimmed form, unless that is empty. */
  function TokenDe(w: string): (ts: seq<string>)
    ensures |ts| <= 1
  {
    var t := TrimMatches(w, NotAlphanumeric);
    if t == [] then [] else [t]
  }

  /** `[a, b, c].join(" ")`. */
  function Join(ts: seq<string>): string {
    if |ts| == 0 then ""
    else if |ts| == 1 then ts[0]
    else ts[0] + " " + Join(ts[1..])
  }

  // ---------------------------------------------------------------------
  // ProcessadorTexto

  /** `ProcessadorTexto::processar`: lower-case, split on whitespace, strip
      non-alphanumeric characters at both ends of each piece, drop empty
      pieces. Each token uses up at least one character of the text. */
  function Processar(texto: string): (r: seq<string>)
    ensures |r| <= |texto|
  {
    Tokens(SplitWhitespace(Lower(texto)))
  }

  /** Every token `processar` returns is non-empty, whitespace-free,
      lower-case, and begins and ends with a letter or digit. */
  lemma ProcessarTokens(texto: string)
    ensures forall t :: t in Processar(texto) ==> IsToken(t)
  {
    LowerKeeps(texto);
    PalavrasSemEspaco(Lower(texto));
    TokensValidos(SplitWhitespace(Lower(texto)));
  }

  /** The pieces of `split_whitespace` are non-empty and whitespace-free,
      and lower-case when the text is. */
  lemma {:induction false} PalavrasSemEspaco(s: string)
    ensures forall w :: w in SplitWhitespace(s) ==> w != [] && NoWhitespace(w)
    ensures IsLower(s) ==> forall w :: w in SplitWhitespace(s) ==> IsLower(w)
    decreases |s|
  {
    if s == [] {
    } else if IsWhitespace(s[0]) {
      PalavrasSemEspaco(s[1..]);
    } else {
      var w := Word(s);
      PalavrasSemEspaco(s[|w|..]);
      assert SplitWhitespace(s) == [w] + SplitWhitespace(s[|w|..]);
    }
  }

  lemma {:induction false} TokensValidos(words: seq<string>)
    requires forall w :: w in words ==> NoWhitespace(w) && IsLower(w)
    ensures forall t :: t in Tokens(words) ==> IsToken(t)
  {
    if words != [] {
      assert words[0] in words;
      TrimMatchesKeeps(words[0], NotAlphanumeric);
      assert forall w :: w in words[1..] ==> w in words;
      TokensValidos(words[1..]);
    }
  }

  /** `ProcessadorTexto::processar_termo`: lower-case and trim surrounding
      whitespace only; punctuation is kept. */
  function ProcessarTermo(termo: string): (r: string)
    ensures |r| <= |termo|
    ensures NoWhitespace(termo) ==> r == Lower(termo)
  {
    var l := Lower(termo);
    LowerKeeps(termo);
    assert NoWhitespace(termo) ==> NoWhitespace(l) && LeadingMatches(l, IsWhitespace) == 0;
    TrimMatches(l, IsWhitespace)
  }

  /** A run of characters matching `drop` in front of a text that does not
      start with one is exactly the leading run. */
  lemma {:induction false} LeadingPadded(p: string, t: string, drop: char -> bool)
    requires forall i :: 0 <= i < |p| ==> drop(p[i])
    requires t != [] && !drop(t[0])
    ensures LeadingMatches(p + t, drop) == |p|
    decreases |p|
  {
    if p == [] {
      assert p + t == t;
    } else {
      assert (p + t)[0] == p[0];
      assert (p + t)[1..] == p[1..] + t;
      LeadingPadded(p[1..], t, drop);
    }
  }

  /** A run of characters matching `drop` after a text that does not end
      with one is exactly the trailing run. */
  lemma {:induction false} TrailingPadded(t: string, p: string, drop: char -> bool)
    requires forall i :: 0 <= i < |p| ==> drop(p[i])
    requires t != [] && !drop(t[|t| - 1])
    ensures TrailingMatches(t + p, drop) == |t|
    decreases |p|
  {
    if p == [] {
      assert t + p == t;
    } else {
      var s := t + p;
      assert s[|s| - 1] == p[|p| - 1];
      assert s[..|s| - 1] == t + p[..|p| - 1];
      TrailingPadded(t, p[..|p| - 1], drop);
    }
  }

  /** `trim_matches` removes exactly the surrounding runs: a text padded on
      both sides with characters matching `drop` trims back to itself, inner
      characters included. */
  lemma TrimMatchesPadded(p1: string, t: string, p2: string, drop: char -> bool)
    requires forall i :: 0 <= i < |p1| ==> drop(p1[i])
    requires forall i :: 0 <= i < |p2| ==> drop(p2[i])
    requires t != [] && !drop(t[0]) && !drop(t[|t| - 1])
    ensures TrimMatches(p1 + t + p2, drop) == t
  {
    var s := p1 + t + p2;
    assert s == p1 + (t + p2);
    assert (t + p2)[0] == t[0];
    LeadingPadded(p1, t + p2, drop);
    assert (p1 + t)[|p1 + t| - 1] == t[|t| - 1];
    TrailingPadded(p1 + t, p2, drop);
    assert s[|p1|..|p1| + |t|] == t;
  }

  /** `processar_termo` removes exactly the surrounding whitespace: a term
      padded with whitespace gives its lower-cased core, inner whitespace
      and punctuation kept. */
  lemma ProcessarTermoPadded(w1: string, t: string, w2: string)
    requires forall i :: 0 <= i < |w1| ==> IsWhitespace(w1[i])
    requires forall i :: 0 <= i < |w2| ==> IsWhitespace(w2[i])
    requires t != [] && !IsWhitespace(t[0]) && !IsWhitespace(t[|t| - 1])
    ensures ProcessarTermo(w1 + t + w2) == Lower(t)
  {
    LowerConcat(w1 + t, w2);
    LowerConcat(w1, t);
    LowerKeeps(w1);
    LowerKeeps(t);
    LowerKeeps(w2);
    var l1, lt, l2 := Lower(w1), Lower(t), Lower(w2);
    assert IsWhitespace(lt[0]) == IsWhitespace(t[0]);
    assert IsWhitespace(lt[|lt| - 1]) == IsWhitespace(t[|t| - 1]);
    TrimMatchesPadded(l1, lt, l2, IsWhitespace);
  }

  /** A term is lower-case with no whitespace at either end, and is empty
      exactly when the input is all whitespace. */
  lemma ProcessarTermoKeeps(termo: string)
    ensures var r := ProcessarTermo(termo);
      && IsLower(r)
      && (r != [] ==> !IsWhitespace(r[0]) && !IsWhitespace(r[|r| - 1]))
      && (r == [] <==> forall i :: 0 <= i < |termo| ==> IsWhitespace(termo[i]))
  {
    var l := Lower(termo);
    LowerKeeps(termo);
    TrimMatchesKeeps(l, IsWhitespace);
  }

  // ---------------------------------------------------------------------
  // Lemmas

  lemma LowerConcat(a: string, b: string)
    ensures Lower(a + b) == Lower(a) + Lower(b)
  {
  }

  lemma {:induction false} WordBeforeWhitespace(a: string, c: char, b: string)
    requires IsWhitespace(c)
    ensures Word(a + [c] + b) == Word(a)
    decreases |a|
  {
    var s := a + [c] + b;
    if a == [] {
      assert s[0] == c;
    } else if IsWhitespace(a[0]) {
      assert s[0] == a[0];
    } else {
      assert s[0] == a[0];
      assert s[1..] == a[1..] + [c] + b;
      WordBeforeWhitespace(a[1..], c, b);
    }
  }

  /** Splitting at a whitespace character splits the word list. */
  lemma {:induction false} SplitWhitespaceConcat(a: string, c: char, b: string)
    requires IsWhitespace(c)
    ensures SplitWhitespace(a + [c] + b) == SplitWhitespace(a) + SplitWhitespace(b)
    decreases |a|
  {
    var s := a + [c] + b;
    if a == [] {
      assert s[1..] == b;
    } else if IsWhitespace(a[0]) {
      assert s[0] == a[0];
      assert s[1..] == a[1..] + [c] + b;
      SplitWhitespaceConcat(a[1..], c, b);
    } else {
      assert s[0] == a[0];
      WordBeforeWhitespace(a, c, b);
      var w := Word(a);
      assert s[|w|..] == a[|w|..] + [c] + b;
      SplitWhitespaceConcat(a[|w|..], c, b);
    }
  }

  lemma {:induction false} TokensConcat(x: seq<string>, y: seq<string>)
    ensures Tokens(x + y) == Tokens(x) + Tokens(y)
  {
    if x == [] {
      assert x + y == y;
    } else {
      assert (x + y)[0] == x[0] && (x + y)[1..] == x[1..] + y;
      TokensConcat(x[1..], y);
    }
  }

  /** Tokenizing two texts joined by a space gives the two tokenizations one
      after the other. This is what makes the combined index of `inverso.rs`
      agree with the three per-field indexes. */
  lemma ProcessarConcat(a: string, b: string)
    ensures Processar(a + " " + b) == Processar(a) + Processar(b)
  {
    LowerConcat(a, " " + b);
    LowerConcat(" ", b);
    assert Lower(a + " " + b) == Lower(a) + [' '] + Lower(b) by {
      assert a + " " + b == a + (" " + b);
    }
    SplitWhitespaceConcat(Lower(a), ' ', Lower(b));
    TokensConcat(SplitWhitespace(Lower(a)), SplitWhitespace(Lower(b)));
  }

  /** The tokens of the three indexed fields joined as `"{} {} {}"`. */
  lemma ProcessarTresCampos(a: string, b: string, c: string)
    ensures Processar(a + " " + b + " " + c) == Processar(a) + Processar(b) + Processar(c)
  {
    ProcessarConcat(a + " " + b, c);
    ProcessarConcat(a, b);
  }

  lemma WordOfNoWhitespace(s: string)
    requires NoWhitespace(s)
    ensures Word(s) == s
  {
  }

  /** A non-empty text without whitespace is one word. */
  lemma SplitSemEspaco(s: string)
    requires s != [] && NoWhitespace(s)
    ensures SplitWhitespace(s) == [s]
  {
    WordOfNoWhitespace(s);
    assert s[|s|..] == [];
  }

  /** A token is its own tokenization. */
  lemma ProcessarToken(t: string)
    requires IsToken(t)
    ensures Processar(t) == [t]
  {
    assert Lower(t) == t;
    SplitSemEspaco(t);
    assert LeadingMatches(t, NotAlphanumeric) == 0;
    assert TrailingMatches(t, NotAlphanumeric) == |t|;
    assert t[0..|t|] == t;
    assert Tokens([t]) == [t] + Tokens([]);
  }

  /** A word whose lower-case form is a token tokenizes to that form. */
  lemma ProcessarPalavra(w: string)
    requires IsToken(Lower(w))
    ensures Processar(w) == [Lower(w)]
  {
    var l := Lower(w);
    assert Lower(l) == l;
    ProcessarToken(l);
  }

  /** `processar` strips only the surrounding punctuation of a word: a word
      whose lower-case form is a token, wrapped in whitespace-free
      non-alphanumeric characters, yields exactly that form, its inner
      punctuation kept. */
  lemma ProcessarPadded(p1: string, w: string, p2: string)
    requires forall i :: 0 <= i < |p1| ==> !IsWhitespace(p1[i]) && !IsAlphanumeric(p1[i])
    requires forall i :: 0 <= i < |p2| ==> !IsWhitespace(p2[i]) && !IsAlphanumeric(p2[i])
    requires IsToken(Lower(w))
    ensures Processar(p1 + w + p2) == [Lower(w)]
  {
    LowerConcat(p1 + w, p2);
    LowerConcat(p1, w);
    LowerKeeps(p1);
    LowerKeeps(p2);
    LowerKeeps(w);
    var l1, lw, l2 := Lower(p1), Lower(w), Lower(p2);
    var s := l1 + lw + l2;
    assert Lower(p1 + w + p2) == s;
    assert NoWhitespace(s) by {
      forall i | 0 <= i < |s|
        ensures !IsWhitespace(s[i])
      {
        if i < |l1| {
          assert s[i] == l1[i];
        } else if i < |l1| + |lw| {
          assert s[i] == lw[i - |l1|];
        } else {
          assert s[i] == l2[i - |l1| - |lw|];
        }
      }
    }
    SplitSemEspaco(s);
    TrimMatchesPadded(l1, lw, l2, NotAlphanumeric);
    assert Tokens([s]) == TokenDe(s) + Tokens([]);
  }

  /** Tokenizing space-joined tokens gives them back. */
  lemma {:induction false} ProcessarJoin(ts: seq<string>)
    requires forall t :: t in ts ==> IsToken(t)
    ensures Processar(Join(ts)) == ts
    decreases |ts|
  {
    if |ts| == 0 {
      ProcessarVazio();
    } else {
      assert ts[0] in ts;
      if |ts| == 1 {
        ProcessarJoinUm(ts);
      } else {
        assert forall t :: t in ts[1..] ==> t in ts;
        ProcessarJoin(ts[1..]);
        ProcessarJoinPasso(ts);
      }
    }
  }

  /** A single token joins to itself. */
  lemma ProcessarJoinUm(ts: seq<string>)
    requires |ts| == 1 && IsToken(ts[0])
    ensures Processar(Join(ts)) == ts
  {
    ProcessarToken(ts[0]);
    assert ts == [ts[0]];
  }

  /** A token in front of joined tokens that tokenize back to themselves. */
  lemma ProcessarJoinPasso(ts: seq<string>)
    requires |ts| >= 2 && IsToken(ts[0]) && Processar(Join(ts[1..])) == ts[1..]
    ensures Processar(Join(ts)) == ts
  {
    var rest := ts[1..];
    assert Join(ts) == ts[0] + " " + Join(rest);
    ProcessarToken(ts[0]);
    ProcessarConcat(ts[0], Join(rest));
    assert ts == [ts[0]] + rest;
  }

  /** The empty text has no tokens. */
  lemma ProcessarVazio()
    ensures Processar("") == []
  {
    assert Lower("") == "";
  }

  /** `processar` is idempotent: re-tokenizing its space-joined output gives
      the same tokens. */
  lemma ProcessarIdempotente(s: string)
    ensures Processar(Join(Processar(s))) == Processar(s)
  {
    ProcessarTokens(s);
    ProcessarJoin(Processar(s));
  }

  lemma {:induction false} TokensSemAlfanumerico(s: string)
    requires forall i :: 0 <= i < |s| ==> !IsAlphanumeric(s[i])
    ensures Tokens(SplitWhitespace(s)) == []
    decreases |s|
  {
    if s == [] {
    } else if IsWhitespace(s[0]) {
      TokensSemAlfanumerico(s[1..]);
    } else {
      var w := Word(s);
      TokensSemAlfanumerico(s[|w|..]);
      assert TrimMatches(w, NotAlphanumeric) == [];
      TokensConcat([w], SplitWhitespace(s[|w|..]));
    }
  }

  /** A text without any letter or digit (empty, whitespace only, or
      punctuation only) has no tokens. */
  lemma ProcessarSemAlfanumerico(s: string)
    requires forall i :: 0 <= i < |s| ==> !IsAlphanumeric(s[i])
    ensures Processar(s) == []
  {
    LowerKeeps(s);
    TokensSemAlfanumerico(Lower(s));
  }

  /** An empty or whitespace-only text has no tokens. */
  lemma ProcessarSoEspaco(s: string)
    requires forall i :: 0 <= i < |s| ==> IsWhitespace(s[i])
    ensures Processar(s) == []
  {
    ProcessarSemAlfanumerico(s);
  }

  /** `processar_termo` leaves every token of `processar` unchanged. */
  lemma ProcessarTermoToken(t: string)
    requires IsToken(t)
    ensures ProcessarTermo(t) == t
  {
    assert Lower(t) == t;
  }
}
