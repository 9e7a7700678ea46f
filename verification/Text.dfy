/** The string operations the program leans on: case folding, trimming, substring
    search, byte order and joined keys. */
module Text {

  const LONG_S: char := '\U{17F}'

  const KELVIN: char := '\U{212A}'
  const DOTTED_I: char := '\U{130}'

  /** Lower-casing to ASCII: the upper-case letters, the Kelvin sign and the dotted I are
      all that has an ASCII lower case; every other character stands for itself. */
  function Lower(c: char): char
  {
    if 'A' <= c <= 'Z' then (c as int + 32) as char
    else if c == KELVIN then 'k'
    else if c == DOTTED_I then 'i'
    else c
  }

  function ToLower(s: string): (r: string)
    ensures |r| == |s|
    ensures forall i :: 0 <= i < |s| ==> r[i] == Lower(s[i])
  {
    seq(|s|, i requires 0 <= i < |s| => Lower(s[i]))
  }

  predicate Lowered(s: string)
  {
    forall i :: 0 <= i < |s| ==> !('A' <= s[i] <= 'Z')
  }

  predicate IsSpace(c: char)
  {
    c in {'\t', '\n', '\U{B}', '\U{C}', '\r', ' ', '\U{85}', '\U{A0}', '\U{1680}',
          '\U{2028}', '\U{2029}', '\U{202F}', '\U{205F}', '\U{3000}'}
    || '\U{2000}' <= c <= '\U{200A}'
  }

  function TrimSpace(s: string): (r: string)
    ensures |r| <= |s|
    ensures r != "" ==> !IsSpace(r[0]) && !IsSpace(r[|r| - 1])
    ensures forall c :: c in r ==> c in s
  {
    if s == "" then s
    else if IsSpace(s[0]) then TrimSpace(s[1..])
    else if IsSpace(s[|s| - 1]) then TrimSpace(s[..|s| - 1])
    else s
  }

  predicate AllSpace(s: string) { forall i :: 0 <= i < |s| ==> IsSpace(s[i]) }

  /** Trimming takes white space off both ends and nothing else. */
  lemma {:induction false} Trimmed(s: string) returns (a: string, b: string)
    ensures s == a + TrimSpace(s) + b && AllSpace(a) && AllSpace(b)
  {
    hide IsSpace;
    if s == "" || (!IsSpace(s[0]) && !IsSpace(s[|s| - 1])) {
      a, b := "", "";
    } else if IsSpace(s[0]) {
      var rest := s[1..];
      a, b := Trimmed(rest);
      hide TrimSpace;
      SpaceBefore(s[0], a, b, TrimSpace(rest), rest);
      a := [s[0]] + a;
    } else {
      var rest := s[..|s| - 1];
      a, b := Trimmed(rest);
      hide TrimSpace;
      SpaceAfter(s[|s| - 1], a, b, TrimSpace(rest), rest);
      b := b + [s[|s| - 1]];
    }
  }

  lemma SpaceBefore(c: char, a: string, b: string, core: string, rest: string)
    requires IsSpace(c) && AllSpace(a) && rest == a + core + b
    ensures [c] + rest == [c] + a + core + b && AllSpace([c] + a)
  {
    hide IsSpace;
  }

  lemma SpaceAfter(c: char, a: string, b: string, core: string, rest: string)
    requires IsSpace(c) && AllSpace(b) && rest == a + core + b
    ensures rest + [c] == a + core + (b + [c]) && AllSpace(b + [c])
  {
    hide IsSpace;
  }

  /** The letters are lower-cased, and nothing that is not a capital is touched. */
  lemma LowerLetters(c: char)
    ensures forall i :: 0 <= i < 26 ==> Lower("ABCDEFGHIJKLMNOPQRSTUVWXYZ"[i]) == "abcdefghijklmnopqrstuvwxyz"[i]
    ensures c !in "ABCDEFGHIJKLMNOPQRSTUVWXYZ" && c != '\U{212A}' && c != '\U{130}' ==> Lower(c) == c
    ensures Lower('\U{212A}') == 'k' && Lower('\U{130}') == 'i'
  {
    var upper := "ABCDEFGHIJKLMNOPQRSTUVWXYZ";
    if 'A' <= c <= 'Z' {
      assert upper[c as int - 65] == c;
    }
  }

  /** Simple Unicode folding against one of the letters of "pass": besides the two
      cases, the long s folds to s. */
  predicate FoldsTo(c: char, letter: char)
  {
    Lower(c) == letter || (letter == 's' && c == LONG_S)
  }

  predicate FoldsToPass(s: string)
  {
    |s| == 4 && FoldsTo(s[0], 'p') && FoldsTo(s[1], 'a') && FoldsTo(s[2], 's') && FoldsTo(s[3], 's')
  }

  predicate OccursAt(s: string, sub: string, i: int)
  {
    0 <= i <= |s| - |sub| && s[i..i + |sub|] == sub
  }

  predicate Contains(s: string, sub: string)
  {
    exists i :: 0 <= i <= |s| && OccursAt(s, sub, i)
  }

  // ---- order -----------------------------------------------------------------

  /** Lexicographic order on code sequences. */
  predicate Lex(a: seq<int>, b: seq<int>)
  {
    b != [] && (a == [] || a[0] < b[0] || (a[0] == b[0] && Lex(a[1..], b[1..])))
  }

  function Codes(s: string): (r: seq<int>)
    ensures |r| == |s|
    ensures forall i :: 0 <= i < |s| ==> r[i] == s[i] as int
  {
    seq(|s|, i requires 0 <= i < |s| => s[i] as int)
  }

  /** Go's string comparison: UTF-8 byte order, which is code point order. */
  predicate Less(a: string, b: string)
  {
    Lex(Codes(a), Codes(b))
  }

  lemma {:induction false} LexTotal(a: seq<int>, b: seq<int>)
    ensures Lex(a, b) || Lex(b, a) || a == b
    ensures !(Lex(a, b) && Lex(b, a))
    ensures !Lex(a, a)
  {
    if a != [] {
      LexTotal(a[1..], a[1..]);
      if b != [] {
        LexTotal(a[1..], b[1..]);
        assert a == [a[0]] + a[1..] && b == [b[0]] + b[1..];
      }
    }
  }

  lemma {:induction false} LexTransitive(a: seq<int>, b: seq<int>, c: seq<int>)
    requires Lex(a, b) && Lex(b, c)
    ensures Lex(a, c)
  {
    if a != [] && a[0] == b[0] == c[0] {
      LexTransitive(a[1..], b[1..], c[1..]);
    }
  }

  lemma LessTotal(a: string, b: string)
    ensures Less(a, b) || Less(b, a) || a == b
    ensures !(Less(a, b) && Less(b, a))
    ensures !Less(a, a)
  {
    LexTotal(Codes(a), Codes(b));
    LexTotal(Codes(a), Codes(a));
    if Codes(a) == Codes(b) {
      assert forall i :: 0 <= i < |a| ==> a[i] as int == Codes(a)[i] == b[i] as int;
      assert a == b;
    }
  }

  lemma LessTransitive(a: string, b: string, c: string)
    requires Less(a, b) && Less(b, c)
    ensures Less(a, c)
  {
    LexTransitive(Codes(a), Codes(b), Codes(c));
  }

  // ---- joined keys -----------------------------------------------------------

  /** Joining with a separator loses nothing when the first part lacks the separator. */
  lemma JoinInjective(a: string, b: string, c: string, d: string, sep: char)
    requires sep !in a && sep !in c
    requires a + [sep] + b == c + [sep] + d
    ensures a == c && b == d
  {
    var x, y := a + [sep] + b, c + [sep] + d;
    assert x[|a|] == sep && y[|c|] == sep;
    assert forall i :: 0 <= i < |a| ==> x[i] == a[i] != sep;
    assert forall i :: 0 <= i < |c| ==> y[i] == c[i] != sep;
    assert |a| == |c|;
    assert a == x[..|a|] && c == y[..|c|];
    assert b == x[|a| + 1..] && d == y[|c| + 1..];
  }

  /** The mirror image: the last part lacks the separator. */
  lemma JoinInjectiveRight(a: string, b: string, c: string, d: string, sep: char)
    requires sep !in b && sep !in d
    requires a + [sep] + b == c + [sep] + d
    ensures a == c && b == d
  {
    var x, y := a + [sep] + b, c + [sep] + d;
    var n := |x|;
    assert x[n - 1 - |b|] == sep && y[n - 1 - |d|] == sep;
    assert forall i :: n - |b| <= i < n ==> x[i] == b[i - (n - |b|)] != sep;
    assert forall i :: n - |d| <= i < n ==> y[i] == d[i - (n - |d|)] != sep;
    assert |b| == |d|;
    assert a == x[..|a|] && c == y[..|c|];
    assert b == x[|a| + 1..] && d == y[|c| + 1..];
  }
}
