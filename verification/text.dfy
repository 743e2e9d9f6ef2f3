/** Models of the functions of Go's `strings` package that the report engine
    uses: Split (and its inverse Join), ToUpper and EqualFold. Strings are
    sequences of Unicode scalar values. */
module Text {

  /** `strings.Split(s, string(sep))` for a one-character separator: the text
      between consecutive separators, so there is always at least one part and
      one more part than there are separators. */
  function Split(s: string, sep: char): (parts: seq<string>)
    ensures |parts| >= 1
    ensures forall i :: 0 <= i < |parts| ==> sep !in parts[i]
    decreases |s|
  {
    if |s| == 0 then [""]
    else
      var rest := Split(s[1..], sep);
      if s[0] == sep then [""] + rest
      else [[s[0]] + rest[0]] + rest[1..]
  }

  /** `strings.Join(parts, string(sep))`. */
  function Join(parts: seq<string>, sep: char): string
    requires |parts| >= 1
    decreases |parts|
  {
    if |parts| == 1 then parts[0] else parts[0] + [sep] + Join(parts[1..], sep)
  }

  /** Joining the parts of a split gives back the original text. */
  lemma {:induction false} JoinSplit(s: string, sep: char)
    ensures Join(Split(s, sep), sep) == s
    decreases |s|
  {
    if |s| > 0 {
      JoinSplit(s[1..], sep);
      var rest := Split(s[1..], sep);
      assert s == [s[0]] + s[1..];
      if s[0] == sep {
        assert ([""] + rest)[1..] == rest;
      } else {
        var parts := [[s[0]] + rest[0]] + rest[1..];
        if |rest| > 1 {
          assert parts[1..] == rest[1..];
        }
      }
    }
  }

  /** Peeling the last part off a join. */
  lemma {:induction false} JoinLast(parts: seq<string>, sep: char)
    requires |parts| >= 2
    ensures Join(parts, sep) == Join(parts[..|parts| - 1], sep) + [sep] + parts[|parts| - 1]
    decreases |parts|
  {
    var n := |parts|;
    if n > 2 {
      JoinLast(parts[1..], sep);
      assert parts[1..][..n - 2] == parts[..n - 1][1..];
    }
  }

  /** `strings.Split(s, string(sep))[0]`: the text before the first separator. */
  function FirstField(s: string, sep: char): (f: string)
    ensures sep !in f
    ensures f <= s
    ensures |f| < |s| ==> s[|f|] == sep
    ensures sep !in s ==> f == s
  {
    var parts := Split(s, sep);
    JoinSplit(s, sep);
    parts[0]
  }

  /** The last element of `strings.Split(s, string(sep))`: the text after the
      last separator. */
  function LastField(s: string, sep: char): (f: string)
    ensures sep !in f
    ensures |f| <= |s| && s[|s| - |f|..] == f
    ensures |f| < |s| ==> s[|s| - |f| - 1] == sep
    ensures sep !in s ==> f == s
  {
    var parts := Split(s, sep);
    JoinSplit(s, sep);
    if |parts| >= 2 then
      JoinLast(parts, sep);
      parts[|parts| - 1]
    else
      parts[0]
  }

  predicate IsLowerAscii(c: char) {
    'a' <= c <= 'z'
  }

  predicate IsLowerAsciiWord(w: string) {
    forall i :: 0 <= i < |w| ==> IsLowerAscii(w[i])
  }

  /** `strings.ToUpper`, restricted to ASCII letters. */
  function ToUpper(s: string): (u: string)
    ensures |u| == |s|
    ensures forall i :: 0 <= i < |u| ==> !IsLowerAscii(u[i])
    ensures forall i :: 0 <= i < |s| && !IsLowerAscii(s[i]) ==> u[i] == s[i]
    ensures forall i :: 0 <= i < |s| && IsLowerAscii(s[i]) ==> u[i] as int == s[i] as int - 32
  {
    seq(|s|, i requires 0 <= i < |s| => if IsLowerAscii(s[i]) then (s[i] as int - 32) as char else s[i])
  }

  /** Upper-casing twice is upper-casing once. */
  lemma ToUpperIdempotent(s: string)
    ensures ToUpper(ToUpper(s)) == ToUpper(s)
  {
  }

  /** The characters that Go's simple case folding makes equal to the
      lower-case ASCII letter `c`: itself, its upper case, and for `s` and `k`
      the LATIN SMALL LETTER LONG S and the KELVIN SIGN. */
  predicate FoldsTo(x: char, c: char)
    requires IsLowerAscii(c)
  {
    || x == c
    || x as int == c as int - 32
    || (c == 's' && x == '\U{017F}')
    || (c == 'k' && x == '\U{212A}')
  }

  /** `strings.EqualFold(s, word)` for a `word` of lower-case ASCII letters,
      the only form in which the report engine calls it. */
  predicate EqualFold(s: string, word: string)
    requires IsLowerAsciiWord(word)
    ensures EqualFold(s, word) ==> |s| == |word|
  {
    |s| == |word| && forall i :: 0 <= i < |s| ==> FoldsTo(s[i], word[i])
  }

  predicate IsAscii(s: string) {
    forall i :: 0 <= i < |s| ==> s[i] as int < 128
  }

  /** A lower-case word matches itself and its upper case. */
  lemma EqualFoldWord(word: string)
    requires IsLowerAsciiWord(word)
    ensures EqualFold(word, word) && EqualFold(ToUpper(word), word)
  {
  }

  /** On ASCII text, EqualFold is equality after upper-casing both sides. */
  lemma EqualFoldAscii(s: string, word: string)
    requires IsLowerAsciiWord(word) && IsAscii(s)
    ensures EqualFold(s, word) <==> ToUpper(s) == ToUpper(word)
  {
  }

}
