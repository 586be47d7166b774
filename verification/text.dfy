/**
 * The string primitives of Go's `strings` package and JavaScript's `String`
 * that the modelled code relies on: white-space trimming, splitting into
 * fields or on a separator, case mapping, prefixes and substrings.
 */
module Text {

  /** Go's `unicode.IsSpace`, which `strings.TrimSpace`, `strings.Fields` and
      `bytes.TrimSpace` all use. */
  predicate IsSpace(c: char) {
    || c == ' ' || c == '\t' || c == '\n' || c == '\U{0B}' || c == '\U{0C}' || c == '\r'
    || c == '\U{85}' || c == '\U{A0}' || c == '\U{1680}'
    || ('\U{2000}' <= c <= '\U{200A}')
    || c == '\U{2028}' || c == '\U{2029}' || c == '\U{202F}' || c == '\U{205F}' || c == '\U{3000}'
  }

  predicate AllSpace(s: string) {
    forall i :: 0 <= i < |s| ==> IsSpace(s[i])
  }

  predicate NoSpace(s: string) {
    forall i :: 0 <= i < |s| ==> !IsSpace(s[i])
  }

  /** Number of white-space characters at the front of `s`. */
  function LeadingSpaces(s: string): (n: nat)
    ensures n <= |s|
  {
    if s == [] || !IsSpace(s[0]) then 0 else 1 + LeadingSpaces(s[1..])
  }

  /** The leading run is white space and stops at the first other character. */
  lemma {:induction false} LeadingSpacesRun(s: string)
    ensures AllSpace(s[..LeadingSpaces(s)])
    ensures LeadingSpaces(s) == |s| || !IsSpace(s[LeadingSpaces(s)])
  {
    if s != [] && IsSpace(s[0]) {
      LeadingSpacesRun(s[1..]);
      assert s[..LeadingSpaces(s)] == [s[0]] + s[1..][..LeadingSpaces(s[1..])];
    }
  }

  /** Number of white-space characters at the end of `s`. */
  function TrailingSpaces(s: string): (n: nat)
    ensures n <= |s|
  {
    if s == [] || !IsSpace(s[|s| - 1]) then 0 else 1 + TrailingSpaces(s[..|s| - 1])
  }

  /** The trailing run is white space and stops at the last other character. */
  lemma {:induction false} TrailingSpacesRun(s: string)
    ensures AllSpace(s[|s| - TrailingSpaces(s)..])
    ensures TrailingSpaces(s) == |s| || !IsSpace(s[|s| - 1 - TrailingSpaces(s)])
  {
    if s != [] && IsSpace(s[|s| - 1]) {
      var p := s[..|s| - 1];
      var m := TrailingSpaces(p);
      TrailingSpacesRun(p);
      assert TrailingSpaces(s) == m + 1;
      var tail := s[|s| - (m + 1)..];
      forall i | 0 <= i < |tail| ensures IsSpace(tail[i]) {
        if i < m {
          assert tail[i] == p[|p| - m..][i];
        }
      }
      if m < |p| {
        assert s[|s| - 1 - (m + 1)] == p[|p| - 1 - m];
      }
    }
  }

  /** Go's `strings.TrimSpace`. */
  function TrimSpace(s: string): (r: string)
    ensures |r| <= |s|
  {
    var rest := s[LeadingSpaces(s)..];
    rest[..|rest| - TrailingSpaces(rest)]
  }

  /** The trimmed string neither starts nor ends with white space. */
  lemma TrimSpaceEnds(s: string)
    ensures var r := TrimSpace(s); r == [] || (!IsSpace(r[0]) && !IsSpace(r[|r| - 1]))
  {
    var rest := s[LeadingSpaces(s)..];
    LeadingSpacesRun(s);
    TrailingSpacesRun(rest);
    var r := TrimSpace(s);
    if r != [] {
      assert r[0] == rest[0] == s[LeadingSpaces(s)];
      assert r[|r| - 1] == rest[|rest| - 1 - TrailingSpaces(rest)];
    }
  }

  /** A string trims to nothing exactly when it is all white space. */
  lemma TrimSpaceEmpty(s: string)
    ensures TrimSpace(s) == [] <==> AllSpace(s)
  {
    var n := LeadingSpaces(s);
    var rest := s[n..];
    var m := TrailingSpaces(rest);
    LeadingSpacesRun(s);
    TrailingSpacesRun(rest);
    if TrimSpace(s) == [] {
      assert rest[|rest| - m..] == rest;
      assert s == s[..n] + rest;
    }
  }

  /** Trimming leaves a string without surrounding white space untouched. */
  lemma TrimSpaceKeeps(s: string)
    requires s == [] || (!IsSpace(s[0]) && !IsSpace(s[|s| - 1]))
    ensures TrimSpace(s) == s
  {
  }

  /** Trimming twice is trimming once. */
  lemma TrimSpaceIdempotent(s: string)
    ensures TrimSpace(TrimSpace(s)) == TrimSpace(s)
  {
    TrimSpaceEnds(s);
    TrimSpaceKeeps(TrimSpace(s));
  }

  /** Length of the run of non-space characters at the front of `s`. */
  function WordLength(s: string): (n: nat)
    ensures n <= |s|
    ensures NoSpace(s[..n])
    ensures n == |s| || IsSpace(s[n])
  {
    if s == [] || IsSpace(s[0]) then 0 else 1 + WordLength(s[1..])
  }

  /** A field: a non-empty run of non-space characters. */
  predicate Word(s: string) {
    s != [] && NoSpace(s)
  }

  /** Go's `strings.Fields`: the maximal runs of non-space characters. */
  function Fields(s: string): seq<string>
    decreases |s|
  {
    if s == [] then []
    else if IsSpace(s[0]) then Fields(s[1..])
    else
      var w := WordLength(s);
      [s[..w]] + Fields(s[w..])
  }

  /** Every field is a non-empty run of non-space characters. */
  lemma {:induction false} FieldsAreWords(s: string)
    ensures forall i :: 0 <= i < |Fields(s)| ==> Word(Fields(s)[i])
    decreases |s|
  {
    if s != [] {
      if IsSpace(s[0]) {
        FieldsAreWords(s[1..]);
      } else {
        var w := WordLength(s);
        var tail := Fields(s[w..]);
        FieldsAreWords(s[w..]);
        forall i | 0 <= i < |Fields(s)| ensures Word(Fields(s)[i]) {
          if i > 0 {
            assert Fields(s)[i] == tail[i - 1];
          }
        }
      }
    }
  }

  lemma FieldsOfSpaces(s: string)
    requires AllSpace(s)
    ensures Fields(s) == []
  {
    if s != [] {
      assert IsSpace(s[0]);
      FieldsOfSpaces(s[1..]);
    }
  }

  /** Leading white space does not change the fields. */
  lemma {:induction false} FieldsSkipSpace(sp: string, s: string)
    requires AllSpace(sp)
    ensures Fields(sp + s) == Fields(s)
  {
    if sp == [] {
      assert sp + s == s;
    } else {
      assert (sp + s)[0] == sp[0];
      assert (sp + s)[1..] == sp[1..] + s;
      FieldsSkipSpace(sp[1..], s);
    }
  }

  lemma WordLengthOf(w: string, rest: string)
    requires NoSpace(w)
    requires rest == [] || IsSpace(rest[0])
    ensures WordLength(w + rest) == |w|
  {
    if w != [] {
      assert (w + rest)[1..] == w[1..] + rest;
      WordLengthOf(w[1..], rest);
    }
  }

  /** A word followed by white space (or nothing) is one field. */
  lemma {:induction false} FieldsCons(w: string, sp: string, rest: string)
    requires w != [] && NoSpace(w)
    requires AllSpace(sp) && (rest == [] || sp != [])
    ensures Fields(w + sp + rest) == [w] + Fields(rest)
  {
    var s := w + sp + rest;
    assert !IsSpace(s[0]);
    assert sp + rest == [] || IsSpace((sp + rest)[0]);
    assert s == w + (sp + rest);
    WordLengthOf(w, sp + rest);
    assert s[..|w|] == w;
    assert s[|w|..] == sp + rest;
    FieldsSkipSpace(sp, rest);
  }

  /** Two words separated by white space split into exactly those two fields. */
  lemma FieldsOfTwo(a: string, sep: string, b: string)
    requires a != [] && NoSpace(a) && b != [] && NoSpace(b)
    requires sep != [] && AllSpace(sep)
    ensures Fields(a + sep + b) == [a, b]
  {
    FieldsCons(a, sep, b);
    FieldsCons(b, [], []);
    assert b + [] + [] == b;
    FieldsOfSpaces([]);
  }

  /** Go's `unicode.ToLower` on the characters whose lower case is ASCII:
      every ASCII letter, U+0130 (LATIN CAPITAL LETTER I WITH DOT ABOVE) and
      U+212A (KELVIN SIGN). Other characters are returned unchanged; they can
      never make a string equal to, or contain, an ASCII word. */
  function ToLowerChar(c: char): (r: char)
    ensures 'A' <= c <= 'Z' ==> r as int == c as int + 32
    ensures !('A' <= c <= 'Z') && c != '\U{130}' && c != '\U{212A}' ==> r == c
  {
    if 'A' <= c <= 'Z' then (c as int + 32) as char
    else if c == '\U{130}' then 'i'
    else if c == '\U{212A}' then 'k'
    else c
  }

  /** Go's `unicode.ToUpper` on the characters whose upper case is ASCII:
      every ASCII letter, U+0131 (LATIN SMALL LETTER DOTLESS I) and U+017F
      (LATIN SMALL LETTER LONG S). */
  function ToUpperChar(c: char): (r: char)
    ensures 'a' <= c <= 'z' ==> r as int == c as int - 32
    ensures !('a' <= c <= 'z') && c != '\U{131}' && c != '\U{17F}' ==> r == c
  {
    if 'a' <= c <= 'z' then (c as int - 32) as char
    else if c == '\U{131}' then 'I'
    else if c == '\U{17F}' then 'S'
    else c
  }

  /** Go's `strings.ToLower`, per character as `ToLowerChar`. */
  function ToLower(s: string): (r: string)
    ensures |r| == |s|
    ensures forall i :: 0 <= i < |s| ==> r[i] == ToLowerChar(s[i])
  {
    seq(|s|, i requires 0 <= i < |s| => ToLowerChar(s[i]))
  }

  /** Go's `strings.ToUpper`, per character as `ToUpperChar`. */
  function ToUpper(s: string): (r: string)
    ensures |r| == |s|
    ensures forall i :: 0 <= i < |s| ==> r[i] == ToUpperChar(s[i])
  {
    seq(|s|, i requires 0 <= i < |s| => ToUpperChar(s[i]))
  }

  /** Go's `strings.HasPrefix` and JavaScript's `startsWith`. */
  predicate HasPrefix(s: string, prefix: string) {
    |prefix| <= |s| && s[..|prefix|] == prefix
  }

  /** Go's `strings.Contains`. */
  predicate Contains(s: string, sub: string)
    decreases |s|
  {
    HasPrefix(s, sub) || (s != [] && Contains(s[1..], sub))
  }

  /** `Contains` finds every occurrence. */
  lemma {:induction false} ContainsAt(s: string, sub: string, k: nat)
    requires k + |sub| <= |s| && s[k..k + |sub|] == sub
    ensures Contains(s, sub)
  {
    if k > 0 {
      assert s[1..][k - 1..k - 1 + |sub|] == s[k..k + |sub|];
      ContainsAt(s[1..], sub, k - 1);
    }
  }

  /** Number of occurrences of `c` in `s`. */
  function Count(s: string, c: char): nat {
    if s == [] then 0 else (if s[0] == c then 1 else 0) + Count(s[1..], c)
  }

  /** JavaScript's `s.split(sep)` for a one-character separator: the pieces
      between separators, including empty ones, always at least one. */
  function Split(s: string, sep: char): (parts: seq<string>)
    ensures |parts| >= 1
    ensures forall i :: 0 <= i < |parts| ==> sep !in parts[i]
  {
    if s == [] then [[]]
    else
      var rest := Split(s[1..], sep);
      if s[0] == sep then [[]] + rest else [[s[0]] + rest[0]] + rest[1..]
  }

  /** Joins `parts` with `sep` between consecutive parts (JavaScript `join`). */
  function Join(parts: seq<string>, sep: string): string {
    if parts == [] then []
    else if |parts| == 1 then parts[0]
    else parts[0] + sep + Join(parts[1..], sep)
  }

  /** Splitting yields one more piece than there are separators. */
  lemma {:induction false} SplitCount(s: string, sep: char)
    ensures |Split(s, sep)| == Count(s, sep) + 1
  {
    if s != [] {
      SplitCount(s[1..], sep);
    }
  }

  /** Joining the pieces back with the separator gives the string again. */
  lemma {:induction false} JoinSplit(s: string, sep: char)
    ensures Join(Split(s, sep), [sep]) == s
  {
    if s != [] {
      var rest := Split(s[1..], sep);
      JoinSplit(s[1..], sep);
      if s[0] == sep {
        assert Split(s, sep) == [[]] + rest;
        assert ([[]] + rest)[1..] == rest;
      } else {
        var parts := [[s[0]] + rest[0]] + rest[1..];
        assert Split(s, sep) == parts;
        if |rest| == 1 {
          assert Join(rest, [sep]) == rest[0];
        } else {
          assert parts[1..] == rest[1..];
          assert Join(rest, [sep]) == rest[0] + [sep] + Join(rest[1..], [sep]);
        }
      }
    }
  }

  /** Splitting a join of separator-free parts gives the parts back. */
  lemma {:induction false} SplitJoin(parts: seq<string>, sep: char)
    requires |parts| >= 1
    requires forall i :: 0 <= i < |parts| ==> sep !in parts[i]
    ensures Split(Join(parts, [sep]), sep) == parts
  {
    if |parts| == 1 {
      SplitWord(parts[0], [], sep);
      assert parts[0] + [] == parts[0];
    } else {
      SplitJoin(parts[1..], sep);
      var tail := Join(parts[1..], [sep]);
      assert Join(parts, [sep]) == parts[0] + ([sep] + tail);
      SplitWord(parts[0], [sep] + tail, sep);
      assert ([sep] + tail)[1..] == tail;
      assert parts == [parts[0]] + parts[1..];
    }
  }

  /** A separator-free prefix becomes the front of the first piece. */
  lemma {:induction false} SplitWord(w: string, rest: string, sep: char)
    requires sep !in w
    ensures Split(w + rest, sep) ==
      if rest == [] then [w]
      else if rest[0] == sep then [w] + Split(rest[1..], sep)
      else [w + Split(rest, sep)[0]] + Split(rest, sep)[1..]
  {
    if w != [] {
      assert (w + rest)[1..] == w[1..] + rest;
      assert (w + rest)[0] == w[0];
      SplitWord(w[1..], rest, sep);
      var r := Split(w[1..] + rest, sep);
      assert Split(w + rest, sep) == [[w[0]] + r[0]] + r[1..];
      assert [w[0]] + w[1..] == w;
      if rest == [] {
        assert r == [w[1..]];
      } else if rest[0] == sep {
        assert r == [w[1..]] + Split(rest[1..], sep);
      } else {
        assert [w[0]] + (w[1..] + Split(rest, sep)[0]) == w + Split(rest, sep)[0];
      }
    } else {
      assert w + rest == rest;
      if rest == [] {
      } else if rest[0] == sep {
        assert Split(rest, sep) == [[]] + Split(rest[1..], sep);
      } else {
        var r := Split(rest, sep);
        assert w + r[0] == r[0];
        assert [r[0]] + r[1..] == r;
      }
    }
  }

  /** Number of bytes in the UTF-8 encoding of `c`. */
  function Utf8Width(c: char): (n: nat)
    ensures 1 <= n <= 4
  {
    if c as int < 0x80 then 1 else if c as int < 0x800 then 2 else if c as int < 0x10000 then 3 else 4
  }

  /** Go's `len(s)`: the length of `s` in UTF-8 bytes. */
  function Utf8Length(s: string): (n: nat)
    ensures |s| <= n <= 4 * |s|
    ensures n == 0 <==> s == []
  {
    if s == [] then 0 else Utf8Width(s[0]) + Utf8Length(s[1..])
  }
}
