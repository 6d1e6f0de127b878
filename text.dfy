/** The JavaScript string operations the site relies on: character classes of
    its regular expressions, `toLowerCase`, `trim`, `includes`, `indexOf`,
    `startsWith`, `split` and `join`, and the truthiness of an optional
    string. Lower-casing is ASCII only; the whitespace class is the full set
    JavaScript's `\s` and `trim` use. */
module Text {
  import opened Wrappers

  /** JavaScript `\s`: white space and line terminators (also what `trim` removes). */
  predicate IsSpace(c: char) {
    || c == ' ' || c == '\t' || c == '\n' || c == '\U{000B}' || c == '\U{000C}' || c == '\r'
    || c == '\U{00A0}' || c == '\U{1680}' || ('\U{2000}' <= c <= '\U{200A}')
    || c == '\U{2028}' || c == '\U{2029}' || c == '\U{202F}' || c == '\U{205F}'
    || c == '\U{3000}' || c == '\U{FEFF}'
  }

  /** The characters `.` does not match in a regular expression without the `s` flag. */
  predicate IsLineTerminator(c: char) {
    c == '\n' || c == '\r' || c == '\U{2028}' || c == '\U{2029}'
  }

  /** JavaScript `\d`. */
  predicate IsDigit(c: char) {
    '0' <= c <= '9'
  }

  /** JavaScript `\w`: ASCII letters, digits and the underscore. */
  predicate IsWordChar(c: char) {
    'a' <= c <= 'z' || 'A' <= c <= 'Z' || IsDigit(c) || c == '_'
  }

  predicate IsUpper(c: char) {
    'A' <= c <= 'Z'
  }

  function LowerChar(c: char): (r: char)
    ensures !IsUpper(r)
    ensures !IsUpper(c) ==> r == c
    ensures IsSpace(r) <==> IsSpace(c)
    ensures IsWordChar(r) <==> IsWordChar(c)
    ensures IsDigit(r) <==> IsDigit(c)
  {
    if IsUpper(c) then (c as int - 'A' as int + 'a' as int) as char else c
  }

  /** `toLowerCase`, restricted to ASCII capitals. */
  function ToLower(s: string): (r: string)
    ensures |r| == |s|
    ensures forall i :: 0 <= i < |s| ==> r[i] == LowerChar(s[i])
  {
    if s == [] then [] else [LowerChar(s[0])] + ToLower(s[1..])
  }

  /** A string with no ASCII capital is its own lower-case form. */
  lemma {:induction false} ToLowerOfLower(s: string)
    requires forall i :: 0 <= i < |s| ==> !IsUpper(s[i])
    ensures ToLower(s) == s
  {
    if s != [] {
      ToLowerOfLower(s[1..]);
    }
  }

  /** `toLowerCase` works character by character. */
  lemma ToLowerAppend(a: string, b: string)
    ensures ToLower(a + b) == ToLower(a) + ToLower(b)
  {
  }

  predicate AllSpace(s: string) {
    forall i :: 0 <= i < |s| ==> IsSpace(s[i])
  }

  /** The characters of `s` from `lo` to `hi` are white space. */
  lemma SpacesBetween(s: string, lo: nat, hi: nat)
    requires lo <= hi <= |s| && forall k :: lo <= k < hi ==> IsSpace(s[k])
    ensures AllSpace(s[lo..hi])
  {
    forall k | 0 <= k < hi - lo ensures IsSpace(s[lo..hi][k]) {
      assert s[lo..hi][k] == s[lo + k];
    }
  }

  lemma SliceInThree(s: string, lo: nat, a: nat, e: nat, hi: nat)
    requires lo <= a <= e <= hi <= |s|
    ensures s[lo..hi] == s[lo..a] + s[a..e] + s[e..hi]
  {
    assert s[lo..hi] == s[lo..a] + s[a..hi];
    assert s[a..hi] == s[a..e] + s[e..hi];
  }

  /** The end of the run of `\s` characters that starts at `i`. */
  function SpaceEnd(s: string, i: nat): (j: nat)
    requires i <= |s|
    ensures i <= j <= |s|
    ensures forall k :: i <= k < j ==> IsSpace(s[k])
    ensures j == |s| || !IsSpace(s[j])
    decreases |s| - i
  {
    if i < |s| && IsSpace(s[i]) then SpaceEnd(s, i + 1) else i
  }

  /** The start of the run of `\s` characters that ends at `j`. */
  function SpaceStart(s: string, j: nat): (i: nat)
    requires j <= |s|
    ensures i <= j
    ensures forall k :: i <= k < j ==> IsSpace(s[k])
    ensures i == 0 || !IsSpace(s[i - 1])
  {
    if 0 < j && IsSpace(s[j - 1]) then SpaceStart(s, j - 1) else j
  }

  /** The end of the run of `\w` characters that starts at `i`. */
  function WordEnd(s: string, i: nat): (j: nat)
    requires i <= |s|
    ensures i <= j <= |s|
    ensures forall k :: i <= k < j ==> IsWordChar(s[k])
    ensures j == |s| || !IsWordChar(s[j])
    decreases |s| - i
  {
    if i < |s| && IsWordChar(s[i]) then WordEnd(s, i + 1) else i
  }

  /** `SpaceEnd` finds exactly the end of a run of white space. */
  lemma {:induction false} SpaceEndOfRun(s: string, i: nat, j: nat)
    requires i <= j <= |s|
    requires forall k :: i <= k < j ==> IsSpace(s[k])
    requires j == |s| || !IsSpace(s[j])
    ensures SpaceEnd(s, i) == j
    decreases j - i
  {
    if i < j {
      SpaceEndOfRun(s, i + 1, j);
    }
  }

  /** `WordEnd` finds exactly the end of a run of word characters. */
  lemma {:induction false} WordEndOfRun(s: string, i: nat, j: nat)
    requires i <= j <= |s|
    requires forall k :: i <= k < j ==> IsWordChar(s[k])
    requires j == |s| || !IsWordChar(s[j])
    ensures WordEnd(s, i) == j
    decreases j - i
  {
    if i < j {
      WordEndOfRun(s, i + 1, j);
    }
  }

  predicate StartsWith(s: string, prefix: string) {
    |prefix| <= |s| && s[..|prefix|] == prefix
  }

  /** A string agrees with each of its prefixes character by character. */
  lemma PrefixChar(s: string, prefix: string, k: nat)
    requires StartsWith(s, prefix) && k < |prefix|
    ensures s[k] == prefix[k]
  {
    assert s[..|prefix|][k] == s[k];
  }

  predicate EndsWith(s: string, suffix: string) {
    |suffix| <= |s| && s[|s| - |suffix|..] == suffix
  }

  predicate OccursAt(s: string, sub: string, i: nat) {
    i + |sub| <= |s| && s[i..i + |sub|] == sub
  }

  /** `includes`. */
  predicate Contains(s: string, sub: string) {
    exists i: nat | i <= |s| :: OccursAt(s, sub, i)
  }

  /** A string that lacks the first character of `sub` does not contain it. */
  lemma NotContainsWithoutHead(s: string, sub: string)
    requires sub != [] && forall i :: 0 <= i < |s| ==> s[i] != sub[0]
    ensures !Contains(s, sub)
  {
    forall i: nat | i <= |s| ensures !OccursAt(s, sub, i) {
      if i + |sub| <= |s| {
        assert s[i..i + |sub|][0] == s[i];
      }
    }
  }

  /** `indexOf(sub, from)`: the leftmost occurrence at or after `from`. */
  function IndexOf(s: string, sub: string, from: nat): (r: Option<nat>)
    ensures r.Some? ==> from <= r.value && OccursAt(s, sub, r.value)
    ensures r.Some? ==> forall j: nat :: from <= j < r.value ==> !OccursAt(s, sub, j)
    ensures r.None? ==> forall j: nat :: from <= j ==> !OccursAt(s, sub, j)
    decreases |s| - from
  {
    if |s| < from + |sub| then None
    else if OccursAt(s, sub, from) then Some(from)
    else IndexOf(s, sub, from + 1)
  }

  lemma ContainsIndexOf(s: string, sub: string)
    ensures Contains(s, sub) <==> IndexOf(s, sub, 0).Some?
  {
    if IndexOf(s, sub, 0).Some? {
      assert OccursAt(s, sub, IndexOf(s, sub, 0).value);
    }
  }

  /** One more leading space in front of a suffix left after leading white space. */
  lemma SpaceThenSuffix(s: string, r: string)
    requires s != [] && IsSpace(s[0]) && |r| <= |s| - 1
    requires r == s[1..][|s| - 1 - |r|..] && AllSpace(s[1..][..|s| - 1 - |r|])
    ensures r == s[|s| - |r|..] && AllSpace(s[..|s| - |r|])
  {
    forall i | 0 <= i < |s| - |r| ensures IsSpace(s[i]) {
      if i > 0 {
        assert s[1..][..|s| - 1 - |r|][i - 1] == s[i];
      }
    }
  }

  /** `trimStart`: the suffix left after the leading white space. */
  function TrimStart(s: string): (r: string)
    ensures |r| <= |s| && r == s[|s| - |r|..]
    ensures AllSpace(s[..|s| - |r|])
    ensures r == [] || !IsSpace(r[0])
  {
    if s != [] && IsSpace(s[0]) then
      var r := TrimStart(s[1..]);
      SpaceThenSuffix(s, r);
      r
    else s
  }

  /** `trimEnd`: the prefix left before the trailing white space. */
  function TrimEnd(s: string): (r: string)
    ensures |r| <= |s| && r == s[..|r|]
    ensures AllSpace(s[|r|..])
    ensures r == [] || !IsSpace(r[|r| - 1])
  {
    if s != [] && IsSpace(s[|s| - 1]) then
      var r := TrimEnd(s[..|s| - 1]);
      assert s[..|s| - 1][..|r|] == s[..|r|];
      assert AllSpace(s[|r|..]) by {
        forall i | 0 <= i < |s| - |r| ensures IsSpace(s[|r|..][i]) {
          if i < |s| - 1 - |r| {
            assert s[..|s| - 1][|r|..][i] == s[|r|..][i];
          }
        }
      }
      r
    else s
  }

  predicate IsTrimmed(s: string) {
    s == [] || (!IsSpace(s[0]) && !IsSpace(s[|s| - 1]))
  }

  /** `trim`. */
  function Trim(s: string): (r: string)
    ensures IsTrimmed(r)
    ensures |r| <= |s|
  {
    TrimEnd(TrimStart(s))
  }

  /** Trimming a string that has no surrounding white space changes nothing. */
  lemma TrimOfTrimmed(s: string)
    requires IsTrimmed(s)
    ensures Trim(s) == s
  {
  }

  /** Leading white space does not survive `trim`. */
  lemma TrimAfterSpaces(w: string, s: string)
    requires AllSpace(w)
    ensures Trim(w + s) == Trim(s)
  {
    TrimStartAfterSpaces(w, s);
  }

  lemma {:induction false} TrimStartAfterSpaces(w: string, s: string)
    requires AllSpace(w)
    ensures TrimStart(w + s) == TrimStart(s)
  {
    if w != [] {
      assert IsSpace((w + s)[0]);
      assert AllSpace(w[1..]);
      assert (w + s)[1..] == w[1..] + s;
      TrimStartAfterSpaces(w[1..], s);
    } else {
      assert w + s == s;
    }
  }

  /** Trailing white space does not survive `trimEnd`. */
  lemma {:induction false} TrimEndBeforeSpaces(s: string, w: string)
    requires AllSpace(w)
    ensures TrimEnd(s + w) == TrimEnd(s)
    decreases |w|
  {
    if w != [] {
      var w' := w[..|w| - 1];
      assert (s + w)[..|s + w| - 1] == s + w';
      TrimEndBeforeSpaces(s, w');
    } else {
      assert s + w == s;
    }
  }

  /** `trim` removes exactly the white space around a trimmed middle. */
  lemma TrimSurrounded(w: string, s: string, w': string)
    requires AllSpace(w) && AllSpace(w') && IsTrimmed(s)
    ensures Trim(w + s + w') == s
  {
    assert w + s + w' == w + (s + w');
    TrimStartAfterSpaces(w, s + w');
    if s != [] {
      assert (s + w')[0] == s[0];
    } else {
      assert s + w' == w';
    }
    TrimEndBeforeSpaces(s, w');
  }

  /** `s.split(sep)` for a non-empty string separator. */
  function Split(s: string, sep: string): (r: seq<string>)
    requires sep != []
    ensures |r| >= 1
    decreases |s|
  {
    match IndexOf(s, sep, 0)
    case None => [s]
    case Some(i) => [s[..i]] + Split(s[i + |sep|..], sep)
  }

  /** `xs.join(sep)`. */
  function Join(xs: seq<string>, sep: string): (r: string)
  {
    if xs == [] then ""
    else if |xs| == 1 then xs[0]
    else xs[0] + sep + Join(xs[1..], sep)
  }

  /** Joining the pieces of a split with the same separator restores the string. */
  lemma {:induction false} JoinSplit(s: string, sep: string)
    requires sep != []
    ensures Join(Split(s, sep), sep) == s
    decreases |s|
  {
    match IndexOf(s, sep, 0)
    case None =>
    case Some(i) =>
      var rest := s[i + |sep|..];
      var pieces := Split(rest, sep);
      JoinSplit(rest, sep);
      assert Split(s, sep) == [s[..i]] + pieces;
      assert ([s[..i]] + pieces)[1..] == pieces;
      assert Join([s[..i]] + pieces, sep) == s[..i] + sep + Join(pieces, sep);
      assert s == s[..i] + sep + rest by {
        assert s[i..i + |sep|] == sep;
      }
  }

  /** Every piece of a split is free of the separator character. */
  lemma {:induction false} SplitPiecesFree(s: string, c: char)
    ensures forall k, j :: 0 <= k < |Split(s, [c])| && 0 <= j < |Split(s, [c])[k]| ==> Split(s, [c])[k][j] != c
    decreases |s|
  {
    var r := Split(s, [c]);
    match IndexOf(s, [c], 0)
    case None =>
      forall j | 0 <= j < |s| ensures s[j] != c {
        assert !OccursAt(s, [c], j);
      }
    case Some(i) =>
      SplitPiecesFree(s[i + 1..], c);
      forall j | 0 <= j < i ensures s[j] != c {
        assert !OccursAt(s, [c], j);
      }
  }

  predicate FreeOf(x: string, c: char) {
    forall j :: 0 <= j < |x| ==> x[j] != c
  }

  lemma FreeOfSlice(x: string, lo: nat, hi: nat, c: char)
    requires FreeOf(x, c) && lo <= hi <= |x|
    ensures FreeOf(x[lo..hi], c)
  {
    forall j | 0 <= j < hi - lo ensures x[lo..hi][j] != c {
      assert x[lo..hi][j] == x[lo + j];
    }
  }

  /** The first cut of a split on `c`, when the string is `x + [c] + rest`
      and `x` is free of `c`. */
  lemma SplitAtFirst(x: string, c: char, rest: string)
    requires FreeOf(x, c)
    ensures Split(x + [c] + rest, [c]) == [x] + Split(rest, [c])
  {
    var s := x + [c] + rest;
    forall j: nat | j < |x| ensures !OccursAt(s, [c], j) {
      assert s[j..j + 1] == [s[j]] && s[j] == x[j];
    }
    assert s[|x|..|x| + 1] == [c];
    assert OccursAt(s, [c], |x|);
    assert IndexOf(s, [c], 0) == Some(|x|);
    assert s[..|x|] == x;
    assert s[|x| + 1..] == rest;
  }

  /** A string free of `c` splits into itself. */
  lemma SplitFree(x: string, c: char)
    requires FreeOf(x, c)
    ensures Split(x, [c]) == [x]
  {
    forall j: nat | j + 1 <= |x| ensures !OccursAt(x, [c], j) {
      assert x[j..j + 1] == [x[j]];
    }
  }

  /** Splitting a join on a one-character separator that no element contains
      gives back the (non-empty) list. */
  lemma {:induction false} SplitJoin(xs: seq<string>, c: char)
    requires xs != []
    requires forall k :: 0 <= k < |xs| ==> FreeOf(xs[k], c)
    ensures Split(Join(xs, [c]), [c]) == xs
  {
    if |xs| == 1 {
      SplitFree(xs[0], c);
    } else {
      SplitJoin(xs[1..], c);
      assert Join(xs, [c]) == xs[0] + [c] + Join(xs[1..], [c]);
      SplitAtFirst(xs[0], c, Join(xs[1..], [c]));
      assert xs == [xs[0]] + xs[1..];
    }
  }

  /** JavaScript truthiness of an optional string: present and not empty. */
  predicate Truthy(o: Option<string>) {
    o.Some? && o.value != ""
  }

  /** `o || fallback` for an optional string. */
  function OrElse(o: Option<string>, fallback: string): (r: string)
    ensures Truthy(o) ==> r == o.value
    ensures !Truthy(o) ==> r == fallback
  {
    if Truthy(o) then o.value else fallback
  }
}
