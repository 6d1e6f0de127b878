/** The slug a work or project item gets when it is created:
    `title.toLowerCase().replace(/\s+/g, "-").replace(/[^a-z0-9-]/g, "")`.
    The same expression appears in the work and the projects POST handlers. */
module Slug {
  import opened Text

  predicate IsSlugChar(c: char) {
    'a' <= c <= 'z' || '0' <= c <= '9' || c == '-'
  }

  /** Matches `^[a-z0-9-]*$`. */
  predicate IsSlug(s: string) {
    forall i :: 0 <= i < |s| ==> IsSlugChar(s[i])
  }

  /** `replace(/\s+/g, "-")`: every maximal run of white space becomes one hyphen. */
  function HyphenateSpaces(s: string): (r: string)
    ensures forall i :: 0 <= i < |r| ==> !IsSpace(r[i])
    decreases |s|
  {
    if s == [] then []
    else if IsSpace(s[0]) then "-" + HyphenateSpaces(s[SpaceEnd(s, 0)..])
    else [s[0]] + HyphenateSpaces(s[1..])
  }

  /** `replace(/[^a-z0-9-]/g, "")`: drops every character outside `[a-z0-9-]`. */
  function KeepSlugChars(s: string): (r: string)
    ensures |r| <= |s|
    ensures IsSlug(r)
  {
    if s == [] then []
    else (if IsSlugChar(s[0]) then [s[0]] else []) + KeepSlugChars(s[1..])
  }

  /** A slug has nothing to drop. */
  lemma {:induction false} KeepSlugCharsOfSlug(s: string)
    requires IsSlug(s)
    ensures KeepSlugChars(s) == s
    decreases |s|
  {
    if s != [] {
      assert IsSlug(s[1..]) by {
        forall i | 0 <= i < |s| - 1 ensures IsSlugChar(s[1..][i]) {
          assert s[1..][i] == s[i + 1];
        }
      }
      KeepSlugCharsOfSlug(s[1..]);
      assert s == [s[0]] + s[1..];
    }
  }

  /** The derived slug. */
  function DeriveSlug(title: string): (slug: string)
    ensures IsSlug(slug)
    ensures |slug| <= |title|
  {
    var lower := ToLower(title);
    var hyphenated := HyphenateSpaces(lower);
    assert |hyphenated| <= |lower| by {
      HyphenateShortens(lower);
    }
    KeepSlugChars(hyphenated)
  }

  /** A run of white space turns into a single hyphen, so the text never grows. */
  lemma {:induction false} HyphenateShortens(s: string)
    ensures |HyphenateSpaces(s)| <= |s|
    decreases |s|
  {
    if s != [] {
      if IsSpace(s[0]) {
        HyphenateShortens(s[SpaceEnd(s, 0)..]);
      } else {
        HyphenateShortens(s[1..]);
      }
    }
  }

  /** A slug derives itself: re-deriving from an existing slug changes nothing. */
  lemma DeriveSlugOfSlug(s: string)
    requires IsSlug(s)
    ensures DeriveSlug(s) == s
  {
    ToLowerOfLower(s);
    HyphenateWordPrefix(s, []);
    assert s + [] == s;
    KeepSlugCharsOfSlug(s);
  }

  /** Deriving twice is deriving once. */
  lemma DeriveSlugIdempotent(title: string)
    ensures DeriveSlug(DeriveSlug(title)) == DeriveSlug(title)
  {
    DeriveSlugOfSlug(DeriveSlug(title));
  }

  /** Text without white space passes through `HyphenateSpaces` unchanged. */
  lemma {:induction false} HyphenateWordPrefix(a: string, b: string)
    requires forall i :: 0 <= i < |a| ==> !IsSpace(a[i])
    ensures HyphenateSpaces(a + b) == a + HyphenateSpaces(b)
    decreases |a|
  {
    if a == [] {
      assert a + b == b;
    } else {
      assert (a + b)[0] == a[0] && !IsSpace(a[0]);
      assert (a + b)[1..] == a[1..] + b;
      HyphenateWordPrefix(a[1..], b);
      assert a == [a[0]] + a[1..];
    }
  }

  /** A whole run of white space becomes one hyphen. */
  lemma HyphenateRun(w: string, b: string)
    requires w != [] && AllSpace(w)
    requires b == [] || !IsSpace(b[0])
    ensures HyphenateSpaces(w + b) == "-" + HyphenateSpaces(b)
  {
    var s := w + b;
    SpaceEndOfRun(s, 0, |w|);
    assert s[|w|..] == b;
  }

  /** `KeepSlugChars` works character by character. */
  lemma {:induction false} KeepSlugCharsAppend(a: string, b: string)
    ensures KeepSlugChars(a + b) == KeepSlugChars(a) + KeepSlugChars(b)
    decreases |a|
  {
    if a == [] {
      assert a + b == b;
    } else {
      KeepSlugCharsAppend(a[1..], b);
      KeepSlugCharsStep(a, b);
    }
  }

  lemma KeepSlugCharsStep(a: string, b: string)
    requires a != []
    requires KeepSlugChars(a[1..] + b) == KeepSlugChars(a[1..]) + KeepSlugChars(b)
    ensures KeepSlugChars(a + b) == KeepSlugChars(a) + KeepSlugChars(b)
  {
    var head := if IsSlugChar(a[0]) then [a[0]] else [];
    calc {
      KeepSlugChars(a + b);
    == { assert (a + b)[0] == a[0]; assert (a + b)[1..] == a[1..] + b; }
      head + KeepSlugChars(a[1..] + b);
    ==
      head + (KeepSlugChars(a[1..]) + KeepSlugChars(b));
    == { Regroup3(head, KeepSlugChars(a[1..]), KeepSlugChars(b)); }
      (head + KeepSlugChars(a[1..])) + KeepSlugChars(b);
    ==
      KeepSlugChars(a) + KeepSlugChars(b);
    }
  }

  lemma Regroup3(x: string, y: string, z: string)
    ensures x + (y + z) == (x + y) + z
  {
  }

  /** Distinct titles can derive the same slug; nothing in the store rejects
      the second one. */
  lemma SlugsCollide()
    ensures DeriveSlug("A B!") == DeriveSlug("a   b") == "a-b"
  {
    SlugOfPunctuatedTitle();
    SlugOfSpacedTitle();
  }

  /** Characters outside `[a-z0-9-]` leave nothing behind. */
  lemma {:induction false} KeepNoSlugChars(p: string)
    requires forall i :: 0 <= i < |p| ==> !IsSlugChar(p[i])
    ensures KeepSlugChars(p) == []
    decreases |p|
  {
    if p != [] {
      KeepNoSlugChars(p[1..]);
    }
  }

  /** A word, a run of white space and more text without white space: the run
      becomes one hyphen. */
  lemma HyphenateWords(a: string, w: string, c: string)
    requires forall i :: 0 <= i < |a| ==> !IsSpace(a[i])
    requires forall i :: 0 <= i < |c| ==> !IsSpace(c[i])
    requires c != [] && w != [] && AllSpace(w)
    ensures HyphenateSpaces(a + (w + c)) == a + ("-" + c)
  {
    HyphenateWordPrefix(a, w + c);
    HyphenateRun(w, c);
    HyphenateWordPrefix(c, []);
    assert c + [] == c;
  }

  lemma Regroup(a: string, x: string, b: string, p: string)
    ensures a + (x + (b + p)) == (a + (x + b)) + p
  {
  }

  /** Punctuation after a slug is dropped. */
  lemma KeepSlugPrefix(t: string, p: string)
    requires IsSlug(t)
    requires forall i :: 0 <= i < |p| ==> !IsSlugChar(p[i])
    ensures KeepSlugChars(t + p) == t
  {
    KeepSlugCharsAppend(t, p);
    KeepSlugCharsOfSlug(t);
    KeepNoSlugChars(p);
    assert t + [] == t;
  }

  /** Two slug words around a run of white space, then punctuation: the slug
      is the two words joined by one hyphen. */
  lemma DeriveSlugOfWords(title: string, a: string, w: string, b: string, p: string)
    requires ToLower(title) == a + (w + (b + p))
    requires IsSlug(a) && IsSlug(b) && b != []
    requires w != [] && AllSpace(w)
    requires forall i :: 0 <= i < |p| ==> !IsSlugChar(p[i]) && !IsSpace(p[i])
    ensures DeriveSlug(title) == a + ("-" + b)
  {
    assert forall i :: 0 <= i < |a| ==> !IsSpace(a[i]);
    assert forall i :: 0 <= i < |b + p| ==> !IsSpace((b + p)[i]) by {
      forall i | 0 <= i < |b + p| ensures !IsSpace((b + p)[i]) {
        if i < |b| { assert (b + p)[i] == b[i]; } else { assert (b + p)[i] == p[i - |b|]; }
      }
    }
    assert HyphenateSpaces(ToLower(title)) == (a + ("-" + b)) + p by {
      HyphenateWords(a, w, b + p);
      Regroup(a, "-", b, p);
    }
    assert IsSlug(a + ("-" + b));
    assert KeepSlugChars((a + ("-" + b)) + p) == a + ("-" + b) by {
      KeepSlugPrefix(a + ("-" + b), p);
    }
  }

  lemma SlugOfPunctuatedTitle()
    ensures DeriveSlug("A B!") == "a-b"
  {
    LowerPunctuatedTitle();
    DeriveSlugOfWords("A B!", "a", " ", "b", "!");
  }

  lemma LowerPunctuatedTitle()
    ensures ToLower("A B!") == "a" + (" " + ("b" + "!"))
  {
    assert ToLower("A B!")[0] == LowerChar('A') == 'a';
  }

  lemma SlugOfSpacedTitle()
    ensures DeriveSlug("a   b") == "a-b"
  {
    LowerSpacedTitle();
    DeriveSlugOfWords("a   b", "a", "   ", "b", []);
  }

  lemma LowerSpacedTitle()
    ensures ToLower("a   b") == "a" + ("   " + ("b" + []))
  {
    ToLowerOfLower("a   b");
  }
}
