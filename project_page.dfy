/** `parseRolePeriod` of the projects page: a role such as
    `creator (jul 2024 – present)` is split at its parenthesised tail by
    `/^(.+?)\s*\((.+)\)$/`. */
module ProjectPage {
  import opened Wrappers
  import opened Text

  datatype RolePeriod = RolePeriod(role: string, period: Option<string>)

  /** `.` matches everything but a line terminator. */
  predicate NoLineBreak(s: string) {
    forall k | 0 <= k < |s| :: !IsLineTerminator(s[k])
  }

  /** A piece of a string without line breaks has none. */
  lemma NoLineBreakSlice(s: string, lo: nat, hi: nat)
    requires NoLineBreak(s) && lo <= hi <= |s|
    ensures NoLineBreak(s[lo..hi])
  {
    forall k | 0 <= k < hi - lo ensures !IsLineTerminator(s[lo..hi][k]) {
      assert s[lo..hi][k] == s[lo + k];
    }
  }

  /** The expression matches `s` with the role group `[0, a)`, the white
      space `[a, b)`, `(` at `b` and the period group `[b + 1, |s| - 1)`. */
  predicate RoleMatch(s: string, a: nat, b: nat) {
    && 1 <= a <= b && b + 2 < |s|
    && NoLineBreak(s[..a]) && AllSpace(s[a..b]) && s[b] == '('
    && NoLineBreak(s[b + 1..|s| - 1]) && s[|s| - 1] == ')'
  }

  /** Only the end of the white-space run after `a` can hold the `(`. */
  lemma RoleMatchAtSpaceEnd(s: string, a: nat, b: nat)
    requires RoleMatch(s, a, b)
    ensures b == SpaceEnd(s, a)
  {
    forall k | a <= k < b ensures IsSpace(s[k]) {
      assert s[a..b][k - a] == s[k];
    }
    SpaceEndOfRun(s, a, b);
  }

  /** The lazy role group: the shortest `a` from `from` on at which the rest
      of the expression matches. */
  function ShortestRole(s: string, from: nat): (r: Option<nat>)
    requires 1 <= from
    ensures r.Some? ==> from <= r.value < |s| && RoleMatch(s, r.value, SpaceEnd(s, r.value))
    ensures r.Some? ==> forall a: nat, b: nat :: from <= a < r.value ==> !RoleMatch(s, a, b)
    ensures r.None? ==> forall a: nat, b: nat :: from <= a ==> !RoleMatch(s, a, b)
    decreases |s| - from
  {
    if |s| <= from then None
    else if from <= SpaceEnd(s, from) && RoleMatch(s, from, SpaceEnd(s, from)) then Some(from)
    else
      assert forall b: nat :: !RoleMatch(s, from, b) by {
        forall b: nat | RoleMatch(s, from, b) ensures false {
          RoleMatchAtSpaceEnd(s, from, b);
        }
      }
      ShortestRole(s, from + 1)
  }

  /** `parseRolePeriod`: the trimmed groups of the match, or the role alone
      when the expression does not match. */
  function ParseRolePeriod(s: string): (r: RolePeriod)
    ensures r.period.None? <==> forall a: nat, b: nat :: !RoleMatch(s, a, b)
    ensures r.period.None? ==> r.role == s
    ensures r.period.Some? ==> IsTrimmed(r.role) && IsTrimmed(r.period.value)
    ensures r.period.Some? ==> exists a: nat :: (a < |s| && Chosen(s, a) &&
      r.role == Trim(s[..a]) && r.period.value == Trim(s[SpaceEnd(s, a) + 1..|s| - 1]))
  {
    match ShortestRole(s, 1)
    case None => RolePeriod(s, None)
    case Some(a) =>
      var b := SpaceEnd(s, a);
      assert Chosen(s, a);
      RolePeriod(Trim(s[..a]), Some(Trim(s[b + 1..|s| - 1])))
  }

  /** The match the engine reports splits the role at `a`: the rest
      matches there, and at no shorter role. */
  ghost predicate Chosen(s: string, a: nat)
    requires a <= |s|
  {
    RoleMatch(s, a, SpaceEnd(s, a)) && forall a': nat, b': nat :: a' < a ==> !RoleMatch(s, a', b')
  }

  /** A role without line breaks or parentheses followed by ` (period)` splits
      into exactly those two parts. The period group is greedy, so it may
      itself hold parentheses: `a (b) (c)` has period `b) (c`. */
  lemma RoleAndPeriod(role: string, period: string)
    requires role != [] && IsTrimmed(role) && NoLineBreak(role) && forall k | 0 <= k < |role| :: role[k] != '('
    requires period != [] && IsTrimmed(period) && NoLineBreak(period)
    ensures ParseRolePeriod(role + " (" + period + ")") == RolePeriod(role, Some(period))
  {
    var s := role + " (" + period + ")";
    var n := |role|;
    assert s[n] == ' ' && s[n + 1] == '(';
    assert s[..n] == role;
    assert s[n + 2..|s| - 1] == period;
    SpaceEndOfRun(s, n, n + 1);
    assert RoleMatch(s, n, n + 1) by {
      assert s[n..n + 1] == " ";
    }
    forall a: nat, b: nat | 1 <= a < n ensures !RoleMatch(s, a, b) {
      if RoleMatch(s, a, b) {
        RoleMatchAtSpaceEnd(s, a, b);
        SpaceEndInside(role, s, a);
      }
    }
    assert ShortestRole(s, 1) == Some(n) by {
      ShortestRoleIs(s, 1, n);
    }
    TrimOfTrimmed(role);
    TrimOfTrimmed(period);
  }

  /** Inside a trimmed role, the white space after any position ends before
      the role does. */
  lemma SpaceEndInside(role: string, s: string, a: nat)
    requires role != [] && IsTrimmed(role) && a < |role| < |s| && s[..|role|] == role
    ensures SpaceEnd(s, a) < |role| && s[SpaceEnd(s, a)] == role[SpaceEnd(s, a)]
  {
    assert s[|role| - 1] == role[|role| - 1];
  }

  /** The shortest role is the first `a` that matches. */
  lemma ShortestRoleIs(s: string, from: nat, a: nat)
    requires 1 <= from <= a < |s| && RoleMatch(s, a, SpaceEnd(s, a))
    requires forall a': nat, b': nat :: from <= a' < a ==> !RoleMatch(s, a', b')
    ensures ShortestRole(s, from) == Some(a)
  {
  }

  /** A role that does not end in `)` is returned whole, with no period. */
  lemma UndatedRole(s: string)
    requires s == [] || s[|s| - 1] != ')'
    ensures ParseRolePeriod(s) == RolePeriod(s, None)
  {
  }

  /** So is one with no `(` after its first character. */
  lemma UnparenthesisedRole(s: string)
    requires forall k | 1 <= k < |s| :: s[k] != '('
    ensures ParseRolePeriod(s) == RolePeriod(s, None)
  {
  }
}
