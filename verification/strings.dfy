/** The string helpers the pipeline needs: ASCII lower-casing, Python's
    substring test `p in s`, and `s.replace(p, "")`. */
module Strings {

  /** ASCII lower-casing of one character; every other character is kept. */
  function LowerChar(c: char): char {
    if 'A' <= c <= 'Z' then (c as int + 32) as char else c
  }

  predicate IsUpper(c: char) {
    'A' <= c <= 'Z'
  }

  /** `s.lower()`, restricted to ASCII letters. */
  function Lower(s: string): (r: string)
    ensures |r| == |s|
    ensures forall i :: 0 <= i < |s| ==> r[i] == LowerChar(s[i])
    ensures forall i :: 0 <= i < |s| ==> !IsUpper(r[i])
  {
    seq(|s|, i requires 0 <= i < |s| => LowerChar(s[i]))
  }

  /** No character of `s` at or after index `i` is an upper-case ASCII letter;
      written by index recursion so that it evaluates on string literals. */
  predicate NoUpperFrom(s: string, i: nat)
    decreases |s| - i
  {
    i >= |s| || (!IsUpper(s[i]) && NoUpperFrom(s, i + 1))
  }

  /** Lower-casing leaves a string without upper-case letters unchanged. */
  lemma {:induction false} LowerOfLowerCase(s: string, i: nat)
    requires NoUpperFrom(s, i)
    ensures forall j :: i <= j < |s| ==> Lower(s)[j] == s[j]
    decreases |s| - i
  {
    if i < |s| {
      LowerOfLowerCase(s, i + 1);
    }
  }

  lemma LowerIdentity(s: string)
    requires NoUpperFrom(s, 0)
    ensures Lower(s) == s
  {
    LowerOfLowerCase(s, 0);
  }

  /** Lower-casing is idempotent. */
  lemma LowerIdempotent(s: string)
    ensures Lower(Lower(s)) == Lower(s)
  {
  }

  /** `p` occurs in `s` at index `i`, compared from the `k`-th character of `p` on. */
  predicate MatchAt(s: string, p: string, i: nat, k: nat)
    decreases |p| - k
  {
    if k >= |p| then true
    else if i + k >= |s| then false
    else if s[i + k] != p[k] then false
    else MatchAt(s, p, i, k + 1)
  }

  /** `p` occurs in `s` at some index `i` or later. */
  predicate ContainsFrom(s: string, p: string, i: nat)
    decreases |s| - i
  {
    if i + |p| > |s| then false
    else if MatchAt(s, p, i, 0) then true
    else ContainsFrom(s, p, i + 1)
  }

  /** Python's `p in s` for strings: `p` is a contiguous substring of `s`
      (the empty string is a substring of every string). */
  predicate Contains(s: string, p: string) {
    ContainsFrom(s, p, 0)
  }

  lemma {:induction false} MatchAtSlice(s: string, p: string, i: nat, k: nat)
    requires i + |p| <= |s| && k <= |p|
    ensures MatchAt(s, p, i, k) <==> s[i + k..i + |p|] == p[k..]
    decreases |p| - k
  {
    if k < |p| {
      MatchAtSlice(s, p, i, k + 1);
      assert s[i + k..i + |p|] == [s[i + k]] + s[i + k + 1..i + |p|];
      assert p[k..] == [p[k]] + p[k + 1..];
    }
  }

  /** `p` occurs in `s` starting at index `j`, stated by slicing. */
  predicate OccursAt(s: string, p: string, j: nat) {
    j + |p| <= |s| && s[j..j + |p|] == p
  }

  lemma {:induction false} ContainsFromIff(s: string, p: string, i: nat)
    ensures ContainsFrom(s, p, i) <==> exists j :: i <= j && OccursAt(s, p, j)
    decreases |s| - i
  {
    if i + |p| <= |s| {
      MatchAtSlice(s, p, i, 0);
      assert p[0..] == p;
      ContainsFromIff(s, p, i + 1);
      if !MatchAt(s, p, i, 0) {
        assert !OccursAt(s, p, i);
        forall j | i <= j && OccursAt(s, p, j)
          ensures i + 1 <= j
        {
        }
      } else {
        assert OccursAt(s, p, i);
      }
    } else {
      forall j | i <= j
        ensures !OccursAt(s, p, j)
      {
      }
    }
  }

  /** The substring test agrees with the definition by position: `p in s`
      holds exactly when some slice of `s` equals `p`. */
  lemma ContainsIff(s: string, p: string)
    ensures Contains(s, p) <==> exists j :: OccursAt(s, p, j)
  {
    ContainsFromIff(s, p, 0);
  }

  /** A string contains every one of its own slices. */
  lemma ContainsSlice(s: string, i: nat, j: nat)
    requires i <= j <= |s|
    ensures Contains(s, s[i..j])
  {
    ContainsIff(s, s[i..j]);
    assert OccursAt(s, s[i..j], i);
  }

  /** A pattern with a character that `s` lacks does not occur in `s`. */
  lemma MissingChar(s: string, p: string, k: nat)
    requires k < |p| && p[k] !in s
    ensures !Contains(s, p)
  {
    forall j: nat | j + |p| <= |s|
      ensures !OccursAt(s, p, j)
    {
      assert s[j..j + |p|][k] == s[j + k];
    }
    ContainsIff(s, p);
  }

  predicate IsPrefix(p: string, s: string) {
    |p| <= |s| && s[..|p|] == p
  }

  /** Python's `s.replace(p, "")`: scanning left to right, every
      non-overlapping occurrence of `p` is removed. */
  function RemoveAll(s: string, p: string): (r: string)
    requires |p| > 0
    ensures |r| <= |s|
    ensures !Contains(s, p) ==> r == s
    decreases |s|
  {
    if |s| == 0 then s
    else if IsPrefix(p, s) then
      ContainsSlice(s, 0, |p|);
      RemoveAll(s[|p|..], p)
    else
      NotContainsTail(s, p);
      [s[0]] + RemoveAll(s[1..], p)
  }

  /** `p` occurs at index `j` of `s` and at no earlier index. */
  predicate FirstOccurrence(s: string, p: string, j: nat) {
    OccursAt(s, p, j) && forall i :: 0 <= i < j ==> !OccursAt(s, p, i)
  }

  /** The recurrence of `replace`: everything before the earliest
      occurrence of `p` is kept, that occurrence is dropped, and the scan
      resumes right after it. */
  lemma RemoveAllFirst(s: string, p: string, j: nat)
    requires |p| > 0 && FirstOccurrence(s, p, j)
    ensures RemoveAll(s, p) == s[..j] + RemoveAll(s[j + |p|..], p)
  {
    RemoveAllKeep(s, p, j);
    var back := s[j..];
    assert back[..|p|] == s[j..j + |p|];
    RemoveAllAtStart(back, p);
    assert back[|p|..] == s[j + |p|..];
  }

  /** The first `j` characters are kept when no occurrence of `p` starts
      among them. */
  lemma {:induction false} RemoveAllKeep(s: string, p: string, j: nat)
    requires |p| > 0 && j <= |s|
    requires forall i :: 0 <= i < j ==> !OccursAt(s, p, i)
    ensures RemoveAll(s, p) == s[..j] + RemoveAll(s[j..], p)
    decreases j
  {
    if j == 0 {
      assert s[..0] + s[0..] == s;
    } else {
      RemoveAllKeep(s, p, j - 1);
      var u := s[j - 1..];
      assert !OccursAt(s, p, j - 1);
      if |p| <= |u| {
        assert u[..|p|] == s[j - 1..j - 1 + |p|];
      }
      RemoveAllSkip(u, p);
      assert u[1..] == s[j..];
      SnocConcat(s, j, RemoveAll(s[j..], p));
    }
  }

  /** An occurrence at the start is dropped. */
  lemma RemoveAllAtStart(s: string, p: string)
    requires |p| > 0 && IsPrefix(p, s)
    ensures RemoveAll(s, p) == RemoveAll(s[|p|..], p)
  {
  }

  /** A first character at which `p` does not start is kept. */
  lemma RemoveAllSkip(s: string, p: string)
    requires |p| > 0 && |s| > 0 && !IsPrefix(p, s)
    ensures RemoveAll(s, p) == [s[0]] + RemoveAll(s[1..], p)
  {
  }

  lemma SnocConcat(s: string, j: nat, y: string)
    requires 0 < j <= |s|
    ensures s[..j - 1] + ([s[j - 1]] + y) == s[..j] + y
  {
    assert s[..j] == s[..j - 1] + [s[j - 1]];
  }

  lemma RemoveAllFirstEvery(s: string, p: string)
    requires |p| > 0
    ensures forall j: nat :: FirstOccurrence(s, p, j) ==> RemoveAll(s, p) == s[..j] + RemoveAll(s[j + |p|..], p)
  {
    forall j: nat | FirstOccurrence(s, p, j)
      ensures RemoveAll(s, p) == s[..j] + RemoveAll(s[j + |p|..], p)
    {
      RemoveAllFirst(s, p, j);
    }
  }

  /** A string that does not contain `p` has a tail that does not either. */
  lemma NotContainsTail(s: string, p: string)
    requires |s| > 0
    ensures Contains(s[1..], p) ==> Contains(s, p)
  {
    if Contains(s[1..], p) {
      ContainsIff(s[1..], p);
      var j: nat :| OccursAt(s[1..], p, j);
      assert s[j + 1..j + 1 + |p|] == s[1..][j..j + |p|];
      assert OccursAt(s, p, j + 1);
      ContainsIff(s, p);
    }
  }

  /** Removing `p` from `a + p` gives back `a` when no occurrence of `p`
      starts inside `a`: a trailing extension is stripped exactly. */
  lemma {:induction false} RemoveAllSuffix(a: string, p: string)
    requires |p| > 0
    requires forall i :: 0 <= i < |a| ==> !IsPrefix(p, (a + p)[i..])
    ensures RemoveAll(a + p, p) == a
    decreases |a|
  {
    if |a| == 0 {
      assert a + p == p;
      assert p[|p|..] == [];
    } else {
      assert !IsPrefix(p, (a + p)[0..]);
      assert (a + p)[0..] == a + p;
      assert (a + p)[1..] == a[1..] + p;
      forall i | 0 <= i < |a[1..]|
        ensures !IsPrefix(p, (a[1..] + p)[i..])
      {
        assert (a[1..] + p)[i..] == (a + p)[i + 1..];
      }
      RemoveAllSuffix(a[1..], p);
      assert [a[0]] + a[1..] == a;
    }
  }
}
