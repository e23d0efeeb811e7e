/**
 * The class-name prefix check of the wrapping tools (vtkPrefixCheck.h): a
 * name is accepted when `strncmp` finds "vtk" in its first three characters,
 * or when the additional clause accepts it ("msf" unless the build
 * supplies its own clause).  Names are C strings: the characters before the
 * terminating NUL.
 */
module PrefixCheck {

  const Nul: char := '\0'

  /** The character `strncmp` reads at position `i`: the terminator once the string has ended. */
  function At(s: seq<char>, i: nat): char {
    if i < |s| then s[i] else Nul
  }

  /** A string with no embedded NUL. */
  predicate NoNul(s: seq<char>) {
    forall i :: 0 <= i < |s| ==> s[i] != Nul
  }

  /**
   * `strncmp(s, t, n)` from position `i` on: compare at most `n` characters,
   * stopping at the first difference (whose sign is the result) or at a
   * terminator both strings share.
   */
  function StrNCmpFrom(s: seq<char>, t: seq<char>, n: nat, i: nat): (r: int)
    ensures r == 0 ==> forall j :: i <= j < n ==> At(s, j) == At(t, j) || (exists m :: i <= m < j && At(s, m) == Nul)
    decreases n - i
  {
    if i >= n then 0
    else if At(s, i) != At(t, i) then (At(s, i) as int) - (At(t, i) as int)
    else if At(s, i) == Nul then 0
    else StrNCmpFrom(s, t, n, i + 1)
  }

  /** `strncmp(s, t, n)`; against a whole NUL-free pattern it is 0 exactly when `s` starts with the pattern. */
  function StrNCmp(s: seq<char>, t: seq<char>, n: nat): (r: int)
    ensures r == 0 ==> forall j :: 0 <= j < n ==> At(s, j) == At(t, j) || (exists m :: 0 <= m < j && At(s, m) == Nul)
    ensures NoNul(t) && n == |t| ==> (r == 0 <==> |t| <= |s| && s[..|t|] == t)
  {
    if NoNul(t) && n == |t| then StrNCmpFromZero(s, t, 0); StrNCmpFrom(s, t, n, 0)
    else StrNCmpFrom(s, t, n, 0)
  }

  /** Comparing against a NUL-free pattern from `i` on gives 0 exactly when the rest of the pattern follows in `s`. */
  lemma {:induction false} StrNCmpFromZero(s: seq<char>, p: seq<char>, i: nat)
    requires NoNul(p) && i <= |p| && i <= |s|
    ensures StrNCmpFrom(s, p, |p|, i) == 0 <==> (|p| <= |s| && s[i..|p|] == p[i..])
    decreases |p| - i
  {
    if i < |p| {
      if At(s, i) != At(p, i) {
        if |p| <= |s| {
          assert s[i..|p|][0] != p[i..][0];
        }
      } else {
        assert i < |s|;
        StrNCmpFromZero(s, p, i + 1);
        if |p| <= |s| {
          assert s[i..|p|] == [s[i]] + s[i + 1..|p|];
          assert p[i..] == [p[i]] + p[i + 1..];
        }
      }
    }
  }

  /** `strncmp(s, p, |p|) == 0` for a NUL-free pattern `p` says exactly that `s` starts with `p`. */
  lemma StrNCmpZeroIffPrefix(s: seq<char>, p: seq<char>)
    requires NoNul(p)
    ensures StrNCmp(s, p, |p|) == 0 <==> (|p| <= |s| && s[..|p|] == p)
  {
    StrNCmpFromZero(s, p, 0);
  }

  /** `PREFIX_CHECK_MACRO_ADDITIONAL`: the default "msf" clause, or a clause the build defines instead. */
  datatype Additional = DefaultMsf | Custom(accepts: seq<char> -> bool)

  /** `PREFIX_CHECK_MACRO(ss)`: the "vtk" test or the additional clause. */
  function Accepts(s: seq<char>, additional: Additional): (r: bool)
    ensures additional.DefaultMsf? ==> (r <==> |s| >= 3 && (s[..3] == "vtk" || s[..3] == "msf"))
    ensures additional.Custom? ==> (r <==> (|s| >= 3 && s[..3] == "vtk") || additional.accepts(s))
  {
    StrNCmp(s, "vtk", 3) == 0 ||
    match additional
    case DefaultMsf => StrNCmp(s, "msf", 3) == 0
    case Custom(f) => f(s)
  }

  /** With the default clause a name is accepted exactly when its first three characters are "vtk" or "msf". */
  lemma DefaultAcceptsIff(s: seq<char>)
    ensures Accepts(s, DefaultMsf) <==> |s| >= 3 && (s[..3] == "vtk" || s[..3] == "msf")
  {
    StrNCmpZeroIffPrefix(s, "vtk");
    StrNCmpZeroIffPrefix(s, "msf");
  }

  /** A custom clause replaces the "msf" one: the name is accepted when it starts with "vtk" or the clause accepts it. */
  lemma CustomAcceptsIff(s: seq<char>, f: seq<char> -> bool)
    ensures Accepts(s, Custom(f)) <==> (|s| >= 3 && s[..3] == "vtk") || f(s)
  {
    StrNCmpZeroIffPrefix(s, "vtk");
  }

  /** Only the first three characters matter: any suffix leaves the verdict unchanged. */
  lemma SuffixIrrelevant(s: seq<char>, suffix: seq<char>)
    requires |s| >= 3
    ensures Accepts(s + suffix, DefaultMsf) == Accepts(s, DefaultMsf)
  {
    DefaultAcceptsIff(s);
    DefaultAcceptsIff(s + suffix);
    assert (s + suffix)[..3] == s[..3];
  }

  /** Short names and names that differ in case are refused. */
  lemma ShortAndUpperCaseRefused(s: seq<char>)
    requires |s| < 3 || s[..3] == "VTK"
    ensures !Accepts(s, DefaultMsf)
  {
    DefaultAcceptsIff(s);
  }
}
