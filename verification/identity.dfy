/**
 * How a routing identity and a contact name are derived from strings:
 * `user.name.replace(" -IIITK", "")` and `contact.substring(1)`.
 *
 * With a string pattern, JavaScript's `String.prototype.replace` looks the
 * pattern up with `indexOf` and replaces only that first occurrence, wherever
 * it is in the string; it is not a suffix strip.
 */
module Identity {
  import opened Wrappers

  /** The institutional suffix removed from display names. */
  const Suffix: string := " -IIITK"

  /** `p` occurs in `s` starting at index `i`. */
  predicate OccursAt(s: string, p: string, i: nat) {
    i + |p| <= |s| && s[i..i + |p|] == p
  }

  /** `i` is the leftmost occurrence of `p` in `s`. */
  predicate FirstOccurrence(s: string, p: string, i: nat) {
    OccursAt(s, p, i) && forall j: nat :: j < i ==> !OccursAt(s, p, j)
  }

  /** Occurrences in `s[1..]` are the occurrences in `s`, one index to the left. */
  lemma OccursInTail(s: string, p: string)
    requires |s| > 0
    ensures forall j: nat :: 0 < j ==> (OccursAt(s, p, j) <==> OccursAt(s[1..], p, j - 1))
  {
    forall j: nat | 0 < j ensures OccursAt(s, p, j) <==> OccursAt(s[1..], p, j - 1) {
      if j + |p| <= |s| {
        assert s[1..][j - 1..j - 1 + |p|] == s[j..j + |p|];
      }
    }
  }

  /** `s.indexOf(p)`: the leftmost occurrence of `p`, or `None` for -1. */
  function IndexOf(s: string, p: string): (r: Option<nat>)
    ensures r.Some? ==> FirstOccurrence(s, p, r.value)
    ensures r.None? ==> forall j: nat :: !OccursAt(s, p, j)
    decreases |s|
  {
    if |p| > |s| then None
    else if s[..|p|] == p then Some(0)
    else
      OccursInTail(s, p);
      match IndexOf(s[1..], p)
      case None => None
      case Some(i) => Some(i + 1)
  }

  /** `s.replace(p, rep)` with a string pattern: only the first occurrence is
      replaced. `rep` is inserted as it is, which is what `replace` does for a
      replacement without `$` patterns, such as the `""` of `Username`. */
  function ReplaceFirst(s: string, p: string, rep: string): (r: string)
    ensures (forall j: nat :: !OccursAt(s, p, j)) ==> r == s
    ensures forall i: nat :: FirstOccurrence(s, p, i) ==> r == s[..i] + rep + s[i + |p|..]
  {
    match IndexOf(s, p)
    case None => s
    case Some(i) => s[..i] + rep + s[i + |p|..]
  }

  /** The routing identity of a verified user (src/app.ts lines 83 and 119). */
  function Username(name: string): (r: string)
    ensures (forall j: nat :: !OccursAt(name, Suffix, j)) ==> r == name
    ensures r == name || |r| == |name| - |Suffix|
  {
    ReplaceFirst(name, Suffix, "")
  }

  /** `contact.substring(1)`: drop the first character; the empty string stays empty. */
  function ContactName(param: string): (r: string)
    ensures |param| == 0 ==> r == ""
    ensures |param| > 0 ==> [param[0]] + r == param
  {
    if |param| == 0 then "" else param[1..]
  }

  /** A display name that does not contain the suffix is its own identity. */
  lemma UsernameWithoutSuffix(name: string)
    requires forall j: nat :: !OccursAt(name, Suffix, j)
    ensures Username(name) == name
  {
  }

  /** The suffix is removed exactly once, wherever its first occurrence is:
      the identity is the name with those seven characters cut out. */
  lemma UsernameCutsFirstOccurrence(name: string, i: nat)
    requires FirstOccurrence(name, Suffix, i)
    ensures |Username(name)| == |name| - |Suffix|
    ensures Username(name) == name[..i] + name[i + |Suffix|..]
  {
  }

  /** The common case: a name that ends with the suffix, and has it nowhere
      else, loses it. The suffix starts with its only blank, so no occurrence
      can straddle the end of `base`. */
  lemma {:induction false} UsernameStripsTrailingSuffix(base: string)
    requires forall j: nat :: !OccursAt(base, Suffix, j)
    ensures Username(base + Suffix) == base
  {
    var s := base + Suffix;
    var n := |base|;
    assert OccursAt(s, Suffix, n) by {
      assert s[n..n + |Suffix|] == Suffix;
    }
    forall j: nat | j < n ensures !OccursAt(s, Suffix, j) {
      if j + |Suffix| <= n {
        // An occurrence inside base would be one of base's own.
        assert s[j..j + |Suffix|] == base[j..j + |Suffix|];
        assert !OccursAt(base, Suffix, j);
      } else if j + |Suffix| <= |s| {
        // One straddling the end of base would put the blank s[n] at index
        // n - j of the suffix, which holds no blank there.
        var d := n - j;
        assert s[n] == ' ';
        assert 0 < d < |Suffix|;
        assert Suffix[d] != ' ' by {
          assert d == 1 || d == 2 || d == 3 || d == 4 || d == 5 || d == 6;
        }
        assert s[j..j + |Suffix|][d] == s[n];
        assert s[j..j + |Suffix|] != Suffix;
      }
    }
    assert FirstOccurrence(s, Suffix, n);
    assert s[..n] == base;
    assert s[n + |Suffix|..] == [];
  }

  /** Cutting the `|p|` characters at `i` keeps a later occurrence of `p`, shifted left by `|p|`. */
  lemma CutKeepsLaterOccurrence(s: string, p: string, i: nat, k: nat)
    requires i + |p| <= k && OccursAt(s, p, k)
    ensures OccursAt(s[..i] + s[i + |p|..], p, k - |p|)
  {
    var tail := s[i + |p|..];
    assert (s[..i] + tail)[k - |p|..k] == tail[k - |p| - i..k - i];
  }

  /** Only the first occurrence goes: a later, non-overlapping occurrence of
      the suffix survives in the identity, shifted left by its length. */
  lemma UsernameKeepsLaterOccurrence(name: string, i: nat, k: nat)
    requires FirstOccurrence(name, Suffix, i)
    requires i + |Suffix| <= k && OccursAt(name, Suffix, k)
    ensures OccursAt(Username(name), Suffix, k - |Suffix|)
  {
    UsernameCutsFirstOccurrence(name, i);
    CutKeepsLaterOccurrence(name, Suffix, i, k);
  }
}
