/** Strings as the product rules see them: case lowering and substring containment. */
module Text {

  /**
   * Java's `String.toLowerCase`, taken as given. Its Unicode case tables are not
   * modelled: every rule below is stated for an arbitrary lowering function.
   */
  type Lowering = string -> string

  /** `s.contains(w)`: `w` occurs in `s` as a contiguous block (the empty word occurs everywhere). */
  predicate Contains(s: string, w: string)
    decreases |s|
  {
    w <= s || (|s| > 0 && Contains(s[1..], w))
  }

  /** `w` occurs in `s` starting at index `i`. */
  predicate OccursAt(s: string, w: string, i: nat) {
    i + |w| <= |s| && s[i..i + |w|] == w
  }

  /** The recursive search agrees with the index-based definition of a substring. */
  lemma {:induction false} ContainsIff(s: string, w: string)
    ensures Contains(s, w) <==> exists i: nat :: OccursAt(s, w, i)
    decreases |s|
  {
    if Contains(s, w) {
      ContainsHasWitness(s, w);
    }
    if exists i: nat :: OccursAt(s, w, i) {
      var i: nat :| OccursAt(s, w, i);
      WitnessGivesContains(s, w, i);
    }
  }

  lemma {:induction false} ContainsHasWitness(s: string, w: string)
    requires Contains(s, w)
    ensures exists i: nat :: OccursAt(s, w, i)
    decreases |s|
  {
    if w <= s {
      assert OccursAt(s, w, 0);
    } else {
      ContainsHasWitness(s[1..], w);
      var j: nat :| OccursAt(s[1..], w, j);
      assert s[1..][j..j + |w|] == s[j + 1..j + 1 + |w|];
      assert OccursAt(s, w, j + 1);
    }
  }

  lemma {:induction false} WitnessGivesContains(s: string, w: string, i: nat)
    requires OccursAt(s, w, i)
    ensures Contains(s, w)
    decreases i
  {
    if i == 0 {
      assert w == s[..|w|];
    } else {
      assert s[1..][i - 1..i - 1 + |w|] == s[i..i + |w|];
      WitnessGivesContains(s[1..], w, i - 1);
    }
  }

  /** Containment survives surrounding text: "ropa deportiva" contains "ropa". */
  lemma ContainsInContext(prefix: string, s: string, suffix: string, w: string)
    requires Contains(s, w)
    ensures Contains(prefix + s + suffix, w)
  {
    ContainsIff(s, w);
    var i: nat :| OccursAt(s, w, i);
    var t := prefix + s + suffix;
    assert t[|prefix| + i..|prefix| + i + |w|] == s[i..i + |w|];
    assert OccursAt(t, w, |prefix| + i);
    WitnessGivesContains(t, w, |prefix| + i);
  }

  /** A word holding a character that `s` lacks cannot occur in `s`. */
  lemma MissingCharacter(s: string, w: string, c: char)
    requires c in w && c !in s
    ensures !Contains(s, w)
  {
  }
}
