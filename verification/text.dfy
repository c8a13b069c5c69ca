/**
  String helpers used by the command-line classifier and the HTTP rules:
  ASCII case folding and substring search, with a declarative definition of
  "occurs at" that the executable search is proved against.
 */
module Text {

  predicate IsUpper(c: char) {
    'A' <= c <= 'Z'
  }

  /** ASCII lower-casing of one character; every other character is unchanged. */
  function LowerChar(c: char): (r: char)
    ensures !IsUpper(r)
    ensures IsUpper(c) ==> r as int - c as int == 'a' as int - 'A' as int
    ensures !IsUpper(c) ==> r == c
  {
    if IsUpper(c) then (c as int - 'A' as int + 'a' as int) as char else c
  }

  /** ASCII lower-casing of a string, character by character. */
  function Lower(s: string): (r: string)
    ensures |r| == |s|
    ensures forall i :: 0 <= i < |s| ==> r[i] == LowerChar(s[i])
  {
    if s == [] then [] else [LowerChar(s[0])] + Lower(s[1..])
  }

  predicate StartsWith(s: string, prefix: string) {
    |prefix| <= |s| && s[..|prefix|] == prefix
  }

  /** `pattern` appears in `s` starting at index `i`. */
  predicate OccursAt(s: string, pattern: string, i: int) {
    0 <= i && i + |pattern| <= |s| && s[i..i + |pattern|] == pattern
  }

  /** Substring search (Go's strings.Contains), scanning start positions left to right. */
  function Contains(s: string, pattern: string): bool
    decreases |s|
  {
    if StartsWith(s, pattern) then true
    else if s == [] then false
    else Contains(s[1..], pattern)
  }

  /** The search finds the pattern exactly when it occurs at some index. */
  lemma {:induction false} ContainsIffOccurs(s: string, pattern: string)
    ensures Contains(s, pattern) <==> exists i :: OccursAt(s, pattern, i)
    decreases |s|
  {
    if StartsWith(s, pattern) {
      assert OccursAt(s, pattern, 0);
    } else if s == [] {
    } else {
      ContainsIffOccurs(s[1..], pattern);
      if Contains(s[1..], pattern) {
        var i :| OccursAt(s[1..], pattern, i);
        assert s[1..][i..i + |pattern|] == s[i + 1..i + 1 + |pattern|];
        assert OccursAt(s, pattern, i + 1);
      }
      if exists i :: OccursAt(s, pattern, i) {
        var i :| OccursAt(s, pattern, i);
        if i != 0 {
          assert s[1..][i - 1..i - 1 + |pattern|] == s[i..i + |pattern|];
          assert OccursAt(s[1..], pattern, i - 1);
        }
      }
    }
  }

  /** A string that contains a pattern is at least as long as it. */
  lemma ContainsNeedsLength(s: string, pattern: string)
    requires Contains(s, pattern)
    ensures |pattern| <= |s|
  {
    ContainsIffOccurs(s, pattern);
  }

  /** A string without upper-case letters is its own lower-cased form. */
  lemma LowerUnchanged(s: string)
    requires forall i :: 0 <= i < |s| ==> !IsUpper(s[i])
    ensures Lower(s) == s
  {
  }

  /** Lower-casing maps an all-upper-case word onto its lower-case spelling. */
  lemma LowerUpperWord(s: string, lower: string)
    requires |s| == |lower|
    requires forall i :: 0 <= i < |s| ==> IsUpper(s[i]) && lower[i] as int - s[i] as int == 'a' as int - 'A' as int
    ensures Lower(s) == lower
  {
  }

  /** A lower-case letter absent from `s` in both cases is absent from `Lower(s)`. */
  lemma LowerMissing(s: string, c: char)
    requires 'a' <= c <= 'z'
    requires c !in s && (c as int - 'a' as int + 'A' as int) as char !in s
    ensures c !in Lower(s)
  {
    forall i | 0 <= i < |s|
      ensures Lower(s)[i] != c
    {
      assert s[i] in s;
    }
  }

  /** A pattern with a character that `s` lacks does not occur in `s`. */
  lemma MissingCharNotContained(s: string, pattern: string, j: nat)
    requires j < |pattern| && pattern[j] !in s
    ensures !Contains(s, pattern)
  {
    ContainsIffOccurs(s, pattern);
    forall i | 0 <= i && i + |pattern| <= |s|
      ensures !OccursAt(s, pattern, i)
    {
      assert s[i..i + |pattern|][j] == s[i + j];
      assert s[i + j] in s;
    }
  }
}
