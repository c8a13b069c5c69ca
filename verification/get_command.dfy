/**
  The argument classifier of the `qri get` command (cmd/get.go).

  The first command-line argument is a selection path when it names a dataset
  component; the pattern is the case-insensitive, unanchored alternation
  `commit|structure|body|meta|viz|transform`, read here as "the ASCII
  lower-cased argument contains one of the six keywords".
 */
module GetCommand {
  import Text

  /** The alternatives of the dataset-field pattern, in pattern order. */
  const FieldKeywords: seq<string> := ["commit", "structure", "body", "meta", "viz", "transform"]

  /** Some keyword of `keywords` occurs in `s`. */
  predicate ContainsAny(s: string, keywords: seq<string>) {
    |keywords| > 0 && (Text.Contains(s, keywords[0]) || ContainsAny(s, keywords[1..]))
  }

  /** The dataset-field pattern matches `arg` somewhere, ignoring ASCII case. */
  predicate IsDatasetField(arg: string) {
    ContainsAny(Text.Lower(arg), FieldKeywords)
  }

  lemma {:induction false} ContainsAnyIff(s: string, keywords: seq<string>)
    ensures ContainsAny(s, keywords) <==>
            exists k, i :: 0 <= k < |keywords| && Text.OccursAt(s, keywords[k], i)
    decreases |keywords|
  {
    if |keywords| > 0 {
      Text.ContainsIffOccurs(s, keywords[0]);
      ContainsAnyIff(s, keywords[1..]);
      if exists k, i :: 0 <= k < |keywords| && Text.OccursAt(s, keywords[k], i) {
        var k, i :| 0 <= k < |keywords| && Text.OccursAt(s, keywords[k], i);
        if k > 0 {
          assert keywords[1..][k - 1] == keywords[k];
        }
      }
      if ContainsAny(s, keywords[1..]) {
        var k, i :| 0 <= k < |keywords[1..]| && Text.OccursAt(s, keywords[1..][k], i);
        assert keywords[1..][k] == keywords[k + 1];
      }
    }
  }

  /**
    The pattern's meaning: an argument is a dataset field exactly when one of
    the six keywords occurs in it at some position, ignoring ASCII case.
   */
  lemma IsDatasetFieldIff(arg: string)
    ensures IsDatasetField(arg) <==>
            exists k, i :: 0 <= k < |FieldKeywords| && Text.OccursAt(Text.Lower(arg), FieldKeywords[k], i)
  {
    var keywords := FieldKeywords;
    ContainsAnyIff(Text.Lower(arg), keywords);
    assert IsDatasetField(arg) == ContainsAny(Text.Lower(arg), keywords);
  }

  /**
    Matching ignores ASCII case: two arguments that agree up to case classify
    alike, and in particular an argument classifies like its lower-cased form.
   */
  lemma IsDatasetFieldCaseInsensitive(a: string, b: string)
    ensures Text.Lower(a) == Text.Lower(b) ==> (IsDatasetField(a) <==> IsDatasetField(b))
    ensures IsDatasetField(a) <==> IsDatasetField(Text.Lower(a))
  {
    LowerIdempotent(a);
  }

  lemma LowerIdempotent(s: string)
    ensures Text.Lower(Text.Lower(s)) == Text.Lower(s)
  {
  }

  /** A dataset field is never the empty argument. */
  lemma DatasetFieldNonEmpty(arg: string)
    requires IsDatasetField(arg)
    ensures arg != []
  {
    IsDatasetFieldIff(arg);
    var k, i :| 0 <= k < |FieldKeywords| && Text.OccursAt(Text.Lower(arg), FieldKeywords[k], i);
  }

  /** An argument holding a keyword at some position, after folding, is a dataset field. */
  lemma KeywordAt(arg: string, k: nat, pos: nat)
    requires k < |FieldKeywords|
    requires Text.OccursAt(Text.Lower(arg), FieldKeywords[k], pos)
    ensures IsDatasetField(arg)
  {
    IsDatasetFieldIff(arg);
  }

  /**
    The regular-expression scan: tries every start position of the folded
    argument and every keyword there, stopping at the first hit.
   */
  method MatchString(arg: string) returns (matched: bool)
    ensures matched <==> IsDatasetField(arg)
  {
    var folded := Text.Lower(arg);
    var pos := 0;
    while pos <= |folded|
      invariant 0 <= pos <= |folded| + 1
      invariant forall j, k :: 0 <= j < pos && 0 <= k < |FieldKeywords| ==>
                  !Text.OccursAt(folded, FieldKeywords[k], j)
    {
      var k := 0;
      while k < |FieldKeywords|
        invariant 0 <= k <= |FieldKeywords|
        invariant forall k' :: 0 <= k' < k ==> !Text.OccursAt(folded, FieldKeywords[k'], pos)
      {
        var keyword := FieldKeywords[k];
        if pos + |keyword| <= |folded| && folded[pos..pos + |keyword|] == keyword {
          KeywordAt(arg, k, pos);
          return true;
        }
        k := k + 1;
      }
      pos := pos + 1;
    }
    IsDatasetFieldIff(arg);
    return false;
  }

  /** The options `Complete` fills in: the selection path and the remaining refs. */
  datatype GetOptions = GetOptions(path: string, refs: seq<string>)

  /**
    Splits a leading dataset-field argument off as the selection path; only the
    first argument is examined, and everything else is kept as refs in order.
   */
  function Complete(args: seq<string>): (o: GetOptions)
    ensures |args| > 0 && IsDatasetField(args[0]) ==> o.path == args[0] && o.refs == args[1..]
    ensures (|args| == 0 || !IsDatasetField(args[0])) ==> o.path == "" && o.refs == args
    ensures |args| == 0 ==> o == GetOptions("", [])
  {
    if |args| > 0 && IsDatasetField(args[0]) then GetOptions(args[0], args[1..])
    else GetOptions("", args)
  }

  /** Puts a split-off selection path back in front of the refs. */
  function Reassemble(o: GetOptions): seq<string> {
    if o.path == "" then o.refs else [o.path] + o.refs
  }

  /** No argument is lost or reordered: reassembling the options gives the arguments back. */
  lemma CompleteRoundTrip(args: seq<string>)
    ensures Reassemble(Complete(args)) == args
  {
    if |args| > 0 && IsDatasetField(args[0]) {
      DatasetFieldNonEmpty(args[0]);
    }
  }

  /** A non-empty path is always a dataset field taken from the first argument. */
  lemma CompletePathIsField(args: seq<string>)
    ensures Complete(args).path != "" <==> |args| > 0 && IsDatasetField(args[0])
    ensures Complete(args).path != "" ==> Complete(args).path == args[0]
  {
    if |args| > 0 && IsDatasetField(args[0]) {
      DatasetFieldNonEmpty(args[0]);
    }
  }

  /** At most one argument is removed, and the refs are always a suffix of the arguments. */
  lemma CompleteRefsSuffix(args: seq<string>)
    ensures |args| - 1 <= |Complete(args).refs| <= |args|
    ensures Complete(args).refs == args[|args| - |Complete(args).refs|..]
  {
  }

  /** A keyword in any later position stays among the refs, at its position shifted by at most one. */
  lemma CompleteKeepsLaterArgs(args: seq<string>, i: int)
    requires 1 <= i < |args|
    ensures var o := Complete(args);
            o.refs[i - (|args| - |o.refs|)] == args[i]
  {
  }

  /**
    An argument without any of the letters c, b, m and v, in either case, is
    not a dataset field: each keyword has one of those letters.
   */
  lemma NotDatasetField(arg: string)
    requires 'c' !in arg && 'C' !in arg && 'b' !in arg && 'B' !in arg
    requires 'm' !in arg && 'M' !in arg && 'v' !in arg && 'V' !in arg
    ensures !IsDatasetField(arg)
  {
    var folded := Text.Lower(arg);
    Text.LowerMissing(arg, 'c');
    Text.LowerMissing(arg, 'b');
    Text.LowerMissing(arg, 'm');
    Text.LowerMissing(arg, 'v');
    var keywords := FieldKeywords;
    Text.MissingCharNotContained(folded, keywords[0], 0);
    Text.MissingCharNotContained(folded, keywords[1], 4);
    Text.MissingCharNotContained(folded, keywords[2], 0);
    Text.MissingCharNotContained(folded, keywords[3], 0);
    Text.MissingCharNotContained(folded, keywords[4], 0);
    Text.MissingCharNotContained(folded, keywords[5], 8);
    assert !ContainsAny(folded, keywords[5..]);
    assert !ContainsAny(folded, keywords[4..]);
    assert !ContainsAny(folded, keywords[3..]);
    assert !ContainsAny(folded, keywords[2..]);
    assert !ContainsAny(folded, keywords[1..]);
  }


  // The cases of the command's own table-driven test, one lemma per row.

  lemma CompleteNoArgs()
    ensures Complete([]) == GetOptions("", [])
  {
  }

  lemma CompleteOneNonField()
    ensures Complete(["one arg"]) == GetOptions("", ["one arg"])
  {
    NotDatasetField("one arg");
  }

  lemma CompleteFieldThenRef()
    ensures Complete(["commit", "peer/ds"]) == GetOptions("commit", ["peer/ds"])
  {
    Text.LowerUnchanged("commit");
    KeywordAt("commit", 0, 0);
  }

  lemma CompleteTwoRefs()
    ensures Complete(["peer/ds_two", "peer/ds"]) == GetOptions("", ["peer/ds_two", "peer/ds"])
  {
    NotDatasetField("peer/ds_two");
  }

  lemma CompleteNonFieldThenRef()
    ensures Complete(["foo", "peer/ds"]) == GetOptions("", ["foo", "peer/ds"])
  {
    NotDatasetField("foo");
  }

  lemma CompleteFieldOnly()
    ensures Complete(["structure"]) == GetOptions("structure", [])
  {
    Text.LowerUnchanged("structure");
    KeywordAt("structure", 1, 0);
  }

  /** An upper-case spelling is a field too. */
  lemma CompleteUpperCaseField()
    ensures Complete(["BODY", "peer/ds"]) == GetOptions("BODY", ["peer/ds"])
  {
    Text.LowerUpperWord("BODY", "body");
    KeywordAt("BODY", 2, 0);
  }

  /** The pattern is unanchored: a keyword inside a longer argument makes it a field. */
  lemma CompleteKeywordInside()
    ensures Complete(["my_meta"]) == GetOptions("my_meta", [])
  {
    assert Text.Lower("my_meta") == "my_meta" by {
      Text.LowerUnchanged("my_meta");
    }
    assert Text.OccursAt("my_meta", FieldKeywords[3], 3) by {
      assert "my_meta"[3..7] == "meta";
    }
    KeywordAt("my_meta", 3, 3);
  }

  /** Only the first argument is examined: a later keyword stays a ref. */
  lemma CompleteLaterFieldIgnored()
    ensures Complete(["peer/ds", "meta"]) == GetOptions("", ["peer/ds", "meta"])
  {
    NotDatasetField("peer/ds");
  }
}
