/** Properties of the file filter and of the file-Id sanitiser. */
module WixIdProperties {
  import opened Options
  import opened WixIds
  import opened Sequences

  // ---------------------------------------------------------------------
  // Filtering

  /** The filter keeps the listing order: filtering a concatenation filters each part. */
  lemma {:induction false} KeptFilesAppend(a: seq<string>, b: seq<string>)
    ensures KeptFiles(a + b) == KeptFiles(a) + KeptFiles(b)
  {
    if a == [] {
      assert a + b == b;
    } else {
      assert (a + b)[0] == a[0];
      assert (a + b)[1..] == a[1..] + b;
      KeptFilesAppend(a[1..], b);
    }
  }

  /**
   * A name ending in ".ext", where "ext" has no '.' or separator, has
   * extension ".ext" whatever comes before it.
   */
  lemma {:induction false} ExtensionOfSuffix(stem: string, ext: string)
    requires |ext| >= 2 && ext[0] == '.'
    requires forall j :: 1 <= j < |ext| ==> ext[j] != '.' && !IsSeparator(ext[j])
    ensures LastDot(stem + ext) == Some(|stem|)
    ensures GetExtension(stem + ext) == ext
  {
    DotPosition(stem + ext, |stem|);
    assert (stem + ext)[|stem|..] == ext;
  }

  /** LastDot finds a '.' followed only by characters that are neither '.' nor separators. */
  lemma {:induction false} DotPosition(s: string, i: nat)
    requires i < |s| && s[i] == '.'
    requires forall j :: i < j < |s| ==> s[j] != '.' && !IsSeparator(s[j])
    ensures LastDot(s) == Some(i)
    decreases |s|
  {
    if i < |s| - 1 {
      var t := s[..|s| - 1];
      assert forall j :: i < j < |t| ==> t[j] == s[j];
      DotPosition(t, i);
    }
  }

  /** Every file whose name ends in a forbidden extension is dropped, whatever its stem. */
  lemma ForbiddenExtensionDropped(stem: string, ext: string)
    requires ext in ForbiddenExtensions
    ensures !IsKeptFile(stem + ext)
  {
    ExtensionOfSuffix(stem, ext);
  }

  // ---------------------------------------------------------------------
  // The sanitiser

  /** A string made only of [a-zA-Z0-9_] is left as it is. */
  lemma {:induction false} SanitizeClean(s: string)
    requires AllWordChars(s)
    ensures Sanitize(s) == s
  {
    if s != [] {
      SanitizeClean(s[1..]);
    }
  }

  /** Sanitising twice is sanitising once. */
  lemma SanitizeIdempotent(s: string)
    ensures Sanitize(Sanitize(s)) == Sanitize(s)
  {
    SanitizeClean(Sanitize(s));
  }

  /**
   * Runs do not reach across a word character: when `a` ends in one, the two
   * halves are sanitised independently.
   */
  lemma {:induction false} SanitizeSplitsAfterWordChar(a: string, b: string)
    requires a != [] && IsWordChar(a[|a| - 1])
    ensures Sanitize(a + b) == Sanitize(a) + Sanitize(b)
    decreases |a|
  {
    if |a| == 1 {
      assert (a + b)[1..] == b;
      assert Sanitize(a + b) == [a[0]] + Sanitize(b);
      assert a[1..] == [];
      assert Sanitize(a) == [a[0]];
    } else if IsWordChar(a[0]) {
      assert (a + b)[1..] == a[1..] + b;
      SanitizeSplitsAfterWordChar(a[1..], b);
      assert Sanitize(a + b) == [a[0]] + (Sanitize(a[1..]) + Sanitize(b));
      assert Sanitize(a) == [a[0]] + Sanitize(a[1..]);
      AppendAssoc([a[0]], Sanitize(a[1..]), Sanitize(b));
    } else {
      var r := DropNonWordRun(a);
      assert r == DropNonWordRun(a[1..]);
      assert 0 < |r| < |a| && r[|r| - 1] == a[|a| - 1] by {
        assert IsWordChar(a[|a| - 1]);
      }
      assert !IsWordChar((a + b)[0]);
      DropNonWordRunAppend(a, b);
      assert Sanitize(a + b) == "_" + Sanitize(r + b);
      SanitizeSplitsAfterWordChar(r, b);
      assert Sanitize(a) == "_" + Sanitize(r);
      AppendAssoc("_", Sanitize(r), Sanitize(b));
    }
  }

  /** Dropping the leading run of a string that has a word character affects only its own part. */
  lemma {:induction false} DropNonWordRunAppend(a: string, b: string)
    requires exists i :: 0 <= i < |a| && IsWordChar(a[i])
    ensures DropNonWordRun(a + b) == DropNonWordRun(a) + b
  {
    if IsWordChar(a[0]) {
    } else {
      assert (a + b)[1..] == a[1..] + b;
      var i :| 0 <= i < |a| && IsWordChar(a[i]);
      assert a[1..][i - 1] == a[i];
      DropNonWordRunAppend(a[1..], b);
    }
  }

  /** A maximal run of other characters becomes exactly one '_'. */
  lemma SanitizeRun(run: string, b: string)
    requires run != [] && forall i :: 0 <= i < |run| ==> !IsWordChar(run[i])
    requires b == [] || IsWordChar(b[0])
    ensures Sanitize(run + b) == "_" + Sanitize(b)
  {
    DropRun(run, b);
  }

  lemma {:induction false} DropRun(run: string, b: string)
    requires forall i :: 0 <= i < |run| ==> !IsWordChar(run[i])
    requires b == [] || IsWordChar(b[0])
    ensures DropNonWordRun(run + b) == b
  {
    if run == [] {
      assert run + b == b;
    } else {
      assert (run + b)[1..] == run[1..] + b;
      DropRun(run[1..], b);
    }
  }
}
