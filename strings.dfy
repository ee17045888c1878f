/**
  The two Python string operations the download decision relies on, on
  strings as sequences of characters:
  - `pat in s`, the substring membership test, and
  - `s.split(sep)` with an explicit one-character separator, together with
    its inverse `sep.join(parts)`.
 */
module PyStrings {

  /** Reference meaning of `pat in s`: `pat` sits at some position of `s`. */
  ghost predicate OccursAt(s: string, pat: string, i: int) {
    0 <= i && i + |pat| <= |s| && s[i..i + |pat|] == pat
  }

  ghost predicate Occurs(s: string, pat: string) {
    exists i :: OccursAt(s, pat, i)
  }

  /** A scan over the positions of `s` from the left that answers Python's `pat in s`. */
  function Contains(s: string, pat: string): bool
    decreases |s|
  {
    if |pat| > |s| then false
    else if s[..|pat|] == pat then true
    else Contains(s[1..], pat)
  }

  /** The scan answers exactly the reference question, in both directions. */
  lemma {:induction false} ContainsIffOccurs(s: string, pat: string)
    ensures Contains(s, pat) <==> Occurs(s, pat)
    decreases |s|
  {
    if |pat| > |s| {
      assert forall i :: !OccursAt(s, pat, i);
    } else if s[..|pat|] == pat {
      assert OccursAt(s, pat, 0);
    } else {
      ContainsIffOccurs(s[1..], pat);
      if Occurs(s[1..], pat) {
        var i :| OccursAt(s[1..], pat, i);
        SliceOfTail(s, i, i + |pat|);
        assert OccursAt(s, pat, i + 1);
      }
      if Occurs(s, pat) {
        var i :| OccursAt(s, pat, i);
        assert i != 0;
        SliceOfTail(s, i - 1, i - 1 + |pat|);
        assert OccursAt(s[1..], pat, i - 1);
      }
    }
  }

  lemma SliceOfTail(s: string, i: int, j: int)
    requires 0 <= i <= j < |s|
    ensures s[1..][i..j] == s[i + 1..j + 1]
  {
  }

  /** `pat` is found wherever it is placed: at the front, in the middle or at the end. */
  lemma ContainsInfix(a: string, pat: string, b: string)
    ensures Contains(a + pat + b, pat)
  {
    var s := a + pat + b;
    assert s[|a|..|a| + |pat|] == pat;
    assert OccursAt(s, pat, |a|);
    ContainsIffOccurs(s, pat);
  }

  /** Python's `sep.join(parts)`; `split` below always yields at least one part. */
  function Join(parts: seq<string>, sep: char): (s: string)
    requires |parts| >= 1
    decreases |parts|
  {
    if |parts| == 1 then parts[0] else parts[0] + [sep] + Join(parts[1..], sep)
  }

  ghost predicate FreeOf(parts: seq<string>, sep: char) {
    forall i :: 0 <= i < |parts| ==> sep !in parts[i]
  }

  /**
    Python's `s.split(sep)` for a one-character separator: the pieces between
    separators, empty pieces included; `"".split(sep)` is `[""]`.
    Joining the pieces back gives `s`, and no piece holds a separator.
   */
  function Split(s: string, sep: char): (parts: seq<string>)
    ensures |parts| >= 1
    ensures FreeOf(parts, sep)
    ensures Join(parts, sep) == s
    decreases |s|
  {
    if |s| == 0 then [""]
    else
      var rest := Split(s[1..], sep);
      if s[0] == sep then
        [""] + rest
      else
        var parts := [[s[0]] + rest[0]] + rest[1..];
        assert parts[1..] == rest[1..];
        assert Join(parts, sep) == s by {
          if |rest| > 1 {
            assert Join(parts, sep) == [s[0]] + rest[0] + [sep] + Join(rest[1..], sep);
          }
        }
        parts
  }

  lemma {:induction false} SplitWithoutSep(a: string, sep: char)
    requires sep !in a
    ensures Split(a, sep) == [a]
    decreases |a|
  {
    if |a| > 0 {
      SplitWithoutSep(a[1..], sep);
      assert [a[0]] + a[1..] == a;
    }
  }

  lemma {:induction false} SplitAfterPiece(a: string, sep: char, t: string)
    requires sep !in a
    ensures Split(a + [sep] + t, sep) == [a] + Split(t, sep)
    decreases |a|
  {
    var s := a + [sep] + t;
    if |a| == 0 {
      assert s[1..] == t;
    } else {
      assert s[1..] == a[1..] + [sep] + t;
      SplitAfterPiece(a[1..], sep, t);
      assert [a[0]] + a[1..] == a;
    }
  }

  /** The other round trip: separator-free pieces are recovered from their join. */
  lemma {:induction false} SplitJoin(parts: seq<string>, sep: char)
    requires |parts| >= 1 && FreeOf(parts, sep)
    ensures Split(Join(parts, sep), sep) == parts
    decreases |parts|
  {
    if |parts| == 1 {
      SplitWithoutSep(parts[0], sep);
    } else {
      assert sep !in parts[0];
      assert FreeOf(parts[1..], sep) by {
        forall i | 0 <= i < |parts[1..]| ensures sep !in parts[1..][i] {
          assert parts[1..][i] == parts[i + 1];
        }
      }
      SplitJoin(parts[1..], sep);
      SplitAfterPiece(parts[0], sep, Join(parts[1..], sep));
      assert [parts[0]] + parts[1..] == parts;
    }
  }

  /** Joining peels off the last piece behind the last separator. */
  lemma {:induction false} JoinLast(parts: seq<string>, sep: char)
    requires |parts| >= 2
    ensures Join(parts, sep) == Join(parts[..|parts| - 1], sep) + [sep] + parts[|parts| - 1]
    decreases |parts|
  {
    if |parts| > 2 {
      JoinLast(parts[1..], sep);
      assert parts[1..][..|parts| - 2] == parts[..|parts| - 1][1..];
    }
  }
}
