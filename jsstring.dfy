/**
 * The few JavaScript string built-ins the host-name extraction relies on:
 * `split` with a one-character separator, `indexOf` and `slice`.
 */
module JsString {

  /** Number of occurrences of `c` in `s`. */
  function Count(s: string, c: char): (n: nat)
  {
    if s == [] then 0 else (if s[0] == c then 1 else 0) + Count(s[1..], c)
  }

  /**
   * `s.split(sep)`: the pieces of `s` between consecutive separators,
   * empty pieces included, so that "" splits into [""] and "/" into ["", ""].
   */
  function Split(s: string, sep: char): (parts: seq<string>)
    ensures |parts| >= 1
  {
    if s == [] then [""]
    else
      var rest := Split(s[1..], sep);
      if s[0] == sep then [""] + rest
      else [[s[0]] + rest[0]] + rest[1..]
  }

  /** `parts.join(sep)`, the inverse of `Split`. */
  function Join(parts: seq<string>, sep: char): (s: string)
    requires |parts| >= 1
  {
    if |parts| == 1 then parts[0] else parts[0] + [sep] + Join(parts[1..], sep)
  }

  /** There is one more piece than there are separators. */
  lemma {:induction false} SplitLength(s: string, sep: char)
    ensures |Split(s, sep)| == Count(s, sep) + 1
  {
    if s != [] {
      SplitLength(s[1..], sep);
    }
  }

  /** No piece contains the separator. */
  lemma {:induction false} SplitPiecesHaveNoSeparator(s: string, sep: char)
    ensures forall i :: 0 <= i < |Split(s, sep)| ==> sep !in Split(s, sep)[i]
  {
    if s != [] {
      SplitPiecesHaveNoSeparator(s[1..], sep);
      var rest := Split(s[1..], sep);
      if s[0] != sep {
        assert sep !in rest[0];
        var head := [s[0]] + rest[0];
        assert Split(s, sep) == [head] + rest[1..];
        assert forall c :: c in head ==> c == s[0] || c in rest[0];
      }
    }
  }

  /** Joining the pieces with the separator gives back the original string. */
  lemma {:induction false} JoinSplit(s: string, sep: char)
    ensures Join(Split(s, sep), sep) == s
  {
    if s != [] {
      JoinSplit(s[1..], sep);
      var rest := Split(s[1..], sep);
      if s[0] == sep {
        assert Split(s, sep)[1..] == rest;
      } else {
        var parts := Split(s, sep);
        assert parts[1..] == rest[1..];
        if |rest| == 1 {
          assert [s[0]] + rest[0] == s;
        } else {
          assert rest[0] + [sep] + Join(rest[1..], sep) == s[1..];
          assert [s[0]] + rest[0] + [sep] + Join(rest[1..], sep) == s;
        }
      }
    }
  }

  /** A string without the separator is a single piece. */
  lemma {:induction false} SplitNoSeparator(a: string, sep: char)
    requires sep !in a
    ensures Split(a, sep) == [a]
  {
    if a != [] {
      SplitNoSeparator(a[1..], sep);
      assert [a[0]] + a[1..] == a;
    }
  }

  /** A separator-free prefix followed by a separator is the first piece. */
  lemma {:induction false} SplitCons(a: string, sep: char, b: string)
    requires sep !in a
    ensures Split(a + [sep] + b, sep) == [a] + Split(b, sep)
  {
    if a == [] {
      assert a + [sep] + b == [sep] + b;
      assert ([sep] + b)[1..] == b;
    } else {
      var s := a + [sep] + b;
      assert s[1..] == a[1..] + [sep] + b;
      SplitCons(a[1..], sep, b);
      assert [a[0]] + a[1..] == a;
    }
  }

  /**
   * Splitting is the inverse of joining, for pieces that do not contain the
   * separator.
   */
  lemma {:induction false} SplitJoin(parts: seq<string>, sep: char)
    requires |parts| >= 1
    requires forall i :: 0 <= i < |parts| ==> sep !in parts[i]
    ensures Split(Join(parts, sep), sep) == parts
  {
    if |parts| == 1 {
      SplitNoSeparator(parts[0], sep);
    } else {
      SplitJoin(parts[1..], sep);
      SplitCons(parts[0], sep, Join(parts[1..], sep));
      assert [parts[0]] + parts[1..] == parts;
    }
  }

  /**
   * The first piece of `a + rest`, where `a` has no separator and `rest` is
   * empty or starts with one, is `a`.
   */
  lemma SplitFirstPiece(a: string, sep: char, rest: string)
    requires sep !in a
    requires rest == [] || rest[0] == sep
    ensures Split(a + rest, sep)[0] == a
  {
    if rest == [] {
      assert a + rest == a;
      SplitNoSeparator(a, sep);
    } else {
      assert a + rest == a + [sep] + rest[1..];
      SplitCons(a, sep, rest[1..]);
    }
  }

  /** Occurrences of `c` in a concatenation add up. */
  lemma {:induction false} CountAppend(a: string, b: string, c: char)
    ensures Count(a + b, c) == Count(a, c) + Count(b, c)
  {
    if a != [] {
      assert (a + b)[1..] == a[1..] + b;
      CountAppend(a[1..], b, c);
    } else {
      assert a + b == b;
    }
  }

  /** `pat` occurs in `s` starting at index `j`. */
  predicate OccursAt(s: string, pat: string, j: nat)
  {
    j + |pat| <= |s| && s[j..j + |pat|] == pat
  }

  /** `s.indexOf(pat, from)` for `from <= |s|`: the first occurrence at or after `from`, or -1. */
  function IndexOfFrom(s: string, pat: string, from: nat): (r: int)
    requires from <= |s|
    ensures r == -1 || (from <= r && OccursAt(s, pat, r))
    ensures r == -1 ==> forall j {:trigger OccursAt(s, pat, j)} :: from <= j <= |s| ==> !OccursAt(s, pat, j)
    ensures r >= 0 ==> forall j {:trigger OccursAt(s, pat, j)} :: from <= j < r ==> !OccursAt(s, pat, j)
    decreases |s| - from
  {
    if OccursAt(s, pat, from) then from
    else if from == |s| then -1
    else IndexOfFrom(s, pat, from + 1)
  }

  /** `s.indexOf(pat)`: the index of the first occurrence of `pat` in `s`, or -1. */
  function IndexOf(s: string, pat: string): (r: int)
    ensures r == -1 || (r >= 0 && OccursAt(s, pat, r))
    ensures r == -1 <==> forall j {:trigger OccursAt(s, pat, j)} :: 0 <= j <= |s| ==> !OccursAt(s, pat, j)
    ensures r >= 0 ==> forall j {:trigger OccursAt(s, pat, j)} :: 0 <= j < r ==> !OccursAt(s, pat, j)
  {
    IndexOfFrom(s, pat, 0)
  }

  /** A string that lacks the first character of `pat` has no occurrence of it. */
  lemma IndexOfMissingFirstChar(s: string, pat: string)
    requires |pat| > 0 && pat[0] !in s
    ensures IndexOf(s, pat) == -1
  {
  }

  /** Clamps an index to the length of `s`, as `slice` does. */
  function Clamp(s: string, i: nat): (k: nat)
  {
    if i <= |s| then i else |s|
  }

  /** `s.slice(start, end)` for non-negative bounds: indices past the end are clamped. */
  function Slice(s: string, start: nat, end: nat): (r: string)
    ensures |r| <= |s|
    ensures start + |r| <= |s| ==> r == s[start..start + |r|]
    ensures end <= |s| && start <= end ==> |r| == end - start
    ensures start <= |s| <= end ==> r == s[start..]
    ensures end <= start || |s| <= start ==> r == ""
  {
    var b, e := Clamp(s, start), Clamp(s, end);
    if b <= e then s[b..e] else ""
  }
}
