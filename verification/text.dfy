/** The string primitives the session relies on: Python's `str.split(sep)`
    with an explicit separator, its inverse `sep.join(parts)`, and the
    slice `s[:-1]`. Strings are sequences of ASCII characters. */
module Text {
  import opened Wrappers

  /** `sep` occurs in `s` starting at index `i`. */
  predicate OccursAt(s: string, sep: string, i: int)
  {
    0 <= i && i + |sep| <= |s| && s[i..i + |sep|] == sep
  }

  /** `sep` occurs somewhere in `s` (Python's `sep in s`). */
  predicate Contains(s: string, sep: string)
  {
    exists i :: 0 <= i <= |s| && OccursAt(s, sep, i)
  }

  /** The leftmost occurrence of `sep` in `s` at or after `from`. */
  function FindFrom(s: string, sep: string, from: nat): (r: Option<nat>)
    ensures r.Some? ==> from <= r.value && OccursAt(s, sep, r.value)
    ensures r.Some? ==> forall j :: from <= j < r.value ==> !OccursAt(s, sep, j)
    ensures r.None? ==> forall j :: from <= j ==> !OccursAt(s, sep, j)
    decreases |s| - from
  {
    if from + |sep| > |s| then None
    else if s[from..from + |sep|] == sep then Some(from)
    else FindFrom(s, sep, from + 1)
  }

  /** Python's `s.find(sep)`, as an option. */
  function Find(s: string, sep: string): (r: Option<nat>)
    ensures r.Some? ==> OccursAt(s, sep, r.value)
    ensures r.Some? ==> forall j :: 0 <= j < r.value ==> !OccursAt(s, sep, j)
    ensures r.None? <==> !Contains(s, sep)
  {
    FindFrom(s, sep, 0)
  }

  /** Python's `s.split(sep)` for a non-empty separator: cut at every
      occurrence found scanning left to right, an occurrence never
      overlapping the one before it. */
  function Split(s: string, sep: string): (parts: seq<string>)
    requires |sep| > 0
    ensures |parts| >= 1
    decreases |s|
  {
    match Find(s, sep)
    case None => [s]
    case Some(i) => [s[..i]] + Split(s[i + |sep|..], sep)
  }

  /** The text before the leftmost occurrence of `sep`, or all of `s`
      when there is none. */
  function FirstField(s: string, sep: string): string
  {
    match Find(s, sep)
    case None => s
    case Some(i) => s[..i]
  }

  /** `split` cuts at the leftmost occurrence: its first field ends where
      `sep` first occurs, and the remaining fields are the split of what
      follows that occurrence. */
  lemma SplitFirstField(s: string, sep: string)
    requires |sep| > 0
    ensures Split(s, sep)[0] == FirstField(s, sep)
    ensures !Contains(s, sep) <==> Split(s, sep) == [s]
    ensures Contains(s, sep) ==>
      && Find(s, sep).Some?
      && |Split(s, sep)| >= 2
      && Split(s, sep)[1..] == Split(s[Find(s, sep).value + |sep|..], sep)
  {
    match Find(s, sep)
    case None =>
    case Some(i) =>
      assert |Split(s, sep)| >= 2;
  }

  /** When `sep` occurs, the first two fields are the text before its
      leftmost occurrence and the first field of what follows it. */
  lemma SplitTwoFields(s: string, sep: string)
    requires |sep| > 0 && Find(s, sep).Some?
    ensures |Split(s, sep)| >= 2
    ensures Split(s, sep)[0] == s[..Find(s, sep).value]
    ensures Split(s, sep)[1] == FirstField(s[Find(s, sep).value + |sep|..], sep)
  {
    match Find(s, sep)
    case Some(i) =>
      var rest := s[i + |sep|..];
      match Find(rest, sep)
      case None =>
      case Some(k) =>
  }

  /** Python's `sep.join(parts)`. */
  function Join(parts: seq<string>, sep: string): string
  {
    if |parts| == 0 then ""
    else if |parts| == 1 then parts[0]
    else parts[0] + sep + Join(parts[1..], sep)
  }

  /** Python's slice `s[:-1]`: everything but the last character, and the
      empty string stays empty. */
  function DropLast(s: string): (r: string)
    ensures |s| > 0 ==> |r| == |s| - 1 && s == r + [s[|s| - 1]]
    ensures |s| == 0 ==> r == ""
  {
    if |s| == 0 then "" else s[..|s| - 1]
  }

  /** Splitting and joining back with the same separator loses nothing. */
  lemma {:induction false} JoinSplit(s: string, sep: string)
    requires |sep| > 0
    ensures Join(Split(s, sep), sep) == s
    decreases |s|
  {
    match Find(s, sep)
    case None =>
    case Some(i) =>
      var rest := s[i + |sep|..];
      var tail := Split(rest, sep);
      JoinSplit(rest, sep);
      assert Split(s, sep) == [s[..i]] + tail;
      assert ([s[..i]] + tail)[1..] == tail;
      assert Join(Split(s, sep), sep) == s[..i] + sep + rest;
      assert s == s[..i] + s[i..i + |sep|] + s[i + |sep|..];
  }

  /** No field Python's split returns contains the separator. */
  lemma {:induction false} SplitFieldsFree(s: string, sep: string)
    requires |sep| > 0
    ensures forall k :: 0 <= k < |Split(s, sep)| ==> !Contains(Split(s, sep)[k], sep)
    decreases |s|
  {
    match Find(s, sep)
    case None =>
    case Some(i) =>
      var rest := s[i + |sep|..];
      var tail := Split(rest, sep);
      SplitFieldsFree(rest, sep);
      PrefixBeforeFirstIsFree(s, sep, i);
      var parts := Split(s, sep);
      assert parts == [s[..i]] + tail;
      forall k | 0 <= k < |parts|
        ensures !Contains(parts[k], sep)
      {
        if k == 0 {
          assert parts[0] == s[..i];
        } else {
          assert parts[k] == tail[k - 1];
        }
      }
  }

  /** The text before the leftmost occurrence contains no occurrence. */
  lemma PrefixBeforeFirstIsFree(s: string, sep: string, i: nat)
    requires |sep| > 0 && i <= |s|
    requires forall j :: 0 <= j < i ==> !OccursAt(s, sep, j)
    ensures !Contains(s[..i], sep)
  {
    forall j | 0 <= j <= i
      ensures !OccursAt(s[..i], sep, j)
    {
      if j + |sep| <= i {
        assert j < i;
        assert !OccursAt(s, sep, j);
        assert s[..i][j..j + |sep|] == s[j..j + |sep|];
      }
    }
  }

  /** When the first character of `sep` never appears in `a`, the leftmost
      occurrence of `sep` in `a + sep + b` is the one right after `a`. */
  lemma FindAfterFreePrefix(a: string, sep: string, b: string)
    requires |sep| > 0
    requires forall k :: 0 <= k < |a| ==> a[k] != sep[0]
    ensures Find(a + sep + b, sep) == Some(|a|)
  {
    var s := a + sep + b;
    assert OccursAt(s, sep, |a|) by {
      assert s[|a|..|a| + |sep|] == sep;
    }
    forall j | 0 <= j < |a|
      ensures !OccursAt(s, sep, j)
    {
      assert s[j] == a[j];
    }
  }

  /** One cut of the split: a field free of the separator's first
      character, then the separator, then the rest. */
  lemma SplitAfterFreePrefix(a: string, sep: string, b: string)
    requires |sep| > 0
    requires forall k :: 0 <= k < |a| ==> a[k] != sep[0]
    ensures Split(a + sep + b, sep) == [a] + Split(b, sep)
  {
    var s := a + sep + b;
    FindAfterFreePrefix(a, sep, b);
    assert s[..|a|] == a;
    assert s[|a| + |sep|..] == b;
  }

  /** A text without the separator is one field. */
  lemma SplitWithoutSeparator(s: string, sep: string)
    requires |sep| > 0
    requires !Contains(s, sep)
    ensures Split(s, sep) == [s]
  {
  }

  /** Join and split with a one-character separator are inverse as long as
      no field contains that character: the field boundaries are exactly
      the separator positions. */
  lemma {:induction false} SplitJoin(parts: seq<string>, c: char)
    requires |parts| > 0
    requires forall i, k :: 0 <= i < |parts| && 0 <= k < |parts[i]| ==> parts[i][k] != c
    ensures Split(Join(parts, [c]), [c]) == parts
    decreases |parts|
  {
    if |parts| == 1 {
      var p := parts[0];
      assert !Contains(p, [c]) by {
        forall j | 0 <= j <= |p|
          ensures !OccursAt(p, [c], j)
        {
          if j + 1 <= |p| {
            assert p[j..j + 1][0] == p[j];
          }
        }
      }
      SplitWithoutSeparator(p, [c]);
    } else {
      var rest := Join(parts[1..], [c]);
      assert Join(parts, [c]) == parts[0] + [c] + rest;
      SplitJoin(parts[1..], c);
      SplitAfterFreePrefix(parts[0], [c], rest);
      assert parts == [parts[0]] + parts[1..];
    }
  }

  /** Number of occurrences of character `c` in `s`. */
  function CountChar(s: string, c: char): nat
  {
    if |s| == 0 then 0 else (if s[0] == c then 1 else 0) + CountChar(s[1..], c)
  }

  lemma {:induction false} CountCharAppend(a: string, b: string, c: char)
    ensures CountChar(a + b, c) == CountChar(a, c) + CountChar(b, c)
    decreases |a|
  {
    if |a| == 0 {
      assert a + b == b;
    } else {
      CountCharAppend(a[1..], b, c);
      assert (a + b)[1..] == a[1..] + b;
    }
  }

  lemma {:induction false} CountCharAbsent(s: string, c: char)
    requires !Contains(s, [c])
    ensures CountChar(s, c) == 0
    decreases |s|
  {
    if |s| > 0 {
      assert s[0] != c by {
        assert s[0..1] == [s[0]];
        assert !OccursAt(s, [c], 0);
      }
      forall j | 0 <= j <= |s[1..]|
        ensures !OccursAt(s[1..], [c], j)
      {
        if OccursAt(s[1..], [c], j) {
          assert s[1..][j..j + 1] == s[j + 1..j + 2];
          assert OccursAt(s, [c], j + 1);
        }
      }
      CountCharAbsent(s[1..], c);
    }
  }

  /** Splitting on one character yields one more field than there are
      occurrences of that character. */
  lemma {:induction false} SplitCount(s: string, c: char)
    ensures |Split(s, [c])| == CountChar(s, c) + 1
    decreases |s|
  {
    match Find(s, [c])
    case None =>
      CountCharAbsent(s, c);
    case Some(i) =>
      var rest := s[i + 1..];
      SplitCount(rest, c);
      PrefixBeforeFirstIsFree(s, [c], i);
      CountCharAbsent(s[..i], c);
      assert s[i..i + 1] == [c];
      assert s == s[..i] + [c] + rest;
      CountCharAppend(s[..i] + [c], rest, c);
      CountCharAppend(s[..i], [c], c);
  }

  /** Joining can be done in two halves. */
  lemma {:induction false} JoinAt(parts: seq<string>, k: nat, sep: string)
    requires 0 < k < |parts|
    ensures Join(parts, sep) == Join(parts[..k], sep) + sep + Join(parts[k..], sep)
    decreases k
  {
    if k > 1 {
      JoinAt(parts[1..], k - 1, sep);
      assert parts[1..][..k - 1] == parts[..k][1..];
      assert parts[1..][k - 1..] == parts[k..];
    }
  }
}
