/** The string operations the codec relies on: endswith, split, split with maxsplit=1, join. */
module Text {
  import opened Values

  /** s.endswith(suffix) */
  predicate EndsWith(s: string, suffix: string) {
    |suffix| <= |s| && s[|s| - |suffix|..] == suffix
  }

  /** Position of the first c in s, or |s| when s has none. */
  function FirstIndex(s: string, c: char): (i: nat)
    ensures i <= |s|
    ensures i < |s| ==> s[i] == c
  {
    if |s| == 0 then 0
    else if s[0] == c then 0
    else 1 + FirstIndex(s[1..], c)
  }

  /** No c comes before the first one. */
  lemma {:induction false} FirstIndexFirst(s: string, c: char)
    ensures forall j :: 0 <= j < FirstIndex(s, c) ==> s[j] != c
  {
    if |s| > 0 && s[0] != c {
      FirstIndexFirst(s[1..], c);
      assert forall j :: 1 <= j < FirstIndex(s, c) ==> s[j] == s[1..][j - 1];
    }
  }

  /**
   * `head, tail = s.split(sep, maxsplit=1)`: the parts before and after the first
   * sep; None where the unpacking raises because s holds no sep.
   */
  function SplitOnce(s: string, sep: char): (r: Option<(string, string)>)
    ensures r.None? <==> sep !in s
    ensures r.Some? ==> s == r.value.0 + [sep] + r.value.1 && sep !in r.value.0
  {
    var i := FirstIndex(s, sep);
    FirstIndexFirst(s, sep);
    if i == |s| then None else Some((s[..i], s[i + 1..]))
  }

  /** Splitting a joined pair gives the pair back when the head holds no separator. */
  lemma SplitOnceOfJoin(head: string, tail: string, sep: char)
    requires sep !in head
    ensures SplitOnce(head + [sep] + tail, sep) == Some((head, tail))
  {
    var s := head + [sep] + tail;
    var i := FirstIndex(s, sep);
    FirstIndexFirst(s, sep);
    assert s[|head|] == sep;
    assert s[..i] == head;
    assert s[i + 1..] == tail;
  }

  /** s.split(sep) */
  function Split(s: string, sep: char): (parts: seq<string>)
    ensures |parts| >= 1
    decreases |s|
  {
    var i := FirstIndex(s, sep);
    if i == |s| then [s] else [s[..i]] + Split(s[i + 1..], sep)
  }

  /** The last piece of a split holds no separator. */
  lemma {:induction false} SplitLastFree(s: string, sep: char)
    ensures sep !in Split(s, sep)[|Split(s, sep)| - 1]
    decreases |s|
  {
    var i := FirstIndex(s, sep);
    if i < |s| {
      SplitLastFree(s[i + 1..], sep);
    } else {
      FirstIndexFirst(s, sep);
    }
  }

  /** sep.join(parts) */
  function Join(parts: seq<string>, sep: char): string {
    if |parts| == 0 then ""
    else if |parts| == 1 then parts[0]
    else parts[0] + [sep] + Join(parts[1..], sep)
  }

  /** Joining the pieces of a split gives the string back. */
  lemma {:induction false} JoinSplit(s: string, sep: char)
    ensures Join(Split(s, sep), sep) == s
    decreases |s|
  {
    var i := FirstIndex(s, sep);
    if i < |s| {
      var rest := Split(s[i + 1..], sep);
      JoinSplit(s[i + 1..], sep);
      assert Split(s, sep) == [s[..i]] + rest;
      assert ([s[..i]] + rest)[1..] == rest;
      assert Join(Split(s, sep), sep) == s[..i] + [sep] + Join(rest, sep);
      assert s == s[..i] + [sep] + s[i + 1..];
    }
  }

  /** The last piece of a join is split off by one more separator. */
  lemma {:induction false} JoinLast(parts: seq<string>, sep: char)
    requires |parts| >= 2
    ensures Join(parts, sep) == Join(parts[..|parts| - 1], sep) + [sep] + parts[|parts| - 1]
  {
    if |parts| > 2 {
      JoinLast(parts[1..], sep);
      assert parts[1..][..|parts| - 2] == parts[1..|parts| - 1];
      assert parts[..|parts| - 1][1..] == parts[1..|parts| - 1];
    }
  }

  /** The first c of s + rest is the first of s, or else the first of rest past s. */
  lemma {:induction false} FirstIndexAppend(s: string, rest: string, c: char)
    ensures FirstIndex(s + rest, c) == if FirstIndex(s, c) < |s| then FirstIndex(s, c) else |s| + FirstIndex(rest, c)
  {
    if |s| == 0 {
      assert s + rest == rest;
    } else if s[0] == c {
      assert (s + rest)[0] == c;
    } else {
      assert (s + rest)[0] == s[0] && (s + rest)[1..] == s[1..] + rest;
      FirstIndexAppend(s[1..], rest, c);
    }
  }

  /** Appending a separator and a separator-free piece appends one piece to the split. */
  lemma {:induction false} SplitAppend(s: string, last: string, sep: char)
    requires sep !in last
    ensures Split(s + [sep] + last, sep) == Split(s, sep) + [last]
    decreases |s|
  {
    var t := s + [sep] + last;
    var j := FirstIndex(s, sep);
    assert FirstIndex(t, sep) == if j < |s| then j else |s| by {
      FirstIndexAppend(s, [sep] + last, sep);
      assert t == s + ([sep] + last);
      assert FirstIndex([sep] + last, sep) == 0;
    }
    if j < |s| {
      var rest := Split(s[j + 1..], sep);
      assert Split(t, sep) == [s[..j]] + Split(s[j + 1..] + [sep] + last, sep) by {
        assert t[j + 1..] == s[j + 1..] + [sep] + last;
        assert t[..j] == s[..j];
      }
      SplitAppend(s[j + 1..], last, sep);
      assert [s[..j]] + (rest + [last]) == ([s[..j]] + rest) + [last];
    } else {
      assert Split(last, sep) == [last] by {
        assert FirstIndex(last, sep) == |last|;
      }
      assert Split(t, sep) == [s] + Split(last, sep) by {
        assert t[..|s|] == s;
        assert t[|s| + 1..] == last;
      }
    }
  }
}
