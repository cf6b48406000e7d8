/**
 Python's `str.split(sep)` for a one-character separator, which the script
 uses to take a URL apart, together with its inverse `sep.join(parts)`.
 */
module Strings {

  /** `s.split(sep)`: the maximal runs of `s` between separators, in order.
      There is always at least one piece, and the pieces may be empty. */
  function Split(s: string, sep: char): (parts: seq<string>)
    ensures |parts| >= 1
    ensures forall i :: 0 <= i < |parts| ==> sep !in parts[i]
    decreases |s|
  {
    if |s| == 0 then [""]
    else if s[0] == sep then [""] + Split(s[1..], sep)
    else
      var rest := Split(s[1..], sep);
      [[s[0]] + rest[0]] + rest[1..]
  }

  /** `sep.join(parts)` */
  function JoinWith(parts: seq<string>, sep: char): string
    requires |parts| >= 1
    decreases |parts|
  {
    if |parts| == 1 then parts[0] else parts[0] + [sep] + JoinWith(parts[1..], sep)
  }

  /** `s.split(sep)[-1]`: the text after the last separator, or all of `s`. */
  function AfterLast(s: string, sep: char): string
  {
    var parts := Split(s, sep);
    parts[|parts| - 1]
  }

  /** `s.split(sep)[0]`: the text before the first separator, or all of `s`. */
  function BeforeFirst(s: string, sep: char): string
  {
    Split(s, sep)[0]
  }

  /** Joining the pieces back with the separator restores the string. */
  lemma {:induction false} JoinSplit(s: string, sep: char)
    ensures JoinWith(Split(s, sep), sep) == s
    decreases |s|
  {
    if |s| == 0 {
    } else if s[0] == sep {
      JoinSplit(s[1..], sep);
      assert s == [sep] + s[1..];
    } else {
      var rest := Split(s[1..], sep);
      JoinSplit(s[1..], sep);
      if |rest| == 1 {
        assert s == [s[0]] + s[1..];
      } else {
        var parts := Split(s, sep);
        assert parts[1..] == rest[1..];
        assert JoinWith(rest, sep) == rest[0] + [sep] + JoinWith(rest[1..], sep);
        assert s == [s[0]] + s[1..];
      }
    }
  }

  /** A string without the separator is a single piece. */
  lemma {:induction false} SplitNoSep(s: string, sep: char)
    requires sep !in s
    ensures Split(s, sep) == [s]
    decreases |s|
  {
    if |s| > 0 {
      SplitNoSep(s[1..], sep);
      assert s == [s[0]] + s[1..];
    }
  }

  /** Splitting at one occurrence of the separator splits the two sides apart. */
  lemma {:induction false} SplitAt(x: string, sep: char, y: string)
    ensures Split(x + [sep] + y, sep) == Split(x, sep) + Split(y, sep)
    decreases |x|
  {
    var s := x + [sep] + y;
    if |x| == 0 {
      assert s == [sep] + y;
      assert s[1..] == y;
    } else {
      var t := x[1..] + [sep] + y;
      assert s == [x[0]] + t;
      assert s[0] == x[0] && s[1..] == t;
      SplitAt(x[1..], sep, y);
      var left := Split(x[1..], sep);
      var right := Split(y, sep);
      assert Split(t, sep) == left + right;
      if x[0] == sep {
        assert Split(s, sep) == [""] + (left + right);
        assert Split(x, sep) == [""] + left;
      } else {
        assert (left + right)[0] == left[0];
        assert (left + right)[1..] == left[1..] + right;
        assert Split(s, sep) == [[x[0]] + left[0]] + (left[1..] + right);
        assert Split(x, sep) == [[x[0]] + left[0]] + left[1..];
      }
    }
  }

  /** Splitting a join of separator-free pieces gives the pieces back. */
  lemma {:induction false} SplitJoin(parts: seq<string>, sep: char)
    requires |parts| >= 1
    requires forall i :: 0 <= i < |parts| ==> sep !in parts[i]
    ensures Split(JoinWith(parts, sep), sep) == parts
    decreases |parts|
  {
    SplitNoSep(parts[0], sep);
    if |parts| > 1 {
      SplitJoin(parts[1..], sep);
      SplitAt(parts[0], sep, JoinWith(parts[1..], sep));
      assert parts == [parts[0]] + parts[1..];
    }
  }

  /** The text after the last separator is the separator-free tail. */
  lemma AfterLastIs(prefix: string, sep: char, tail: string)
    requires sep !in tail
    ensures AfterLast(prefix + [sep] + tail, sep) == tail
  {
    SplitAt(prefix, sep, tail);
    SplitNoSep(tail, sep);
  }

  /** The text before the first separator is the separator-free head. */
  lemma BeforeFirstIs(head: string, sep: char, rest: string)
    requires sep !in head
    ensures BeforeFirst(head + [sep] + rest, sep) == head
  {
    SplitAt(head, sep, rest);
    SplitNoSep(head, sep);
  }

  /** Without any separator both ends are the whole string. */
  lemma NoSepWhole(s: string, sep: char)
    requires sep !in s
    ensures AfterLast(s, sep) == s
    ensures BeforeFirst(s, sep) == s
  {
    SplitNoSep(s, sep);
  }

  /** The text before the first separator starts the string. */
  lemma BeforeFirstIsPrefix(s: string, sep: char)
    ensures BeforeFirst(s, sep) <= s
  {
    JoinSplit(s, sep);
    var parts := Split(s, sep);
    if |parts| > 1 {
      assert s == parts[0] + ([sep] + JoinWith(parts[1..], sep));
    }
  }
}
