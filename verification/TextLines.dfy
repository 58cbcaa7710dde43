/**
 Splitting text at a separator, all at once or as it arrives in chunks, and trimming.
 */
module TextLines {
  import opened Wrappers

  /** The pieces between separators; text with no separator is one piece. */
  function Split<T(==)>(s: seq<T>, sep: T): (r: seq<seq<T>>)
    ensures |r| >= 1
  {
    if s == [] then [[]]
    else
      var rest := Split(s[1..], sep);
      if s[0] == sep then [[]] + rest else [[s[0]] + rest[0]] + rest[1..]
  }

  lemma {:induction false} SplitConcat<T>(a: seq<T>, sep: T, b: seq<T>)
    ensures Split(a + [sep] + b, sep) == Split(a, sep) + Split(b, sep)
  {
    var s := a + [sep] + b;
    if a == [] {
      assert s[0] == sep && s[1..] == b;
    } else {
      SplitConcat(a[1..], sep, b);
      assert s[0] == a[0] && s[1..] == a[1..] + [sep] + b;
      SplitStep(s, sep, Split(a[1..], sep), Split(b, sep));
    }
  }

  lemma SplitStep<T>(s: seq<T>, sep: T, first: seq<seq<T>>, second: seq<seq<T>>)
    requires s != [] && |first| >= 1 && Split(s[1..], sep) == first + second
    ensures Split(s, sep) == (if s[0] == sep then [[]] + first else [[s[0]] + first[0]] + first[1..]) + second
  {
    if s[0] == sep {
      Regroup([[]], first, second);
    } else {
      assert (first + second)[0] == first[0] && (first + second)[1..] == first[1..] + second;
      Regroup([[s[0]] + first[0]], first[1..], second);
    }
  }

  lemma {:induction false} SplitNone<T>(s: seq<T>, sep: T)
    requires sep !in s
    ensures Split(s, sep) == [s]
  {
    if s != [] {
      SplitNone(s[1..], sep);
      assert [s[0]] + s[1..] == s;
    }
  }

  /** The pieces that a separator closes. */
  function Complete<T(==)>(s: seq<T>, sep: T): seq<seq<T>> {
    var r := Split(s, sep);
    r[..|r| - 1]
  }

  /** What follows the last separator. */
  function Remainder<T(==)>(s: seq<T>, sep: T): seq<T> {
    var r := Split(s, sep);
    r[|r| - 1]
  }

  lemma CompleteAfter<T>(head: seq<T>, sep: T, tail: seq<T>)
    ensures Complete(head + [sep] + tail, sep) == Split(head, sep) + Complete(tail, sep)
    ensures Remainder(head + [sep] + tail, sep) == Remainder(tail, sep)
  {
    SplitConcat(head, sep, tail);
  }

  /** Text that arrives in two parts splits like the whole: the first part's remainder is carried over. */
  lemma {:induction false} SplitResumes<T>(a: seq<T>, b: seq<T>, sep: T)
    ensures Complete(a + b, sep) == Complete(a, sep) + Complete(Remainder(a, sep) + b, sep)
    ensures Remainder(a + b, sep) == Remainder(Remainder(a, sep) + b, sep)
    decreases |a|
  {
    if sep in a {
      var i :| 0 <= i < |a| && a[i] == sep;
      var head, tail := a[..i], a[i + 1..];
      SplitResumes(tail, b, sep);
      CompleteAfter(head, sep, tail);
      CompleteAfter(head, sep, tail + b);
      assert a == head + [sep] + tail && a + b == head + [sep] + (tail + b);
      Regroup(Split(head, sep), Complete(tail, sep), Complete(Remainder(tail, sep) + b, sep));
    } else {
      SplitNone(a, sep);
    }
  }

  lemma {:induction false} RemainderHasNone<T>(s: seq<T>, sep: T)
    ensures sep !in Remainder(s, sep)
    decreases |s|
  {
    if sep in s {
      var i :| 0 <= i < |s| && s[i] == sep;
      assert s == s[..i] + [sep] + s[i + 1..];
      CompleteAfter(s[..i], sep, s[i + 1..]);
      RemainderHasNone(s[i + 1..], sep);
    } else {
      SplitNone(s, sep);
    }
  }

  /** Cutting at the first separator. */
  lemma SplitFirst<T>(s: seq<T>, sep: T, i: nat)
    requires i < |s| && s[i] == sep && sep !in s[..i]
    ensures Complete(s, sep) == [s[..i]] + Complete(s[i + 1..], sep)
    ensures Remainder(s, sep) == Remainder(s[i + 1..], sep)
  {
    assert s == s[..i] + [sep] + s[i + 1..];
    CompleteAfter(s[..i], sep, s[i + 1..]);
    SplitNone(s[..i], sep);
  }

  // ---------------------------------------------------------------------------------------------
  // White space

  predicate IsSpace(c: char) {
    '\t' <= c <= '\r' || c == ' ' || c == '\U{a0}' || c == '\U{1680}' || '\U{2000}' <= c <= '\U{200a}'
    || c == '\U{2028}' || c == '\U{2029}' || c == '\U{202f}' || c == '\U{205f}' || c == '\U{3000}' || c == '\U{feff}'
  }

  function Trim(s: string): string {
    if s == [] then []
    else if IsSpace(s[0]) then Trim(s[1..])
    else if IsSpace(s[|s| - 1]) then Trim(s[..|s| - 1])
    else s
  }

  predicate AllSpace(s: string) {
    forall c :: c in s ==> IsSpace(c)
  }

  /** Trimming takes off white space at both ends and nothing else. */
  lemma {:induction false} TrimIs(s: string) returns (before: string, after: string)
    ensures s == before + Trim(s) + after && AllSpace(before) && AllSpace(after)
    ensures Trim(s) != "" ==> !IsSpace(Trim(s)[0]) && !IsSpace(Trim(s)[|Trim(s)| - 1])
    decreases |s|
  {
    before, after := "", "";
    if s == [] {
    } else if IsSpace(s[0]) {
      before, after := TrimIs(s[1..]);
      assert s == [s[0]] + (before + Trim(s) + after);
      before := [s[0]] + before;
    } else if IsSpace(s[|s| - 1]) {
      before, after := TrimIs(s[..|s| - 1]);
      assert s == (before + Trim(s) + after) + [s[|s| - 1]];
      after := after + [s[|s| - 1]];
    }
  }

  /** So a text of white space alone is trimmed to nothing, and any other text is not. */
  lemma TrimEmptyIff(s: string)
    ensures Trim(s) == "" <==> AllSpace(s)
  {
    var before, after := TrimIs(s);
    if Trim(s) != "" {
      assert Trim(s)[0] in s;
    }
  }
}
