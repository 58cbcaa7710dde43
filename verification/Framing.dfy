/**
 Newline framing of a stream that arrives in chunks: each complete line is trimmed and, unless it is
 empty, handled once; the rest waits in a buffer.
 */
module Framing {
  import opened TextLines

  function FlatMap<A, B>(f: A -> seq<B>, s: seq<A>): seq<B> {
    if s == [] then [] else f(s[0]) + FlatMap(f, s[1..])
  }

  function CleanedOne(piece: string): seq<string> {
    if Trim(piece) == "" then [] else [Trim(piece)]
  }

  function Cleaned(pieces: seq<string>): seq<string> {
    FlatMap(CleanedOne, pieces)
  }

  /** The lines handled and the buffer left behind. */
  datatype Feed = Feed(lines: seq<string>, buf: string)

  function Receive(buf: string, chunk: string): Feed {
    Feed(Cleaned(Complete(buf + chunk, '\n')), Remainder(buf + chunk, '\n'))
  }

  function ReceiveAll(buf: string, chunks: seq<string>): Feed
    decreases |chunks|
  {
    if chunks == [] then Feed([], buf)
    else
      var first := Receive(buf, chunks[0]);
      var rest := ReceiveAll(first.buf, chunks[1..]);
      Feed(first.lines + rest.lines, rest.buf)
  }

  function Joined(chunks: seq<string>): string {
    if chunks == [] then [] else chunks[0] + Joined(chunks[1..])
  }

  lemma {:induction false} FlatMapConcat<A, B>(f: A -> seq<B>, a: seq<A>, b: seq<A>)
    ensures FlatMap(f, a + b) == FlatMap(f, a) + FlatMap(f, b)
  {
    if a == [] {
      assert a + b == b;
    } else {
      FlatMapConcat(f, a[1..], b);
      assert (a + b)[0] == a[0] && (a + b)[1..] == a[1..] + b;
    }
  }

  lemma CleanedConcat(a: seq<string>, b: seq<string>)
    ensures Cleaned(a + b) == Cleaned(a) + Cleaned(b)
  {
    FlatMapConcat(CleanedOne, a, b);
  }

  /** For every way of chunking a stream: the lines handled are exactly the trimmed, non-empty,
      newline-terminated lines of the whole, and the remainder is buffered. */
  lemma {:induction false} ChunkingDoesNotMatter(buf: string, chunks: seq<string>)
    requires '\n' !in buf
    ensures ReceiveAll(buf, chunks) == Receive(buf, Joined(chunks))
    decreases |chunks|
  {
    if chunks == [] {
      assert buf + [] == buf;
      SplitNone(buf, '\n');
    } else {
      var rest := Joined(chunks[1..]);
      RemainderHasNone(buf + chunks[0], '\n');
      ChunkingDoesNotMatter(Remainder(buf + chunks[0], '\n'), chunks[1..]);
      assert buf + Joined(chunks) == buf + chunks[0] + rest;
      SplitResumes(buf + chunks[0], rest, '\n');
      CleanedConcat(Complete(buf + chunks[0], '\n'), Complete(Remainder(buf + chunks[0], '\n') + rest, '\n'));
    }
  }

  /** Text made of these lines, each with its newline. */
  function TextOf(lines: seq<string>): string {
    if lines == [] then [] else lines[0] + ['\n'] + TextOf(lines[1..])
  }

  /** The lines that are more than white space, without the white space around them. */
  function Trimmed(lines: seq<string>): seq<string> {
    if lines == [] then []
    else Trimmed(lines[..|lines| - 1]) + if AllSpace(lines[|lines| - 1]) then [] else [Trim(lines[|lines| - 1])]
  }

  lemma {:induction false} CleanedIsTrimmed(lines: seq<string>)
    ensures Cleaned(lines) == Trimmed(lines)
  {
    if lines != [] {
      var init, last := lines[..|lines| - 1], lines[|lines| - 1];
      assert lines == init + [last] && [last][1..] == [];
      CleanedIsTrimmed(init);
      CleanedConcat(init, [last]);
      TrimEmptyIff(last);
      assert FlatMap(CleanedOne, [last]) == CleanedOne([last][0]) + FlatMap(CleanedOne, [last][1..]);
    }
  }

  lemma {:induction false} SplitsIntoLines(lines: seq<string>, rest: string)
    requires (forall l :: l in lines ==> '\n' !in l) && '\n' !in rest
    ensures Complete(TextOf(lines) + rest, '\n') == lines && Remainder(TextOf(lines) + rest, '\n') == rest
  {
    if lines == [] {
      assert [] + rest == rest;
      SplitNone(rest, '\n');
    } else {
      assert lines[0] in lines;
      SplitsIntoLines(lines[1..], rest);
      var after := TextOf(lines[1..]) + rest;
      assert TextOf(lines) + rest == lines[0] + ['\n'] + after;
      CompleteAfter(lines[0], '\n', after);
      SplitNone(lines[0], '\n');
    }
  }

  /** What is handled, for every text: a text is lines with their newlines and an unfinished rest, and however
      it is chunked, the lines that are more than white space are handled in order, trimmed, and the rest waits. */
  lemma HandlesTheLines(lines: seq<string>, rest: string, chunks: seq<string>)
    requires (forall l :: l in lines ==> '\n' !in l) && '\n' !in rest && Joined(chunks) == TextOf(lines) + rest
    ensures ReceiveAll("", chunks) == Feed(Trimmed(lines), rest)
  {
    ChunkingDoesNotMatter("", chunks);
    assert "" + Joined(chunks) == Joined(chunks);
    SplitsIntoLines(lines, rest);
    CleanedIsTrimmed(lines);
  }

  /** The first newline, if there is one. */
  function IndexOfNewline(s: string): (i: int)
    ensures i == -1 ==> '\n' !in s
    ensures i != -1 ==> 0 <= i < |s| && s[i] == '\n' && '\n' !in s[..i]
  {
    if s == [] then -1
    else if s[0] == '\n' then 0
    else
      var i := IndexOfNewline(s[1..]);
      assert s == [s[0]] + s[1..];
      assert i != -1 ==> s[..i + 1] == [s[0]] + s[1..][..i];
      if i == -1 then -1 else i + 1
  }

  /** One turn of the reading loop: the line before the newline, and what is left to split. */
  lemma NextLine(buf: string, nl: nat)
    requires nl < |buf| && buf[nl] == '\n' && '\n' !in buf[..nl]
    ensures Cleaned(Complete(buf, '\n')) == CleanedOne(buf[..nl]) + Cleaned(Complete(buf[nl + 1..], '\n'))
    ensures Remainder(buf, '\n') == Remainder(buf[nl + 1..], '\n')
  {
    SplitFirst(buf, '\n', nl);
    var pieces := [buf[..nl]] + Complete(buf[nl + 1..], '\n');
    assert pieces[1..] == Complete(buf[nl + 1..], '\n');
  }

  lemma NoMoreLines(buf: string)
    requires '\n' !in buf
    ensures Complete(buf, '\n') == [] && Remainder(buf, '\n') == buf
  {
    SplitNone(buf, '\n');
  }

  /** The lines handled so far, and everything in the buffer handled after them. */
  function Drained(lines: seq<string>, buf: string): Feed {
    Feed(lines + Cleaned(Complete(buf, '\n')), Remainder(buf, '\n'))
  }

  lemma DrainOne(lines: seq<string>, buf: string, nl: nat)
    requires nl < |buf| && buf[nl] == '\n' && '\n' !in buf[..nl]
    ensures var line := Trim(buf[..nl]);
            Drained(if line == "" then lines else lines + [line], buf[nl + 1..]) == Drained(lines, buf)
  {
    NextLine(buf, nl);
    assert lines + CleanedOne(buf[..nl]) == if Trim(buf[..nl]) == "" then lines else lines + [Trim(buf[..nl])];
  }

  /** The driver's reading side. */
  class LineReader {
    var buf: string
    var handled: seq<string>

    constructor ()
      ensures buf == "" && handled == []
    {
      buf, handled := "", [];
    }

    method PumpChunk(chunk: string)
      modifies this
      ensures Feed(handled, buf) == Feed(old(handled) + Receive(old(buf), chunk).lines, Receive(old(buf), chunk).buf)
    {
      buf := buf + chunk;
      ghost var whole := buf;
      var nl := IndexOfNewline(buf);
      while nl >= 0
        invariant nl == IndexOfNewline(buf)
        invariant Drained(handled, buf) == Drained(old(handled), whole)
        decreases |buf|
      {
        DrainOne(handled, buf, nl);
        var line := Trim(buf[..nl]);
        buf := buf[nl + 1..];
        if line != "" {
          handled := handled + [line];
        }
        nl := IndexOfNewline(buf);
      }
      NoMoreLines(buf);
    }
  }
}
