/**
 Which paths a git diff touches, read from its text: the header split, the per-block scan that stops at
 the first hunk, and the whole-patch reader.
 */
module DiffPaths {
  import opened Wrappers
  import opened GitQuoting
  import opened TextLines

  const HEADER: string := "diff --git "
  const DEV_NULL: string := "/dev/null"
  const BINARY: string := "GIT binary patch"

  predicate Starts(s: string, p: string) {
    |p| <= |s| && s[..|p|] == p
  }

  /** The characters a regular-expression dot does not match. */
  predicate Terminator(c: char) {
    c == '\n' || c == '\r' || c == '\U{2028}' || c == '\U{2029}'
  }

  predicate Separators(p: string) {
    '\U{2028}' in p || '\U{2029}' in p
  }

  // ---------------------------------------------------------------------------------------------
  // The header line

  predicate SplitsAt(body: string, idx: nat) {
    idx + 3 <= |body| && body[idx..idx + 3] == " b/"
  }

  /** The first split point at or after `from`. */
  function NextSplit(body: string, from: nat): (r: Option<nat>)
    ensures r.Some? ==> from <= r.value && SplitsAt(body, r.value)
    ensures r.Some? ==> forall i: nat :: from <= i < r.value ==> !SplitsAt(body, i)
    ensures r.None? ==> forall i: nat :: from <= i ==> !SplitsAt(body, i)
    decreases |body| - from
  {
    if from >= |body| then None
    else if SplitsAt(body, from) then Some(from)
    else NextSplit(body, from + 1)
  }

  predicate Agrees(body: string, idx: nat) {
    SplitsAt(body, idx) && body[..idx] == body[idx + 3..]
  }

  function Halves(body: string, idx: nat): (string, string)
    requires SplitsAt(body, idx)
  {
    (body[..idx], body[idx + 3..])
  }

  /** The search has passed every split point before `done`. */
  ghost predicate Searched(body: string, done: nat, idx: Option<nat>, fallback: Option<(string, string)>) {
    && idx == NextSplit(body, done)
    && (forall i: nat :: i < done ==> !Agrees(body, i))
    && (done == 0 ==> fallback.None?)
    && (done > 0 ==> NextSplit(body, 0).Some? && fallback == Some(Halves(body, NextSplit(body, 0).value)))
  }

  lemma SearchOn(body: string, done: nat, i: nat, fallback: Option<(string, string)>)
    requires Searched(body, done, Some(i), fallback) && !Agrees(body, i)
    ensures Searched(body, i + 1, NextSplit(body, i + 1), if fallback.None? then Some(Halves(body, i)) else fallback)
  {
  }

  lemma SearchEnds(body: string, done: nat, fallback: Option<(string, string)>)
    requires Searched(body, done, None, fallback)
    ensures forall i: nat :: !Agrees(body, i)
    ensures fallback.None? <==> forall i: nat :: !SplitsAt(body, i)
    ensures fallback.Some? ==> NextSplit(body, 0).Some? && fallback.value == Halves(body, NextSplit(body, 0).value)
  {
    if fallback.Some? {
      assert SplitsAt(body, NextSplit(body, 0).value);
    }
  }

  /** Tries every split point and takes the one where both halves agree; the first one if none does. */
  method SplitPlainHeader(body: string) returns (r: Option<(string, string)>)
    ensures r.None? <==> forall i: nat :: !SplitsAt(body, i)
    ensures forall i: nat :: Agrees(body, i) ==> r == Some(Halves(body, i))
    ensures (forall i: nat :: !Agrees(body, i)) && r.Some? ==> NextSplit(body, 0).Some? && r.value == Halves(body, NextSplit(body, 0).value)
  {
    var idx := NextSplit(body, 0);
    var fallback: Option<(string, string)> := None;
    ghost var done: nat := 0;
    while idx.Some?
      invariant Searched(body, done, idx, fallback)
      decreases |body| - done, if idx.Some? then 1 else 0
    {
      var i := idx.value;
      var left, right := body[..i], body[i + 3..];
      ghost var before := fallback;
      if fallback.None? {
        fallback := Some((left, right));
      }
      if left == right {
        assert Agrees(body, i);
        AgreesOnce(body, i);
        return Some((left, right));
      }
      SearchOn(body, done, i, before);
      done := i + 1;
      idx := NextSplit(body, i + 1);
    }
    SearchEnds(body, done, fallback);
    return fallback;
  }

  /** Equal halves fix the split point at the middle. */
  lemma AgreesOnce(body: string, i: nat)
    requires Agrees(body, i)
    ensures 2 * i + 3 == |body|
    ensures forall j: nat :: Agrees(body, j) ==> j == i
  {
    assert |body[..i]| == |body[i + 3..]|;
    forall j: nat | Agrees(body, j)
      ensures j == i
    {
      assert |body[..j]| == |body[j + 3..]|;
    }
  }

  /** The halves of `a/X b/X` for every X, whatever X contains. */
  lemma SameNameSplits(x: string)
    ensures Agrees(x + " b/" + x, |x|) && Halves(x + " b/" + x, |x|) == (x, x)
  {
    var body := x + " b/" + x;
    assert body[|x|..|x| + 3] == " b/" && body[..|x|] == x && body[|x| + 3..] == x;
  }

  /** The header split as a function: the agreeing halves, else the first split. */
  function PlainHalves(body: string): Option<(string, string)> {
    if |body| >= 3 && Agrees(body, (|body| - 3) / 2) then Some(Halves(body, (|body| - 3) / 2))
    else
      var first := NextSplit(body, 0);
      if first.Some? then Some(Halves(body, first.value)) else None
  }

  lemma PlainHalvesAgree(body: string, i: nat)
    requires Agrees(body, i)
    ensures PlainHalves(body) == Some(Halves(body, i))
  {
    AgreesOnce(body, i);
  }

  datatype Token = Close | Broken | Skip(n: nat)

  /** The head of a quoted token: its closing quote, an escape pair, or one character. */
  function NextToken(s: string): (r: Token)
    requires s != []
    ensures r.Skip? ==> 1 <= r.n <= |s|
    ensures r.Close? ==> s[0] == '"'
  {
    if s[0] == '"' then Close
    else if s[0] != '\\' then Skip(1)
    else if |s| >= 2 && !Terminator(s[1]) then Skip(2)
    else Broken
  }

  /** Length of a quoted token's content and closing quote. */
  function TokenLength(s: string): (r: Option<nat>)
    ensures r.Some? ==> 1 <= r.value <= |s|
    decreases |s|
  {
    if s == [] then None
    else
      match NextToken(s)
      case Close => Some(1)
      case Broken => None
      case Skip(n) => Plus(n, TokenLength(s[n..]))
  }

  function Plus(n: nat, r: Option<nat>): Option<nat> {
    if r.Some? then Some(n + r.value) else None
  }

  function Strip(p: PathBytes, side: char): PathBytes
    requires side as int < 0x80
  {
    if |p| >= 2 && p[0] as int == side as int && p[1] == 0x2f then p[2..] else p
  }

  /** One path field, without its side prefix; `None` for the absent side of an add or a delete. */
  function DiffField(field: string, side: char): Option<PathBytes>
    requires side as int < 0x80
  {
    if field == DEV_NULL then None else Some(Strip(Unquote(field), side))
  }

  /** Two quoted tokens with one white-space character between them and nothing after; `length` measures
      a token from behind its opening quote. */
  function SplitTokens(length: string -> Option<nat>, rest: string): Option<(string, string)>
    requires rest != []
  {
    var first := length(rest[1..]);
    if first.None? || first.value >= |rest| - 1 then None
    else
      var e := 1 + first.value;
      if !(e + 1 < |rest| && IsSpace(rest[e]) && rest[e + 1] == '"') then None
      else if length(rest[e + 2..]) != Some(|rest| - e - 2) then None
      else Some((rest[..e], rest[e + 1..]))
  }

  function SplitQuotedHeader(rest: string): Option<(PathBytes, PathBytes)>
    requires rest != []
  {
    var t := SplitTokens(TokenLength, rest);
    if t.None? then None else Some((Strip(Unquote(t.value.0), 'a'), Strip(Unquote(t.value.1), 'b')))
  }

  function SplitDiffGitHeader(rest: string): Option<(PathBytes, PathBytes)> {
    if Starts(rest, "\"") then SplitQuotedHeader(rest)
    else if !Starts(rest, "a/") then None
    else
      var h := PlainHalves(rest[2..]);
      if h.Some? then Some((Utf8(h.value.0), Utf8(h.value.1))) else None
  }

  method SplitHeader(rest: string) returns (r: Option<(PathBytes, PathBytes)>)
    ensures r == SplitDiffGitHeader(rest)
  {
    if Starts(rest, "\"") {
      return SplitQuotedHeader(rest);
    }
    if !Starts(rest, "a/") {
      return None;
    }
    var body := rest[2..];
    var h := SplitPlainHeader(body);
    if h.None? {
      return None;
    }
    if i: nat :| Agrees(body, i) {
      PlainHalvesAgree(body, i);
    }
    return Some((Utf8(h.value.0), Utf8(h.value.1)));
  }

  // ---------------------------------------------------------------------------------------------
  // The lines of one block

  function UpToTab(s: string): string {
    if s == [] || s[0] == '\t' then [] else [s[0]] + UpToTab(s[1..])
  }

  predicate HasTerminator(s: string) {
    exists c :: c in s && Terminator(c)
  }

  /** The reluctant field of a `---`/`+++` line: up to the first tab after its first character. */
  function LineField(rest: string): Option<string> {
    if rest == [] || HasTerminator(rest) then None else Some([rest[0]] + UpToTab(rest[1..]))
  }

  function WholeField(rest: string): Option<string> {
    if rest == [] || HasTerminator(rest) then None else Some(rest)
  }

  /** Whether a line names a path, and the path. */
  function LinePath(l: string): (bool, Option<PathBytes>) {
    if Starts(l, "--- ") && LineField(l[4..]).Some? then (true, DiffField(LineField(l[4..]).value, 'a'))
    else if Starts(l, "+++ ") && LineField(l[4..]).Some? then (true, DiffField(LineField(l[4..]).value, 'b'))
    else if Starts(l, "rename from ") && WholeField(l[12..]).Some? then (true, Some(Unquote(WholeField(l[12..]).value)))
    else if Starts(l, "rename to ") && WholeField(l[10..]).Some? then (true, Some(Unquote(WholeField(l[10..]).value)))
    else (false, None)
  }

  /** The block's path lines are over: its first hunk, its binary body, or the next block. */
  predicate Stops(l: string) {
    Starts(l, HEADER) || Starts(l, "@@ ") || l == BINARY
  }

  function SetOf<T>(o: Option<T>): set<T> {
    if o.Some? then {o.value} else {}
  }

  /** What the lines up to the stop name, and whether any of them is a path line. */
  function Scan(lines: seq<string>): (set<PathBytes>, bool) {
    if lines == [] || Stops(lines[0]) then ({}, false)
    else
      var rest := Scan(lines[1..]);
      (SetOf(LinePath(lines[0]).1) + rest.0, LinePath(lines[0]).0 || rest.1)
  }

  function HeaderPaths(header: string): set<PathBytes>
    requires Starts(header, HEADER)
  {
    var s := SplitDiffGitHeader(header[|HEADER|..]);
    if s.Some? then {s.value.0, s.value.1} else {}
  }

  function BlockPaths(header: string, following: seq<string>): set<PathBytes>
    requires Starts(header, HEADER)
  {
    if Scan(following).1 then Scan(following).0 else HeaderPaths(header)
  }

  function Touched(lines: seq<string>): set<PathBytes> {
    if lines == [] then {}
    else (if Starts(lines[0], HEADER) then BlockPaths(lines[0], lines[1..]) else {}) + Touched(lines[1..])
  }

  function SplitLines(s: string): seq<string> {
    Split(s, '\n')
  }

  predicate NoRepeats(paths: seq<PathBytes>) {
    forall i, j :: 0 <= i < j < |paths| ==> paths[i] != paths[j]
  }

  /** Adds to an insertion-ordered set. */
  function Add(paths: seq<PathBytes>, p: PathBytes): (r: seq<PathBytes>)
    ensures (set q | q in r) == (set q | q in paths) + {p}
    ensures NoRepeats(paths) ==> NoRepeats(r)
  {
    if p in paths then paths else paths + [p]
  }

  /** The scan of one block, starting after its header. */
  method ScanBlock(lines: seq<string>, from: nat, start: seq<PathBytes>) returns (paths: seq<PathBytes>, saw: bool)
    requires from <= |lines| && NoRepeats(start)
    ensures NoRepeats(paths)
    ensures (set q | q in paths) == (set q | q in start) + Scan(lines[from..]).0
    ensures saw == Scan(lines[from..]).1
  {
    paths, saw := start, false;
    var j := from;
    while j < |lines| && !Stops(lines[j])
      invariant from <= j <= |lines| && NoRepeats(paths)
      invariant (set q | q in paths) + Scan(lines[j..]).0 == (set q | q in start) + Scan(lines[from..]).0
      invariant saw || Scan(lines[j..]).1 == Scan(lines[from..]).1
      invariant saw ==> Scan(lines[from..]).1
    {
      assert lines[j..][0] == lines[j] && lines[j..][1..] == lines[j + 1..];
      var m := LinePath(lines[j]);
      if m.0 {
        saw := true;
        if m.1.Some? {
          paths := Add(paths, m.1.value);
        }
      }
      j := j + 1;
    }
  }

  method PatchTouchedPaths(patch: string) returns (paths: seq<PathBytes>)
    ensures NoRepeats(paths)
    ensures (set q | q in paths) == Touched(SplitLines(patch))
  {
    paths := [];
    var lines := SplitLines(patch);
    for i := 0 to |lines|
      invariant NoRepeats(paths)
      invariant (set q | q in paths) + Touched(lines[i..]) == Touched(lines)
    {
      assert lines[i..][0] == lines[i] && lines[i..][1..] == lines[i + 1..];
      if Starts(lines[i], HEADER) {
        var before := paths;
        var saw;
        paths, saw := ScanBlock(lines, i + 1, paths);
        if !saw {
          ScanSawNothing(lines[i + 1..]);
          var split := SplitHeader(lines[i][|HEADER|..]);
          if split.Some? {
            paths := Add(paths, split.value.0);
            paths := Add(paths, split.value.1);
          }
        }
      }
    }
  }

  lemma {:induction false} ScanSawNothing(lines: seq<string>)
    ensures !Scan(lines).1 ==> Scan(lines).0 == {}
  {
    if lines != [] && !Stops(lines[0]) {
      ScanSawNothing(lines[1..]);
    }
  }
}
