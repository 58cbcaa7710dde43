/**
 Diff text as git writes it, block by block, and what the path reader makes of it: an exact account of
 which blocks' paths are recovered, whatever the hunk bodies contain.
 */
module DiffBlocks {
  import opened Wrappers
  import opened GitQuoting
  import opened DiffPaths
  import opened TextLines

  datatype Kind =
    | Modified
    | Added
    | Deleted
    | Bare
    | Binary
    | Renamed(to: string)
    | RenamedAndModified(to: string, index: string) {
    predicate Renames() {
      Renamed? || RenamedAndModified?
    }

    predicate Hunks() {
      Modified? || Added? || Deleted? || RenamedAndModified?
    }
  }

  /** `extended` are the mode, index and similarity lines; `body` starts at the first hunk. */
  datatype Block = Block(path: string, kind: Kind, extended: seq<string>, body: seq<string>)

  function NewPath(b: Block): string {
    if b.kind.Renames() then b.kind.to else b.path
  }

  /** A name on a `---`/`+++` line; git adds a tab when the name has a space. */
  function Name(quotePath: bool, side: string, p: string): string {
    Field(quotePath, side + p) + if ' ' in p then "\t" else ""
  }

  function HeaderLine(quotePath: bool, b: Block): string {
    "diff --git " + Field(quotePath, "a/" + b.path) + " " + Field(quotePath, "b/" + NewPath(b))
  }

  function RenameLines(quotePath: bool, p: string, to: string): seq<string> {
    ["rename from " + Field(quotePath, p), "rename to " + Field(quotePath, to)]
  }

  function PathLines(quotePath: bool, b: Block): seq<string> {
    match b.kind
    case Modified => ["--- " + Name(quotePath, "a/", b.path), "+++ " + Name(quotePath, "b/", b.path)]
    case Added => ["--- " + "/dev/null", "+++ " + Name(quotePath, "b/", b.path)]
    case Deleted => ["--- " + Name(quotePath, "a/", b.path), "+++ " + "/dev/null"]
    case Bare => []
    case Binary => ["GIT binary patch"]
    case Renamed(to) => RenameLines(quotePath, b.path, to)
    case RenamedAndModified(to, index) =>
      RenameLines(quotePath, b.path, to) + ([index] + ["--- " + Name(quotePath, "a/", b.path), "+++ " + Name(quotePath, "b/", to)])
  }

  function LinesOf(quotePath: bool, b: Block): seq<string> {
    [HeaderLine(quotePath, b)] + (b.extended + (PathLines(quotePath, b) + b.body))
  }

  function RenderLines(quotePath: bool, blocks: seq<Block>): seq<string> {
    if blocks == [] then [""] else LinesOf(quotePath, blocks[0]) + RenderLines(quotePath, blocks[1..])
  }

  /** A line of a hunk body or of binary data: anything at all but a new block header. */
  predicate BodyLine(l: string) {
    !Starts(l, HEADER)
  }

  predicate ExtendedLine(l: string) {
    !Stops(l) && !LinePath(l).0
  }

  predicate WellFormed(quotePath: bool, b: Block) {
    && b.path != "" && NewPath(b) != ""
    && (forall l :: l in b.extended ==> ExtendedLine(l))
    && (forall l :: l in b.body ==> BodyLine(l))
    && (b.kind.Hunks() ==> b.body != [] && Starts(b.body[0], "@@ "))
    && (b.kind.Bare? || b.kind.Renamed? ==> b.body == [])
    && (b.kind.RenamedAndModified? ==> ExtendedLine(b.kind.index))
  }

  /** A regular-expression dot cannot cross the name, so no line that carries it is read. */
  predicate Hidden(quotePath: bool, p: string) {
    !quotePath && Separators(p)
  }

  /** An add or a delete whose only path line is not read. */
  predicate Lost(quotePath: bool, b: Block) {
    (b.kind.Added? || b.kind.Deleted?) && Hidden(quotePath, b.path)
  }

  /** What the lines that carry a name give. */
  function Named(quotePath: bool, p: string): set<PathBytes> {
    if Hidden(quotePath, p) then {} else {ReadField(quotePath, p)}
  }

  /** What is read for one block.  A rename gives the names that are not hidden, and when both are, what the
      split of its header makes of them. */
  function Recovered(quotePath: bool, b: Block): set<PathBytes> {
    if Lost(quotePath, b) then {}
    else if !b.kind.Renames() then {ReadField(quotePath, b.path)}
    else if Hidden(quotePath, b.path) && Hidden(quotePath, b.kind.to) then RenameHeader(quotePath, b.path, b.kind.to)
    else Named(quotePath, b.path) + Named(quotePath, b.kind.to)
  }

  /** The split of a header with two names. */
  function RenameHeader(quotePath: bool, p: string, to: string): set<PathBytes> {
    var s := SplitDiffGitHeader(Field(quotePath, "a/" + p) + " " + Field(quotePath, "b/" + to));
    if s.Some? then {s.value.0, s.value.1} else {}
  }

  /** The block loses a path to a separator. */
  predicate Obscured(quotePath: bool, b: Block) {
    Lost(quotePath, b) || (b.kind.Renames() && (Hidden(quotePath, b.path) || Hidden(quotePath, b.kind.to)))
  }

  function PathsOf(b: Block): set<PathBytes> {
    {Utf8(b.path), Utf8(NewPath(b))}
  }

  // ---------------------------------------------------------------------------------------------
  // Characters of a field

  /** What may stand in a header field: no control character, and a separator only if it is raw. */
  predicate FieldChar(quotePath: bool, c: char) {
    c as int >= 0x20 && (c as int >= 0x80 ==> !quotePath)
  }

  predicate AllFieldChars(quotePath: bool, s: string) {
    forall c :: c in s ==> FieldChar(quotePath, c)
  }

  lemma {:induction false} QuoteBytesChars(quotePath: bool, p: PathBytes)
    ensures AllFieldChars(quotePath, QuoteBytes(p))
  {
    if p != [] {
      QuoteBytesChars(quotePath, p[1..]);
      assert forall k: nat :: k < 8 ==> FieldChar(quotePath, Digit(k));
      assert AllFieldChars(quotePath, QuoteByte(p[0]));
    }
  }

  lemma {:induction false} QuoteCharsChars(quotePath: bool, p: string)
    ensures AllFieldChars(quotePath, QuoteChars(quotePath, p))
  {
    if p != [] {
      QuoteCharsChars(quotePath, p[1..]);
      QuoteBytesChars(quotePath, Utf8Char(p[0]));
    }
  }

  lemma FieldChars(quotePath: bool, p: string)
    ensures AllFieldChars(quotePath, Field(quotePath, p))
  {
    if Needs(quotePath, p) {
      QuoteCharsChars(quotePath, p);
    } else {
      forall c | c in p
        ensures FieldChar(quotePath, c)
      {
        assert !NeedsEscape(quotePath, c);
      }
    }
  }

  /** A separator outside ASCII stands in the quoted text exactly when it stands in the path. */
  lemma {:induction false} QuoteCharsKeepSeparator(p: string, sep: char)
    requires sep as int >= 0x80
    ensures sep in QuoteChars(false, p) <==> sep in p
  {
    if p != [] {
      QuoteCharsKeepSeparator(p[1..], sep);
      if p[0] as int < 0x80 {
        QuoteBytesChars(true, Utf8Char(p[0]));
        assert FieldChar(true, sep) ==> false;
      }
      assert p == [p[0]] + p[1..];
      assert sep in QuoteChars(false, p) <==> sep in QuoteChar(false, p[0]) || sep in QuoteChars(false, p[1..]);
    }
  }

  lemma FieldTerminators(quotePath: bool, p: string)
    ensures HasTerminator(Field(quotePath, p)) <==> !quotePath && Separators(p)
    ensures '\t' !in Field(quotePath, p)
  {
    var f := Field(quotePath, p);
    FieldChars(quotePath, p);
    QuoteCharsKeepSeparator(p, '\U{2028}');
    QuoteCharsKeepSeparator(p, '\U{2029}');
    if !quotePath && Separators(p) {
      assert '\U{2028}' in f || '\U{2029}' in f;
      assert Terminator('\U{2028}') && Terminator('\U{2029}');
    }
  }

  // ---------------------------------------------------------------------------------------------
  // Reading one name back

  lemma PrefixNeeds(quotePath: bool, side: string, p: string)
    requires side == "a/" || side == "b/"
    ensures Needs(quotePath, side + p) <==> Needs(quotePath, p)
  {
    assert forall c :: c in side + p <==> c in side || c in p;
    assert forall c :: c in side ==> c == side[0] || c == '/';
  }

  lemma OneMoreChar(quotePath: bool, c: char, p: string)
    requires c as int < 0x80
    ensures ReadChars(quotePath, [c] + p) == [c as int as Byte] + ReadChars(quotePath, p)
    ensures Utf8([c] + p) == [c as int as Byte] + Utf8(p)
  {
    assert ([c] + p)[1..] == p;
  }

  lemma SideBytes(quotePath: bool, side: string, p: string)
    requires side == "a/" || side == "b/"
    ensures ReadField(quotePath, side + p) == [side[0] as int as Byte, 0x2f] + ReadField(quotePath, p)
  {
    PrefixNeeds(quotePath, side, p);
    assert side + p == [side[0]] + (['/'] + p);
    OneMoreChar(quotePath, '/', p);
    OneMoreChar(quotePath, side[0], ['/'] + p);
    TwoThenRest(side[0] as int as Byte, 0x2f, ReadField(quotePath, p));
  }

  lemma TwoThenRest(a: Byte, b: Byte, rest: PathBytes)
    ensures [a] + ([b] + rest) == [a, b] + rest
  {
  }

  lemma StripLead(letter: char, rest: PathBytes)
    requires letter as int < 0x80
    ensures Strip([letter as int as Byte, 0x2f] + rest, letter) == rest
  {
    assert ([letter as int as Byte, 0x2f] + rest)[2..] == rest;
  }

  /** A field without the prefix of its side keeps every byte. */
  lemma StripKeepsOther(letter: char, p: PathBytes)
    requires letter as int < 0x80 && (|p| < 2 || p[0] as int != letter as int || p[1] != 0x2f)
    ensures Strip(p, letter) == p
  {
  }

  /** The side prefix comes back as itself and is stripped. */
  lemma SideReads(quotePath: bool, side: string, p: string)
    requires side == "a/" || side == "b/"
    ensures Strip(Unquote(Field(quotePath, side + p)), side[0]) == ReadField(quotePath, p)
  {
    FieldReads(quotePath, side + p);
    SideBytes(quotePath, side, p);
    StripLead(side[0], ReadField(quotePath, p));
  }

  /** A prefixed field starts with its side letter or with a quote, so it is never the absent side. */
  lemma SideFieldStart(quotePath: bool, side: string, p: string)
    requires side == "a/" || side == "b/"
    ensures var f := Field(quotePath, side + p); f != [] && f[0] == (if Needs(quotePath, p) then '"' else side[0]) && f[0] != '/'
  {
    PrefixNeeds(quotePath, side, p);
  }

  lemma {:induction false} UpToTabWhole(s: string, tail: string)
    requires '\t' !in s && (tail == "" || tail == "\t")
    ensures UpToTab(s + tail) == s
  {
    if s == [] {
      assert s + tail == tail;
    } else {
      UpToTabWhole(s[1..], tail);
      assert (s + tail)[1..] == s[1..] + tail;
    }
  }

  /** The reluctant match takes the field and leaves a trailing tab. */
  lemma LineFieldOf(f: string, tail: string)
    requires f != [] && '\t' !in f && (tail == "" || tail == "\t")
    ensures LineField(f + tail) == if HasTerminator(f) then None else Some(f)
  {
    var n := f + tail;
    assert n != [] && n[0] == f[0] && n[1..] == f[1..] + tail;
    if HasTerminator(f) {
      var c :| c in f && Terminator(c);
      assert c in n;
    } else {
      forall c | c in n
        ensures !Terminator(c)
      {
        if c !in f {
          assert c in tail;
        }
      }
      UpToTabWhole(f[1..], tail);
      assert [f[0]] + f[1..] == f;
    }
  }

  /** The four path-line marks and the stop lines all differ in their first characters. */
  lemma MarkedLine(mark: string, rest: string)
    requires mark == "--- " || mark == "+++ " || mark == "rename from " || mark == "rename to "
    ensures var l := mark + rest;
            && !Stops(l) && l[|mark|..] == rest
            && Starts(l, mark)
            && (mark != "--- " ==> !Starts(l, "--- ")) && (mark != "+++ " ==> !Starts(l, "+++ "))
            && (mark == "rename to " ==> !Starts(l, "rename from "))
  {
    var l := mark + rest;
    assert l[..|mark|] == mark && l[0] == mark[0];
    if mark == "rename to " && |l| >= 12 {
      assert l[..12][7] == mark[7] && "rename from "[7] == 'f';
    }
  }

  lemma MinusLine(rest: string)
    ensures LinePath("--- " + rest) == if LineField(rest).Some? then (true, DiffField(LineField(rest).value, 'a')) else (false, None)
  {
    MarkedLine("--- ", rest);
    assert ("--- " + rest)[0] == '-';
  }

  lemma PlusLine(rest: string)
    ensures LinePath("+++ " + rest) == if LineField(rest).Some? then (true, DiffField(LineField(rest).value, 'b')) else (false, None)
  {
    MarkedLine("+++ ", rest);
    assert ("+++ " + rest)[0] == '+';
  }

  lemma RenameLine(mark: string, rest: string)
    requires (mark == "rename from " || mark == "rename to ") && WholeField(rest).Some?
    ensures LinePath(mark + rest) == (true, Some(Unquote(rest)))
  {
    MarkedLine(mark, rest);
  }

  /** The field of a name line, read up to its tab. */
  lemma NameField(quotePath: bool, side: string, p: string)
    requires side == "a/" || side == "b/"
    ensures LineField(Name(quotePath, side, p)) == if !quotePath && Separators(p) then None else Some(Field(quotePath, side + p))
  {
    var f := Field(quotePath, side + p);
    FieldTerminators(quotePath, side + p);
    SideFieldStart(quotePath, side, p);
    assert Separators(side + p) <==> Separators(p);
    LineFieldOf(f, if ' ' in p then "\t" else "");
  }

  /** A `---` or `+++` line names its path, unless a separator hides it. */
  lemma NameLineReads(quotePath: bool, mark: string, side: string, p: string)
    requires (mark == "--- " && side == "a/") || (mark == "+++ " && side == "b/")
    ensures LinePath(mark + Name(quotePath, side, p))
            == if !quotePath && Separators(p) then (false, None) else (true, Some(ReadField(quotePath, p)))
    ensures !Stops(mark + Name(quotePath, side, p))
  {
    var n := Name(quotePath, side, p);
    NameField(quotePath, side, p);
    MarkedLine(mark, n);
    SideFieldStart(quotePath, side, p);
    SideReads(quotePath, side, p);
    NamedSide(Field(quotePath, side + p), side[0]);
    if mark == "--- " {
      MinusLine(n);
    } else {
      PlusLine(n);
    }
  }

  lemma NamedSide(f: string, side: char)
    requires f != [] && f[0] != '/' && side as int < 0x80
    ensures DiffField(f, side) == Some(Strip(Unquote(f), side))
  {
    assert DEV_NULL[0] == '/';
  }

  lemma DevNullReads(mark: string)
    requires mark == "--- " || mark == "+++ "
    ensures LinePath(mark + DEV_NULL) == (true, None) && !Stops(mark + DEV_NULL)
  {
    MarkedLine(mark, DEV_NULL);
    LineFieldOf(DEV_NULL, "");
    assert DEV_NULL + "" == DEV_NULL;
    if mark == "--- " {
      MinusLine(DEV_NULL);
    } else {
      PlusLine(DEV_NULL);
    }
  }

  lemma RenameReads(quotePath: bool, mark: string, p: string)
    requires (mark == "rename from " || mark == "rename to ") && p != ""
    ensures LinePath(mark + Field(quotePath, p)) == if Hidden(quotePath, p) then (false, None) else (true, Some(ReadField(quotePath, p)))
    ensures !Stops(mark + Field(quotePath, p))
  {
    FieldTerminators(quotePath, p);
    FieldReads(quotePath, p);
    MarkedLine(mark, Field(quotePath, p));
    if Hidden(quotePath, p) {
      RenameIsHidden(mark, Field(quotePath, p));
    } else {
      RenameLine(mark, Field(quotePath, p));
    }
  }

  lemma RenameIsHidden(mark: string, rest: string)
    requires (mark == "rename from " || mark == "rename to ") && WholeField(rest).None?
    ensures LinePath(mark + rest) == (false, None)
  {
    MarkedLine(mark, rest);
    assert mark == "rename from " ==> (mark + rest)[7] == 'f' && "rename to "[7] == 't';
  }

  // ---------------------------------------------------------------------------------------------
  // Reading the header back

  /** The text `q` is passed over by a token measure, whatever follows. */
  ghost predicate PassedBy(length: string -> Option<nat>, q: string) {
    forall rest {:trigger length(q + rest)} :: length(q + rest) == Plus(|q|, length(rest))
  }

  ghost predicate Passes(q: string) {
    PassedBy(TokenLength, q)
  }

  lemma PassesConcat(length: string -> Option<nat>, q: string, r: string)
    requires PassedBy(length, q) && PassedBy(length, r)
    ensures PassedBy(length, q + r)
  {
    forall rest
      ensures length(q + r + rest) == Plus(|q + r|, length(rest))
    {
      assert q + r + rest == q + (r + rest);
    }
  }

  /** A text that is passed over, in quotes, is one token. */
  lemma PassedIsToken(length: string -> Option<nat>, q: string, field: string, rest: string)
    requires PassedBy(length, q) && length("\"" + rest) == Some(1) && field == "\"" + q + "\""
    ensures length(field[1..] + rest) == Some(|field| - 1)
  {
    assert field[1..] + rest == q + ("\"" + rest);
  }

  lemma PlainCharPasses(c: char)
    requires c != '"' && c != '\\'
    ensures Passes([c])
  {
    NextPasses([c]);
  }

  lemma NextPasses(q: string)
    requires q != [] && forall rest {:trigger NextToken(q + rest)} :: NextToken(q + rest) == Skip(|q|)
    ensures Passes(q)
  {
    forall rest
      ensures TokenLength(q + rest) == Plus(|q|, TokenLength(rest))
    {
      assert (q + rest)[|q|..] == rest;
    }
  }

  lemma EscapePasses(c: char)
    requires !Terminator(c)
    ensures Passes(['\\', c])
  {
    NextPasses(['\\', c]);
  }

  lemma ByteTextPasses(b: Byte)
    ensures Passes(QuoteByte(b))
  {
    var q := QuoteByte(b);
    if |q| == 1 {
      PlainCharPasses(q[0]);
    } else {
      EscapePasses(q[1]);
      if |q| == 4 {
        PlainCharPasses(q[2]);
        PlainCharPasses(q[3]);
        PassesConcat(TokenLength, ['\\', q[1]], [q[2]]);
        PassesConcat(TokenLength, ['\\', q[1]] + [q[2]], [q[3]]);
        assert q == ['\\', q[1]] + [q[2]] + [q[3]];
      } else {
        assert q == ['\\', q[1]];
      }
    }
  }

  lemma EmptyPasses()
    ensures Passes([])
  {
    assert forall rest: string :: [] + rest == rest;
  }

  lemma {:induction false} BytesTextPasses(p: PathBytes)
    ensures Passes(QuoteBytes(p))
  {
    EmptyPasses();
    if p != [] {
      BytesTextPasses(p[1..]);
      ByteTextPasses(p[0]);
      PassesConcat(TokenLength, QuoteByte(p[0]), QuoteBytes(p[1..]));
    }
  }

  lemma {:induction false} CharsTextPasses(quotePath: bool, p: string)
    ensures Passes(QuoteChars(quotePath, p))
  {
    EmptyPasses();
    if p != [] {
      CharsTextPasses(quotePath, p[1..]);
      if p[0] as int >= 0x80 && !quotePath {
        PlainCharPasses(p[0]);
      } else {
        BytesTextPasses(Utf8Char(p[0]));
      }
      PassesConcat(TokenLength, QuoteChar(quotePath, p[0]), QuoteChars(quotePath, p[1..]));
    }
  }

  lemma CloseQuote(rest: string)
    ensures TokenLength("\"" + rest) == Some(1)
  {
    assert NextToken("\"" + rest) == Close;
  }

  /** A quoted field is one token. */
  lemma FieldIsToken(quotePath: bool, p: string, rest: string)
    requires Needs(quotePath, p)
    ensures var f := Field(quotePath, p);
            |f| >= 2 && f[0] == '"' && TokenLength(f[1..] + rest) == Some(|f| - 1)
  {
    CharsTextPasses(quotePath, p);
    CloseQuote(rest);
    PassedIsToken(TokenLength, QuoteChars(quotePath, p), Field(quotePath, p), rest);
  }

  lemma HeaderRest(header: string, rest: string)
    requires header == HEADER + rest
    ensures Starts(header, HEADER) && header[|HEADER|..] == rest
  {
  }

  lemma PlainHeaderSplits(rest: string, body: string, p: string)
    requires |rest| == |body| + 2 && rest[0] == 'a' && rest[1] == '/' && rest[2..] == body
    requires PlainHalves(body) == Some((p, p))
    ensures SplitDiffGitHeader(rest) == Some((Utf8(p), Utf8(p)))
  {
    assert rest[..2] == "a/";
    assert rest[..1][0] == 'a';
  }

  lemma PlainHeaderReads(p: string)
    ensures SplitDiffGitHeader("a/" + p + " " + ("b/" + p)) == Some((Utf8(p), Utf8(p)))
  {
    var body := p + " b/" + p;
    SameNameSplits(p);
    PlainHalvesAgree(body, |p|);
    PlainHeaderSplits("a/" + p + " " + ("b/" + p), body, p);
  }

  /** Two tokens and one white-space character between them make the whole header. */
  lemma TokensSplit(length: string -> Option<nat>, fa: string, space: char, fb: string)
    requires |fa| >= 2 && fa[0] == '"' && |fb| >= 2 && fb[0] == '"' && IsSpace(space)
    requires length(fa[1..] + ([space] + fb)) == Some(|fa| - 1)
    requires length(fb[1..] + "") == Some(|fb| - 1)
    ensures SplitTokens(length, fa + [space] + fb) == Some((fa, fb))
  {
    var rest := fa + [space] + fb;
    assert rest[1..] == fa[1..] + ([space] + fb);
    assert rest[|fa| + 2..] == fb[1..] + "";
    assert rest[..|fa|] == fa && rest[|fa| + 1..] == fb;
  }

  lemma StartsQuoted(rest: string)
    requires rest != [] && rest[0] == '"'
    ensures SplitDiffGitHeader(rest) == SplitQuotedHeader(rest)
  {
    assert rest[..1] == ['"'];
  }

  lemma QuotedHeaderReads(quotePath: bool, p: string, to: string)
    requires Needs(quotePath, p) && Needs(quotePath, to)
    ensures SplitDiffGitHeader(Field(quotePath, "a/" + p) + " " + Field(quotePath, "b/" + to))
            == Some((ReadField(quotePath, p), ReadField(quotePath, to)))
  {
    var fa, fb := Field(quotePath, "a/" + p), Field(quotePath, "b/" + to);
    PrefixNeeds(quotePath, "a/", p);
    PrefixNeeds(quotePath, "b/", to);
    FieldIsToken(quotePath, "a/" + p, " " + fb);
    FieldIsToken(quotePath, "b/" + to, "");
    TokensSplit(TokenLength, fa, ' ', fb);
    SideReads(quotePath, "a/", p);
    SideReads(quotePath, "b/", to);
    SplitTokensRead(fa, fb, fa + " " + fb);
  }

  lemma SplitTokensRead(fa: string, fb: string, rest: string)
    requires rest != [] && rest[0] == '"' && SplitTokens(TokenLength, rest) == Some((fa, fb))
    ensures SplitDiffGitHeader(rest) == Some((Strip(Unquote(fa), 'a'), Strip(Unquote(fb), 'b')))
  {
    StartsQuoted(rest);
  }

  /** The header of a block that is no rename names its path twice and reads back as it. */
  lemma HeaderReads(quotePath: bool, b: Block)
    requires !b.kind.Renames()
    ensures Starts(HeaderLine(quotePath, b), HEADER)
    ensures HeaderPaths(HeaderLine(quotePath, b)) == {ReadField(quotePath, b.path)}
  {
    var p := b.path;
    var fa, fb := Field(quotePath, "a/" + p), Field(quotePath, "b/" + p);
    assert HeaderLine(quotePath, b) == HEADER + (fa + " " + fb);
    HeaderRest(HeaderLine(quotePath, b), fa + " " + fb);
    PrefixNeeds(quotePath, "a/", p);
    PrefixNeeds(quotePath, "b/", p);
    if Needs(quotePath, p) {
      QuotedHeaderReads(quotePath, p, p);
    } else {
      PlainHeaderReads(p);
    }
  }

  /** The header of a rename, when both names are quoted. */
  lemma QuotedRenameHeader(quotePath: bool, p: string, to: string)
    requires Needs(quotePath, p) && Needs(quotePath, to)
    ensures RenameHeader(quotePath, p, to) == {ReadField(quotePath, p), ReadField(quotePath, to)}
  {
    QuotedHeaderReads(quotePath, p, to);
  }

  // ---------------------------------------------------------------------------------------------
  // One block, then all of them

  /** What may follow a block: the end of the text, or the next header. */
  predicate Follows(rest: seq<string>) {
    rest == [""] || (rest != [] && Starts(rest[0], HEADER))
  }

  lemma EmptyLine()
    ensures !Stops("") && LinePath("") == (false, None)
  {
  }

  lemma FollowingScansToNothing(rest: seq<string>)
    requires Follows(rest)
    ensures Scan(rest) == ({}, false)
  {
    if rest == [""] {
      EmptyLine();
      assert rest[1..] == [] && SetOf<PathBytes>(None) + {} == {};
    }
  }

  lemma {:induction false} ScanSkipsExtended(ext: seq<string>, rest: seq<string>)
    requires forall l :: l in ext ==> ExtendedLine(l)
    ensures Scan(ext + rest).0 == Scan(rest).0 && Scan(ext + rest).1 == Scan(rest).1
  {
    if ext == [] {
      assert ext + rest == rest;
    } else {
      assert ext[0] in ext;
      ScanSkipsExtended(ext[1..], rest);
      assert (ext + rest)[1..] == ext[1..] + rest;
    }
  }

  lemma ScanOne(l: string, rest: seq<string>)
    requires !Stops(l)
    ensures Scan([l] + rest) == (SetOf(LinePath(l).1) + Scan(rest).0, LinePath(l).0 || Scan(rest).1)
  {
    assert ([l] + rest)[1..] == rest;
  }

  lemma ScanTwo(l: string, m: string, rest: seq<string>)
    requires !Stops(l) && !Stops(m) && Scan(rest) == ({}, false)
    ensures Scan([l, m] + rest) == (SetOf(LinePath(l).1) + SetOf(LinePath(m).1), LinePath(l).0 || LinePath(m).0)
  {
    ScanOne(m, rest);
    ScanOne(l, [m] + rest);
    assert [l, m] + rest == [l] + ([m] + rest);
    assert SetOf(LinePath(m).1) + {} == SetOf(LinePath(m).1);
  }

  lemma HunkStops(body: seq<string>, rest: seq<string>)
    requires body != [] && Starts(body[0], "@@ ")
    ensures Scan(body + rest) == ({}, false)
  {
    assert (body + rest)[0] == body[0];
  }

  lemma BinaryStops(rest: seq<string>)
    ensures Scan([BINARY] + rest) == ({}, false)
  {
  }

  lemma TwoLines(l: string, m: string, rest: seq<string>, a: (bool, Option<PathBytes>), b: (bool, Option<PathBytes>), paths: set<PathBytes>)
    requires !Stops(l) && !Stops(m) && LinePath(l) == a && LinePath(m) == b
    requires Scan(rest) == ({}, false) && SetOf(a.1) + SetOf(b.1) == paths
    ensures Scan([l, m] + rest) == (paths, a.0 || b.0)
  {
    ScanTwo(l, m, rest);
  }

  lemma ModifiedReads(quotePath: bool, p: string, rest: seq<string>)
    requires Scan(rest) == ({}, false)
    ensures Scan(["--- " + Name(quotePath, "a/", p), "+++ " + Name(quotePath, "b/", p)] + rest)
            == if !quotePath && Separators(p) then ({}, false) else ({ReadField(quotePath, p)}, true)
  {
    NameLineReads(quotePath, "--- ", "a/", p);
    NameLineReads(quotePath, "+++ ", "b/", p);
    var lost := !quotePath && Separators(p);
    var a := if lost then (false, None) else (true, Some(ReadField(quotePath, p)));
    TwoLines("--- " + Name(quotePath, "a/", p), "+++ " + Name(quotePath, "b/", p), rest, a, a, SetOf(a.1));
  }

  lemma AddedReads(quotePath: bool, p: string, rest: seq<string>)
    requires Scan(rest) == ({}, false)
    ensures Scan(["--- " + DEV_NULL, "+++ " + Name(quotePath, "b/", p)] + rest)
            == (if !quotePath && Separators(p) then {} else {ReadField(quotePath, p)}, true)
  {
    DevNullReads("--- ");
    NameLineReads(quotePath, "+++ ", "b/", p);
    var lost := !quotePath && Separators(p);
    var b := if lost then (false, None) else (true, Some(ReadField(quotePath, p)));
    TwoLines("--- " + DEV_NULL, "+++ " + Name(quotePath, "b/", p), rest, (true, None), b, SetOf(b.1));
  }

  lemma DeletedReads(quotePath: bool, p: string, rest: seq<string>)
    requires Scan(rest) == ({}, false)
    ensures Scan(["--- " + Name(quotePath, "a/", p), "+++ " + DEV_NULL] + rest)
            == (if !quotePath && Separators(p) then {} else {ReadField(quotePath, p)}, true)
  {
    NameLineReads(quotePath, "--- ", "a/", p);
    DevNullReads("+++ ");
    var lost := !quotePath && Separators(p);
    var a := if lost then (false, None) else (true, Some(ReadField(quotePath, p)));
    TwoLines("--- " + Name(quotePath, "a/", p), "+++ " + DEV_NULL, rest, a, (true, None), SetOf(a.1));
  }

  lemma RenamedReads(quotePath: bool, p: string, to: string, rest: seq<string>)
    requires p != "" && to != ""
    ensures Scan(RenameLines(quotePath, p, to) + rest)
            == (Named(quotePath, p) + Named(quotePath, to) + Scan(rest).0,
                !Hidden(quotePath, p) || !Hidden(quotePath, to) || Scan(rest).1)
  {
    var l, m := "rename from " + Field(quotePath, p), "rename to " + Field(quotePath, to);
    RenameReads(quotePath, "rename from ", p);
    RenameReads(quotePath, "rename to ", to);
    TwoLinesThen(l, m, rest, LinePath(l), LinePath(m));
    assert SetOf(LinePath(l).1) == Named(quotePath, p) && SetOf(LinePath(m).1) == Named(quotePath, to);
  }

  lemma TwoLinesThen(l: string, m: string, rest: seq<string>, a: (bool, Option<PathBytes>), b: (bool, Option<PathBytes>))
    requires !Stops(l) && !Stops(m) && LinePath(l) == a && LinePath(m) == b
    ensures Scan([l, m] + rest) == (SetOf(a.1) + SetOf(b.1) + Scan(rest).0, a.0 || b.0 || Scan(rest).1)
  {
    ScanOne(m, rest);
    ScanOne(l, [m] + rest);
    assert [l, m] + rest == [l] + ([m] + rest);
    RegroupSets(SetOf(a.1), SetOf(b.1), Scan(rest).0);
  }

  lemma RegroupSets<T>(a: set<T>, b: set<T>, c: set<T>)
    ensures a + (b + c) == a + b + c
  {
  }

  lemma RenamedAndModifiedReads(quotePath: bool, p: string, to: string, index: string, rest: seq<string>)
    requires p != "" && to != "" && ExtendedLine(index) && Scan(rest) == ({}, false)
    ensures var names := ["--- " + Name(quotePath, "a/", p), "+++ " + Name(quotePath, "b/", to)];
            Scan(RenameLines(quotePath, p, to) + ([index] + names) + rest)
            == (Named(quotePath, p) + Named(quotePath, to), !Hidden(quotePath, p) || !Hidden(quotePath, to))
  {
    var l, m := "--- " + Name(quotePath, "a/", p), "+++ " + Name(quotePath, "b/", to);
    var both := Named(quotePath, p) + Named(quotePath, to);
    NameLineReads(quotePath, "--- ", "a/", p);
    NameLineReads(quotePath, "+++ ", "b/", to);
    TwoLines(l, m, rest, LinePath(l), LinePath(m), both);
    RenamedReads(quotePath, p, to, [index] + ([l, m] + rest));
    ScanSkipsExtended([index], [l, m] + rest);
    AfterRename(RenameLines(quotePath, p, to), index, [l, m], rest, both, !Hidden(quotePath, p) || !Hidden(quotePath, to));
  }

  lemma AfterRename(renames: seq<string>, index: string, names: seq<string>, rest: seq<string>, both: set<PathBytes>, saw: bool)
    requires Scan(renames + ([index] + (names + rest))) == (both + Scan([index] + (names + rest)).0, saw)
    requires Scan([index] + (names + rest)).0 == both
    ensures Scan(renames + ([index] + names) + rest) == (both, saw)
  {
    RegroupLines(renames, [index], names, rest);
    assert both + both == both;
  }

  /** The path lines of a block with hunks. */
  lemma HunkBlockReads(quotePath: bool, b: Block, rest: seq<string>)
    requires WellFormed(quotePath, b) && b.kind.Hunks()
    ensures Scan(PathLines(quotePath, b) + (b.body + rest))
            == if Lost(quotePath, b) then ({}, true)
               else if b.kind.Renames() then
                 (Named(quotePath, b.path) + Named(quotePath, b.kind.to), !Hidden(quotePath, b.path) || !Hidden(quotePath, b.kind.to))
               else if Hidden(quotePath, b.path) then ({}, false)
               else ({ReadField(quotePath, b.path)}, true)
  {
    HunkStops(b.body, rest);
    var p, after := b.path, b.body + rest;
    if b.kind.Modified? {
      ModifiedReads(quotePath, p, after);
    } else if b.kind.Added? {
      AddedReads(quotePath, p, after);
    } else if b.kind.Deleted? {
      DeletedReads(quotePath, p, after);
    } else {
      RenamedAndModifiedReads(quotePath, p, b.kind.to, b.kind.index, after);
    }
  }

  /** The path lines of a block, up to its first hunk. */
  lemma PathLinesRead(quotePath: bool, b: Block, rest: seq<string>)
    requires WellFormed(quotePath, b) && Follows(rest)
    ensures var s := Scan(PathLines(quotePath, b) + (b.body + rest));
            && (s.1 ==> s.0 == Recovered(quotePath, b))
            && (!s.1 ==> Recovered(quotePath, b) == if b.kind.Renames() then RenameHeader(quotePath, b.path, b.kind.to)
                                                    else {ReadField(quotePath, b.path)})
  {
    if b.kind.Bare? || b.kind.Renamed? {
      assert b.body + rest == rest;
    }
    if b.kind.Binary? {
      BinaryStops(b.body + rest);
    } else if b.kind.Bare? {
      FollowingScansToNothing(rest);
      assert PathLines(quotePath, b) + rest == rest;
    } else if b.kind.Renamed? {
      FollowingScansToNothing(rest);
      RenamedReads(quotePath, b.path, b.kind.to, rest);
      assert Named(quotePath, b.path) + Named(quotePath, b.kind.to) + {} == Named(quotePath, b.path) + Named(quotePath, b.kind.to);
    } else {
      HunkBlockReads(quotePath, b, rest);
    }
  }

  lemma HeaderStarts(quotePath: bool, b: Block)
    ensures Starts(HeaderLine(quotePath, b), HEADER)
  {
    var rest := Field(quotePath, "a/" + b.path) + " " + Field(quotePath, "b/" + NewPath(b));
    assert HeaderLine(quotePath, b) == HEADER + rest;
    HeaderRest(HeaderLine(quotePath, b), rest);
  }

  lemma RenameHeaderLine(quotePath: bool, b: Block)
    requires b.kind.Renames()
    ensures Starts(HeaderLine(quotePath, b), HEADER)
    ensures HeaderPaths(HeaderLine(quotePath, b)) == RenameHeader(quotePath, b.path, b.kind.to)
  {
    var fa, fb := Field(quotePath, "a/" + b.path), Field(quotePath, "b/" + b.kind.to);
    RegroupHeader(fa, fb);
    HeaderPathsOf(HeaderLine(quotePath, b), fa + " " + fb);
  }

  lemma RegroupHeader(fa: string, fb: string)
    ensures HEADER + fa + " " + fb == HEADER + (fa + " " + fb)
  {
  }

  lemma HeaderPathsOf(header: string, rest: string)
    requires header == HEADER + rest
    ensures Starts(header, HEADER)
    ensures HeaderPaths(header) == var s := SplitDiffGitHeader(rest); if s.Some? then {s.value.0, s.value.1} else {}
  {
    HeaderRest(header, rest);
  }

  lemma ScanDecides(header: string, following: seq<string>, paths: set<PathBytes>)
    requires Starts(header, HEADER)
    requires if Scan(following).1 then Scan(following).0 == paths else HeaderPaths(header) == paths
    ensures BlockPaths(header, following) == paths
  {
  }

  /** Reading one block, with anything that may follow it. */
  lemma BlockReads(quotePath: bool, b: Block, rest: seq<string>)
    requires WellFormed(quotePath, b) && Follows(rest)
    ensures Starts(HeaderLine(quotePath, b), HEADER)
    ensures BlockPaths(HeaderLine(quotePath, b), b.extended + (PathLines(quotePath, b) + b.body) + rest)
            == Recovered(quotePath, b)
  {
    var lines := PathLines(quotePath, b);
    RegroupLines(b.extended, lines, b.body, rest);
    ScanSkipsExtended(b.extended, lines + (b.body + rest));
    PathLinesRead(quotePath, b, rest);
    HeaderStarts(quotePath, b);
    if b.kind.Renames() {
      RenameHeaderLine(quotePath, b);
    } else {
      HeaderReads(quotePath, b);
    }
    ScanDecides(HeaderLine(quotePath, b), b.extended + (lines + b.body) + rest, Recovered(quotePath, b));
  }

  lemma RegroupLines(a: seq<string>, b: seq<string>, c: seq<string>, d: seq<string>)
    ensures a + (b + c) + d == a + (b + (c + d))
  {
  }

  lemma {:induction false} TouchedSkips(lines: seq<string>, rest: seq<string>)
    requires forall l :: l in lines ==> !Starts(l, HEADER)
    ensures Touched(lines + rest) == Touched(rest)
  {
    if lines == [] {
      assert lines + rest == rest;
    } else {
      assert lines[0] in lines;
      TouchedSkips(lines[1..], rest);
      assert (lines + rest)[1..] == lines[1..] + rest;
    }
  }

  predicate NoHeaders(lines: seq<string>) {
    forall l :: l in lines ==> !Starts(l, HEADER)
  }

  lemma TwoMarkedLines(mark: string, rest: string, mark': string, rest': string)
    requires mark == "--- " || mark == "rename from "
    requires mark' == "+++ " || mark' == "rename to "
    ensures NoHeaders([mark + rest, mark' + rest'])
  {
    MarkedLine(mark, rest);
    MarkedLine(mark', rest');
  }

  lemma RenamedNoHeaders(renames: seq<string>, index: string, names: seq<string>)
    requires NoHeaders(renames) && NoHeaders(names) && !Stops(index)
    ensures NoHeaders(renames + ([index] + names))
  {
  }

  lemma PathLinesAreNoHeaders(quotePath: bool, b: Block)
    requires WellFormed(quotePath, b)
    ensures NoHeaders(PathLines(quotePath, b))
  {
    var was, now := Name(quotePath, "a/", b.path), Name(quotePath, "b/", NewPath(b));
    if b.kind.Binary? {
      assert BINARY[0] != HEADER[0];
    } else if b.kind.Added? {
      TwoMarkedLines("--- ", DEV_NULL, "+++ ", now);
    } else if b.kind.Deleted? {
      TwoMarkedLines("--- ", was, "+++ ", DEV_NULL);
    } else if b.kind.Renames() {
      TwoMarkedLines("rename from ", Field(quotePath, b.path), "rename to ", Field(quotePath, b.kind.to));
      TwoMarkedLines("--- ", was, "+++ ", now);
      if b.kind.RenamedAndModified? {
        RenamedNoHeaders(RenameLines(quotePath, b.path, b.kind.to), b.kind.index, ["--- " + was, "+++ " + now]);
      }
    } else if b.kind.Modified? {
      TwoMarkedLines("--- ", was, "+++ ", now);
    }
  }

  function AllRecovered(quotePath: bool, blocks: seq<Block>): set<PathBytes> {
    if blocks == [] then {} else Recovered(quotePath, blocks[0]) + AllRecovered(quotePath, blocks[1..])
  }

  /** For every sequence of well-formed blocks: the paths read are exactly what each block gives up,
      whatever the hunk bodies say. */
  lemma {:induction false} TouchedIsRecovered(quotePath: bool, blocks: seq<Block>)
    requires forall b :: b in blocks ==> WellFormed(quotePath, b)
    ensures Touched(RenderLines(quotePath, blocks)) == AllRecovered(quotePath, blocks)
    ensures Follows(RenderLines(quotePath, blocks))
  {
    if blocks == [] {
      assert [""][1..] == [];
    } else {
      var b := blocks[0];
      assert b in blocks;
      var rest := RenderLines(quotePath, blocks[1..]);
      TouchedIsRecovered(quotePath, blocks[1..]);
      BlockReads(quotePath, b, rest);
      PathLinesAreNoHeaders(quotePath, b);
      TouchedOne(HeaderLine(quotePath, b), b.extended + (PathLines(quotePath, b) + b.body), rest);
    }
  }

  lemma TouchedOne(header: string, inner: seq<string>, rest: seq<string>)
    requires Starts(header, HEADER) && forall l :: l in inner ==> !Starts(l, HEADER)
    ensures Touched([header] + inner + rest) == BlockPaths(header, inner + rest) + Touched(rest)
    ensures ([header] + inner + rest)[0] == header
  {
    var all := [header] + inner + rest;
    assert all[1..] == inner + rest;
    TouchedSkips(inner, rest);
  }

  function AllPaths(blocks: seq<Block>): set<PathBytes> {
    if blocks == [] then {} else PathsOf(blocks[0]) + AllPaths(blocks[1..])
  }

  predicate Plain(quotePath: bool, p: string) {
    quotePath || Ascii(p) || !Needs(quotePath, p)
  }

  /** Every path is read back exactly, unless a path mixes non-ASCII with characters that force quoting
      or an added, deleted or renamed file is named with a line separator. */
  lemma {:induction false} TouchedIsExact(quotePath: bool, blocks: seq<Block>)
    requires forall b :: b in blocks ==> WellFormed(quotePath, b)
    requires forall b :: b in blocks ==> Plain(quotePath, b.path) && Plain(quotePath, NewPath(b)) && !Obscured(quotePath, b)
    ensures Touched(RenderLines(quotePath, blocks)) == AllPaths(blocks)
  {
    TouchedIsRecovered(quotePath, blocks);
    RecoveredIsExact(quotePath, blocks);
  }

  lemma {:induction false} RecoveredIsExact(quotePath: bool, blocks: seq<Block>)
    requires forall b :: b in blocks ==> Plain(quotePath, b.path) && Plain(quotePath, NewPath(b)) && !Obscured(quotePath, b)
    ensures AllRecovered(quotePath, blocks) == AllPaths(blocks)
  {
    if blocks != [] {
      assert blocks[0] in blocks;
      ReadCharsLength(quotePath, blocks[0].path);
      ReadCharsLength(quotePath, NewPath(blocks[0]));
      RecoveredIsExact(quotePath, blocks[1..]);
    }
  }

  /** For one block that is no rename the two exceptions are exact. */
  lemma OneBlockExactIff(quotePath: bool, b: Block)
    requires WellFormed(quotePath, b) && !b.kind.Renames()
    ensures Touched(RenderLines(quotePath, [b])) == PathsOf(b) <==> Plain(quotePath, b.path) && !Lost(quotePath, b)
  {
    TouchedIsRecovered(quotePath, [b]);
    assert AllRecovered(quotePath, [b]) == Recovered(quotePath, b) + AllRecovered(quotePath, [b][1..]);
    ReadCharsLength(quotePath, b.path);
    assert Utf8(b.path) in PathsOf(b);
    if Recovered(quotePath, b) == PathsOf(b) {
      assert Utf8(b.path) in Recovered(quotePath, b);
    }
  }

  // ---------------------------------------------------------------------------------------------
  // From text

  /** Every line followed by a newline. */
  function Text(lines: seq<string>): string {
    if lines == [] then [] else lines[0] + "\n" + Text(lines[1..])
  }

  lemma {:induction false} SplitText(lines: seq<string>)
    requires forall l :: l in lines ==> '\n' !in l
    ensures SplitLines(Text(lines)) == lines + [""]
  {
    if lines != [] {
      assert lines[0] in lines;
      SplitText(lines[1..]);
      SplitConcat(lines[0], '\n', Text(lines[1..]));
      SplitNone(lines[0], '\n');
      assert lines + [""] == [lines[0]] + (lines[1..] + [""]);
    }
  }

  function RawLines(quotePath: bool, blocks: seq<Block>): seq<string> {
    if blocks == [] then [] else LinesOf(quotePath, blocks[0]) + RawLines(quotePath, blocks[1..])
  }

  lemma {:induction false} RawThenEnd(quotePath: bool, blocks: seq<Block>)
    ensures RenderLines(quotePath, blocks) == RawLines(quotePath, blocks) + [""]
  {
    if blocks != [] {
      RawThenEnd(quotePath, blocks[1..]);
    }
  }

  /** The whole way: the text of any well-formed blocks, through the reader, to exactly the recovered
      paths and no path twice. */
  method ReadPatch(quotePath: bool, blocks: seq<Block>) returns (paths: seq<PathBytes>)
    requires forall b :: b in blocks ==> WellFormed(quotePath, b)
    requires forall l :: l in RawLines(quotePath, blocks) ==> '\n' !in l
    ensures NoRepeats(paths) && (set q | q in paths) == AllRecovered(quotePath, blocks)
  {
    RawThenEnd(quotePath, blocks);
    SplitText(RawLines(quotePath, blocks));
    TouchedIsRecovered(quotePath, blocks);
    paths := PatchTouchedPaths(Text(RawLines(quotePath, blocks)));
  }
}
