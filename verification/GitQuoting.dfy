/**
 Git's C-style path quoting and the reader that reverses it.  Text is a sequence of characters; a path
 is the byte string the reader hands to its final decoding step.
 */
module GitQuoting {
  import opened Wrappers

  type PathBytes = seq<Byte>

  const BACKSLASH: Byte := 0x5c

  // ---------------------------------------------------------------------------------------------
  // Text to bytes

  function Utf8Char(c: char): (r: PathBytes)
    ensures |r| >= 1
    ensures c as int < 0x80 ==> r == [c as int as Byte]
    ensures c as int >= 0x80 ==> |r| > |LowBytes(c)|
  {
    var n := c as int;
    if n < 0x80 then [n as Byte]
    else if n < 0x800 then [(0xC0 + n / 64) as Byte, (0x80 + n % 64) as Byte]
    else if n < 0x10000 then [(0xE0 + n / 4096) as Byte, (0x80 + n / 64 % 64) as Byte, (0x80 + n % 64) as Byte]
    else [(0xF0 + n / 262144) as Byte, (0x80 + n / 4096 % 64) as Byte, (0x80 + n / 64 % 64) as Byte, (0x80 + n % 64) as Byte]
  }

  function Utf8(s: string): PathBytes {
    if s == [] then [] else Utf8Char(s[0]) + Utf8(s[1..])
  }

  /** What pushing `charCodeAt` leaves in the buffer: the low byte of each UTF-16 unit. */
  function LowBytes(c: char): PathBytes {
    var n := c as int;
    if n < 0x10000 then [(n % 256) as Byte]
    else [((0xD800 + (n - 0x10000) / 0x400) % 256) as Byte, ((0xDC00 + (n - 0x10000) % 0x400) % 256) as Byte]
  }

  // ---------------------------------------------------------------------------------------------
  // The reader

  predicate OctalDigit(c: char) {
    '0' <= c <= '7'
  }

  /** How many of the first three characters are octal digits. */
  function OctalRun(s: string): (n: nat)
    ensures n <= 3 && n <= |s|
    ensures forall i :: 0 <= i < n ==> OctalDigit(s[i])
  {
    if |s| >= 1 && OctalDigit(s[0]) then
      if |s| >= 2 && OctalDigit(s[1]) then
        if |s| >= 3 && OctalDigit(s[2]) then 3 else 2
      else 1
    else 0
  }

  function DigitValue(c: char): (n: nat)
    requires OctalDigit(c)
    ensures n < 8
  {
    c as int - '0' as int
  }

  function OctalValue(s: string): nat
    requires forall i :: 0 <= i < |s| ==> OctalDigit(s[i])
  {
    if s == [] then 0 else OctalValue(s[..|s| - 1]) * 8 + DigitValue(s[|s| - 1])
  }

  function Simple(c: char): Option<Byte> {
    if c == '\\' then Some(0x5c) else if c == '"' then Some(0x22)
    else if c == 'n' then Some(0x0a) else if c == 't' then Some(0x09)
    else if c == 'a' then Some(0x07) else if c == 'b' then Some(0x08)
    else if c == 'f' then Some(0x0c) else if c == 'r' then Some(0x0d)
    else if c == 'v' then Some(0x0b) else None
  }

  /** The bytes of one escape, and how many characters after the backslash it takes. */
  function Escape(rest: string): (r: (PathBytes, nat))
    requires rest != []
    ensures 1 <= r.1 <= |rest|
  {
    var n := OctalRun(rest);
    if n > 0 then ([(OctalValue(rest[..n]) % 256) as Byte], n)
    else if Simple(rest[0]).Some? then ([Simple(rest[0]).value], 1)
    else ([BACKSLASH] + LowBytes(rest[0]), 1)
  }

  /** The bytes pushed at the head of the text, and how many characters that takes. */
  function Next(s: string): (r: (PathBytes, nat))
    requires s != []
    ensures 1 <= r.1 <= |s|
  {
    if s[0] != '\\' then (LowBytes(s[0]), 1)
    else if |s| == 1 then ([BACKSLASH], 1)
    else
      var e := Escape(s[1..]);
      (e.0, 1 + e.1)
  }

  function UnquoteInner(s: string): PathBytes
    decreases |s|
  {
    if s == [] then [] else Next(s).0 + UnquoteInner(s[Next(s).1..])
  }

  predicate IsQuoted(field: string) {
    |field| >= 2 && field[0] == '"' && field[|field| - 1] == '"'
  }

  function Unquote(field: string): PathBytes {
    if IsQuoted(field) then UnquoteInner(field[1..|field| - 1]) else Utf8(field)
  }

  /** What stands at index `i`. */
  lemma NextAt(inner: string, i: nat)
    requires i < |inner|
    ensures Next(inner[i..]) == if inner[i] != '\\' then (LowBytes(inner[i]), 1)
                                else if i + 1 == |inner| then ([BACKSLASH], 1)
                                else (Escape(inner[i + 1..]).0, 1 + Escape(inner[i + 1..]).1)
  {
    assert inner[i..][0] == inner[i] && inner[i..][1..] == inner[i + 1..];
  }

  /** Reading on from index `i` leads from the bytes read so far to `all`. */
  ghost predicate ReadTo(inner: string, i: nat, bytes: PathBytes, all: PathBytes)
    requires i <= |inner|
    decreases |inner| - i
  {
    if i == |inner| then bytes == all
    else ReadTo(inner, i + Next(inner[i..]).1, bytes + Next(inner[i..]).0, all)
  }

  lemma {:induction false} ReadsTheRest(inner: string, i: nat, bytes: PathBytes)
    requires i <= |inner|
    ensures ReadTo(inner, i, bytes, bytes + UnquoteInner(inner[i..]))
    decreases |inner| - i
  {
    if i == |inner| {
      assert bytes + [] == bytes;
    } else {
      var more, n := Next(inner[i..]).0, Next(inner[i..]).1;
      ReadsTheRest(inner, i + n, bytes + more);
      assert inner[i..][n..] == inner[i + n..];
      Regroup(bytes, more, UnquoteInner(inner[i + n..]));
    }
  }

  /** What stands at the index, and how far it reaches. */
  method ReadOne(inner: string, i: nat) returns (more: PathBytes, n: nat)
    requires i < |inner|
    ensures Next(inner[i..]) == (more, n) && 1 <= n <= |inner| - i
  {
    NextAt(inner, i);
    if inner[i] != '\\' {
      return LowBytes(inner[i]), 1;
    }
    if i + 1 == |inner| {
      return [BACKSLASH], 1;
    }
    var e := Escape(inner[i + 1..]);
    return e.0, 1 + e.1;
  }

  /** The bytes of the text inside the quotes: one index, advanced past each escape. */
  method ReadInner(inner: string) returns (bytes: PathBytes)
    ensures bytes == UnquoteInner(inner)
  {
    bytes := [];
    var i := 0;
    ghost var all := UnquoteInner(inner);
    assert inner[0..] == inner && [] + all == all;
    ReadsTheRest(inner, 0, []);
    while i < |inner|
      invariant 0 <= i <= |inner| && ReadTo(inner, i, bytes, all)
      decreases |inner| - i
    {
      var more, n := ReadOne(inner, i);
      bytes := bytes + more;
      i := i + n;
    }
  }

  method UnquoteGitPath(field: string) returns (bytes: PathBytes)
    ensures bytes == Unquote(field)
  {
    if !(|field| >= 2 && field[0] == '"' && field[|field| - 1] == '"') {
      return Utf8(field);
    }
    bytes := ReadInner(field[1..|field| - 1]);
  }

  // ---------------------------------------------------------------------------------------------
  // What the bytes stand for

  /** A continuation byte. */
  predicate Continues(b: Byte) {
    0x80 <= b < 0xC0
  }

  /** The six-bit digits of a number. */
  lemma SixBits(n: nat)
    requires n < 0x200000
    ensures n / 64 * 64 + n % 64 == n
    ensures n / 4096 * 4096 + n / 64 % 64 * 64 + n % 64 == n
    ensures n / 262144 * 262144 + n / 4096 % 64 * 4096 + n / 64 % 64 * 64 + n % 64 == n
  {
    var a := n / 64;
    var b := a / 64;
    assert n / 4096 == b && n / 262144 == b / 64;
  }

  /** The bytes spell the number `n` in UTF-8, as section 3 of RFC 3629 has it: the lead byte tells the length,
      and gives the number together with the continuation bytes. */
  predicate Spells(b: PathBytes, n: nat) {
    if n < 0x80 then |b| == 1 && b[0] as int == n
    else if n < 0x800 then |b| == 2 && 0xC0 <= b[0] < 0xE0 && Continues(b[1]) && (b[0] as int - 0xC0) * 64 + (b[1] as int - 0x80) == n
    else if n < 0x10000 then
      && |b| == 3 && 0xE0 <= b[0] < 0xF0 && Continues(b[1]) && Continues(b[2])
      && (b[0] as int - 0xE0) * 4096 + (b[1] as int - 0x80) * 64 + (b[2] as int - 0x80) == n
    else
      && |b| == 4 && 0xF0 <= b[0] && Continues(b[1]) && Continues(b[2]) && Continues(b[3])
      && (b[0] as int - 0xF0) * 262144 + (b[1] as int - 0x80) * 4096 + (b[2] as int - 0x80) * 64 + (b[3] as int - 0x80) == n
  }

  lemma Utf8CharIs(c: char)
    ensures Spells(Utf8Char(c), c as int)
  {
    SixBits(c as int);
  }

  lemma SameLeadSameChar(c: char, d: char, s: PathBytes, t: PathBytes)
    requires Utf8Char(c) + s == Utf8Char(d) + t
    ensures c == d && s == t
  {
    var a, b := Utf8Char(c), Utf8Char(d);
    var all := a + s;
    Utf8CharIs(c);
    Utf8CharIs(d);
    assert a[0] == all[0] == (b + t)[0] == b[0];
    assert |a| == |b|;
    assert all[..|a|] == a && (b + t)[..|a|] == b;
    assert all[|a|..] == s && (b + t)[|a|..] == t;
    assert c as int == d as int;
  }

  /** So different texts have different bytes, and the bytes of a path stand for the path. */
  lemma {:induction false} Utf8IsInjective(s: string, t: string)
    requires Utf8(s) == Utf8(t)
    ensures s == t
  {
    if s != [] && t != [] {
      SameLeadSameChar(s[0], t[0], Utf8(s[1..]), Utf8(t[1..]));
      Utf8IsInjective(s[1..], t[1..]);
    }
  }

  /** A character outside ASCII that is not escaped is read as the low byte of its UTF-16 unit, or of each of the
      two it takes, as section 2.1 of RFC 2781 has them. */
  lemma LowBytesAre(c: char)
    ensures var n := c as int;
            if n < 0x10000 then LowBytes(c) == [(n % 256) as Byte]
            else exists hi, lo ::
                   && 0xD800 <= hi < 0xDC00 && 0xDC00 <= lo < 0xE000 && 0x10000 + (hi - 0xD800) * 0x400 + (lo - 0xDC00) == n
                   && LowBytes(c) == [(hi % 256) as Byte, (lo % 256) as Byte]
  {
    var n := c as int;
    if n >= 0x10000 {
      var hi, lo := 0xD800 + (n - 0x10000) / 0x400, 0xDC00 + (n - 0x10000) % 0x400;
      assert LowBytes(c) == [(hi % 256) as Byte, (lo % 256) as Byte];
    }
  }

  /** A backslash before anything that is no escape stays, and so does one at the end. */
  lemma OddEscapeIsKept(c: char, rest: string)
    requires !('0' <= c <= '7') && c !in "\\\"abfnrtv"
    ensures UnquoteInner(['\\', c] + rest) == [0x5c] + LowBytes(c) + UnquoteInner(rest)
    ensures UnquoteInner("\\") == [0x5c]
  {
    var s := ['\\', c] + rest;
    var known := "\\\"abfnrtv";
    assert known[0] == '\\' && known[1] == '"' && known[2] == 'a' && known[3] == 'b' && known[4] == 'f';
    assert known[5] == 'n' && known[6] == 'r' && known[7] == 't' && known[8] == 'v';
    assert s[1..] == [c] + rest && s[2..] == rest;
    assert Next(s) == ([BACKSLASH] + LowBytes(c), 2);
    assert Next("\\") == ([BACKSLASH], 1);
    assert UnquoteInner("\\") == Next("\\").0 + UnquoteInner("\\"[1..]);
  }

  /** An octal escape takes up to three digits, as many as there are. */
  lemma OctalIsRead(d: string, rest: string)
    requires 1 <= |d| <= 3 && (forall i :: 0 <= i < |d| ==> '0' <= d[i] <= '7')
    requires |d| < 3 && rest != [] ==> !('0' <= rest[0] <= '7')
    ensures UnquoteInner(['\\'] + d + rest) == [(OctalValue(d) % 256) as Byte] + UnquoteInner(rest)
  {
    var s := ['\\'] + d + rest;
    assert s[1..] == d + rest && OctalRun(d + rest) == |d|;
    assert (d + rest)[..|d|] == d;
    assert s[1 + |d|..] == rest;
  }

  // ---------------------------------------------------------------------------------------------
  // Git's writer

  function Digit(n: nat): char
    requires n < 8
  {
    "01234567"[n]
  }

  function Octal(b: Byte): string {
    var n := b as int;
    ['\\', Digit(n / 64), Digit(n / 8 % 8), Digit(n % 8)]
  }

  /** Bytes below 0x80 that git always escapes. */
  predicate Special(b: Byte) {
    b < 0x20 || b == 0x7f || b == 0x22 || b == 0x5c
  }

  function EscapeByte(b: Byte): string
    requires Special(b)
  {
    if b == 0x07 then "\\a" else if b == 0x08 then "\\b" else if b == 0x09 then "\\t"
    else if b == 0x0a then "\\n" else if b == 0x0b then "\\v" else if b == 0x0c then "\\f"
    else if b == 0x0d then "\\r" else if b == 0x22 then "\\\"" else if b == 0x5c then "\\\\"
    else Octal(b)
  }

  /** One byte inside quotes, with `core.quotepath` at its default. */
  function QuoteByte(b: Byte): string {
    if b >= 0x80 then Octal(b) else if Special(b) then EscapeByte(b) else [b as int as char]
  }

  function QuoteBytes(p: PathBytes): string {
    if p == [] then [] else QuoteByte(p[0]) + QuoteBytes(p[1..])
  }

  lemma OctalOfThree(s: string)
    requires |s| == 3 && OctalDigit(s[0]) && OctalDigit(s[1]) && OctalDigit(s[2])
    ensures OctalValue(s) == DigitValue(s[0]) * 64 + DigitValue(s[1]) * 8 + DigitValue(s[2])
  {
    var s2 := s[..2];
    var s1 := s2[..1];
    assert s1[..0] == [];
    assert OctalValue(s1) == DigitValue(s[0]);
    assert OctalValue(s2) == DigitValue(s[0]) * 8 + DigitValue(s[1]);
  }

  lemma DigitsOf(b: Byte)
    ensures var d := Octal(b)[1..];
            && OctalDigit(d[0]) && OctalDigit(d[1]) && OctalDigit(d[2])
            && DigitValue(d[0]) * 64 + DigitValue(d[1]) * 8 + DigitValue(d[2]) == b as int
  {
    assert forall k: nat :: k < 8 ==> OctalDigit(Digit(k)) && DigitValue(Digit(k)) == k;
  }

  lemma EscapeOfThree(d: string, rest: string, b: Byte)
    requires |d| == 3 && OctalDigit(d[0]) && OctalDigit(d[1]) && OctalDigit(d[2]) && OctalValue(d) == b as int
    ensures Escape(d + rest) == ([b], 3)
  {
    assert (d + rest)[..3] == d;
  }

  /** The text `q` is read as the bytes `bs`, whatever follows it. */
  ghost predicate Reads(q: string, bs: PathBytes) {
    forall rest {:trigger UnquoteInner(q + rest)} :: UnquoteInner(q + rest) == bs + UnquoteInner(rest)
  }

  lemma ReadsConcat(q: string, bs: PathBytes, q': string, bs': PathBytes)
    requires Reads(q, bs) && Reads(q', bs')
    ensures Reads(q + q', bs + bs')
  {
    forall rest
      ensures UnquoteInner(q + q' + rest) == bs + bs' + UnquoteInner(rest)
    {
      ReadsConcatAt(q, bs, q', bs', rest);
    }
  }

  lemma ReadsConcatAt(q: string, bs: PathBytes, q': string, bs': PathBytes, rest: string)
    requires UnquoteInner(q + (q' + rest)) == bs + UnquoteInner(q' + rest)
    requires UnquoteInner(q' + rest) == bs' + UnquoteInner(rest)
    ensures UnquoteInner(q + q' + rest) == bs + bs' + UnquoteInner(rest)
  {
    assert q + q' + rest == q + (q' + rest);
    assert bs + bs' + UnquoteInner(rest) == bs + (bs' + UnquoteInner(rest));
  }

  lemma NextReads(q: string, bs: PathBytes)
    requires q != [] && forall rest {:trigger Next(q + rest)} :: Next(q + rest) == (bs, |q|)
    ensures Reads(q, bs)
  {
    forall rest
      ensures UnquoteInner(q + rest) == bs + UnquoteInner(rest)
    {
      assert (q + rest)[|q|..] == rest;
    }
  }

  lemma OctalIsNext(b: Byte, rest: string)
    ensures Next(Octal(b) + rest) == ([b], 4)
  {
    var q := Octal(b);
    DigitsOf(b);
    OctalOfThree(q[1..]);
    EscapeOfThree(q[1..], rest, b);
    assert (q + rest)[1..] == q[1..] + rest;
  }

  lemma PlainIsNext(b: Byte, rest: string)
    requires b < 0x80 && !Special(b)
    ensures Next([b as int as char] + rest) == ([b], 1)
  {
  }

  lemma EscapeIsNext(b: Byte, c: char, rest: string)
    requires Simple(c) == Some(b) && !OctalDigit(c)
    ensures Next(['\\', c] + rest) == ([b], 2)
  {
    assert (['\\', c] + rest)[1..] == [c] + rest;
  }

  lemma ByteIsNext(b: Byte, rest: string)
    ensures Next(QuoteByte(b) + rest) == ([b], |QuoteByte(b)|)
  {
    if b >= 0x80 || (Special(b) && |EscapeByte(b)| == 4) {
      OctalIsNext(b, rest);
    } else if Special(b) {
      var c := EscapeByte(b)[1];
      assert EscapeByte(b) == ['\\', c];
      EscapeIsNext(b, c, rest);
    } else {
      PlainIsNext(b, rest);
    }
  }

  lemma QuotedByteReads(b: Byte)
    ensures Reads(QuoteByte(b), [b])
  {
    forall rest
      ensures Next(QuoteByte(b) + rest) == ([b], |QuoteByte(b)|)
    {
      ByteIsNext(b, rest);
    }
    NextReads(QuoteByte(b), [b]);
  }

  lemma {:induction false} QuotedBytesRead(p: PathBytes)
    ensures Reads(QuoteBytes(p), p)
  {
    if p == [] {
      forall rest
        ensures UnquoteInner(QuoteBytes(p) + rest) == p + UnquoteInner(rest)
      {
        assert [] + rest == rest;
      }
    } else {
      QuotedBytesRead(p[1..]);
      QuotedByteReads(p[0]);
      ReadsConcat(QuoteByte(p[0]), [p[0]], QuoteBytes(p[1..]), p[1..]);
      assert p == [p[0]] + p[1..];
    }
  }

  /** The reader inverts git's default quoting for every byte string. */
  lemma UnquoteInvertsQuote(p: PathBytes)
    ensures Unquote("\"" + QuoteBytes(p) + "\"") == p
  {
    QuotedBytesRead(p);
    assert QuoteBytes(p) + [] == QuoteBytes(p);
    var field := "\"" + QuoteBytes(p) + "\"";
    assert field[1..|field| - 1] == QuoteBytes(p);
  }

  // ---------------------------------------------------------------------------------------------
  // Text paths, under either setting of core.quotepath

  predicate Ascii(p: string) {
    forall c :: c in p ==> c as int < 0x80
  }

  predicate NeedsEscape(quotePath: bool, c: char) {
    if c as int < 0x80 then Special(c as int as Byte) else quotePath
  }

  predicate Needs(quotePath: bool, p: string) {
    exists c :: c in p && NeedsEscape(quotePath, c)
  }

  /** One character inside quotes: with quotepath off, a non-ASCII character is written raw. */
  function QuoteChar(quotePath: bool, c: char): string {
    if c as int >= 0x80 && !quotePath then [c] else QuoteBytes(Utf8Char(c))
  }

  function QuoteChars(quotePath: bool, p: string): string {
    if p == [] then [] else QuoteChar(quotePath, p[0]) + QuoteChars(quotePath, p[1..])
  }

  /** A path as it stands in a diff header. */
  function Field(quotePath: bool, p: string): string {
    if Needs(quotePath, p) then "\"" + QuoteChars(quotePath, p) + "\"" else p
  }

  /** What one quoted character comes back as. */
  function ReadChar(quotePath: bool, c: char): PathBytes {
    if c as int >= 0x80 && !quotePath then LowBytes(c) else Utf8Char(c)
  }

  function ReadChars(quotePath: bool, p: string): PathBytes {
    if p == [] then [] else ReadChar(quotePath, p[0]) + ReadChars(quotePath, p[1..])
  }

  /** The bytes a header field is read back as. */
  function ReadField(quotePath: bool, p: string): PathBytes {
    if Needs(quotePath, p) then ReadChars(quotePath, p) else Utf8(p)
  }

  lemma QuotedCharReads(quotePath: bool, c: char)
    ensures Reads(QuoteChar(quotePath, c), ReadChar(quotePath, c))
  {
    if c as int >= 0x80 && !quotePath {
      NextReads([c], LowBytes(c));
    } else {
      QuotedBytesRead(Utf8Char(c));
    }
  }

  lemma {:induction false} QuotedCharsRead(quotePath: bool, p: string)
    ensures Reads(QuoteChars(quotePath, p), ReadChars(quotePath, p))
  {
    if p == [] {
      QuotedBytesRead([]);
    } else {
      QuotedCharsRead(quotePath, p[1..]);
      QuotedCharReads(quotePath, p[0]);
      ReadsConcat(QuoteChar(quotePath, p[0]), ReadChar(quotePath, p[0]), QuoteChars(quotePath, p[1..]), ReadChars(quotePath, p[1..]));
    }
  }

  /** A field that needs no quoting holds no quote character, so it is taken as it stands. */
  lemma FieldReads(quotePath: bool, p: string)
    ensures Unquote(Field(quotePath, p)) == ReadField(quotePath, p)
  {
    var f := Field(quotePath, p);
    if Needs(quotePath, p) {
      QuotedCharsRead(quotePath, p);
      assert f[1..|f| - 1] == QuoteChars(quotePath, p) + [];
    } else if IsQuoted(f) {
      assert p[0] in p && NeedsEscape(quotePath, p[0]);
      assert false;
    }
  }

  lemma AsciiParts(p: string)
    requires p != []
    ensures Ascii(p) <==> p[0] as int < 0x80 && Ascii(p[1..])
  {
    assert p[0] in p;
    assert forall c :: c in p[1..] ==> c in p;
    if p[0] as int < 0x80 && Ascii(p[1..]) {
      forall c | c in p
        ensures c as int < 0x80
      {
        if c != p[0] {
          assert c in p[1..];
        }
      }
    }
  }

  lemma {:induction false} ReadCharsLength(quotePath: bool, p: string)
    ensures quotePath || Ascii(p) ==> ReadChars(quotePath, p) == Utf8(p)
    ensures !quotePath && !Ascii(p) ==> |ReadChars(quotePath, p)| < |Utf8(p)|
    ensures |ReadChars(quotePath, p)| <= |Utf8(p)|
  {
    if p != [] {
      ReadCharsLength(quotePath, p[1..]);
      AsciiParts(p);
      var a, b := ReadChar(quotePath, p[0]), Utf8Char(p[0]);
      assert |a| <= |b| && (quotePath || p[0] as int < 0x80 ==> a == b);
      assert !quotePath && p[0] as int >= 0x80 ==> |a| < |b|;
    }
  }

  /** Exactly when a path survives the trip through a header field byte for byte: with quotepath off, as
      the turn patch is produced, a path that needs quoting does if and only if it is plain ASCII. */
  lemma FieldRoundTripsIff(quotePath: bool, p: string)
    ensures Unquote(Field(quotePath, p)) == Utf8(p) <==> quotePath || Ascii(p) || !Needs(quotePath, p)
  {
    FieldReads(quotePath, p);
    ReadCharsLength(quotePath, p);
  }
}
