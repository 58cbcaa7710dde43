/**
 The held-patch ledger: an append-only file of newline-separated event lines, read back by replaying
 every line that decodes.  Bytes are modelled exactly, so a crash can cut an append at any byte.
 */
module HeldLedger {
  import opened TextLines
  import opened Wrappers

  const NEWLINE: Byte := 10

  type HoldId = string

  datatype HeldSync = HeldSync(id: HoldId, agentId: string, turn: nat, realDir: string, reason: string, patchBytes: nat)

  datatype Outcome = Applied | Discarded

  datatype Event =
    | Held(h: HeldSync)
    | Resolved(rid: HoldId, outcome: Outcome)
    | Rekeyed(kid: HoldId, newAgentId: string)
  {
    function Id(): HoldId {
      match this
      case Held(h) => h.id
      case Resolved(id, _) => id
      case Rekeyed(id, _) => id
    }
  }

  /** The line format (JSON text in the program).  `decode` covers parsing and the structural check of
      a line; `None` is a torn, foreign or mangled line. */
  datatype Codec = Codec(encode: Event -> seq<Byte>, decode: seq<Byte> -> Option<Event>)

  /** What the format promises: an encoded event is one line that is not blank, reads back as itself
      behind leading padding and as nothing behind any other text, and no part of it short of its end
      reads as anything, whatever stands before it. */
  ghost predicate Sound(c: Codec) {
    && (forall e :: NEWLINE !in c.encode(e) && !Blank(c.encode(e)))
    && (forall t, e :: Padding(t) ==> c.decode(t + c.encode(e)) == Some(e))
    && (forall t, e :: NEWLINE !in t && !Padding(t) ==> c.decode(t + c.encode(e)) == None)
    && (forall t, e, n :: NEWLINE !in t && 0 < n < |c.encode(e)| ==> c.decode(t + c.encode(e)[..n]) == None)
  }

  /** What the format skips at the start of a line (JSON white space other than the newline). */
  predicate Padding(t: seq<Byte>) {
    forall b :: b in t ==> b == 32 || b == 9 || b == 13
  }

  predicate Blank(line: seq<Byte>) {
    forall b :: b in line ==> b == 32 || 9 <= b <= 13
  }

  /** `split("\n")`. */
  function Lines(s: seq<Byte>): seq<seq<Byte>> {
    Split(s, NEWLINE)
  }

  function DecodeLine(c: Codec, line: seq<Byte>): Option<Event> {
    if Blank(line) then None else c.decode(line)
  }

  function Decoded(c: Codec, lines: seq<seq<Byte>>): seq<Event> {
    if lines == [] then []
    else
      var d := DecodeLine(c, lines[0]);
      (if d.Some? then [d.value] else []) + Decoded(c, lines[1..])
  }

  /** The events a file holds. */
  function Events(c: Codec, file: seq<Byte>): seq<Event> {
    Decoded(c, Lines(file))
  }

  // ---------------------------------------------------------------------------------------------
  // The backlog: an insertion-ordered map from id to hold

  type Backlog = seq<HeldSync>

  function WithoutId(b: Backlog, id: HoldId): Backlog {
    if b == [] then [] else (if b[0].id == id then [] else [b[0]]) + WithoutId(b[1..], id)
  }

  /** Set an existing key in place. */
  function Replace(b: Backlog, id: HoldId, f: HeldSync -> HeldSync): Backlog {
    seq(|b|, i requires 0 <= i < |b| => if b[i].id == id then f(b[i]) else b[i])
  }

  predicate HasId(b: Backlog, id: HoldId) {
    exists h :: h in b && h.id == id
  }

  function Step(b: Backlog, e: Event): Backlog {
    match e
    case Held(h) => if HasId(b, h.id) then Replace(b, h.id, _ => h) else b + [h]
    case Resolved(id, _) => WithoutId(b, id)
    case Rekeyed(id, a) => Replace(b, id, (h: HeldSync) => h.(agentId := a))
  }

  function FoldLeft<B, E>(step: (B, E) -> B, b: B, es: seq<E>): B
    decreases |es|
  {
    if es == [] then b else FoldLeft(step, step(b, es[0]), es[1..])
  }

  function Fold(b: Backlog, es: seq<Event>): Backlog {
    FoldLeft(Step, b, es)
  }

  function Replay(c: Codec, file: seq<Byte>): Backlog {
    Fold([], Events(c, file))
  }

  function IdsOf(es: seq<Event>): set<HoldId> {
    set e | e in es :: e.Id()
  }

  // ---------------------------------------------------------------------------------------------
  // Appending

  /** What follows the last newline: a line that was never finished, or nothing. */
  function Tail(file: seq<Byte>): seq<Byte> {
    Remainder(file, NEWLINE)
  }

  /** A fresh line is opened first when the file is seen not to end in a newline; when its last byte
      could not be read nothing is put in front. */
  function Prefix(file: seq<Byte>, tailRead: bool): seq<Byte> {
    if tailRead && file != [] && file[|file| - 1] != NEWLINE then [NEWLINE] else []
  }

  /** The appended line is not glued to an unfinished one. */
  predicate OnOwnLine(file: seq<Byte>, tailRead: bool) {
    tailRead || Padding(Tail(file))
  }

  function Written(c: Codec, file: seq<Byte>, e: Event, tailRead: bool): seq<Byte> {
    Prefix(file, tailRead) + c.encode(e) + [NEWLINE]
  }

  /** The file after an append of which only the first `cut` bytes landed. */
  function Torn(c: Codec, file: seq<Byte>, e: Event, tailRead: bool, cut: nat): seq<Byte> {
    var w := Written(c, file, e, tailRead);
    file + if cut <= |w| then w[..cut] else w
  }

  /** The cut left a complete line behind. */
  predicate Landed(c: Codec, file: seq<Byte>, e: Event, tailRead: bool, cut: nat) {
    cut >= |Prefix(file, tailRead)| + |c.encode(e)|
  }

  lemma {:induction false} DecodedConcat(c: Codec, a: seq<seq<Byte>>, b: seq<seq<Byte>>)
    ensures Decoded(c, a + b) == Decoded(c, a) + Decoded(c, b)
  {
    if a == [] {
      assert a + b == b;
    } else {
      DecodedConcat(c, a[1..], b);
      assert (a + b)[0] == a[0] && (a + b)[1..] == a[1..] + b;
    }
  }

  lemma {:induction false} FoldLeftConcat<B, E>(step: (B, E) -> B, b: B, es: seq<E>, fs: seq<E>)
    ensures FoldLeft(step, b, es + fs) == FoldLeft(step, FoldLeft(step, b, es), fs)
    decreases |es|
  {
    if es == [] {
      assert es + fs == fs;
    } else {
      FoldLeftConcat(step, step(b, es[0]), es[1..], fs);
      assert (es + fs)[1..] == es[1..] + fs;
    }
  }

  lemma FoldConcat(b: Backlog, es: seq<Event>, fs: seq<Event>)
    ensures Fold(b, es + fs) == Fold(Fold(b, es), fs)
  {
    FoldLeftConcat(Step, b, es, fs);
  }

  lemma FoldSingle(b: Backlog, e: Event)
    ensures Fold(b, [e]) == Step(b, e)
  {
    assert FoldLeft(Step, b, [e]) == FoldLeft(Step, Step(b, e), [e][1..]);
  }

  /** The events of the lines that a newline closes. */
  function Settled(c: Codec, file: seq<Byte>): seq<Event> {
    Decoded(c, Complete(file, NEWLINE))
  }

  function DecodedOne(c: Codec, line: seq<Byte>): seq<Event> {
    if DecodeLine(c, line).Some? then [DecodeLine(c, line).value] else []
  }

  lemma TailIsOpen(file: seq<Byte>)
    ensures NEWLINE !in Tail(file)
  {
    RemainderHasNone(file, NEWLINE);
  }

  /** The settled lines and the open one. */
  lemma EventsSplit(c: Codec, file: seq<Byte>)
    ensures Events(c, file) == Settled(c, file) + DecodedOne(c, Tail(file))
  {
    var r := Lines(file);
    assert r == r[..|r| - 1] + [r[|r| - 1]];
    DecodedConcat(c, r[..|r| - 1], [r[|r| - 1]]);
    assert [r[|r| - 1]][1..] == [];
  }

  /** Text without a newline extends the open line and settles nothing. */
  lemma TextExtendsTail(c: Codec, file: seq<Byte>, text: seq<Byte>)
    requires NEWLINE !in text
    ensures Settled(c, file + text) == Settled(c, file) && Tail(file + text) == Tail(file) + text
  {
    TailIsOpen(file);
    SplitResumes(file, text, NEWLINE);
    SplitNone(Tail(file) + text, NEWLINE);
    assert Complete(Tail(file) + text, NEWLINE) == [];
    assert Complete(file, NEWLINE) + [] == Complete(file, NEWLINE);
  }

  /** A newline settles the open line. */
  lemma NewlineSettles(c: Codec, file: seq<Byte>)
    ensures Events(c, file + [NEWLINE]) == Events(c, file)
    ensures Settled(c, file + [NEWLINE]) == Events(c, file) && Tail(file + [NEWLINE]) == []
  {
    assert file + [NEWLINE] == file + [NEWLINE] + [];
    CompleteAfter(file, NEWLINE, []);
    assert Complete<Byte>([], NEWLINE) == [] && Lines(file) + [] == Lines(file);
    EventsSplit(c, file + [NEWLINE]);
    assert DecodedOne(c, []) == [];
  }

  lemma {:induction false} ClosedTail(file: seq<Byte>)
    requires file == [] || file[|file| - 1] == NEWLINE
    ensures Tail(file) == []
  {
    if file != [] {
      assert file == file[..|file| - 1] + [NEWLINE] + [];
      CompleteAfter(file[..|file| - 1], NEWLINE, []);
    }
  }

  /** The file once the prefix landed: it reads as before, and its open line is the one the event will
      be put behind. */
  lemma PrefixKeepsEvents(c: Codec, file: seq<Byte>, tailRead: bool)
    ensures var base := file + Prefix(file, tailRead);
            && Events(c, base) == Events(c, file)
            && Tail(base) == (if tailRead then [] else Tail(file))
            && (Prefix(file, tailRead) == [] ==> base == file)
  {
    if Prefix(file, tailRead) != [] {
      NewlineSettles(c, file);
    } else {
      assert file + [] == file;
      if tailRead {
        ClosedTail(file);
      }
    }
  }

  /** Part of a line, glued to the open one, is no event, and what stood there no longer is. */
  lemma PartialLine(c: Codec, base: seq<Byte>, e: Event, n: nat)
    requires Sound(c) && 0 < n < |c.encode(e)|
    ensures Events(c, base + c.encode(e)[..n]) == Settled(c, base)
  {
    var part := c.encode(e)[..n];
    TailIsOpen(base);
    TextExtendsTail(c, base, part);
    EventsSplit(c, base + part);
    assert c.decode(Tail(base) + part) == None;
  }

  /** A whole line is read exactly when only padding stands before it. */
  lemma WholeLine(c: Codec, base: seq<Byte>, e: Event)
    requires Sound(c)
    ensures Events(c, base + c.encode(e)) == Settled(c, base) + if Padding(Tail(base)) then [e] else []
    ensures Events(c, base + c.encode(e) + [NEWLINE]) == Events(c, base + c.encode(e))
  {
    var enc := c.encode(e);
    TailIsOpen(base);
    TextExtendsTail(c, base, enc);
    EventsSplit(c, base + enc);
    NotBlankBehind(Tail(base), enc);
    NewlineSettles(c, base + enc);
  }

  lemma NotBlankBehind(t: seq<Byte>, text: seq<Byte>)
    requires !Blank(text)
    ensures !Blank(t + text)
  {
    var b :| b in text && !(b == 32 || 9 <= b <= 13);
    assert b in t + text;
  }

  /** Where a cut append leaves the file. */
  lemma TornShape(c: Codec, file: seq<Byte>, e: Event, tailRead: bool, cut: nat)
    ensures var base, n := file + Prefix(file, tailRead), cut - |Prefix(file, tailRead)|;
            Torn(c, file, e, tailRead, cut) == if n < 0 then file
                                               else if n < |c.encode(e)| then base + c.encode(e)[..n]
                                               else if n == |c.encode(e)| then base + c.encode(e)
                                               else base + c.encode(e) + [NEWLINE]
  {
    var w, p, enc := Written(c, file, e, tailRead), Prefix(file, tailRead), c.encode(e);
    if |p| <= cut <= |p| + |enc| {
      assert w[..cut] == p + enc[..cut - |p|];
      assert enc[..|enc|] == enc;
    }
  }

  /** Padding is blank, so an open line of padding holds no event. */
  lemma PaddingHoldsNothing(c: Codec, file: seq<Byte>)
    requires Padding(Tail(file))
    ensures Events(c, file) == Settled(c, file)
  {
    EventsSplit(c, file);
    assert Blank(Tail(file));
  }

  /** Every append, at the level of events.  On a line of its own, wherever the append was cut, the file
      reads as its old events, plus the new one exactly when all of its encoding landed.  Glued to an
      unfinished line, the first byte that lands takes the event of that line, if it held one, and the
      new event is never read. */
  lemma TornAppendEvents(c: Codec, file: seq<Byte>, e: Event, tailRead: bool, cut: nat)
    requires Sound(c)
    ensures Events(c, Torn(c, file, e, tailRead, cut))
            == if OnOwnLine(file, tailRead) then Events(c, file) + if Landed(c, file, e, tailRead, cut) then [e] else []
               else if cut == 0 then Events(c, file)
               else Settled(c, file)
  {
    var base, n := file + Prefix(file, tailRead), cut - |Prefix(file, tailRead)|;
    PrefixKeepsEvents(c, file, tailRead);
    TornShape(c, file, e, tailRead, cut);
    if OnOwnLine(file, tailRead) {
      PaddingHoldsNothing(c, base);
    }
    if n == 0 {
      assert base + c.encode(e)[..0] == base;
    } else if 0 < n < |c.encode(e)| {
      PartialLine(c, base, e, n);
    } else if n >= |c.encode(e)| {
      WholeLine(c, base, e);
    }
  }

  lemma WholeIsTorn(c: Codec, file: seq<Byte>, e: Event, tailRead: bool)
    ensures var full := |Written(c, file, e, tailRead)|;
            Torn(c, file, e, tailRead, full) == file + Written(c, file, e, tailRead) && Landed(c, file, e, tailRead, full)
  {
  }

  /** For every file, a torn tail included: an append that ran to its end adds its event to the history if
      and only if the last byte was read, or nothing but padding stands after the last newline. */
  lemma AppendAddsIff(c: Codec, file: seq<Byte>, e: Event, tailRead: bool)
    requires Sound(c)
    ensures Events(c, file + Written(c, file, e, tailRead)) == Events(c, file) + [e] <==> OnOwnLine(file, tailRead)
  {
    WholeIsTorn(c, file, e, tailRead);
    TornAppendEvents(c, file, e, tailRead, |Written(c, file, e, tailRead)|);
    EventsSplit(c, file);
  }

  /** The history only grew. */
  ghost predicate Extends(es: seq<Event>, fs: seq<Event>) {
    |es| <= |fs| && fs[..|es|] == es
  }

  /** And an append, cut anywhere, leaves the old history in place if and only if it was on its own line,
      or nothing landed, or the unfinished line it was glued to held no event. */
  lemma HistoryKeptIff(c: Codec, file: seq<Byte>, e: Event, tailRead: bool, cut: nat)
    requires Sound(c)
    ensures Extends(Events(c, file), Events(c, Torn(c, file, e, tailRead, cut)))
            <==> OnOwnLine(file, tailRead) || cut == 0 || DecodeLine(c, Tail(file)).None?
  {
    TornAppendEvents(c, file, e, tailRead, cut);
    EventsSplit(c, file);
  }

  /** Replay after an append that ran to its end on its own line is the old replay stepped by the event; a
      crash at any byte of it leaves either the old replay or the stepped one. */
  lemma AppendStepsReplay(c: Codec, file: seq<Byte>, e: Event, tailRead: bool, cut: nat)
    requires Sound(c) && OnOwnLine(file, tailRead)
    ensures Replay(c, file + Written(c, file, e, tailRead)) == Step(Replay(c, file), e)
    ensures Replay(c, Torn(c, file, e, tailRead, cut))
            == if Landed(c, file, e, tailRead, cut) then Step(Replay(c, file), e) else Replay(c, file)
  {
    WholeIsTorn(c, file, e, tailRead);
    TornAppendEvents(c, file, e, tailRead, |Written(c, file, e, tailRead)|);
    TornAppendEvents(c, file, e, tailRead, cut);
    FoldConcat([], Events(c, file), [e]);
    FoldConcat([], Events(c, file), []);
    FoldSingle(Replay(c, file), e);
  }

  // ---------------------------------------------------------------------------------------------
  // Event histories

  /** No hold is entered under an id that the history already mentions. */
  ghost predicate HoldsAreFresh(es: seq<Event>) {
    forall i, j :: 0 <= i < j < |es| && es[j].Held? ==> es[i].Id() != es[j].Id()
  }

  predicate UniqueIds(b: Backlog) {
    forall i, j :: 0 <= i < j < |b| ==> b[i].id != b[j].id
  }

  lemma {:induction false} WithoutIdProps(b: Backlog, id: HoldId)
    ensures forall h :: h in WithoutId(b, id) <==> h in b && h.id != id
    ensures UniqueIds(b) ==> UniqueIds(WithoutId(b, id))
  {
    if b != [] {
      WithoutIdProps(b[1..], id);
      assert b == [b[0]] + b[1..];
    }
  }

  lemma StepKeepsUnique(b: Backlog, e: Event)
    requires UniqueIds(b)
    ensures UniqueIds(Step(b, e))
  {
    match e
    case Held(h) =>
      if !HasId(b, h.id) {
        forall i, j | 0 <= i < j < |b| + 1
          ensures (b + [h])[i].id != (b + [h])[j].id
        {
          assert b[i] in b;
        }
      }
    case Resolved(id, _) => WithoutIdProps(b, id);
    case Rekeyed(id, a) =>
  }

  /** Only a hold line brings an id in. */
  lemma StepIds(b: Backlog, e: Event, id: HoldId)
    ensures HasId(Step(b, e), id) ==> HasId(b, id) || (e.Held? && e.h.id == id)
    ensures e.Held? && e.h.id == id ==> HasId(Step(b, e), id)
    ensures e.Resolved? && e.rid == id ==> !HasId(Step(b, e), id)
  {
    match e
    case Held(h) =>
      var t := Step(b, e);
      if HasId(b, h.id) {
        var g :| g in b && g.id == h.id;
        var i :| 0 <= i < |b| && b[i] == g;
        assert t[i] == h;
        assert forall k :: 0 <= k < |t| ==> t[k].id == b[k].id && b[k] in b;
      } else {
        assert t == b + [h] && h in t;
      }
    case Resolved(rid, _) => WithoutIdProps(b, rid);
    case Rekeyed(_, _) =>
      assert forall k :: 0 <= k < |b| ==> Step(b, e)[k].id == b[k].id && b[k] in b;
  }

  lemma {:induction false} FoldIds(b: Backlog, es: seq<Event>, id: HoldId)
    ensures HasId(Fold(b, es), id) ==> HasId(b, id) || exists e :: e in es && e.Held? && e.h.id == id
    ensures UniqueIds(b) ==> UniqueIds(Fold(b, es))
    decreases |es|
  {
    if es != [] {
      if UniqueIds(b) {
        StepKeepsUnique(b, es[0]);
      }
      StepIds(b, es[0], id);
      FoldIds(Step(b, es[0]), es[1..], id);
    }
  }

  lemma FoldLast(es: seq<Event>, n: nat)
    requires n < |es|
    ensures Fold([], es[..n + 1]) == Step(Fold([], es[..n]), es[n])
  {
    assert es[..n + 1] == es[..n] + [es[n]];
    FoldConcat([], es[..n], [es[n]]);
    FoldSingle(Fold([], es[..n]), es[n]);
  }

  /** In a history whose holds are fresh, an id enters the backlog only at its one hold line, and once a
      resolve line has been read it is out for good: after any line that mentions the id, the id can
      leave but not come in. */
  lemma EntersOnceNeverReturns(es: seq<Event>, id: HoldId, i: nat, n: nat)
    requires HoldsAreFresh(es) && i < n <= |es| && es[i].Id() == id
    ensures es[i].Resolved? ==> !HasId(Fold([], es[..n]), id)
    ensures n < |es| && !HasId(Fold([], es[..n]), id) ==> !HasId(Fold([], es[..n + 1]), id)
  {
    FoldLast(es, i);
    StepIds(Fold([], es[..i]), es[i], id);
    assert es[..n] == es[..i + 1] + es[i + 1..n];
    FoldConcat([], es[..i + 1], es[i + 1..n]);
    FoldIds(Fold([], es[..i + 1]), es[i + 1..n], id);
    if n < |es| {
      FoldLast(es, n);
      StepIds(Fold([], es[..n]), es[n], id);
    }
  }

  /** A rekey changes the owner of one hold and nothing else: same holds, same order, same patches. */
  lemma RekeyKeepsPlace(b: Backlog, id: HoldId, agent: string)
    ensures |Step(b, Rekeyed(id, agent))| == |b|
    ensures forall k :: 0 <= k < |b| ==>
              && Step(b, Rekeyed(id, agent))[k].(agentId := b[k].agentId) == b[k]
              && (b[k].id == id ==> Step(b, Rekeyed(id, agent))[k].agentId == agent)
              && (b[k].id != id ==> Step(b, Rekeyed(id, agent))[k].agentId == b[k].agentId)
  {
  }
}
