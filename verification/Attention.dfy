/**
 What the operator has looked at, per repository and file: views are rate-limited, near-duplicates are
 coalesced, and timestamps only move forward.
 */
module Attention {
  import opened Wrappers
  import L = TextLines

  const COALESCE_WINDOW: int := 30000
  const MINUTE: int := 60000
  const NUL: char := '\0'

  datatype Kind = DiffViewed | AnswerRead | DebriefHeard | PrReviewed | Surprise

  /** What a caller reports; `""` stands for an absent field. */
  datatype Input = Input(kind: Kind, repo: string, file: string, agentId: string, viewerId: string)

  function KindText(k: Kind): string {
    match k
    case DiffViewed => "diff-viewed"
    case AnswerRead => "answer-read"
    case DebriefHeard => "debrief-heard"
    case PrReviewed => "pr-reviewed"
    case Surprise => "surprise"
  }

  /** Five fields, one text. */
  function Join(kind: string, repo: string, file: string, agentId: string, viewerId: string): string {
    kind + [NUL] + (repo + [NUL] + (file + [NUL] + (agentId + [NUL] + viewerId)))
  }

  /** What near-duplicates are recognized by. */
  function CoalesceKey(i: Input): string {
    Join(KindText(i.kind), i.repo, i.file, i.agentId, i.viewerId)
  }

  /** Normalized repository and file. */
  type Key = (string, string)

  datatype SeenEntry = SeenEntry(lastSeenAt: int, byViewer: map<string, int>)

  type SeenMap = map<Key, SeenEntry>
  type SurpriseMap = map<Key, nat>
  type Buckets = map<string, (int, nat)>

  datatype Config = Config(norm: string -> string, limit: nat)

  datatype Store = Store(buckets: Buckets, coalesce: map<string, int>, seen: SeenMap, surprise: SurpriseMap, log: seq<(Input, int)>)

  datatype Result = Recorded | Coalesced | RateLimited | Disabled {
    predicate Ok() {
      Recorded? || Coalesced?
    }
  }

  /** One report, with the switch and the two clock readings it meets. */
  datatype Call = Call(input: Input, rateKey: string, disabled: bool, now: int, at: int)

  predicate UpdatesSeen(k: Kind) {
    k.DiffViewed? || k.PrReviewed? || k.Surprise?
  }

  predicate GenuineView(k: Kind) {
    k.DiffViewed? || k.PrReviewed?
  }

  /** A view of a file. */
  predicate Views(i: Input) {
    UpdatesSeen(i.kind) && i.file != ""
  }

  function KeyOf(cfg: Config, i: Input): Key {
    (cfg.norm(i.repo), i.file)
  }

  function Max(a: int, b: int): int {
    if a < b then b else a
  }

  function BucketKey(key: string): string {
    if key == "" then "unknown" else key
  }

  /** The bucket of one minute, and whether the call is within its limit. */
  function MinuteRate(cfg: Config, b: Buckets, key: string, now: int): (Buckets, bool) {
    var minute := now / MINUTE;
    var k := BucketKey(key);
    if k !in b || b[k].0 != minute then (b[k := (minute, 1)], true)
    else (b[k := (minute, b[k].1 + 1)], b[k].1 + 1 <= cfg.limit)
  }

  function MergeEntry(e: Option<SeenEntry>, viewer: string, at: int): SeenEntry {
    var last := Max(if e.Some? then e.value.lastSeenAt else 0, at);
    var viewers := if e.Some? then e.value.byViewer else map[];
    SeenEntry(last, if viewer == "" then viewers else viewers[viewer := Max(if viewer in viewers then viewers[viewer] else 0, at)])
  }

  function Lookup<K, V>(m: map<K, V>, k: K): Option<V> {
    if k in m then Some(m[k]) else None
  }

  function MergeSeen(s: Store, k: Key, viewer: string, at: int): Store {
    s.(seen := s.seen[k := MergeEntry(Lookup(s.seen, k), viewer, at)])
  }

  function SurpriseCount(m: SurpriseMap, k: Key): nat {
    if k in m then m[k] else 0
  }

  function ResetSurprise(s: Store, k: Key): Store {
    if SurpriseCount(s.surprise, k) == 0 then s else s.(surprise := s.surprise - {k})
  }

  function IncrementSurprise(s: Store, k: Key): Store {
    s.(surprise := s.surprise[k := SurpriseCount(s.surprise, k) + 1])
  }

  /** What an event that is neither refused nor coalesced does. */
  function Note(cfg: Config, s: Store, i: Input, at: int): Store {
    var k := KeyOf(cfg, i);
    var logged := s.(coalesce := s.coalesce[CoalesceKey(i) := at], log := s.log + [(i, at)]);
    var merged := if Views(i) then MergeSeen(logged, k, i.viewerId, at) else logged;
    var reset := if GenuineView(i.kind) && i.file != "" then ResetSurprise(merged, k) else merged;
    if i.kind.Surprise? && i.file != "" then IncrementSurprise(reset, k) else reset
  }

  predicate Coalesces(s: Store, i: Input, at: int) {
    CoalesceKey(i) in s.coalesce && at - s.coalesce[CoalesceKey(i)] < COALESCE_WINDOW
  }

  function Record(cfg: Config, s: Store, c: Call): (Store, Result) {
    if c.disabled then (s, Disabled)
    else
      var (buckets, allowed) := MinuteRate(cfg, s.buckets, c.rateKey, c.now);
      var counted := s.(buckets := buckets);
      if !allowed then (counted, RateLimited)
      else if Coalesces(s, c.input, c.at) then (counted, Coalesced)
      else (Note(cfg, counted, c.input, c.at), Recorded)
  }

  function RecordAll(cfg: Config, s: Store, cs: seq<Call>): Store
    decreases |cs|
  {
    if cs == [] then s else RecordAll(cfg, Record(cfg, s, cs[0]).0, cs[1..])
  }

  // ---------------------------------------------------------------------------------------------
  // The coalescing key

  /** No field holds the separator. */
  predicate Clean(i: Input) {
    NUL !in i.repo && NUL !in i.file && NUL !in i.agentId && NUL !in i.viewerId
  }

  lemma {:induction false} OnePiece(s: string)
    ensures |L.Split(s, NUL)| == 1 <==> NUL !in s
    ensures NUL !in s ==> L.Split(s, NUL) == [s]
  {
    if NUL in s {
      var i :| 0 <= i < |s| && s[i] == NUL;
      assert s == s[..i] + [NUL] + s[i + 1..];
      L.SplitConcat(s[..i], NUL, s[i + 1..]);
    } else {
      L.SplitNone(s, NUL);
    }
  }

  lemma JoinSplits(kind: string, repo: string, file: string, agentId: string, viewerId: string)
    ensures L.Split(Join(kind, repo, file, agentId, viewerId), NUL)
            == L.Split(kind, NUL) + (L.Split(repo, NUL) + (L.Split(file, NUL) + (L.Split(agentId, NUL) + L.Split(viewerId, NUL))))
  {
    L.SplitConcat(agentId, NUL, viewerId);
    L.SplitConcat(file, NUL, agentId + [NUL] + viewerId);
    L.SplitConcat(repo, NUL, file + [NUL] + (agentId + [NUL] + viewerId));
    L.SplitConcat(kind, NUL, repo + [NUL] + (file + [NUL] + (agentId + [NUL] + viewerId)));
  }

  lemma KindTextIsClean(k: Kind)
    ensures NUL !in KindText(k) && forall other :: KindText(other) == KindText(k) ==> other == k
  {
    assert |KindText(DiffViewed)| == 11 == |KindText(AnswerRead)| == |KindText(PrReviewed)|;
    assert KindText(DiffViewed)[0] == 'd' && KindText(AnswerRead)[0] == 'a' && KindText(PrReviewed)[0] == 'p';
    assert |KindText(DebriefHeard)| == 13 && |KindText(Surprise)| == 8;
  }

  /** Five pieces that make up the text of five separator-free fields are those fields. */
  lemma FivePieces(a: seq<seq<char>>, b: seq<seq<char>>, c: seq<seq<char>>, d: seq<seq<char>>, e: seq<seq<char>>, fields: seq<seq<char>>)
    requires |a| >= 1 && |b| >= 1 && |c| >= 1 && |d| >= 1 && |e| >= 1 && |fields| == 5
    requires a + (b + (c + (d + e))) == fields
    ensures a == [fields[0]] && b == [fields[1]] && c == [fields[2]] && d == [fields[3]] && e == [fields[4]]
  {
    var all := a + (b + (c + (d + e)));
    assert |all| == |a| + |b| + |c| + |d| + |e|;
    assert all[0] == a[0] && all[1] == b[0] && all[2] == c[0] && all[3] == d[0] && all[4] == e[0];
  }

  function Fields(i: Input): seq<string> {
    [KindText(i.kind), i.repo, i.file, i.agentId, i.viewerId]
  }

  lemma FiveFields(a: string, b: string, c: string, d: string, e: string)
    ensures [a] + ([b] + ([c] + ([d] + [e]))) == [a, b, c, d, e]
  {
  }

  lemma CleanJoinSplits(kind: string, repo: string, file: string, agentId: string, viewerId: string)
    requires NUL !in kind && NUL !in repo && NUL !in file && NUL !in agentId && NUL !in viewerId
    ensures L.Split(Join(kind, repo, file, agentId, viewerId), NUL) == [kind, repo, file, agentId, viewerId]
  {
    JoinSplits(kind, repo, file, agentId, viewerId);
    OnePiece(kind);
    OnePiece(repo);
    OnePiece(file);
    OnePiece(agentId);
    OnePiece(viewerId);
    FiveFields(kind, repo, file, agentId, viewerId);
  }

  lemma CleanKeySplits(i: Input)
    requires Clean(i)
    ensures L.Split(CoalesceKey(i), NUL) == Fields(i)
  {
    KindTextIsClean(i.kind);
    CleanJoinSplits(KindText(i.kind), i.repo, i.file, i.agentId, i.viewerId);
  }

  lemma OnlyPiece(s: string, t: string)
    requires L.Split(s, NUL) == [t]
    ensures s == t
  {
    OnePiece(s);
  }

  lemma SplitsIntoFields(i: Input, fields: seq<string>)
    requires |fields| == 5 && L.Split(CoalesceKey(i), NUL) == fields
    ensures fields == Fields(i)
  {
    JoinSplits(KindText(i.kind), i.repo, i.file, i.agentId, i.viewerId);
    FivePieces(L.Split(KindText(i.kind), NUL), L.Split(i.repo, NUL), L.Split(i.file, NUL), L.Split(i.agentId, NUL),
               L.Split(i.viewerId, NUL), fields);
    OnlyPiece(KindText(i.kind), fields[0]);
    OnlyPiece(i.repo, fields[1]);
    OnlyPiece(i.file, fields[2]);
    OnlyPiece(i.agentId, fields[3]);
    OnlyPiece(i.viewerId, fields[4]);
  }

  /** A report without the separator shares its key with no other report. */
  lemma CleanKeyIsUnique(a: Input, b: Input)
    requires Clean(a) && CoalesceKey(a) == CoalesceKey(b)
    ensures a == b
  {
    CleanKeySplits(a);
    SplitsIntoFields(b, Fields(a));
    assert Fields(a)[0] == Fields(b)[0] && Fields(a)[1] == Fields(b)[1] && Fields(a)[2] == Fields(b)[2];
    assert Fields(a)[3] == Fields(b)[3] && Fields(a)[4] == Fields(b)[4];
    KindTextIsClean(a.kind);
  }

  /** Where the first separator stands in a text. */
  lemma FirstNul(s: string) returns (n: nat)
    requires NUL in s
    ensures n < |s| && s[n] == NUL && NUL !in s[..n] && s == s[..n] + [NUL] + s[n + 1..]
  {
    n := 0;
    while s[n] != NUL
      invariant n < |s| && NUL !in s[..n] && NUL in s[n..]
      decreases |s| - n
    {
      assert s[..n + 1] == s[..n] + [s[n]] && s[n..] == [s[n]] + s[n + 1..];
      n := n + 1;
    }
  }

  /** A report with the separator in its file or agent shares its key with one about another file: the
      field boundary is moved to it. */
  lemma DirtyKeyIsShared(i: Input) returns (other: Input)
    requires NUL in i.file || NUL in i.agentId
    ensures CoalesceKey(other) == CoalesceKey(i) && other.file != i.file
    ensures other.kind == i.kind && other.repo == i.repo && other.viewerId == i.viewerId
  {
    if NUL in i.file {
      var n := FirstNul(i.file);
      var x, y := i.file[..n], i.file[n + 1..];
      other := i.(file := x, agentId := y + [NUL] + i.agentId);
      assert |x| < |i.file|;
      MovedBoundary(x, y, i.agentId, i.viewerId);
    } else {
      var n := FirstNul(i.agentId);
      var x, y := i.agentId[..n], i.agentId[n + 1..];
      other := i.(file := i.file + [NUL] + x, agentId := y);
      assert |other.file| > |i.file|;
      MovedBoundary(i.file, x, y, i.viewerId);
    }
  }

  lemma MovedBoundary(x: string, y: string, z: string, viewer: string)
    ensures (x + [NUL] + y) + [NUL] + (z + [NUL] + viewer) == x + [NUL] + ((y + [NUL] + z) + [NUL] + viewer)
  {
  }

  /** The store's own keys join the normalized repository and the file in the same way; since a path holds
      no separator they stand for the pair, and the repository is read back up to the first separator. */
  lemma StoredKeyIsPair(repo: string, file: string, repo': string, file': string)
    requires NUL !in repo && NUL !in repo'
    ensures repo + [NUL] + file == repo' + [NUL] + file' <==> (repo, file) == (repo', file')
    ensures (repo + [NUL] + file)[..|repo|] == repo && NUL !in (repo + [NUL] + file)[..|repo|]
    ensures (repo + [NUL] + file)[|repo|] == NUL
  {
    var s, t := repo + [NUL] + file, repo' + [NUL] + file';
    L.SplitConcat(repo, NUL, file);
    L.SplitConcat(repo', NUL, file');
    OnePiece(repo);
    OnePiece(repo');
    assert L.Split(s, NUL)[0] == repo && L.Split(t, NUL)[0] == repo';
    assert s[..|repo|] == repo && s[|repo| + 1..] == file && t[|repo'| + 1..] == file';
  }

  // ---------------------------------------------------------------------------------------------
  // What every run keeps

  /** Each viewer's stamp is at most the file's, and the file's is at least every view that opened a
      coalescing window on it, unless its report holds the separator. */
  ghost predicate Inv(cfg: Config, s: Store) {
    && Bounded(s.seen)
    && (forall i :: Clean(i) && Views(i) && CoalesceKey(i) in s.coalesce ==>
          Covers(s.seen, KeyOf(cfg, i), i.viewerId, s.coalesce[CoalesceKey(i)]))
  }

  ghost predicate Bounded(seen: SeenMap) {
    forall k :: k in seen ==> 0 <= seen[k].lastSeenAt && forall v :: v in seen[k].byViewer ==> seen[k].byViewer[v] <= seen[k].lastSeenAt
  }

  /** The map shows the key as seen, by this viewer if there is one, at `at` or later. */
  predicate Covers(seen: SeenMap, k: Key, viewer: string, at: int) {
    && k in seen && at <= seen[k].lastSeenAt
    && (viewer != "" ==> viewer in seen[k].byViewer && at <= seen[k].byViewer[viewer])
  }

  /** No stamp moves backward or disappears. */
  ghost predicate Onward(a: SeenMap, b: SeenMap) {
    forall k :: k in a ==>
      && k in b && a[k].lastSeenAt <= b[k].lastSeenAt
      && (forall v :: v in a[k].byViewer ==> v in b[k].byViewer && a[k].byViewer[v] <= b[k].byViewer[v])
  }

  lemma OnwardTrans(a: SeenMap, b: SeenMap, c: SeenMap)
    requires Onward(a, b) && Onward(b, c)
    ensures Onward(a, c)
  {
  }

  lemma OnwardCovers(a: SeenMap, b: SeenMap, k: Key, viewer: string, at: int)
    requires Onward(a, b) && Covers(a, k, viewer, at)
    ensures Covers(b, k, viewer, at)
  {
  }

  lemma MergeOnward(s: Store, k: Key, viewer: string, at: int)
    ensures var t := MergeSeen(s, k, viewer, at);
            Onward(s.seen, t.seen) && Covers(t.seen, k, viewer, at)
  {
  }

  lemma MergeBounded(s: Store, k: Key, viewer: string, at: int)
    requires Bounded(s.seen)
    ensures Bounded(MergeSeen(s, k, viewer, at).seen)
  {
  }

  lemma NoteSeen(cfg: Config, s: Store, i: Input, at: int)
    ensures var t := Note(cfg, s, i, at);
            && t.coalesce == s.coalesce[CoalesceKey(i) := at]
            && t.seen == if Views(i) then MergeSeen(s, KeyOf(cfg, i), i.viewerId, at).seen else s.seen
  {
  }

  lemma NoteKeepsInv(cfg: Config, s: Store, i: Input, at: int)
    requires Inv(cfg, s)
    ensures Inv(cfg, Note(cfg, s, i, at)) && Onward(s.seen, Note(cfg, s, i, at).seen)
    ensures Views(i) ==> Covers(Note(cfg, s, i, at).seen, KeyOf(cfg, i), i.viewerId, at)
  {
    var t := Note(cfg, s, i, at);
    NoteSeen(cfg, s, i, at);
    MergeOnward(s, KeyOf(cfg, i), i.viewerId, at);
    MergeBounded(s, KeyOf(cfg, i), i.viewerId, at);
    forall j | Clean(j) && Views(j) && CoalesceKey(j) in t.coalesce
      ensures Covers(t.seen, KeyOf(cfg, j), j.viewerId, t.coalesce[CoalesceKey(j)])
    {
      if CoalesceKey(j) == CoalesceKey(i) {
        CleanKeyIsUnique(j, i);
      } else {
        OnwardCovers(s.seen, t.seen, KeyOf(cfg, j), j.viewerId, s.coalesce[CoalesceKey(j)]);
      }
    }
  }

  lemma RecordKeepsInv(cfg: Config, s: Store, c: Call)
    requires Inv(cfg, s)
    ensures var (t, r) := Record(cfg, s, c);
            && Inv(cfg, t) && Onward(s.seen, t.seen)
            && (r.Ok() && Views(c.input) && Clean(c.input) ==> Covers(t.seen, KeyOf(cfg, c.input), c.input.viewerId, c.at - COALESCE_WINDOW + 1))
  {
    var counted := s.(buckets := MinuteRate(cfg, s.buckets, c.rateKey, c.now).0);
    NoteKeepsInv(cfg, counted, c.input, c.at);
  }

  lemma {:induction false} RunKeepsInv(cfg: Config, s: Store, cs: seq<Call>)
    requires Inv(cfg, s)
    ensures Inv(cfg, RecordAll(cfg, s, cs)) && Onward(s.seen, RecordAll(cfg, s, cs).seen)
    decreases |cs|
  {
    if cs != [] {
      var next := Record(cfg, s, cs[0]).0;
      RecordKeepsInv(cfg, s, cs[0]);
      RunKeepsInv(cfg, next, cs[1..]);
      OnwardTrans(s.seen, next.seen, RecordAll(cfg, next, cs[1..]).seen);
    }
  }

  /** Over every run, whatever else is reported: a view of a file without the separator in its report that
      was answered ok at time t leaves, for good, a stored stamp for the file (and for its viewer) later
      than t - 30000, although it may have been coalesced. */
  lemma ViewLeavesStamp(cfg: Config, s: Store, before: seq<Call>, c: Call, after: seq<Call>)
    requires Inv(cfg, s) && Views(c.input) && Clean(c.input)
    requires Record(cfg, RecordAll(cfg, s, before), c).1.Ok()
    ensures Stamped(cfg, RecordAll(cfg, Record(cfg, RecordAll(cfg, s, before), c).0, after), c)
  {
    RunKeepsInv(cfg, s, before);
    var at := RecordAll(cfg, s, before);
    RecordKeepsInv(cfg, at, c);
    var next := Record(cfg, at, c).0;
    RunKeepsInv(cfg, next, after);
    OnwardCovers(next.seen, RecordAll(cfg, next, after).seen, KeyOf(cfg, c.input), c.input.viewerId, c.at - COALESCE_WINDOW + 1);
  }

  /** The store shows the view that the call reports. */
  predicate Stamped(cfg: Config, s: Store, c: Call) {
    Covers(s.seen, KeyOf(cfg, c.input), c.input.viewerId, c.at - COALESCE_WINDOW + 1)
  }

  const EMPTY := Store(map[], map[], map[], map[], [])

  /** The repository is a visible one and the viewer is set by the server: neither holds the separator. */
  predicate Served(c: Call) {
    NUL !in c.input.repo && NUL !in c.input.viewerId
  }

  predicate AllServed(cs: seq<Call>) {
    forall c :: c in cs ==> Served(c)
  }

  /** In every run of such reports from an empty store, a view with this report that is answered ok is
      stamped for good. */
  ghost predicate AlwaysStamped(cfg: Config, i: Input) {
    forall before, c: Call, after ::
      c.input == i && AllServed(before) && Record(cfg, RecordAll(cfg, EMPTY, before), c).1.Ok() ==>
        Stamped(cfg, RecordAll(cfg, Record(cfg, RecordAll(cfg, EMPTY, before), c).0, after), c)
  }

  /** Exactly when: neither the file nor the agent named in the report holds the separator. */
  lemma AlwaysStampedIff(cfg: Config, i: Input)
    requires Views(i) && NUL !in i.repo && NUL !in i.viewerId
    ensures AlwaysStamped(cfg, i) <==> NUL !in i.file && NUL !in i.agentId
  {
    if NUL !in i.file && NUL !in i.agentId {
      forall before, c: Call, after | c.input == i && Record(cfg, RecordAll(cfg, EMPTY, before), c).1.Ok()
        ensures Stamped(cfg, RecordAll(cfg, Record(cfg, RecordAll(cfg, EMPTY, before), c).0, after), c)
      {
        ViewLeavesStamp(cfg, EMPTY, before, c, after);
      }
    } else {
      var other := DirtyKeyIsShared(i);
      var first, c := Call(other, "op", false, MINUTE - 1000, MINUTE - 1000), Call(i, "op", false, MINUTE, MINUTE);
      ViewIsSwallowed(cfg, first, c);
      assert AllServed([first]);
    }
  }

  /** A report about another file with the same key, and a second later the view: it is answered ok and
      leaves no stamp. */
  lemma ViewIsSwallowed(cfg: Config, first: Call, c: Call)
    requires first == Call(first.input, "op", false, MINUTE - 1000, MINUTE - 1000) && c == Call(c.input, "op", false, MINUTE, MINUTE)
    requires CoalesceKey(first.input) == CoalesceKey(c.input) && first.input.file != c.input.file
    ensures var s := RecordAll(cfg, EMPTY, [first]);
            Record(cfg, s, c).1 == Coalesced && !Stamped(cfg, RecordAll(cfg, Record(cfg, s, c).0, []), c)
  {
    var s := Record(cfg, EMPTY, first).0;
    assert [first][1..] == [] && RecordAll(cfg, EMPTY, [first]) == RecordAll(cfg, s, []) == s;
    NoteSeen(cfg, EMPTY.(buckets := MinuteRate(cfg, EMPTY.buckets, "op", first.now).0), first.input, first.at);
    assert s.coalesce == map[CoalesceKey(c.input) := MINUTE - 1000];
    assert KeyOf(cfg, c.input) !in s.seen;
  }

  /** For instance: one report names a file `f`, NUL, `x` and agent `y`, the view names file `f` and agent
      `x`, NUL, `y`. */
  lemma OkViewWithoutStamp(cfg: Config)
    ensures var first := Call(Input(DiffViewed, "r", "f" + [NUL] + "x", "y", "v"), "op", false, MINUTE - 1000, MINUTE - 1000);
            var view := Call(Input(DiffViewed, "r", "f", "x" + [NUL] + "y", "v"), "op", false, MINUTE, MINUTE);
            var s := RecordAll(cfg, EMPTY, [first]);
            Record(cfg, s, view).1 == Coalesced && Record(cfg, s, view).1.Ok() && KeyOf(cfg, view.input) !in Record(cfg, s, view).0.seen
  {
    var first := Call(Input(DiffViewed, "r", "f" + [NUL] + "x", "y", "v"), "op", false, MINUTE - 1000, MINUTE - 1000);
    var view := Call(Input(DiffViewed, "r", "f", "x" + [NUL] + "y", "v"), "op", false, MINUTE, MINUTE);
    MovedBoundary("f", "x", "y", "v");
    assert |first.input.file| == 3;
    ViewIsSwallowed(cfg, first, view);
    var s := Record(cfg, EMPTY, first).0;
    assert [first][1..] == [] && RecordAll(cfg, EMPTY, [first]) == RecordAll(cfg, s, []) == s;
    NoteSeen(cfg, EMPTY.(buckets := MinuteRate(cfg, EMPTY.buckets, "op", first.now).0), first.input, first.at);
  }

  /** The order in which two views arrive does not matter to what is stored. */
  lemma MergeOrderFree(e: Option<SeenEntry>, v: string, a: int, w: string, b: int)
    ensures MergeEntry(Some(MergeEntry(e, v, a)), w, b) == MergeEntry(Some(MergeEntry(e, w, b)), v, a)
  {
    var x, y := MergeEntry(Some(MergeEntry(e, v, a)), w, b), MergeEntry(Some(MergeEntry(e, w, b)), v, a);
    assert x.byViewer == y.byViewer;
  }

  /** When a unit was visited: by anyone, or by one viewer, who never inherits another's visit. */
  function VisitedBy(e: Option<SeenEntry>, viewer: Option<string>): Option<int> {
    if e.None? then None
    else if viewer.None? then Some(e.value.lastSeenAt)
    else Lookup(e.value.byViewer, viewer.value)
  }

  /** A visit counts for its viewer and for the unit, and for nobody else. */
  lemma VisitIsPerViewer(e: Option<SeenEntry>, v: string, at: int, w: string)
    requires v != ""
    ensures var m := Some(MergeEntry(e, v, at));
            && (w != v ==> VisitedBy(m, Some(w)) == VisitedBy(e, Some(w)))
            && VisitedBy(m, Some(v)) == Some(Max(VisitedBy(e, Some(v)).GetOr(0), at))
            && VisitedBy(m, None) == Some(Max(VisitedBy(e, None).GetOr(0), at))
  {
  }

  /** A completion stamp only moves forward. */
  function Complete(m: map<string, int>, agent: string, at: int): map<string, int> {
    if agent in m && m[agent] >= at then m else m[agent := at]
  }

  /** Stamps may be replayed in any order: the latest stands. */
  lemma CompletionOrderFree(m: map<string, int>, agent: string, a: int, other: string, b: int)
    ensures Complete(Complete(m, agent, a), other, b) == Complete(Complete(m, other, b), agent, a)
    ensures agent in Complete(m, agent, a) && a <= Complete(m, agent, a)[agent]
  {
    if agent != other {
      assert m[agent := a][other := b] == m[other := b][agent := a];
    }
  }

  // ---------------------------------------------------------------------------------------------
  // The rate limit

  /** How many calls of one bucket are allowed in one minute; a call is its key and its time. */
  function AllowedInMinute(cfg: Config, b: Buckets, calls: seq<(string, int)>, k: string, minute: int): nat
    decreases |calls|
  {
    if calls == [] then 0
    else
      var (next, ok) := MinuteRate(cfg, b, calls[0].0, calls[0].1);
      (if ok && BucketKey(calls[0].0) == k && calls[0].1 / MINUTE == minute then 1 else 0)
      + AllowedInMinute(cfg, next, calls[1..], k, minute)
  }

  /** Minutes never run backward. */
  predicate InOrder(calls: seq<(string, int)>, start: int) {
    calls != [] ==> start <= calls[0].1 / MINUTE && InOrder(calls[1..], calls[0].1 / MINUTE)
  }

  /** What a bucket can still allow in a minute. */
  function Remaining(cfg: Config, b: Buckets, k: string, minute: int, now: int): int {
    if now > minute then 0
    else if k in b && b[k].0 == minute then Max(0, cfg.limit - b[k].1)
    else Max(1, cfg.limit)
  }

  lemma {:induction false} RateBounded(cfg: Config, b: Buckets, calls: seq<(string, int)>, k: string, minute: int, start: int)
    requires InOrder(calls, start) && (k in b ==> b[k].0 <= start)
    ensures AllowedInMinute(cfg, b, calls, k, minute) <= Remaining(cfg, b, k, minute, start)
    decreases |calls|
  {
    if calls != [] {
      var next := MinuteRate(cfg, b, calls[0].0, calls[0].1).0;
      RateBounded(cfg, next, calls[1..], k, minute, calls[0].1 / MINUTE);
    }
  }

  /** For every sequence of calls with a clock that never runs backward, one caller is allowed at most its
      limit in a minute (and always the first call). */
  lemma MinuteRateIsBounded(cfg: Config, calls: seq<(string, int)>, k: string, minute: int, start: int)
    requires InOrder(calls, start)
    ensures AllowedInMinute(cfg, map[], calls, k, minute) <= Max(1, cfg.limit)
  {
    RateBounded(cfg, map[], calls, k, minute, start);
  }

  /** A caller without a name shares the bucket of the one called unknown. */
  predicate Names(key: string, k: string) {
    key == k || (key == "" && k == "unknown")
  }

  /** How many calls of one caller fall into one minute. */
  function CallsInMinute(calls: seq<(string, int)>, k: string, minute: int): nat {
    if calls == [] then 0
    else (if Names(calls[0].0, k) && calls[0].1 / 60000 == minute then 1 else 0) + CallsInMinute(calls[1..], k, minute)
  }

  lemma {:induction false} NoneInPast(calls: seq<(string, int)>, k: string, minute: int, start: int)
    requires InOrder(calls, start) && minute < start
    ensures CallsInMinute(calls, k, minute) == 0
  {
    if calls != [] {
      NoneInPast(calls[1..], k, minute, calls[0].1 / MINUTE);
    }
  }

  /** What is allowed of `n` calls of one minute, `used` of which were made before. */
  function AllowedOf(limit: nat, used: nat, n: nat): nat {
    if n == 0 then 0
    else if used == 0 then Max(1, if n < limit then n else limit)
    else if used + n <= limit then n
    else Max(0, limit - used)
  }

  lemma {:induction false} RateExact(cfg: Config, b: Buckets, calls: seq<(string, int)>, k: string, minute: int, start: int)
    requires k != "" && InOrder(calls, start) && (k in b ==> b[k].0 <= start && b[k].1 > 0)
    ensures AllowedInMinute(cfg, b, calls, k, minute)
            == AllowedOf(cfg.limit, if k in b && b[k].0 == minute then b[k].1 else 0, CallsInMinute(calls, k, minute))
    decreases |calls|
  {
    if calls != [] {
      var next := MinuteRate(cfg, b, calls[0].0, calls[0].1).0;
      assert BucketKey(calls[0].0) == k <==> Names(calls[0].0, k);
      RateExact(cfg, next, calls[1..], k, minute, calls[0].1 / MINUTE);
      if k in b && b[k].0 == minute && minute < calls[0].1 / MINUTE {
        NoneInPast(calls[1..], k, minute, calls[0].1 / MINUTE);
      }
    }
  }

  /** The bound is exact: of a caller's calls in one minute, all are allowed up to the limit, and always the
      first. */
  lemma MinuteRateIsExact(cfg: Config, calls: seq<(string, int)>, k: string, minute: int, start: int)
    requires k != "" && InOrder(calls, start)
    ensures var n := CallsInMinute(calls, k, minute);
            AllowedInMinute(cfg, map[], calls, k, minute) == if n <= cfg.limit then n else Max(1, cfg.limit)
  {
    RateExact(cfg, map[], calls, k, minute, start);
  }

  // ---------------------------------------------------------------------------------------------
  // The maps and the log

  type Log = seq<(Input, int)>

  /** The latest view of a file in the log, by anyone or by one viewer; stamps before 0 count as 0. */
  function LatestView(cfg: Config, log: Log, k: Key, who: Option<string>): Option<int> {
    if log == [] then None
    else
      var rest, i, at := LatestView(cfg, log[..|log| - 1], k, who), log[|log| - 1].0, log[|log| - 1].1;
      if (i.kind.DiffViewed? || i.kind.PrReviewed? || i.kind.Surprise?) && i.file == k.1 != "" && cfg.norm(i.repo) == k.0
         && (who.None? || who.value == i.viewerId)
      then Some(Max(rest.GetOr(0), at)) else rest
  }

  /** The surprises about a file in the log since its last diff or review view. */
  function Surprises(cfg: Config, log: Log, k: Key): nat {
    if log == [] then 0
    else
      var rest, i := Surprises(cfg, log[..|log| - 1], k), log[|log| - 1].0;
      if i.file == "" || i.file != k.1 || cfg.norm(i.repo) != k.0 then rest
      else if i.kind.Surprise? then rest + 1
      else if i.kind.DiffViewed? || i.kind.PrReviewed? then 0
      else rest
  }

  predicate LoggedSince(log: Log, key: string, at: int) {
    exists n :: 0 <= n < |log| && CoalesceKey(log[n].0) == key && at - log[n].1 < 30000
  }

  /** The maps say what the log says. */
  ghost predicate FollowsLog(cfg: Config, s: Store) {
    && (forall k: Key :: k.1 != "" ==> SurpriseCount(s.surprise, k) == Surprises(cfg, s.log, k))
    && (forall k: Key, who: Option<string> :: who != Some("") ==>
          VisitedBy(Lookup(s.seen, k), who) == LatestView(cfg, s.log, k, who))
    && (forall key, at :: (key in s.coalesce && at - s.coalesce[key] < 30000) <==> LoggedSince(s.log, key, at))
  }

  lemma LogMore(cfg: Config, log: Log, i: Input, at: int, k: Key, who: Option<string>)
    ensures var more := log + [(i, at)];
            && more != [] && more[..|more| - 1] == log && more[|more| - 1] == (i, at)
  {
  }

  lemma NoteSurprise(cfg: Config, s: Store, i: Input, at: int, k: Key)
    ensures var t := Note(cfg, s, i, at);
            && t.log == s.log + [(i, at)]
            && SurpriseCount(t.surprise, k) == if i.file == "" || k != KeyOf(cfg, i) then SurpriseCount(s.surprise, k)
                                               else if i.kind.Surprise? then SurpriseCount(s.surprise, k) + 1
                                               else if GenuineView(i.kind) then 0
                                               else SurpriseCount(s.surprise, k)
  {
  }

  lemma NoteFollowsSurprises(cfg: Config, s: Store, i: Input, at: int, k: Key)
    requires k.1 != "" && SurpriseCount(s.surprise, k) == Surprises(cfg, s.log, k)
    ensures SurpriseCount(Note(cfg, s, i, at).surprise, k) == Surprises(cfg, Note(cfg, s, i, at).log, k)
  {
    NoteSurprise(cfg, s, i, at, k);
    LogMore(cfg, s.log, i, at, k, None);
  }

  lemma NoteFollowsViews(cfg: Config, s: Store, i: Input, at: int, k: Key, who: Option<string>)
    requires who != Some("") && VisitedBy(Lookup(s.seen, k), who) == LatestView(cfg, s.log, k, who)
    ensures VisitedBy(Lookup(Note(cfg, s, i, at).seen, k), who) == LatestView(cfg, Note(cfg, s, i, at).log, k, who)
  {
    LogMore(cfg, s.log, i, at, k, who);
    NoteSeen(cfg, s, i, at);
    assert Note(cfg, s, i, at).log == s.log + [(i, at)];
  }

  lemma NoteFollowsKeys(cfg: Config, s: Store, i: Input, at: int, key: string, now: int)
    requires forall t :: (key in s.coalesce && t - s.coalesce[key] < 30000) <==> LoggedSince(s.log, key, t)
    requires !Coalesces(s, i, at)
    ensures var t := Note(cfg, s, i, at);
            (key in t.coalesce && now - t.coalesce[key] < 30000) <==> LoggedSince(t.log, key, now)
  {
    var more := s.log + [(i, at)];
    NoteSeen(cfg, s, i, at);
    assert Note(cfg, s, i, at).log == more;
    assert more[|s.log|] == (i, at);
    assert forall n :: 0 <= n < |s.log| ==> more[n] == s.log[n];
    if LoggedSince(s.log, key, now) {
      var n :| 0 <= n < |s.log| && CoalesceKey(s.log[n].0) == key && now - s.log[n].1 < 30000;
      assert CoalesceKey(more[n].0) == key;
    }
  }

  lemma RecordFollows(cfg: Config, s: Store, c: Call)
    requires FollowsLog(cfg, s)
    ensures FollowsLog(cfg, Record(cfg, s, c).0)
  {
    var t := Record(cfg, s, c).0;
    if Record(cfg, s, c).1.Recorded? {
      var counted := s.(buckets := MinuteRate(cfg, s.buckets, c.rateKey, c.now).0);
      forall k: Key | k.1 != ""
        ensures SurpriseCount(t.surprise, k) == Surprises(cfg, t.log, k)
      {
        NoteFollowsSurprises(cfg, counted, c.input, c.at, k);
      }
      forall k: Key, who: Option<string> | who != Some("")
        ensures VisitedBy(Lookup(t.seen, k), who) == LatestView(cfg, t.log, k, who)
      {
        NoteFollowsViews(cfg, counted, c.input, c.at, k, who);
      }
      forall key, at
        ensures (key in t.coalesce && at - t.coalesce[key] < 30000) <==> LoggedSince(t.log, key, at)
      {
        NoteFollowsKeys(cfg, counted, c.input, c.at, key, at);
      }
    }
  }

  /** Over every run from an empty store the log decides what the maps hold: a file's stamps are those of its
      latest logged views, and its surprise count the taps logged since the last genuine view. */
  lemma {:induction false} MapsFollowLog(cfg: Config, cs: seq<Call>)
    ensures FollowsLog(cfg, RecordAll(cfg, EMPTY, cs))
  {
    RunFollows(cfg, EMPTY, cs);
  }

  lemma {:induction false} RunFollows(cfg: Config, s: Store, cs: seq<Call>)
    requires FollowsLog(cfg, s)
    ensures FollowsLog(cfg, RecordAll(cfg, s, cs))
    decreases |cs|
  {
    if cs != [] {
      RecordFollows(cfg, s, cs[0]);
      RunFollows(cfg, Record(cfg, s, cs[0]).0, cs[1..]);
    }
  }

  /** How a report is answered: it is coalesced exactly when one with the same joined text was logged less than
      30 seconds before, and only then, or when it is refused, it leaves the log as it is. */
  lemma AnsweredIff(cfg: Config, before: seq<Call>, c: Call)
    ensures var s := RecordAll(cfg, EMPTY, before);
            var (t, r) := Record(cfg, s, c);
            && (r == Disabled <==> c.disabled)
            && (r == RateLimited <==> !c.disabled && !MinuteRate(cfg, s.buckets, c.rateKey, c.now).1)
            && (r == Coalesced <==> r != Disabled && r != RateLimited && LoggedSince(s.log, CoalesceKey(c.input), c.at))
            && t.log == s.log + if r == Recorded then [(c.input, c.at)] else []
  {
    MapsFollowLog(cfg, before);
  }

  // ---------------------------------------------------------------------------------------------
  // The store object

  class AttentionStore {
    const cfg: Config
    var rateBuckets: Buckets
    var coalesceLast: map<string, int>
    var seenMap: SeenMap
    var surpriseCounts: SurpriseMap
    var raw: seq<(Input, int)>
    var unitVisits: map<string, SeenEntry>
    var completions: map<string, int>

    ghost function View(): Store
      reads this
    {
      Store(rateBuckets, coalesceLast, seenMap, surpriseCounts, raw)
    }

    constructor (cfg: Config, seen: SeenMap, surprise: SurpriseMap)
      ensures View() == Store(map[], map[], seen, surprise, []) && this.cfg == cfg
    {
      this.cfg := cfg;
      rateBuckets, coalesceLast, seenMap, surpriseCounts, raw := map[], map[], seen, surprise, [];
      unitVisits, completions := map[], map[];
    }

    method MinuteRateAllowed(key: string, now: int) returns (allowed: bool)
      modifies this`rateBuckets
      ensures (rateBuckets, allowed) == MinuteRate(cfg, old(rateBuckets), key, now)
    {
      var minute := now / MINUTE;
      var k := if key == "" then "unknown" else key;
      if k !in rateBuckets || rateBuckets[k].0 != minute {
        rateBuckets := rateBuckets[k := (minute, 1)];
        return true;
      }
      var count := rateBuckets[k].1 + 1;
      rateBuckets := rateBuckets[k := (minute, count)];
      return count <= cfg.limit;
    }

    method MergeSeenEntry(k: Key, viewer: string, at: int)
      modifies this`seenMap
      ensures View() == MergeSeen(old(View()), k, viewer, at)
    {
      var last: int, viewers: map<string, int> := 0, map[];
      if k in seenMap {
        last, viewers := seenMap[k].lastSeenAt, seenMap[k].byViewer;
      }
      if viewer != "" {
        viewers := viewers[viewer := Max(if viewer in viewers then viewers[viewer] else 0, at)];
      }
      seenMap := seenMap[k := SeenEntry(Max(last, at), viewers)];
    }

    method MarkUnitVisited(agent: string, viewer: string, stamp: int)
      modifies this`unitVisits
      ensures unitVisits == old(unitVisits)[agent := MergeEntry(Lookup(old(unitVisits), agent), viewer, stamp)]
    {
      var last: int, viewers: map<string, int> := 0, map[];
      if agent in unitVisits {
        last, viewers := unitVisits[agent].lastSeenAt, unitVisits[agent].byViewer;
      }
      if viewer != "" {
        viewers := viewers[viewer := Max(if viewer in viewers then viewers[viewer] else 0, stamp)];
      }
      unitVisits := unitVisits[agent := SeenEntry(Max(last, stamp), viewers)];
    }

    method RecordCompletion(agent: string, at: int)
      modifies this`completions
      ensures completions == Complete(old(completions), agent, at)
    {
      if agent in completions && completions[agent] >= at {
        return;
      }
      completions := completions[agent := at];
    }

    method RecordEvent(c: Call) returns (r: Result)
      modifies this
      ensures (View(), r) == Record(cfg, old(View()), c)
    {
      if c.disabled {
        return Disabled;
      }
      var allowed := MinuteRateAllowed(c.rateKey, c.now);
      if !allowed {
        return RateLimited;
      }
      var i, at := c.input, c.at;
      var coalesceKey := CoalesceKey(i);
      if coalesceKey in coalesceLast && at - coalesceLast[coalesceKey] < COALESCE_WINDOW {
        return Coalesced;
      }
      coalesceLast := coalesceLast[coalesceKey := at];
      raw := raw + [(i, at)];
      var k := (cfg.norm(i.repo), i.file);
      if UpdatesSeen(i.kind) && i.file != "" {
        MergeSeenEntry(k, i.viewerId, at);
      }
      if (i.kind == DiffViewed || i.kind == PrReviewed) && i.file != "" && SurpriseCount(surpriseCounts, k) != 0 {
        surpriseCounts := surpriseCounts - {k};
      }
      if i.kind == Surprise && i.file != "" {
        surpriseCounts := surpriseCounts[k := SurpriseCount(surpriseCounts, k) + 1];
      }
      return Recorded;
    }
  }
}
