/**
 Comprehension debt per file: how many completed runs changed it since it was last viewed, joined with
 what the attention store recorded.
 */
module Fog {
  import opened Attention
  import opened Wrappers

  const SURPRISE_BOOST: nat := 8
  const DEBT_LOG_DIVISOR: real := 6.0

  /** A run's receipt; a run still in flight has no end. */
  datatype Receipt = Receipt(repo: string, endedAt: Option<int>, files: seq<string>)

  datatype FogState = NeverSeen | SeenCurrent | Stale

  datatype Entry = Entry(changesSinceSeen: nat, lastChangedAt: int, lastSeenAt: Option<int>, debt: real, state: FogState)

  /** `norm` is the repository normalization and `lg` the base-2 logarithm. */
  datatype FogInput = FogInput(receipts: seq<Receipt>, seen: SeenMap, repos: seq<string>, surprise: SurpriseMap,
                         norm: string -> string, lg: nat -> real)

  /** What is used of the logarithm. */
  ghost predicate LogLike(lg: nat -> real) {
    && lg(1) == 0.0 && lg(64) == 6.0
    && forall m: nat, n: nat :: 1 <= m < n ==> lg(m) < lg(n)
  }

  function Allowed(norm: string -> string, repos: seq<string>): set<string> {
    set r | r in repos :: norm(r)
  }

  predicate Admits(i: FogInput, repo: string) {
    i.norm(repo) in Allowed(i.norm, i.repos)
  }

  /** The views of admitted repositories. */
  function ScopedSeen(i: FogInput): SeenMap {
    map k | k in i.seen && Admits(i, k.0) :: i.seen[k]
  }

  function SeenAt(i: FogInput, k: Key): Option<int> {
    if k in i.seen && Admits(i, k.0) then Some(i.seen[k].lastSeenAt) else None
  }

  /** A completed run of an admitted repository that touched the file. */
  predicate Changes(i: FogInput, k: Key, r: Receipt) {
    r.endedAt.Some? && Admits(i, r.repo) && i.norm(r.repo) == k.0 && k.1 in r.files
  }

  predicate ChangesSinceSeen(i: FogInput, k: Key, r: Receipt) {
    Changes(i, k, r) && r.endedAt.value > SeenAt(i, k).GetOr(0)
  }

  function Count(p: Receipt -> bool, rs: seq<Receipt>): nat {
    if rs == [] then 0 else (if p(rs[0]) then 1 else 0) + Count(p, rs[1..])
  }

  function Later(a: Option<int>, b: Option<int>): Option<int> {
    if a.None? then b else if b.None? then a else Some(Max(a.value, b.value))
  }

  /** The latest end among the runs that satisfy `p`. */
  function Latest(p: Receipt -> bool, rs: seq<Receipt>): Option<int> {
    if rs == [] then None else Later(if p(rs[0]) then rs[0].endedAt else None, Latest(p, rs[1..]))
  }

  function ChangeCount(i: FogInput, k: Key, rs: seq<Receipt>): nat {
    Count(r => ChangesSinceSeen(i, k, r), rs)
  }

  function LastChange(i: FogInput, k: Key, rs: seq<Receipt>): Option<int> {
    Latest(r => Changes(i, k, r), rs)
  }

  function Effective(i: FogInput, k: Key): nat {
    ChangeCount(i, k, i.receipts) + SurpriseCount(i.surprise, k) * SURPRISE_BOOST
  }

  function DebtOf(lg: nat -> real, effective: nat): real {
    var d := lg(1 + effective) / DEBT_LOG_DIVISOR;
    if d < 1.0 then d else 1.0
  }

  function EntryFor(i: FogInput, k: Key): Entry
    requires LastChange(i, k, i.receipts).Some?
  {
    var last := LastChange(i, k, i.receipts).value;
    var seenAt := SeenAt(i, k);
    Entry(ChangeCount(i, k, i.receipts), last, seenAt, DebtOf(i.lg, Effective(i, k)),
          if seenAt.None? then NeverSeen else if seenAt.value >= last then SeenCurrent else Stale)
  }

  // ---------------------------------------------------------------------------------------------
  // The aggregation

  datatype Agg = Agg(changes: nat, lastChangedAt: int)

  /** What the receipts say of one key. */
  function Tally(i: FogInput, k: Key, rs: seq<Receipt>): Option<Agg> {
    var last := LastChange(i, k, rs);
    if last.Some? then Some(Agg(ChangeCount(i, k, rs), last.value)) else None
  }

  /** One more completed run on top of a tally. */
  function Bump(a: Option<Agg>, endedAt: int, since: int): Agg {
    var changes := if a.Some? then a.value.changes else 0;
    Agg(changes + (if endedAt > since then 1 else 0), if a.Some? then Max(a.value.lastChangedAt, endedAt) else endedAt)
  }

  lemma {:induction false} CountConcat(p: Receipt -> bool, a: seq<Receipt>, b: seq<Receipt>)
    ensures Count(p, a + b) == Count(p, a) + Count(p, b)
  {
    if a == [] {
      assert a + b == b;
    } else {
      CountConcat(p, a[1..], b);
      assert (a + b)[0] == a[0] && (a + b)[1..] == a[1..] + b;
    }
  }

  lemma {:induction false} LatestConcat(p: Receipt -> bool, a: seq<Receipt>, b: seq<Receipt>)
    ensures Latest(p, a + b) == Later(Latest(p, a), Latest(p, b))
  {
    if a == [] {
      assert a + b == b;
    } else {
      LatestConcat(p, a[1..], b);
      assert (a + b)[0] == a[0] && (a + b)[1..] == a[1..] + b;
    }
  }

  lemma {:induction false} NothingCounted(p: Receipt -> bool, rs: seq<Receipt>)
    ensures Count(p, rs) == 0 <==> forall r :: r in rs ==> !p(r)
  {
    if rs != [] {
      NothingCounted(p, rs[1..]);
      assert rs == [rs[0]] + rs[1..];
    }
  }

  /** No change, no change since. */
  lemma {:induction false} NoChangeNoCount(i: FogInput, k: Key, rs: seq<Receipt>)
    ensures LastChange(i, k, rs).None? ==> ChangeCount(i, k, rs) == 0
  {
    if rs != [] {
      NoChangeNoCount(i, k, rs[1..]);
    }
  }

  lemma TallyAppend(i: FogInput, k: Key, rs: seq<Receipt>, r: Receipt)
    ensures Tally(i, k, rs + [r])
            == if Changes(i, k, r) then Some(Bump(Tally(i, k, rs), r.endedAt.value, SeenAt(i, k).GetOr(0))) else Tally(i, k, rs)
  {
    var p, q := (r: Receipt) => ChangesSinceSeen(i, k, r), (r: Receipt) => Changes(i, k, r);
    CountConcat(p, rs, [r]);
    LatestConcat(q, rs, [r]);
    NoChangeNoCount(i, k, rs);
    assert [r][1..] == [];
  }

  /** The map holds exactly the tallies of the receipts read so far. */
  ghost predicate Tallies(i: FogInput, aggs: map<Key, Agg>, rs: seq<Receipt>) {
    forall k: Key :: Lookup(aggs, k) == Tally(i, k, rs)
  }

  /** Part of one receipt's files has been added. */
  ghost predicate PartTallies(i: FogInput, aggs: map<Key, Agg>, rs: seq<Receipt>, r: Receipt, done: seq<string>) {
    forall k: Key :: Lookup(aggs, k) == if k.0 == i.norm(r.repo) && k.1 in done then Tally(i, k, rs + [r]) else Tally(i, k, rs)
  }

  lemma PartStarts(i: FogInput, aggs: map<Key, Agg>, rs: seq<Receipt>, r: Receipt)
    requires Tallies(i, aggs, rs)
    ensures PartTallies(i, aggs, rs, r, [])
  {
  }

  /** A file listed twice counts once. */
  lemma PartRepeats(i: FogInput, aggs: map<Key, Agg>, rs: seq<Receipt>, r: Receipt, done: seq<string>, file: string)
    requires PartTallies(i, aggs, rs, r, done) && file in done
    ensures PartTallies(i, aggs, rs, r, done + [file])
  {
    assert forall f :: f in done + [file] <==> f in done;
  }

  lemma PartAdds(i: FogInput, aggs: map<Key, Agg>, rs: seq<Receipt>, r: Receipt, done: seq<string>, file: string)
    requires PartTallies(i, aggs, rs, r, done) && file !in done && file in r.files
    requires r.endedAt.Some? && Admits(i, r.repo)
    ensures var k := (i.norm(r.repo), file);
            PartTallies(i, aggs[k := Bump(Lookup(aggs, k), r.endedAt.value, SeenAt(i, k).GetOr(0))], rs, r, done + [file])
  {
    var k := (i.norm(r.repo), file);
    TallyAppend(i, k, rs, r);
    assert forall f :: f in done + [file] <==> f in done || f == file;
  }

  lemma PartEnds(i: FogInput, aggs: map<Key, Agg>, rs: seq<Receipt>, r: Receipt)
    requires PartTallies(i, aggs, rs, r, r.files)
    ensures Tallies(i, aggs, rs + [r])
  {
    forall k: Key
      ensures Lookup(aggs, k) == Tally(i, k, rs + [r])
    {
      TallyAppend(i, k, rs, r);
    }
  }

  lemma SkippedReceipt(i: FogInput, aggs: map<Key, Agg>, rs: seq<Receipt>, r: Receipt)
    requires Tallies(i, aggs, rs) && (r.endedAt.None? || !Admits(i, r.repo))
    ensures Tallies(i, aggs, rs + [r])
  {
    forall k: Key
      ensures Lookup(aggs, k) == Tally(i, k, rs + [r])
    {
      TallyAppend(i, k, rs, r);
    }
  }

  method AddFiles(i: FogInput, seen: SeenMap, start: map<Key, Agg>, ghost rs: seq<Receipt>, r: Receipt) returns (aggs: map<Key, Agg>)
    requires Tallies(i, start, rs) && r.endedAt.Some? && Admits(i, r.repo) && seen == ScopedSeen(i)
    ensures Tallies(i, aggs, rs + [r])
  {
    aggs := start;
    PartStarts(i, aggs, rs, r);
    for j := 0 to |r.files|
      invariant PartTallies(i, aggs, rs, r, r.files[..j])
    {
      var file := r.files[j];
      assert r.files[..j + 1] == r.files[..j] + [file];
      if file in r.files[..j] {
        PartRepeats(i, aggs, rs, r, r.files[..j], file);
      } else {
        PartAdds(i, aggs, rs, r, r.files[..j], file);
        var k := (i.norm(r.repo), file);
        var since := if k in seen then seen[k].lastSeenAt else 0;
        aggs := aggs[k := Bump(Lookup(aggs, k), r.endedAt.value, since)];
      }
    }
    assert r.files[..|r.files|] == r.files;
    PartEnds(i, aggs, rs, r);
  }

  /** The list has an entry for exactly the files some completed, admitted run changed, and each entry
      counts exactly the runs since the last view, each run once. */
  method ComputeFog(i: FogInput) returns (fog: map<Key, Entry>)
    ensures forall k: Key ::
              k in fog <==> exists r :: r in i.receipts && r.endedAt.Some? && k.1 in r.files
                                        && k.0 == i.norm(r.repo) && k.0 in Allowed(i.norm, i.repos)
    ensures forall k :: k in fog ==> LastChange(i, k, i.receipts).Some? && fog[k] == EntryFor(i, k)
  {
    var seen := ScopedSeen(i);
    var aggs: map<Key, Agg> := map[];
    for n := 0 to |i.receipts|
      invariant Tallies(i, aggs, i.receipts[..n])
    {
      var r := i.receipts[n];
      assert i.receipts[..n + 1] == i.receipts[..n] + [r];
      if Admits(i, r.repo) && r.endedAt.Some? {
        aggs := AddFiles(i, seen, aggs, i.receipts[..n], r);
      } else {
        SkippedReceipt(i, aggs, i.receipts[..n], r);
      }
    }
    assert i.receipts[..|i.receipts|] == i.receipts;
    fog := map k | k in aggs :: Joined(i, seen, k, aggs[k]);
    forall k: Key
      ensures k in fog <==> exists r :: r in i.receipts && r.endedAt.Some? && k.1 in r.files
                                        && k.0 == i.norm(r.repo) && k.0 in Allowed(i.norm, i.repos)
      ensures k in fog ==> LastChange(i, k, i.receipts).Some? && fog[k] == EntryFor(i, k)
    {
      assert Lookup(aggs, k) == Tally(i, k, i.receipts);
      LatestIff(i, k, i.receipts);
    }
  }

  function Joined(i: FogInput, seen: SeenMap, k: Key, a: Agg): Entry {
    var seenAt := if k in seen then Some(seen[k].lastSeenAt) else None;
    Entry(a.changes, a.lastChangedAt, seenAt, DebtOf(i.lg, a.changes + SurpriseCount(i.surprise, k) * SURPRISE_BOOST),
          if seenAt.None? then NeverSeen else if seenAt.value >= a.lastChangedAt then SeenCurrent else Stale)
  }

  lemma {:induction false} LatestIff(i: FogInput, k: Key, rs: seq<Receipt>)
    ensures LastChange(i, k, rs).Some? <==> exists r :: r in rs && Changes(i, k, r)
    ensures LastChange(i, k, rs).Some? ==> forall r :: r in rs && Changes(i, k, r) ==> r.endedAt.value <= LastChange(i, k, rs).value
  {
    if rs != [] {
      LatestIff(i, k, rs[1..]);
      assert rs == [rs[0]] + rs[1..];
      assert forall r :: r in rs <==> r == rs[0] || r in rs[1..];
    }
  }

  // ---------------------------------------------------------------------------------------------
  // Debt

  lemma DebtMonotone(lg: nat -> real, m: nat, n: nat)
    requires LogLike(lg) && m <= n
    ensures DebtOf(lg, m) <= DebtOf(lg, n)
  {
    if m < n {
      assert lg(1 + m) < lg(1 + n);
    }
  }

  /** Debt is between 0 and 1; it is 0 exactly without changes or surprises, and saturates at 63. */
  lemma DebtRange(lg: nat -> real, n: nat)
    requires LogLike(lg)
    ensures 0.0 <= DebtOf(lg, n) <= 1.0
    ensures DebtOf(lg, n) == 0.0 <==> n == 0
    ensures DebtOf(lg, n) == 1.0 <==> n >= 63
  {
    if n > 0 {
      assert lg(1) < lg(1 + n);
    }
    if n < 63 {
      assert lg(1 + n) < lg(64);
    } else if n > 63 {
      assert lg(64) < lg(1 + n);
    }
  }

  /** The positions of the receipts that satisfy `p`. */
  function Places(p: Receipt -> bool, rs: seq<Receipt>): set<nat> {
    set j | 0 <= j < |rs| && p(rs[j])
  }

  lemma {:induction false} CountIsPlaces(p: Receipt -> bool, rs: seq<Receipt>)
    ensures Count(p, rs) == |Places(p, rs)|
  {
    if rs == [] {
      assert Places(p, rs) == {};
    } else {
      var init, last := rs[..|rs| - 1], rs[|rs| - 1];
      assert rs == init + [last] && [last][1..] == [];
      CountConcat(p, init, [last]);
      CountIsPlaces(p, init);
      assert Places(p, rs) == Places(p, init) + (if p(last) then {|rs| - 1} else {});
    }
  }

  /** What an entry says: the file was never seen if no view of it is stored in an allowed repository, is
      current if every completed change ended by then, and stale otherwise; it counts each receipt that ended
      later, once; and its debt is the logarithm of that count and of eight for each surprise, up to 1. */
  lemma EntryMeans(i: FogInput, k: Key)
    requires LogLike(i.lg) && LastChange(i, k, i.receipts).Some?
    ensures var e := EntryFor(i, k);
            var seen := k in i.seen && i.norm(k.0) in Allowed(i.norm, i.repos);
            && (e.state == NeverSeen <==> !seen)
            && (e.state == SeenCurrent <==> seen && ChangedBy(i, k, i.seen[k].lastSeenAt))
            && (e.state == Stale <==> seen && exists r :: r in i.receipts && Changes(i, k, r) && r.endedAt.value > i.seen[k].lastSeenAt)
            && e.lastSeenAt == (if seen then Some(i.seen[k].lastSeenAt) else None)
            && (exists r :: r in i.receipts && Changes(i, k, r) && r.endedAt.value == e.lastChangedAt)
            && ChangedBy(i, k, e.lastChangedAt)
    ensures var e := EntryFor(i, k);
            var n := e.changesSinceSeen + 8 * SurpriseCount(i.surprise, k);
            && e.changesSinceSeen == |Places(r => ChangesSinceSeen(i, k, r), i.receipts)|
            && e.debt == if n >= 63 then 1.0 else i.lg(1 + n) / 6.0
  {
    LatestIff(i, k, i.receipts);
    LatestIsOne(i, k, i.receipts);
    CountIsPlaces(r => ChangesSinceSeen(i, k, r), i.receipts);
    DebtRange(i.lg, Effective(i, k));
  }

  lemma {:induction false} LatestIsOne(i: FogInput, k: Key, rs: seq<Receipt>)
    requires LastChange(i, k, rs).Some?
    ensures exists r :: r in rs && Changes(i, k, r) && r.endedAt == LastChange(i, k, rs)
  {
    assert rs == [rs[0]] + rs[1..];
    if LastChange(i, k, rs[1..]).Some? {
      LatestIsOne(i, k, rs[1..]);
    }
  }

  /** More receipts, wherever they come in the list, never lower a count or a debt. */
  lemma MoreReceiptsMoreDebt(i: FogInput, a: seq<Receipt>, more: seq<Receipt>, b: seq<Receipt>, k: Key)
    requires LogLike(i.lg) && i.receipts == a + b
    ensures var j := i.(receipts := a + more + b);
            && ChangeCount(i, k, i.receipts) <= ChangeCount(j, k, j.receipts)
            && DebtOf(i.lg, Effective(i, k)) <= DebtOf(j.lg, Effective(j, k))
            && (LastChange(i, k, i.receipts).Some? ==> LastChange(j, k, j.receipts).Some?)
  {
    var j := i.(receipts := a + more + b);
    SameCount(i, j, k, a);
    SameCount(i, j, k, b);
    var p, q := (r: Receipt) => ChangesSinceSeen(j, k, r), (r: Receipt) => Changes(j, k, r);
    var p', q' := (r: Receipt) => ChangesSinceSeen(i, k, r), (r: Receipt) => Changes(i, k, r);
    CountConcat(p', a, b);
    CountConcat(p, a + more, b);
    CountConcat(p, a, more);
    LatestConcat(q', a, b);
    LatestConcat(q, a + more, b);
    LatestConcat(q, a, more);
    DebtMonotone(i.lg, Effective(i, k), Effective(j, k));
  }

  /** Both inputs judge the key's receipts alike. */
  ghost predicate JudgeAlike(i: FogInput, j: FogInput, k: Key) {
    forall r :: Changes(i, k, r) == Changes(j, k, r) && ChangesSinceSeen(i, k, r) == ChangesSinceSeen(j, k, r)
  }

  lemma {:induction false} SameCount(i: FogInput, j: FogInput, k: Key, rs: seq<Receipt>)
    requires JudgeAlike(i, j, k)
    ensures ChangeCount(i, k, rs) == ChangeCount(j, k, rs) && LastChange(i, k, rs) == LastChange(j, k, rs)
  {
    if rs != [] {
      SameCount(i, j, k, rs[1..]);
    }
  }

  // ---------------------------------------------------------------------------------------------
  // Scoping

  function InScope(i: FogInput, rs: seq<Receipt>): seq<Receipt> {
    if rs == [] then [] else (if Admits(i, rs[0].repo) then [rs[0]] else []) + InScope(i, rs[1..])
  }

  /** Two inputs that a caller restricted to these repositories cannot tell apart. */
  ghost predicate SameScope(i: FogInput, j: FogInput) {
    && i.norm == j.norm && i.repos == j.repos && i.lg == j.lg
    && InScope(i, i.receipts) == InScope(j, j.receipts)
    && ScopedSeen(i) == ScopedSeen(j)
    && (forall k: Key :: k.0 in Allowed(i.norm, i.repos) ==> SurpriseCount(i.surprise, k) == SurpriseCount(j.surprise, k))
  }

  lemma {:induction false} OnlyScopeCounts(i: FogInput, k: Key, rs: seq<Receipt>)
    ensures ChangeCount(i, k, InScope(i, rs)) == ChangeCount(i, k, rs)
    ensures LastChange(i, k, InScope(i, rs)) == LastChange(i, k, rs)
  {
    if rs != [] {
      OnlyScopeCounts(i, k, rs[1..]);
      var rest := InScope(i, rs[1..]);
      if Admits(i, rs[0].repo) {
        assert ([rs[0]] + rest)[1..] == rest;
      } else {
        assert [] + rest == rest;
      }
    }
  }

  lemma SeenFromScope(i: FogInput, k: Key)
    ensures SeenAt(i, k) == if k in ScopedSeen(i) then Some(ScopedSeen(i)[k].lastSeenAt) else None
  {
  }

  /** Two-run non-interference: receipts, views and surprises outside the allowed repositories never
      change the result. */
  lemma OutsideNeverMatters(i: FogInput, j: FogInput, k: Key)
    requires SameScope(i, j)
    ensures LastChange(i, k, i.receipts).Some? <==> LastChange(j, k, j.receipts).Some?
    ensures LastChange(i, k, i.receipts).Some? ==> EntryFor(i, k) == EntryFor(j, k)
  {
    SeenFromScope(i, k);
    SeenFromScope(j, k);
    assert JudgeAlike(i, j, k);
    OnlyScopeCounts(i, k, i.receipts);
    OnlyScopeCounts(j, k, j.receipts);
    SameCount(i, j, k, InScope(i, i.receipts));
    LatestIff(i, k, i.receipts);
  }

  /** The store's own repository-restricted reading; `None` is unrestricted. */
  function SeenMapFor(norm: string -> string, seen: SeenMap, repos: Option<seq<string>>): SeenMap {
    if repos.None? then seen else map k | k in seen && k.0 in Allowed(norm, repos.value) :: seen[k]
  }

  /** Stored keys are normalized already. */
  ghost predicate StableKeys(norm: string -> string, seen: SeenMap) {
    forall k :: k in seen ==> norm(k.0) == k.0
  }

  /** Reading the store restricted or whole makes no difference to the list. */
  lemma RestrictedReadSuffices(i: FogInput, k: Key)
    requires StableKeys(i.norm, i.seen)
    ensures var j := i.(seen := SeenMapFor(i.norm, i.seen, Some(i.repos)));
            && (LastChange(i, k, i.receipts).Some? <==> LastChange(j, k, j.receipts).Some?)
            && (LastChange(i, k, i.receipts).Some? ==> EntryFor(i, k) == EntryFor(j, k))
  {
    var j := i.(seen := SeenMapFor(i.norm, i.seen, Some(i.repos)));
    assert ScopedSeen(i) == ScopedSeen(j);
    ScopeAlike(i, j, i.receipts);
    OutsideNeverMatters(i, j, k);
  }

  lemma {:induction false} ScopeAlike(i: FogInput, j: FogInput, rs: seq<Receipt>)
    requires i.norm == j.norm && i.repos == j.repos
    ensures InScope(i, rs) == InScope(j, rs)
  {
    if rs != [] {
      ScopeAlike(i, j, rs[1..]);
    }
  }

  // ---------------------------------------------------------------------------------------------
  // Views and debt together

  /** The fog input taken from the store. */
  ghost predicate ReadsStore(cfg: Config, i: FogInput, s: Store) {
    i.norm == cfg.norm && i.seen == s.seen && i.surprise == s.surprise
  }

  /** No completed change of the file ended after `at`. */
  predicate ChangedBy(i: FogInput, k: Key, at: int) {
    forall r :: r in i.receipts && Changes(i, k, r) ==> r.endedAt.value <= at
  }

  /** Debt is gone exactly when no completed change ended after the stored view and no surprise stands. */
  lemma DebtFreeIff(i: FogInput, k: Key)
    requires LogLike(i.lg)
    ensures DebtOf(i.lg, Effective(i, k)) == 0.0 <==> ChangedBy(i, k, SeenAt(i, k).GetOr(0)) && SurpriseCount(i.surprise, k) == 0
    ensures ChangeCount(i, k, i.receipts) == 0 <==> ChangedBy(i, k, SeenAt(i, k).GetOr(0))
  {
    var p := (r: Receipt) => ChangesSinceSeen(i, k, r);
    NothingCounted(p, i.receipts);
    DebtRange(i.lg, Effective(i, k));
    assert forall r :: ChangesSinceSeen(i, k, r) == p(r);
  }

  /** A recorded view of a diff or a pull request, at or after every completed change of the file,
      takes the file's count and its debt to zero, surprises included. */
  lemma ViewClearsDebt(cfg: Config, s: Store, c: Call, i: FogInput)
    requires LogLike(i.lg) && ReadsStore(cfg, i, Record(cfg, s, c).0)
    requires Record(cfg, s, c).1.Recorded? && GenuineView(c.input.kind) && c.input.file != ""
    requires cfg.norm(cfg.norm(c.input.repo)) == cfg.norm(c.input.repo)
    requires ChangedBy(i, KeyOf(cfg, c.input), c.at)
    requires Admits(i, c.input.repo)
    ensures ChangeCount(i, KeyOf(cfg, c.input), i.receipts) == 0
    ensures DebtOf(i.lg, Effective(i, KeyOf(cfg, c.input))) == 0.0
  {
    var k := KeyOf(cfg, c.input);
    assert c.at <= i.seen[k].lastSeenAt && SurpriseCount(i.surprise, k) == 0;
    assert SeenAt(i, k) == Some(i.seen[k].lastSeenAt);
    DebtFreeIff(i, k);
  }

  /** A coalesced view changes nothing, so it clears the debt only if there was none: a change that ended
      after the stored view, or a surprise since, keeps standing although the file was just looked at. */
  lemma CoalescedViewClearsIff(cfg: Config, s: Store, c: Call, i: FogInput)
    requires LogLike(i.lg) && ReadsStore(cfg, i, Record(cfg, s, c).0) && Record(cfg, s, c).1.Coalesced?
    ensures ReadsStore(cfg, i, s)
    ensures var k := KeyOf(cfg, c.input);
            DebtOf(i.lg, Effective(i, k)) == 0.0
            <==> ChangedBy(i, k, SeenAt(i, k).GetOr(0)) && SurpriseCount(s.surprise, k) == 0
  {
    DebtFreeIff(i, KeyOf(cfg, c.input));
  }

  /** For instance: a run changed the file, then a view, a surprise a second later, and a second view within
      the window.  The list has an entry for the file, its debt is positive, and it shows no change since
      the view. */
  lemma SurpriseOutlivesCoalescedView(norm: string -> string, lg: nat -> real, t: nat, ended: int)
    requires LogLike(lg) && ended <= t
    ensures var cfg := Config(norm, 120);
            var view := Call(Input(DiffViewed, "r", "f", "", ""), "op", false, t, t);
            var tap := Call(Input(Surprise, "r", "f", "", ""), "op", false, t + 1000, t + 1000);
            var again := view.(now := t + 2000, at := t + 2000);
            var s := RecordAll(cfg, EMPTY, [view, tap, again]);
            var i := FogInput([Receipt("r", Some(ended), ["f"])], s.seen, ["r"], s.surprise, norm, lg);
            var k := KeyOf(cfg, view.input);
            && LastChange(i, k, i.receipts) == Some(ended) && EntryFor(i, k).debt > 0.0
            && (norm(norm("r")) == norm("r") ==> EntryFor(i, k).changesSinceSeen == 0 && EntryFor(i, k).state == SeenCurrent)
  {
    var cfg := Config(norm, 120);
    var view := Call(Input(DiffViewed, "r", "f", "", ""), "op", false, t, t);
    var tap := Call(Input(Surprise, "r", "f", "", ""), "op", false, t + 1000, t + 1000);
    var again := view.(now := t + 2000, at := t + 2000);
    var s1 := Record(cfg, EMPTY, view).0;
    var s2 := Record(cfg, s1, tap).0;
    var s3 := Record(cfg, s2, again).0;
    var k := KeyOf(cfg, view.input);
    if CoalesceKey(view.input) == CoalesceKey(tap.input) {
      CleanKeyIsUnique(view.input, tap.input);
    }
    assert SurpriseCount(s2.surprise, k) == 1;
    assert s3.surprise == s2.surprise && s3.seen == s2.seen && k in s3.seen && s3.seen[k].lastSeenAt == t + 1000;
    RecordThree(cfg, EMPTY, view, tap, again);
    OneReceipt(FogInput([Receipt("r", Some(ended), ["f"])], s3.seen, ["r"], s3.surprise, norm, lg), k, Receipt("r", Some(ended), ["f"]));
    DebtRange(lg, Effective(FogInput([Receipt("r", Some(ended), ["f"])], s3.seen, ["r"], s3.surprise, norm, lg), k));
  }

  lemma OneReceipt(i: FogInput, k: Key, r: Receipt)
    requires i.receipts == [r] && Changes(i, k, r)
    ensures LastChange(i, k, i.receipts) == r.endedAt
    ensures ChangeCount(i, k, i.receipts) == if ChangesSinceSeen(i, k, r) then 1 else 0
  {
    TallyAppend(i, k, [], r);
    assert [] + [r] == [r] && LastChange(i, k, []).None?;
  }

  lemma RecordThree(cfg: Config, s: Store, a: Call, b: Call, c: Call)
    ensures RecordAll(cfg, s, [a, b, c]) == Record(cfg, Record(cfg, Record(cfg, s, a).0, b).0, c).0
  {
    assert [a, b, c][1..] == [b, c] && [b, c][1..] == [c] && [c][1..] == [];
    var s1 := Record(cfg, s, a).0;
    var s2 := Record(cfg, s1, b).0;
    assert RecordAll(cfg, s2, [c]) == Record(cfg, s2, c).0;
    assert RecordAll(cfg, s1, [b, c]) == RecordAll(cfg, s2, [c]);
  }
}
