/**
 Which processes to signal for one persisted adapter root: the token that identifies it, and the walk
 that lists its process tree children first.
 */
module OrphanReaper {
  import opened Reachability
  import opened Wrappers

  type Pid = int

  datatype ProcEntry = ProcEntry(pid: Pid, ppid: Pid, cmdline: string)

  const MIN_TOKEN: nat := 6

  predicate Distinctive(a: string) {
    |a| >= MIN_TOKEN && a[0] != '-'
  }

  predicate OccursAt(s: string, part: string, i: nat) {
    i + |part| <= |s| && s[i..i + |part|] == part
  }

  predicate Includes(s: string, part: string) {
    exists i :: 0 <= i <= |s| && OccursAt(s, part, i)
  }

  /** The last argument that is distinctive. */
  method DistinctiveToken(cmd: seq<string>) returns (token: Option<string>)
    ensures token.None? <==> forall i :: 0 <= i < |cmd| ==> !Distinctive(cmd[i])
    ensures token.Some? ==> exists i :: 0 <= i < |cmd| && IsLastDistinctive(cmd, i) && token.value == cmd[i]
    ensures token == TokenOf(cmd)
  {
    var i := |cmd| - 1;
    assert cmd[..i + 1] == cmd;
    while i >= 0
      invariant -1 <= i < |cmd|
      invariant forall j :: i < j < |cmd| ==> !Distinctive(cmd[j])
      invariant TokenOf(cmd) == TokenOf(cmd[..i + 1])
    {
      var a := cmd[i];
      assert cmd[..i + 1][..i] == cmd[..i];
      if a != "" && a[0] != '-' && |a| >= MIN_TOKEN {
        assert IsLastDistinctive(cmd, i);
        return Some(a);
      }
      i := i - 1;
    }
    return None;
  }

  predicate IsLastDistinctive(cmd: seq<string>, i: nat)
    requires i < |cmd|
  {
    Distinctive(cmd[i]) && forall j :: i < j < |cmd| ==> !Distinctive(cmd[j])
  }

  function TokenOf(cmd: seq<string>): Option<string> {
    if cmd == [] then None
    else if Distinctive(cmd[|cmd| - 1]) then Some(cmd[|cmd| - 1])
    else TokenOf(cmd[..|cmd| - 1])
  }

  // ---------------------------------------------------------------------------------------------
  // The process tree

  /** Parent to child. */
  function Edges(table: seq<ProcEntry>): set<(Pid, Pid)> {
    set e | e in table :: (e.ppid, e.pid)
  }

  predicate UniquePids(table: seq<ProcEntry>) {
    forall i, j :: 0 <= i < j < |table| ==> table[i].pid != table[j].pid
  }

  /** What a process table is: each pid once, and no process is its own ancestor. */
  ghost predicate Tree(table: seq<ProcEntry>) {
    UniquePids(table) && Acyclic(Edges(table))
  }

  function ChildrenOf(table: seq<ProcEntry>, p: Pid): (cs: seq<Pid>)
    ensures forall c :: c in cs <==> (p, c) in Edges(table)
  {
    if table == [] then []
    else
      assert table == [table[0]] + table[1..];
      (if table[0].ppid == p then [table[0].pid] else []) + ChildrenOf(table[1..], p)
  }

  lemma {:induction false} ChildrenAppend(table: seq<ProcEntry>, e: ProcEntry, p: Pid)
    ensures ChildrenOf(table + [e], p) == ChildrenOf(table, p) + if e.ppid == p then [e.pid] else []
  {
    if table == [] {
      assert [] + [e] == [e] && [e][1..] == [];
    } else {
      ChildrenAppend(table[1..], e, p);
      assert (table + [e])[1..] == table[1..] + [e];
    }
  }

  lemma {:induction false} ChildrenDistinct(table: seq<ProcEntry>, p: Pid)
    requires UniquePids(table)
    ensures forall i, j :: 0 <= i < j < |ChildrenOf(table, p)| ==> ChildrenOf(table, p)[i] != ChildrenOf(table, p)[j]
  {
    if table != [] {
      ChildrenDistinct(table[1..], p);
      var rest := ChildrenOf(table[1..], p);
      forall c | c in rest
        ensures c != table[0].pid
      {
        var e :| e in table[1..] && (e.ppid, e.pid) == (p, c);
        var i :| 0 <= i < |table[1..]| && table[1..][i] == e;
        assert table[i + 1] == e;
      }
    }
  }

  lemma OneParent(table: seq<ProcEntry>)
    requires UniquePids(table)
    ensures SingleParent(Edges(table))
  {
    forall a, b, c | (a, c) in Edges(table) && (b, c) in Edges(table)
      ensures a == b
    {
      var e :| e in table && (e.ppid, e.pid) == (a, c);
      var f :| f in table && (f.ppid, f.pid) == (b, c);
      var i :| 0 <= i < |table| && table[i] == e;
      var j :| 0 <= j < |table| && table[j] == f;
    }
  }

  /** Everything below the listed processes and themselves, each before its parent. */
  ghost function Subtree(table: seq<ProcEntry>, p: Pid): seq<Pid>
    requires Tree(table)
    decreases Height(Edges(table), p), 1, 0
  {
    Subtrees(table, p, ChildrenOf(table, p)) + [p]
  }

  ghost function Subtrees(table: seq<ProcEntry>, p: Pid, cs: seq<Pid>): seq<Pid>
    requires Tree(table) && forall c :: c in cs ==> (p, c) in Edges(table)
    decreases Height(Edges(table), p), 0, |cs|
  {
    if cs == [] then []
    else
      HeightDrops(Edges(table), p, cs[0]);
      Subtree(table, cs[0]) + Subtrees(table, p, cs[1..])
  }

  /** No process is listed before one it leads to; since every process leads to itself, none is listed
      twice. */
  ghost predicate ChildrenFirst(table: seq<ProcEntry>, order: seq<Pid>) {
    forall i, j :: 0 <= i < j < |order| ==> !Reaches(Edges(table), order[i], order[j])
  }

  lemma ChildrenFirstMeans(table: seq<ProcEntry>, order: seq<Pid>)
    requires ChildrenFirst(table, order)
    ensures forall i, j :: 0 <= i < j < |order| ==> order[i] != order[j]
    ensures forall i, j :: 0 <= i < |order| && 0 <= j < |order| && (order[i], order[j]) in Edges(table) && i != j ==> j < i
  {
    forall i, j | 0 <= i < j < |order|
      ensures order[i] != order[j]
    {
      ReachesSelf(Edges(table), order[i]);
    }
    forall i, j | 0 <= i < |order| && 0 <= j < |order| && (order[i], order[j]) in Edges(table) && i != j
      ensures j < i
    {
      EdgeReaches(Edges(table), order[i], order[j]);
    }
  }

  lemma {:induction false} SubtreeHolds(table: seq<ProcEntry>, p: Pid, x: Pid)
    requires Tree(table)
    ensures x in Subtree(table, p) <==> Reaches(Edges(table), p, x)
    decreases Height(Edges(table), p), 1, 0
  {
    var cs := ChildrenOf(table, p);
    SubtreesHold(table, p, cs, x);
    ReachesSelf(Edges(table), p);
    if Reaches(Edges(table), p, x) && x != p {
      var c := FirstEdge(Edges(table), p, x);
      assert c in cs;
    }
    if c :| c in cs && Reaches(Edges(table), c, x) {
      EdgeThenReaches(Edges(table), p, c, x);
    }
  }

  lemma {:induction false} SubtreesHold(table: seq<ProcEntry>, p: Pid, cs: seq<Pid>, x: Pid)
    requires Tree(table) && forall c :: c in cs ==> (p, c) in Edges(table)
    ensures x in Subtrees(table, p, cs) <==> exists c :: c in cs && Reaches(Edges(table), c, x)
    decreases Height(Edges(table), p), 0, |cs|
  {
    if cs != [] {
      HeightDrops(Edges(table), p, cs[0]);
      SubtreeHolds(table, cs[0], x);
      SubtreesHold(table, p, cs[1..], x);
      assert cs == [cs[0]] + cs[1..];
    }
  }

  /** Two children of one process share nothing. */
  lemma SiblingsApart(table: seq<ProcEntry>, p: Pid, c: Pid, d: Pid, x: Pid, y: Pid)
    requires Tree(table) && (p, c) in Edges(table) && (p, d) in Edges(table) && c != d
    requires Reaches(Edges(table), c, x) && Reaches(Edges(table), d, y)
    ensures !Reaches(Edges(table), x, y)
  {
    var es := Edges(table);
    OneParent(table);
    if Reaches(es, x, y) {
      ReachesTrans(es, c, x, y);
      var m: nat :| Path(es, c, y, m);
      var n: nat :| Path(es, d, y, n);
      Comparable(es, c, d, y, m, n);
      var a, b := if Reaches(es, c, d) then c else d, if Reaches(es, c, d) then d else c;
      var q := LastEdge(es, a, b);
    }
  }

  lemma AppendOrder(table: seq<ProcEntry>, first: seq<Pid>, second: seq<Pid>)
    requires ChildrenFirst(table, first) && ChildrenFirst(table, second)
    requires forall x, y :: x in first && y in second ==> !Reaches(Edges(table), x, y)
    ensures ChildrenFirst(table, first + second)
  {
    var all := first + second;
    forall i, j | 0 <= i < j < |all|
      ensures !Reaches(Edges(table), all[i], all[j])
    {
      if i < |first| && j >= |first| {
        assert all[i] == first[i] && all[j] == second[j - |first|];
        assert first[i] in first && second[j - |first|] in second;
      } else if i >= |first| {
        assert all[i] == second[i - |first|] && all[j] == second[j - |first|];
      } else {
        assert all[i] == first[i] && all[j] == first[j];
      }
    }
  }

  lemma {:induction false} SubtreeOrdered(table: seq<ProcEntry>, p: Pid)
    requires Tree(table)
    ensures ChildrenFirst(table, Subtree(table, p))
    decreases Height(Edges(table), p), 1, 0
  {
    var cs := ChildrenOf(table, p);
    ChildrenDistinct(table, p);
    SubtreesOrdered(table, p, cs);
    var below := Subtrees(table, p, cs);
    forall x, y | x in below && y in [p]
      ensures !Reaches(Edges(table), x, y)
    {
      SubtreesHold(table, p, cs, x);
      var c :| c in cs && Reaches(Edges(table), c, x);
      if Reaches(Edges(table), x, p) {
        ReachesTrans(Edges(table), c, x, p);
      }
    }
    AppendOrder(table, below, [p]);
  }

  lemma {:induction false} SubtreesOrdered(table: seq<ProcEntry>, p: Pid, cs: seq<Pid>)
    requires Tree(table) && forall c :: c in cs ==> (p, c) in Edges(table)
    requires forall i, j :: 0 <= i < j < |cs| ==> cs[i] != cs[j]
    ensures ChildrenFirst(table, Subtrees(table, p, cs))
    decreases Height(Edges(table), p), 0, |cs|
  {
    if cs != [] {
      HeightDrops(Edges(table), p, cs[0]);
      SubtreeOrdered(table, cs[0]);
      SubtreesOrdered(table, p, cs[1..]);
      var first, second := Subtree(table, cs[0]), Subtrees(table, p, cs[1..]);
      forall x, y | x in first && y in second
        ensures !Reaches(Edges(table), x, y)
      {
        SubtreeHolds(table, cs[0], x);
        SubtreesHold(table, p, cs[1..], y);
        var d :| d in cs[1..] && Reaches(Edges(table), d, y);
        var k :| 0 <= k < |cs[1..]| && cs[1..][k] == d;
        assert cs[k + 1] == d;
        SiblingsApart(table, p, cs[0], d, x, y);
      }
      AppendOrder(table, first, second);
    }
  }

  // ---------------------------------------------------------------------------------------------
  // The plan

  /** The root is verified: its argv has a token, it is alive, and its command line shows the token. */
  predicate Verified(table: seq<ProcEntry>, rootPid: Pid, cmd: seq<string>) {
    TokenOf(cmd).Some? && exists e :: e in table && e.pid == rootPid && Includes(e.cmdline, TokenOf(cmd).value)
  }

  lemma {:induction false} TokenIsLast(cmd: seq<string>)
    ensures TokenOf(cmd).None? <==> forall i :: 0 <= i < |cmd| ==> !Distinctive(cmd[i])
    ensures TokenOf(cmd).Some? ==> exists i :: 0 <= i < |cmd| && IsLastDistinctive(cmd, i) && TokenOf(cmd).value == cmd[i]
  {
    if cmd != [] {
      var init := cmd[..|cmd| - 1];
      if Distinctive(cmd[|cmd| - 1]) {
        assert IsLastDistinctive(cmd, |cmd| - 1);
      } else {
        TokenIsLast(init);
        if i :| 0 <= i < |init| && IsLastDistinctive(init, i) && TokenOf(init) == Some(init[i]) {
          assert IsLastDistinctive(cmd, i);
        }
      }
    }
  }

  /** The text stands somewhere in the other. */
  lemma IncludesIff(s: string, part: string)
    ensures Includes(s, part) <==> exists before, after :: s == before + part + after
  {
    if i :| 0 <= i <= |s| && OccursAt(s, part, i) {
      assert s == s[..i] + part + s[i + |part|..];
    }
    if before, after :| s == before + part + after {
      assert s[|before|..|before| + |part|] == part;
      assert OccursAt(s, part, |before|);
    }
  }

  /** An argument that tells a process apart: six characters at least, and not an option. */
  predicate TellsApart(a: string) {
    |a| >= 6 && a[0] != '-'
  }

  /** When a persisted root is taken for the process it was: a live process has its pid, and its command line
      contains the last of its arguments that tell it apart. */
  lemma VerifiedIff(table: seq<ProcEntry>, root: Pid, cmd: seq<string>)
    ensures Verified(table, root, cmd)
            <==> exists e, i, before, after ::
                   && e in table && e.pid == root && 0 <= i < |cmd|
                   && TellsApart(cmd[i]) && (forall j :: i < j < |cmd| ==> !TellsApart(cmd[j]))
                   && e.cmdline == before + cmd[i] + after
  {
    TokenIsLast(cmd);
    if Verified(table, root, cmd) {
      var e :| e in table && e.pid == root && Includes(e.cmdline, TokenOf(cmd).value);
      var i :| 0 <= i < |cmd| && IsLastDistinctive(cmd, i) && TokenOf(cmd).value == cmd[i];
      IncludesIff(e.cmdline, cmd[i]);
      assert TellsApart(cmd[i]) && forall j :: i < j < |cmd| ==> !TellsApart(cmd[j]);
    }
    if e, i, before, after :| && e in table && e.pid == root && 0 <= i < |cmd|
                              && TellsApart(cmd[i]) && (forall j :: i < j < |cmd| ==> !TellsApart(cmd[j]))
                              && e.cmdline == before + cmd[i] + after {
      assert IsLastDistinctive(cmd, i);
      var k :| 0 <= k < |cmd| && IsLastDistinctive(cmd, k) && TokenOf(cmd).value == cmd[k];
      assert i == k;
      IncludesIff(e.cmdline, cmd[i]);
    }
  }

  /** The child lists, keyed by parent. */
  ghost predicate Indexes(children: map<Pid, seq<Pid>>, table: seq<ProcEntry>) {
    forall p :: (if p in children then children[p] else []) == ChildrenOf(table, p)
  }

  /** The map with one more child filed. */
  function Filed(children: map<Pid, seq<Pid>>, e: ProcEntry): map<Pid, seq<Pid>> {
    if e.ppid in children then children[e.ppid := children[e.ppid] + [e.pid]] else children[e.ppid := [e.pid]]
  }

  lemma FiledIndexes(children: map<Pid, seq<Pid>>, table: seq<ProcEntry>, e: ProcEntry)
    requires Indexes(children, table)
    ensures Indexes(Filed(children, e), table + [e])
  {
    var after := Filed(children, e);
    forall p
      ensures (if p in after then after[p] else []) == ChildrenOf(table + [e], p)
    {
      ChildrenAppend(table, e, p);
      assert (if p in children then children[p] else []) == ChildrenOf(table, p);
    }
  }

  method IndexChildren(table: seq<ProcEntry>) returns (children: map<Pid, seq<Pid>>)
    ensures Indexes(children, table)
  {
    children := map[];
    for i := 0 to |table|
      invariant Indexes(children, table[..i])
    {
      FiledIndexes(children, table[..i], table[i]);
      assert table[..i + 1] == table[..i] + [table[i]];
      var e := table[i];
      if e.ppid in children {
        children := children[e.ppid := children[e.ppid] + [e.pid]];
      } else {
        children := children[e.ppid := [e.pid]];
      }
    }
    assert table[..|table|] == table;
  }

  /** What the walk below `pid` has left to do once the first `i` of its children are done. */
  ghost predicate WalkGoal(table: seq<ProcEntry>, pid: Pid, cs: seq<Pid>, i: nat, visited: seq<Pid>, order: seq<Pid>)
    requires Tree(table) && i <= |cs| && forall c :: c in cs ==> (pid, c) in Edges(table)
  {
    order + Subtrees(table, pid, cs[i..]) == visited + Subtrees(table, pid, cs)
  }

  lemma WalkNext(table: seq<ProcEntry>, pid: Pid, cs: seq<Pid>, i: nat, visited: seq<Pid>, order: seq<Pid>)
    requires Tree(table) && i < |cs| && forall c :: c in cs ==> (pid, c) in Edges(table)
    requires WalkGoal(table, pid, cs, i, visited, order)
    ensures WalkGoal(table, pid, cs, i + 1, visited, order + Subtree(table, cs[i]))
  {
    var rest := cs[i..];
    assert rest[0] == cs[i] && rest[1..] == cs[i + 1..];
    Regroup(order, Subtree(table, cs[i]), Subtrees(table, pid, cs[i + 1..]));
    assert Subtrees(table, pid, rest) == Subtree(table, rest[0]) + Subtrees(table, pid, rest[1..]);
  }

  lemma WalkEnds(table: seq<ProcEntry>, pid: Pid, cs: seq<Pid>, visited: seq<Pid>, order: seq<Pid>)
    requires Tree(table) && cs == ChildrenOf(table, pid) && WalkGoal(table, pid, cs, |cs|, visited, order)
    ensures order + [pid] == visited + Subtree(table, pid)
  {
    assert cs[|cs|..] == [];
    Regroup(visited, Subtrees(table, pid, cs), [pid]);
  }

  method Walk(children: map<Pid, seq<Pid>>, ghost table: seq<ProcEntry>, pid: Pid, visited: seq<Pid>) returns (order: seq<Pid>)
    requires Tree(table) && Indexes(children, table)
    ensures order == visited + Subtree(table, pid)
    decreases Height(Edges(table), pid)
  {
    order := visited;
    var cs := if pid in children then children[pid] else [];
    assert cs == ChildrenOf(table, pid);
    assert cs[0..] == cs;
    for i := 0 to |cs|
      invariant WalkGoal(table, pid, cs, i, visited, order)
    {
      HeightDrops(Edges(table), pid, cs[i]);
      WalkNext(table, pid, cs, i, visited, order);
      order := Walk(children, table, cs[i], order);
    }
    WalkEnds(table, pid, cs, visited, order);
    order := order + [pid];
  }

  /** The kill list is exactly the root and its transitive children, each once and before its parent,
      the root last; it is empty exactly when the root cannot be verified. */
  method PlanReap(table: seq<ProcEntry>, rootPid: Pid, cmd: seq<string>) returns (kill: seq<Pid>)
    requires Tree(table)
    ensures kill == [] <==> !Verified(table, rootPid, cmd)
    ensures kill != [] ==> forall x :: x in kill <==> Reaches(Edges(table), rootPid, x)
    ensures ChildrenFirst(table, kill)
    ensures kill != [] ==> kill[|kill| - 1] == rootPid
    ensures forall x :: x in kill ==> exists e :: e in table && e.pid == x
  {
    var token := DistinctiveToken(cmd);
    if token.None? {
      return [];
    }
    var k := FindPid(table, rootPid);
    if k == |table| {
      return [];
    }
    if !Includes(table[k].cmdline, token.value) {
      OnlyRow(table, k);
      return [];
    }
    var children := IndexChildren(table);
    kill := Walk(children, table, rootPid, []);
    PlanHolds(table, rootPid, k);
  }

  method FindPid(table: seq<ProcEntry>, pid: Pid) returns (k: nat)
    ensures k <= |table|
    ensures k < |table| ==> table[k].pid == pid
    ensures k == |table| ==> forall e :: e in table ==> e.pid != pid
  {
    k := 0;
    while k < |table| && table[k].pid != pid
      invariant k <= |table| && forall i :: 0 <= i < k ==> table[i].pid != pid
    {
      k := k + 1;
    }
  }

  lemma OnlyRow(table: seq<ProcEntry>, k: nat)
    requires UniquePids(table) && k < |table|
    ensures forall e :: e in table && e.pid == table[k].pid ==> e == table[k]
  {
  }

  lemma PlanHolds(table: seq<ProcEntry>, root: Pid, k: nat)
    requires Tree(table) && k < |table| && table[k].pid == root
    ensures var kill := [] + Subtree(table, root);
            && (forall x :: x in kill <==> Reaches(Edges(table), root, x))
            && ChildrenFirst(table, kill) && kill != [] && kill[|kill| - 1] == root
            && (forall x :: x in kill ==> exists e :: e in table && e.pid == x)
  {
    assert [] + Subtree(table, root) == Subtree(table, root);
    SubtreeOrdered(table, root);
    forall x
      ensures x in Subtree(table, root) <==> Reaches(Edges(table), root, x)
      ensures x in Subtree(table, root) ==> exists e :: e in table && e.pid == x
    {
      SubtreeHolds(table, root, x);
      if Reaches(Edges(table), root, x) && x != root {
        var p := LastEdge(Edges(table), root, x);
        assert (p, x) in Edges(table);
      }
    }
  }

  // ---------------------------------------------------------------------------------------------
  // The two rounds

  /** Signals the processes in order; some are already gone or not ours. */
  method SignalAll(ghost table: seq<ProcEntry>, order: seq<Pid>, delivered: Pid -> bool) returns (sent: seq<Pid>)
    requires ChildrenFirst(table, order)
    ensures forall x :: x in sent <==> x in order && delivered(x)
    ensures ChildrenFirst(table, sent) && |sent| <= |order|
  {
    sent := [];
    for i := 0 to |order|
      invariant forall x :: x in sent <==> x in order[..i] && delivered(x)
      invariant ChildrenFirst(table, sent) && |sent| <= i
    {
      assert order[..i + 1] == order[..i] + [order[i]];
      if delivered(order[i]) {
        forall x | x in sent
          ensures !Reaches(Edges(table), x, order[i])
        {
          var k :| 0 <= k < i && order[..i][k] == x;
          assert order[k] == x;
        }
        sent := sent + [order[i]];
      }
    }
    assert order[..|order|] == order;
  }

  /** Below the root, or the root itself, in a table that verifies the root. */
  ghost predicate BelowVerified(table: Option<seq<ProcEntry>>, root: Pid, cmd: seq<string>, x: Pid) {
    table.Some? && Verified(table.value, root, cmd) && Reaches(Edges(table.value), root, x)
  }

  /** Asks first and kills later.  `None` is a platform without a process table; `ours`: the root still
      exists and belongs to this user.  The first round reaches exactly the verified root's tree.  The
      second reaches exactly what is below a root that the later table verifies again, so nothing else
      is ever killed: not a process whose pid was taken over, and not a child that outlives its root.
      Without a first signal there is no second round. */
  method ReapChain(table: Option<seq<ProcEntry>>, later: Option<seq<ProcEntry>>, root: Pid, cmd: seq<string>, ours: bool,
                   asked: Pid -> bool, killed: Pid -> bool)
    returns (termed: seq<Pid>, reaped: seq<Pid>)
    requires (table.Some? ==> Tree(table.value)) && (later.Some? ==> Tree(later.value))
    ensures forall x :: x in termed <==> ours && BelowVerified(table, root, cmd, x) && asked(x)
    ensures forall x :: x in reaped <==> termed != [] && BelowVerified(later, root, cmd, x) && killed(x)
    ensures table.Some? ==> ChildrenFirst(table.value, termed)
    ensures later.Some? ==> ChildrenFirst(later.value, reaped)
    ensures later.Some? && (forall e :: e in later.value ==> e.pid != root) ==> reaped == []
  {
    termed, reaped := [], [];
    if table.None? {
      return;
    }
    var plan := PlanReap(table.value, root, cmd);
    if plan == [] || !ours {
      return;
    }
    termed := SignalAll(table.value, plan, asked);
    if |termed| == 0 || later.None? {
      return;
    }
    var again := PlanReap(later.value, root, cmd);
    reaped := SignalAll(later.value, again, killed);
  }
}
