/**
 Which agents an actor may inspect or address: for an agent, itself, the agents of its feature, its
 ancestors and its own descendants.
 */
module AgentScope {
  import opened Reachability
  import opened Wrappers

  type Id = string

  /** `""` stands for an absent feature or parent. */
  datatype Agent = Agent(id: Id, featureId: string, parentId: Id)

  datatype Actor = Actor(id: Id, isAgent: bool)

  function Ids(roster: seq<Agent>): set<Id> {
    set a | a in roster :: a.id
  }

  /** Parent to child. */
  function Edges(roster: seq<Agent>): set<(Id, Id)> {
    set a | a in roster && a.parentId != "" :: (a.parentId, a.id)
  }

  predicate UniqueIds(roster: seq<Agent>) {
    forall i, j :: 0 <= i < j < |roster| ==> roster[i].id != roster[j].id
  }

  /** A roster names each agent once, and no agent is its own ancestor. */
  ghost predicate Hierarchy(roster: seq<Agent>) {
    UniqueIds(roster) && Acyclic(Edges(roster))
  }

  /** Exactly who is in scope for the agent `self`. */
  ghost predicate InScope(roster: seq<Agent>, self: Agent, x: Id) {
    && x in Ids(roster)
    && (|| (self.featureId != "" && exists a :: a in roster && a.id == x && a.featureId == self.featureId)
        || Reaches(Edges(roster), x, self.id)
        || Reaches(Edges(roster), self.id, x))
  }

  lemma SameRow(roster: seq<Agent>, a: Agent, b: Agent)
    requires UniqueIds(roster) && a in roster && b in roster && a.id == b.id
    ensures a == b
  {
    var i :| 0 <= i < |roster| && roster[i] == a;
    var j :| 0 <= j < |roster| && roster[j] == b;
  }

  /** The one edge into a listed agent. */
  lemma ParentOf(roster: seq<Agent>, a: Agent, p: Id)
    requires UniqueIds(roster) && a in roster && (p, a.id) in Edges(roster)
    ensures a.parentId != "" && p == a.parentId
  {
    var b :| b in roster && b.parentId != "" && (b.parentId, b.id) == (p, a.id);
    SameRow(roster, a, b);
  }

  lemma ChildIsListed(roster: seq<Agent>, p: Id, c: Id)
    requires (p, c) in Edges(roster)
    ensures c in Ids(roster)
  {
  }

  method Find(roster: seq<Agent>, id: Id) returns (r: Option<Agent>)
    ensures r.Some? ==> r.value in roster && r.value.id == id
    ensures r.None? ==> id !in Ids(roster)
  {
    for i := 0 to |roster|
      invariant forall j :: 0 <= j < i ==> roster[j].id != id
    {
      if roster[i].id == id {
        return Some(roster[i]);
      }
    }
    return None;
  }

  /** Everyone of the roster above `self` that the walk has not collected yet is above `at`. */
  ghost predicate Climbed(roster: seq<Agent>, self: Agent, found: set<Id>, at: Agent) {
    && self in roster && at in roster && at.id in found
    && (forall x :: x in found ==> x in Ids(roster) && Reaches(Edges(roster), x, self.id))
    && (forall x :: x in Ids(roster) && Reaches(Edges(roster), x, self.id) ==> x in found || Reaches(Edges(roster), x, at.id))
  }

  lemma ClimbOne(roster: seq<Agent>, self: Agent, found: set<Id>, at: Agent, p: Agent)
    requires Hierarchy(roster) && Climbed(roster, self, found, at)
    requires at.parentId != "" && p in roster && p.id == at.parentId
    ensures Climbed(roster, self, found + {p.id}, p)
    ensures Depth(Edges(roster), p.id) < Depth(Edges(roster), at.id)
  {
    var es := Edges(roster);
    assert (p.id, at.id) in es;
    DepthDrops(es, p.id, at.id);
    EdgeThenReaches(es, p.id, at.id, self.id);
    forall x | x in Ids(roster) && Reaches(es, x, self.id) && x !in found
      ensures Reaches(es, x, p.id)
    {
      var q := LastEdge(es, x, at.id);
      ParentOf(roster, at, q);
    }
  }

  /** At the top of the chain, or where it leaves the roster, nothing is missing. */
  lemma ClimbEnds(roster: seq<Agent>, self: Agent, found: set<Id>, at: Agent)
    requires Hierarchy(roster) && Climbed(roster, self, found, at)
    requires at.parentId == "" || at.parentId !in Ids(roster)
    ensures forall x :: x in found <==> x in Ids(roster) && Reaches(Edges(roster), x, self.id)
  {
    var es := Edges(roster);
    forall x | x in Ids(roster) && Reaches(es, x, self.id)
      ensures x in found
    {
      if x != at.id && Reaches(es, x, at.id) {
        var q := LastEdge(es, x, at.id);
        ParentOf(roster, at, q);
        if x != q {
          var r := LastEdge(es, x, q);
          ChildIsListed(roster, r, q);
        }
      }
    }
  }

  method Ancestors(roster: seq<Agent>, self: Agent) returns (found: set<Id>)
    requires Hierarchy(roster) && self in roster
    ensures forall x :: x in found <==> x in Ids(roster) && Reaches(Edges(roster), x, self.id)
  {
    found := {self.id};
    var parent := self.parentId;
    ghost var at := self;
    ReachesSelf(Edges(roster), self.id);
    while parent != ""
      invariant Climbed(roster, self, found, at) && parent == at.parentId
      decreases Depth(Edges(roster), at.id)
    {
      var p := Find(roster, parent);
      if p.None? {
        break;
      }
      ClimbOne(roster, self, found, at, p.value);
      found := found + {p.value.id};
      parent := p.value.parentId;
      at := p.value;
    }
    ClimbEnds(roster, self, found, at);
  }

  predicate RowClosed(a: Agent, d: set<Id>) {
    a.parentId != "" && a.parentId in d ==> a.id in d
  }

  lemma RowsClosed(roster: seq<Agent>, d: set<Id>)
    requires forall a :: a in roster ==> RowClosed(a, d)
    ensures Closed(Edges(roster), d)
  {
    forall p, c | (p, c) in Edges(roster) && p in d
      ensures c in d
    {
      var a :| a in roster && a.parentId != "" && (a.parentId, a.id) == (p, c);
      assert RowClosed(a, d);
    }
  }

  /** The change-until-stable loop ends at the least set that holds the agent and is closed under
      children; that set is everyone the agent leads to. */
  method Descendants(roster: seq<Agent>, self: Id) returns (d: set<Id>)
    requires self in Ids(roster)
    ensures d <= Ids(roster) && self in d && Closed(Edges(roster), d)
    ensures forall s: set<Id> :: self in s && Closed(Edges(roster), s) ==> d <= s
    ensures forall x :: x in d <==> Reaches(Edges(roster), self, x)
  {
    d := {self};
    var changed := true;
    ReachesSelf(Edges(roster), self);
    while changed
      invariant self in d && d <= Ids(roster)
      invariant forall x :: x in d ==> Reaches(Edges(roster), self, x)
      invariant !changed ==> forall a :: a in roster ==> RowClosed(a, d)
      decreases Ids(roster) - d, changed
    {
      changed := false;
      ghost var before := d;
      for i := 0 to |roster|
        invariant before <= d <= Ids(roster)
        invariant forall x :: x in d ==> Reaches(Edges(roster), self, x)
        invariant changed ==> before < d
        invariant !changed ==> d == before && forall j :: 0 <= j < i ==> RowClosed(roster[j], d)
      {
        var a := roster[i];
        if a.parentId != "" && a.parentId in d && a.id !in d {
          assert (a.parentId, a.id) in Edges(roster);
          EdgeReaches(Edges(roster), a.parentId, a.id);
          ReachesTrans(Edges(roster), self, a.parentId, a.id);
          d := d + {a.id};
          changed := true;
        }
      }
    }
    RowsClosed(roster, d);
    LeastClosed(roster, self, d);
  }

  lemma LeastClosed(roster: seq<Agent>, self: Id, d: set<Id>)
    requires self in d && Closed(Edges(roster), d) && forall x :: x in d ==> Reaches(Edges(roster), self, x)
    ensures forall x :: Reaches(Edges(roster), self, x) ==> x in d
    ensures forall s: set<Id> :: self in s && Closed(Edges(roster), s) ==> d <= s
  {
    forall s: set<Id>, x | self in s && Closed(Edges(roster), s) && Reaches(Edges(roster), self, x)
      ensures x in s
    {
      var n: nat :| Path(Edges(roster), self, x, n);
      ClosedHoldsReached(Edges(roster), s, self, x, n);
    }
  }

  method ScopeFor(actor: Actor, roster: seq<Agent>) returns (out: set<Id>)
    requires Hierarchy(roster)
    ensures !actor.isAgent ==> out == Ids(roster)
    ensures actor.isAgent && actor.id !in Ids(roster) ==> out == {}
    ensures forall self :: actor.isAgent && self in roster && self.id == actor.id ==>
              forall x ::
                x in out <==>
                  && x in Ids(roster)
                  && (|| (self.featureId != "" && exists a :: a in roster && a.id == x && a.featureId == self.featureId)
                      || Reaches(Edges(roster), x, self.id)
                      || Reaches(Edges(roster), self.id, x))
  {
    if !actor.isAgent {
      return Ids(roster);
    }
    var found := Find(roster, actor.id);
    if found.None? {
      return {};
    }
    var self := found.value;
    out := {actor.id};
    if self.featureId != "" {
      for i := 0 to |roster|
        invariant forall x :: x in out <==> x == self.id || exists j :: 0 <= j < i && roster[j].id == x && roster[j].featureId == self.featureId
      {
        if roster[i].featureId == self.featureId {
          out := out + {roster[i].id};
        }
      }
    }
    ghost var mates := out;
    var above := Ancestors(roster, self);
    var below := Descendants(roster, actor.id);
    out := out + above + below;
    forall x
      ensures x in out <==> InScope(roster, self, x)
    {
      MateIff(roster, self, mates, x);
    }
    forall other | other in roster && other.id == actor.id
      ensures other == self
    {
      SameRow(roster, other, self);
    }
  }

  lemma MateIff(roster: seq<Agent>, self: Agent, mates: set<Id>, x: Id)
    requires self in roster
    requires self.featureId == "" ==> mates == {self.id}
    requires self.featureId != "" ==>
               (x in mates <==>
                  (x == self.id || exists j :: 0 <= j < |roster| && roster[j].id == x && roster[j].featureId == self.featureId))
    ensures x in mates <==> x == self.id || (self.featureId != "" && exists a :: a in roster && a.id == x && a.featureId == self.featureId)
    ensures x in mates ==> x in Ids(roster)
    ensures Reaches(Edges(roster), self.id, self.id)
  {
    ReachesSelf(Edges(roster), self.id);
    if a :| a in roster && a.id == x && a.featureId == self.featureId {
      var j :| 0 <= j < |roster| && roster[j] == a;
    }
  }

  /** Whoever an agent may address may address it. */
  lemma ScopeIsMutual(roster: seq<Agent>, a: Agent, b: Agent)
    requires UniqueIds(roster) && a in roster && b in roster
    ensures InScope(roster, a, b.id) <==> InScope(roster, b, a.id)
  {
    if c :| c in roster && c.id == b.id && c.featureId == a.featureId {
      SameRow(roster, b, c);
    }
    if c :| c in roster && c.id == a.id && c.featureId == b.featureId {
      SameRow(roster, a, c);
    }
  }

  lemma SiblingNotAbove(roster: seq<Agent>, a: Agent, b: Agent)
    requires Hierarchy(roster) && a in roster && b in roster && a.id != b.id && a.parentId != "" && a.parentId == b.parentId
    ensures !Reaches(Edges(roster), a.id, b.id)
  {
    assert (a.parentId, a.id) in Edges(roster);
    if Reaches(Edges(roster), a.id, b.id) {
      var q := LastEdge(Edges(roster), a.id, b.id);
      ParentOf(roster, b, q);
    }
  }

  /** Two agents with one parent are out of each other's scope unless a feature joins them. */
  lemma SiblingsStayApart(roster: seq<Agent>, a: Agent, b: Agent)
    requires Hierarchy(roster) && a in roster && b in roster && a.id != b.id && a.parentId != "" && a.parentId == b.parentId
    ensures InScope(roster, a, b.id) <==> a.featureId != "" && a.featureId == b.featureId
  {
    SiblingNotAbove(roster, a, b);
    SiblingNotAbove(roster, b, a);
    if c :| c in roster && c.id == b.id && c.featureId == a.featureId {
      SameRow(roster, b, c);
    }
  }
}
