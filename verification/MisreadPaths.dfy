/**
 What a misread path costs: the patch-path reader joined with the detection that relies on its list.
 */
module MisreadPaths {
  import opened Wrappers
  import B = DiffBlocks
  import D = DiffPaths
  import Q = GitQuoting
  import S = SyncRace

  /** The paths on the list, each under the name its bytes decode to. */
  predicate Lists(touched: seq<S.Path>, read: set<Q.PathBytes>, name: Q.PathBytes -> S.Path) {
    S.Members(touched) == set q | q in read :: name(q)
  }

  lemma WhatOneBlockGives(b: B.Block)
    requires B.WellFormed(false, b) && !b.kind.Renames()
    ensures D.Touched(B.RenderLines(false, [b])) == if B.Lost(false, b) then {} else {Q.ReadField(false, b.path)}
  {
    B.TouchedIsRecovered(false, [b]);
    assert B.AllRecovered(false, [b]) == B.Recovered(false, b) + B.AllRecovered(false, [b][1..]);
  }

  /** A path that is read back as another one is not on the list of a patch that changes it alone; when its
      edit needs something to be there, the detection never finds out what to expect, and the turn is
      reported as diverging at that other path, or held, although nobody interfered. */
  lemma GarbledPathIsReported(b: B.Block, name: Q.PathBytes -> S.Path, patch: S.Patch, touched: seq<S.Path>,
                            seen: S.Seen, calls: S.ApplyCalls)
    requires B.WellFormed(false, b) && !b.kind.Renames() && !B.Lost(false, b)
    requires name(Q.ReadField(false, b.path)) != name(Q.Utf8(b.path))
    requires Lists(touched, D.Touched(B.RenderLines(false, [b])), name) && seen.pre.Keys == seen.post.Keys == S.Members(touched)
    requires name(Q.Utf8(b.path)) in patch && patch[name(Q.Utf8(b.path))].apply(S.Absent).None?
    ensures name(Q.ReadField(false, b.path)) in touched && name(Q.Utf8(b.path)) !in touched
    ensures var e := S.Expects(calls, patch, touched, seen); !e.Expected? && S.BadPaths(e, touched, seen.post) == touched != []
  {
    var read, there := Q.ReadField(false, b.path), Q.Utf8(b.path);
    WhatOneBlockGives(b);
    OnlyName(touched, read, name);
    S.MissedPathReportsAll(calls.scratch, patch, touched, seen.pre, seen.post, name(there));
  }

  lemma OnlyName(touched: seq<S.Path>, read: Q.PathBytes, name: Q.PathBytes -> S.Path)
    requires Lists(touched, {read}, name)
    ensures forall p :: p in touched <==> p == name(read)
  {
    assert forall p :: p in S.Members(touched) <==> p in touched;
    assert read in {read};
    assert (set q | q in {read} :: name(q)) == {name(read)};
  }

  /** A path that a separator hides leaves the list of such a patch empty: nothing is checked, so nothing is
      ever reported, whatever happened around the write. */
  lemma HiddenPathIsUnchecked(b: B.Block, name: Q.PathBytes -> S.Path, patch: S.Patch, touched: seq<S.Path>,
                            seen: S.Seen, calls: S.ApplyCalls)
    requires B.WellFormed(false, b) && B.Lost(false, b)
    requires Lists(touched, D.Touched(B.RenderLines(false, [b])), name)
    ensures touched == [] && S.BadPaths(S.Expects(calls, patch, touched, seen), touched, seen.post) == []
    ensures !S.DetectionThrows(calls, patch, touched, seen)
  {
    WhatOneBlockGives(b);
    assert forall p :: p in touched ==> p in S.Members(touched);
    NoMembers(touched);
  }

  lemma NoMembers(touched: seq<S.Path>)
    ensures S.Members(touched) == {} ==> touched == []
  {
    if touched != [] {
      assert touched[0] in S.Members(touched);
    }
  }
}
