/** An independent description of what the walk reports. A position names a
    node by the index of the member or element taken at each level; a
    position is reportable when it ends at a dict member whose key matches and
    whose value is a scalar. The lemmas here show that the walk reports
    exactly the reportable positions, each once, in pre-order. */
module Positions {
  import opened JsonModel
  import opened Text
  import opened LandingSearch

  /** The indices taken on the way down from the root: member indices in
      dicts, element indices in lists. */
  type Position = seq<nat>

  /** `p` leads to a dict member whose key matches a keyword and whose value
      is an int, float, str or bool; the keys on the way there do not matter. */
  ghost predicate Reportable(v: Json, p: Position)
    decreases |p|
  {
    |p| > 0 && p[0] < Arity(v) &&
    match v
    case JObject(ms) =>
      if |p| == 1 then MatchesKeyword(ms[p[0]].0) && IsScalar(ms[p[0]].1)
      else Reportable(ms[p[0]].1, p[1..])
    case JArray(xs) => |p| > 1 && Reportable(xs[p[0]], p[1..])
    case _ => false
  }

  /** The entry the source would write for reportable position `p` when the
      walk starts at `v` with path `path`: the path text built level by level
      and the scalar found there. */
  ghost function EntryAt(v: Json, path: string, p: Position): Finding
    requires Reportable(v, p)
    decreases |p|
  {
    match v
    case JObject(ms) =>
      var m := ms[p[0]];
      if |p| == 1 then Finding(MemberPath(path, m.0), m.1)
      else EntryAt(m.1, MemberPath(path, m.0), p[1..])
    case JArray(xs) => EntryAt(xs[p[0]], ItemPath(path, p[0]), p[1..])
  }

  /** Pre-order on positions: an ancestor comes before its descendants, and
      an earlier sibling's subtree before a later one's. */
  ghost predicate Before(p: Position, q: Position)
    decreases |p|
  {
    |q| > 0 && (|p| == 0 || p[0] < q[0] || (p[0] == q[0] && Before(p[1..], q[1..])))
  }

  ghost predicate StrictlyOrdered(ps: seq<Position>) {
    forall i, j :: 0 <= i < j < |ps| ==> Before(ps[i], ps[j])
  }

  /** Every position in `ps`, one level deeper, under child `j`. */
  ghost function Under(j: nat, ps: seq<Position>): (r: seq<Position>)
    ensures |r| == |ps| && forall i :: 0 <= i < |ps| ==> r[i] == [j] + ps[i]
  {
    seq(|ps|, i requires 0 <= i < |ps| => [j] + ps[i])
  }

  /** The positions the walk visits and reports, listed the way the walk
      lists its entries. */
  ghost function Hits(v: Json): seq<Position>
    decreases v, 1, 0
  {
    match v
    case JObject(ms) => MemberHits(v, |ms|)
    case JArray(xs) => ItemHits(v, |xs|)
    case _ => []
  }

  ghost function MemberHits(v: Json, n: nat): seq<Position>
    requires v.JObject? && n <= |v.members|
    decreases v, 0, n
  {
    if n == 0 then []
    else
      var m := v.members[n - 1];
      MemberHits(v, n - 1)
        + (if MatchesKeyword(m.0) && IsScalar(m.1) then [[n - 1]] else [])
        + Under(n - 1, Hits(m.1))
  }

  ghost function ItemHits(v: Json, n: nat): seq<Position>
    requires v.JArray? && n <= |v.items|
    decreases v, 0, n
  {
    if n == 0 then []
    else
      ItemHits(v, n - 1) + Under(n - 1, Hits(v.items[n - 1]))
  }

  // ---------------------------------------------------------------------------
  // Soundness: every listed position is reportable.

  lemma {:induction false} HitsSound(v: Json)
    ensures forall i :: 0 <= i < |Hits(v)| ==> Reportable(v, Hits(v)[i])
    decreases v, 1, 0
  {
    match v
    case JObject(ms) => MemberHitsSound(v, |ms|);
    case JArray(xs) => ItemHitsSound(v, |xs|);
    case _ =>
  }

  lemma {:induction false} MemberHitsSound(v: Json, n: nat)
    requires v.JObject? && n <= |v.members|
    ensures forall i :: 0 <= i < |MemberHits(v, n)| ==> Reportable(v, MemberHits(v, n)[i]) && MemberHits(v, n)[i][0] < n
    decreases v, 0, n
  {
    if n > 0 {
      var m := v.members[n - 1];
      var ha, hs := MemberHits(v, n - 1), Hits(m.1);
      var own: seq<Position> := if MatchesKeyword(m.0) && IsScalar(m.1) then [[n - 1]] else [];
      MemberHitsSound(v, n - 1);
      HitsSound(m.1);
      assert MemberHits(v, n) == ha + own + Under(n - 1, hs);
      forall i | 0 <= i < |MemberHits(v, n)|
        ensures Reportable(v, MemberHits(v, n)[i]) && MemberHits(v, n)[i][0] < n
      {
        if i < |ha| {
          assert MemberHits(v, n)[i] == ha[i];
        } else if i >= |ha| + |own| {
          var k := i - |ha| - |own|;
          assert MemberHits(v, n)[i] == [n - 1] + hs[k];
          assert ([n - 1] + hs[k])[1..] == hs[k];
        }
      }
    }
  }

  lemma {:induction false} ItemHitsSound(v: Json, n: nat)
    requires v.JArray? && n <= |v.items|
    ensures forall i :: 0 <= i < |ItemHits(v, n)| ==> Reportable(v, ItemHits(v, n)[i]) && ItemHits(v, n)[i][0] < n
    decreases v, 0, n
  {
    if n > 0 {
      var x := v.items[n - 1];
      var ha, hs := ItemHits(v, n - 1), Hits(x);
      ItemHitsSound(v, n - 1);
      HitsSound(x);
      assert ItemHits(v, n) == ha + Under(n - 1, hs);
      forall i | 0 <= i < |ItemHits(v, n)|
        ensures Reportable(v, ItemHits(v, n)[i]) && ItemHits(v, n)[i][0] < n
      {
        if i < |ha| {
          assert ItemHits(v, n)[i] == ha[i];
        } else {
          var k := i - |ha|;
          assert ItemHits(v, n)[i] == [n - 1] + hs[k];
          assert ([n - 1] + hs[k])[1..] == hs[k];
        }
      }
    }
  }

  // ---------------------------------------------------------------------------
  // Completeness: every reportable position is listed.

  lemma {:induction false} HitsComplete(v: Json, p: Position)
    requires Reportable(v, p)
    ensures p in Hits(v)
    decreases |p|, 1, 0
  {
    match v
    case JObject(ms) => MemberHitsComplete(v, |ms|, p);
    case JArray(xs) => ItemHitsComplete(v, |xs|, p);
  }

  lemma {:induction false} MemberHitsComplete(v: Json, n: nat, p: Position)
    requires v.JObject? && n <= |v.members|
    requires Reportable(v, p) && p[0] < n
    ensures p in MemberHits(v, n)
    decreases |p|, 0, n
  {
    var m := v.members[n - 1];
    if p[0] < n - 1 {
      MemberHitsComplete(v, n - 1, p);
    } else if |p| == 1 {
      assert p == [n - 1];
    } else {
      HitsComplete(m.1, p[1..]);
      var i :| 0 <= i < |Hits(m.1)| && Hits(m.1)[i] == p[1..];
      assert Under(n - 1, Hits(m.1))[i] == [n - 1] + p[1..] == p;
    }
  }

  lemma {:induction false} ItemHitsComplete(v: Json, n: nat, p: Position)
    requires v.JArray? && n <= |v.items|
    requires Reportable(v, p) && p[0] < n
    ensures p in ItemHits(v, n)
    decreases |p|, 0, n
  {
    var x := v.items[n - 1];
    if p[0] < n - 1 {
      ItemHitsComplete(v, n - 1, p);
    } else {
      HitsComplete(x, p[1..]);
      var i :| 0 <= i < |Hits(x)| && Hits(x)[i] == p[1..];
      assert Under(n - 1, Hits(x))[i] == [n - 1] + p[1..] == p;
    }
  }

  // ---------------------------------------------------------------------------
  // The walk's entries are the entries of the listed positions, in the same order.

  /** `fs` holds, one for one and in the same order, the entries of the
      reportable positions `hs`. */
  ghost predicate ListsEntries(v: Json, path: string, fs: seq<Finding>, hs: seq<Position>) {
    |fs| == |hs| &&
    forall i :: 0 <= i < |hs| ==> Reportable(v, hs[i]) && fs[i] == EntryAt(v, path, hs[i])
  }

  lemma ListsEntriesConcat(v: Json, path: string, fs: seq<Finding>, hs: seq<Position>, gs: seq<Finding>, ks: seq<Position>)
    requires ListsEntries(v, path, fs, hs) && ListsEntries(v, path, gs, ks)
    ensures ListsEntries(v, path, fs + gs, hs + ks)
  {
    forall i | 0 <= i < |hs + ks|
      ensures Reportable(v, (hs + ks)[i]) && (fs + gs)[i] == EntryAt(v, path, (hs + ks)[i])
    {
      if i >= |hs| {
        assert (hs + ks)[i] == ks[i - |hs|];
      }
    }
  }

  /** One level down: the entries of the `j`-th child, seen from its parent. */
  lemma ListsEntriesUnder(v: Json, path: string, j: nat, fs: seq<Finding>, hs: seq<Position>)
    requires j < Arity(v)
    requires ListsEntries(Child(v, j), ChildPath(v, path, j), fs, hs)
    requires forall i :: 0 <= i < |hs| ==> |hs[i]| > 0
    ensures ListsEntries(v, path, fs, Under(j, hs))
  {
    forall i | 0 <= i < |hs|
      ensures Reportable(v, Under(j, hs)[i]) && fs[i] == EntryAt(v, path, Under(j, hs)[i])
    {
      var q := Under(j, hs)[i];
      assert q[1..] == hs[i];
    }
  }

  /** The path the walk passes to the `j`-th child. */
  function ChildPath(v: Json, path: string, j: nat): string
    requires j < Arity(v)
  {
    match v
    case JObject(ms) => MemberPath(path, ms[j].0)
    case JArray(xs) => ItemPath(path, j)
  }

  /** A member's own entry is the entry of its one-step position. */
  lemma OwnEntryListed(v: Json, path: string, j: nat)
    requires v.JObject? && j < |v.members|
    ensures ListsEntries(v, path, OwnEntry(path, v.members[j]),
      if MatchesKeyword(v.members[j].0) && IsScalar(v.members[j].1) then [[j]] else [])
  {
  }

  lemma {:induction false} SearchEnumeratesHits(v: Json, path: string)
    ensures ListsEntries(v, path, Search(v, path), Hits(v))
    decreases v, 1, 0
  {
    match v
    case JObject(ms) => MemberSearchEnumeratesHits(v, |ms|, path);
    case JArray(xs) => ItemSearchEnumeratesHits(v, |xs|, path);
    case _ =>
  }

  lemma {:induction false} MemberSearchEnumeratesHits(v: Json, n: nat, path: string)
    requires v.JObject? && n <= |v.members|
    ensures ListsEntries(v, path, MemberSearch(v, n, path), MemberHits(v, n))
    decreases v, 0, n
  {
    if n > 0 {
      var m := v.members[n - 1];
      var childPath := MemberPath(path, m.0);
      var own := if MatchesKeyword(m.0) && IsScalar(m.1) then [[n - 1]] else [];
      MemberSearchEnumeratesHits(v, n - 1, path);
      OwnEntryListed(v, path, n - 1);
      ListsEntriesConcat(v, path, MemberSearch(v, n - 1, path), MemberHits(v, n - 1), OwnEntry(path, m), own);
      SearchEnumeratesHits(m.1, childPath);
      ListsEntriesUnder(v, path, n - 1, Search(m.1, childPath), Hits(m.1));
      ListsEntriesConcat(v, path, MemberSearch(v, n - 1, path) + OwnEntry(path, m), MemberHits(v, n - 1) + own,
        Search(m.1, childPath), Under(n - 1, Hits(m.1)));
    }
  }

  lemma {:induction false} ItemSearchEnumeratesHits(v: Json, n: nat, path: string)
    requires v.JArray? && n <= |v.items|
    ensures ListsEntries(v, path, ItemSearch(v, n, path), ItemHits(v, n))
    decreases v, 0, n
  {
    if n > 0 {
      var x := v.items[n - 1];
      var childPath := ItemPath(path, n - 1);
      ItemSearchEnumeratesHits(v, n - 1, path);
      SearchEnumeratesHits(x, childPath);
      ListsEntriesUnder(v, path, n - 1, Search(x, childPath), Hits(x));
      ListsEntriesConcat(v, path, ItemSearch(v, n - 1, path), ItemHits(v, n - 1), Search(x, childPath), Under(n - 1, Hits(x)));
    }
  }

  // ---------------------------------------------------------------------------
  // Order: the listed positions are strictly increasing in pre-order.

  lemma {:induction false} BeforeIrreflexive(p: Position)
    ensures !Before(p, p)
    decreases |p|
  {
    if |p| > 0 {
      BeforeIrreflexive(p[1..]);
    }
  }

  lemma BeforeUnder(j: nat, p: Position, q: Position)
    requires Before(p, q)
    ensures Before([j] + p, [j] + q)
  {
    assert ([j] + p)[1..] == p;
    assert ([j] + q)[1..] == q;
  }

  lemma OrderedUnder(j: nat, ps: seq<Position>)
    requires StrictlyOrdered(ps)
    ensures StrictlyOrdered(Under(j, ps))
  {
    forall a, b | 0 <= a < b < |ps|
      ensures Before(Under(j, ps)[a], Under(j, ps)[b])
    {
      BeforeUnder(j, ps[a], ps[b]);
    }
  }

  lemma OrderedConcat(ps: seq<Position>, qs: seq<Position>)
    requires StrictlyOrdered(ps) && StrictlyOrdered(qs)
    requires forall a, b :: 0 <= a < |ps| && 0 <= b < |qs| ==> Before(ps[a], qs[b])
    ensures StrictlyOrdered(ps + qs)
  {
    forall a, b | 0 <= a < b < |ps + qs|
      ensures Before((ps + qs)[a], (ps + qs)[b])
    {
      if b < |ps| {
      } else if a < |ps| {
        assert Before(ps[a], qs[b - |ps|]);
      } else {
        assert Before(qs[a - |ps|], qs[b - |ps|]);
      }
    }
  }

  lemma {:induction false} HitsOrdered(v: Json)
    ensures StrictlyOrdered(Hits(v))
    decreases v, 1, 0
  {
    match v
    case JObject(ms) => MemberHitsOrdered(v, |ms|);
    case JArray(xs) => ItemHitsOrdered(v, |xs|);
    case _ =>
  }

  /** Appending a member's own position and its value's positions after
      those of the earlier members keeps the list in pre-order. */
  lemma OrderedAppendChild(ha: seq<Position>, ho: seq<Position>, hs: seq<Position>, j: nat)
    requires StrictlyOrdered(ha) && forall a :: 0 <= a < |ha| ==> |ha[a]| > 0 && ha[a][0] < j
    requires ho == [] || ho == [[j]]
    requires StrictlyOrdered(hs) && forall b :: 0 <= b < |hs| ==> |hs[b]| > 0
    ensures StrictlyOrdered(ha + ho + Under(j, hs))
  {
    var hc := Under(j, hs);
    OrderedUnder(j, hs);
    forall a, b | 0 <= a < |ho| && 0 <= b < |hc|
      ensures Before(ho[a], hc[b])
    {
      assert hc[b][1..] == hs[b];
    }
    OrderedConcat(ho, hc);
    forall a, b | 0 <= a < |ha| && 0 <= b < |ho + hc|
      ensures Before(ha[a], (ho + hc)[b])
    {
    }
    OrderedConcat(ha, ho + hc);
    assert ha + ho + hc == ha + (ho + hc);
  }

  /** The first `n` members contribute only non-empty positions that start
      with one of their indices. */
  lemma {:induction false} MemberHitsHeads(v: Json, n: nat)
    requires v.JObject? && n <= |v.members|
    ensures forall i :: 0 <= i < |MemberHits(v, n)| ==> |MemberHits(v, n)[i]| > 0 && MemberHits(v, n)[i][0] < n
  {
    MemberHitsSound(v, n);
  }

  lemma {:induction false} ItemHitsHeads(v: Json, n: nat)
    requires v.JArray? && n <= |v.items|
    ensures forall i :: 0 <= i < |ItemHits(v, n)| ==> |ItemHits(v, n)[i]| > 0 && ItemHits(v, n)[i][0] < n
  {
    ItemHitsSound(v, n);
  }

  /** No listed position is the empty one: the root itself is never reported. */
  lemma {:induction false} HitsNonEmpty(v: Json)
    ensures forall i :: 0 <= i < |Hits(v)| ==> |Hits(v)[i]| > 0
  {
    HitsSound(v);
  }

  lemma {:induction false} MemberHitsOrdered(v: Json, n: nat)
    requires v.JObject? && n <= |v.members|
    ensures StrictlyOrdered(MemberHits(v, n))
    decreases v, 0, n
  {
    if n > 0 {
      var m := v.members[n - 1];
      var ha, hs := MemberHits(v, n - 1), Hits(m.1);
      var own: seq<Position> := if MatchesKeyword(m.0) && IsScalar(m.1) then [[n - 1]] else [];
      assert StrictlyOrdered(ha + own + Under(n - 1, hs)) by {
        MemberHitsOrdered(v, n - 1);
        HitsOrdered(m.1);
        MemberHitsHeads(v, n - 1);
        HitsNonEmpty(m.1);
        OrderedAppendChild(ha, own, hs, n - 1);
      }
      assert MemberHits(v, n) == ha + own + Under(n - 1, hs);
    }
  }

  lemma {:induction false} ItemHitsOrdered(v: Json, n: nat)
    requires v.JArray? && n <= |v.items|
    ensures StrictlyOrdered(ItemHits(v, n))
    decreases v, 0, n
  {
    if n > 0 {
      var x := v.items[n - 1];
      var ha, hs := ItemHits(v, n - 1), Hits(x);
      assert StrictlyOrdered(ha + [] + Under(n - 1, hs)) by {
        ItemHitsOrdered(v, n - 1);
        HitsOrdered(x);
        ItemHitsHeads(v, n - 1);
        HitsNonEmpty(x);
        OrderedAppendChild(ha, [], hs, n - 1);
      }
      assert ItemHits(v, n) == ha + [] + Under(n - 1, hs);
    }
  }

  // ---------------------------------------------------------------------------
  // What the walk reports, described without the walk.

  /** The walk reports one entry per reportable position and no other, each
      position once, ancestors before descendants and earlier members and
      elements before later ones. */
  lemma SearchReportsReportable(v: Json, path: string)
    ensures |Search(v, path)| == |Hits(v)|
    ensures forall p :: Reportable(v, p) <==> p in Hits(v)
    ensures forall i :: 0 <= i < |Hits(v)| ==> Search(v, path)[i] == EntryAt(v, path, Hits(v)[i])
    ensures forall i, j :: 0 <= i < j < |Hits(v)| ==> Before(Hits(v)[i], Hits(v)[j]) && Hits(v)[i] != Hits(v)[j]
  {
    SearchEnumeratesHits(v, path);
    HitsSound(v);
    forall p | p in Hits(v)
      ensures Reportable(v, p)
    {
      var i :| 0 <= i < |Hits(v)| && Hits(v)[i] == p;
    }
    forall p | Reportable(v, p)
      ensures p in Hits(v)
    {
      HitsComplete(v, p);
    }
    HitsOrdered(v);
    forall i, j | 0 <= i < j < |Hits(v)|
      ensures Hits(v)[i] != Hits(v)[j]
    {
      BeforeIrreflexive(Hits(v)[i]);
    }
  }

  /** The walk descends into every dict member's value whatever its key:
      whatever is reportable beneath a member is reported, at the path built
      from that member's key. */
  lemma DescendsIntoEveryMember(v: Json, path: string, j: nat, q: Position)
    requires v.JObject? && j < |v.members|
    requires Reportable(v.members[j].1, q)
    ensures EntryAt(v.members[j].1, MemberPath(path, v.members[j].0), q) in Search(v, path)
  {
    var p := [j] + q;
    assert p[1..] == q;
    assert Reportable(v, p);
    SearchReportsReportable(v, path);
    var i :| 0 <= i < |Hits(v)| && Hits(v)[i] == p;
    assert Search(v, path)[i] == EntryAt(v, path, p);
  }

  /** A reported member has nothing reported beneath it: its value is a
      scalar, and a scalar has no members. So no entry ever has a reported
      ancestor. */
  lemma {:induction false} NothingBelowReported(v: Json, p: Position, q: Position)
    requires Reportable(v, p) && |q| > 0
    ensures !Reportable(v, p + q)
    decreases |p|
  {
    assert (p + q)[0] == p[0];
    if |p| > 1 {
      assert (p + q)[1..] == p[1..] + q;
      NothingBelowReported(Child(v, p[0]), p[1..], q);
    }
  }
}

