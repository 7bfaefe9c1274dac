/** The path strings the walk builds (bot.py:18 and bot.py:32): how every
    reported path extends the path the walk started from, and when two
    reported paths can coincide. */
module PathSyntax {
  import opened JsonModel
  import opened Text
  import opened LandingSearch
  import opened Positions

  /** The characters the walk writes between path components. */
  predicate IsSeparator(c: char) {
    c == '.' || c == '['
  }

  /** `p` names something strictly inside `q`: it is `q` followed by a
      separator and more. */
  ghost predicate Below(p: string, q: string) {
    |p| > |q| && p[..|q|] == q && IsSeparator(p[|q|])
  }

  ghost predicate AtOrBelow(p: string, q: string) {
    p == q || Below(p, q)
  }

  lemma BelowTrans(p: string, q: string, r: string)
    requires AtOrBelow(p, q) && Below(q, r)
    ensures Below(p, r)
  {
    if p != q {
      assert p[..|q|][..|r|] == p[..|r|];
    }
  }

  /** Below a non-empty path, a member's path is that path, a dot and the key. */
  lemma MemberPathBelow(path: string, k: string)
    requires path != ""
    ensures Below(MemberPath(path, k), path)
    ensures MemberPath(path, k)[|path|] == '.' && MemberPath(path, k)[|path| + 1..] == k
  {
  }

  /** An element's path is the current path, `[`, the index's digits and `]`. */
  lemma ItemPathBelow(path: string, i: nat)
    ensures Below(ItemPath(path, i), path)
    ensures ItemPath(path, i)[|path|] == '[' && ItemPath(path, i)[|path| + 1..] == DecimalText(i) + "]"
  {
  }

  // ---------------------------------------------------------------------------
  // Every reported path extends the path the walk was started with.

  /** Started below a non-empty path, or at a list, the walk reports only
      paths strictly below its starting path. */
  lemma {:induction false} PathsBelowStart(v: Json, path: string)
    requires path != "" || v.JArray?
    ensures forall i :: 0 <= i < |Search(v, path)| ==> Below(Search(v, path)[i].path, path)
    decreases v, 1, 0
  {
    match v
    case JObject(ms) =>
      MemberPathsBelow(v, |ms|, path);
      assert Search(v, path) == MemberSearch(v, |ms|, path);
      forall i | 0 <= i < |Search(v, path)|
        ensures Below(Search(v, path)[i].path, path)
      {
        var j :| 0 <= j < |ms| && AtOrBelow(Search(v, path)[i].path, MemberPath(path, ms[j].0));
        MemberPathBelow(path, ms[j].0);
        BelowTrans(Search(v, path)[i].path, MemberPath(path, ms[j].0), path);
      }
    case JArray(xs) =>
      ItemPathsBelow(v, |xs|, path);
      assert Search(v, path) == ItemSearch(v, |xs|, path);
      forall i | 0 <= i < |Search(v, path)|
        ensures Below(Search(v, path)[i].path, path)
      {
        var j :| 0 <= j < |xs| && Below(Search(v, path)[i].path, ItemPath(path, j));
        ItemPathBelow(path, j);
        BelowTrans(Search(v, path)[i].path, ItemPath(path, j), path);
      }
    case _ =>
  }

  /** Each entry the loop over a dict reports is at or below the path of one
      of its members. The members' paths must not be empty, or the walk below
      them would start over with bare keys. */
  lemma {:induction false} MemberPathsBelow(v: Json, n: nat, path: string)
    requires v.JObject? && n <= |v.members|
    requires path != "" || forall j :: 0 <= j < n ==> v.members[j].0 != ""
    ensures forall i :: 0 <= i < |MemberSearch(v, n, path)| ==>
      exists j :: 0 <= j < n && AtOrBelow(MemberSearch(v, n, path)[i].path, MemberPath(path, v.members[j].0))
    decreases v, 0, n
  {
    if n == 0 {
      assert MemberSearch(v, n, path) == [];
    } else {
      var m := v.members[n - 1];
      var childPath := MemberPath(path, m.0);
      MemberPathsBelow(v, n - 1, path);
      PathsBelowStart(m.1, childPath);
      var a: seq<Finding>, o: seq<Finding>, c: seq<Finding> := MemberSearch(v, n - 1, path), OwnEntry(path, m), Search(m.1, childPath);
      assert MemberSearch(v, n, path) == a + o + c;
      forall i | 0 <= i < |MemberSearch(v, n, path)|
        ensures exists j :: 0 <= j < n && AtOrBelow(MemberSearch(v, n, path)[i].path, MemberPath(path, v.members[j].0))
      {
        if i < |a| {
          var j :| 0 <= j < n - 1 && AtOrBelow(a[i].path, MemberPath(path, v.members[j].0));
          assert MemberSearch(v, n, path)[i] == a[i];
        } else if i < |a| + |o| {
          assert MemberSearch(v, n, path)[i].path == MemberPath(path, v.members[n - 1].0);
        } else {
          assert MemberSearch(v, n, path)[i] == c[i - |a| - |o|];
          assert AtOrBelow(c[i - |a| - |o|].path, MemberPath(path, v.members[n - 1].0));
        }
      }
    }
  }

  /** Each entry the loop over a list reports is strictly below the path of
      one of its elements. */
  lemma {:induction false} ItemPathsBelow(v: Json, n: nat, path: string)
    requires v.JArray? && n <= |v.items|
    ensures forall i :: 0 <= i < |ItemSearch(v, n, path)| ==>
      exists j :: 0 <= j < n && Below(ItemSearch(v, n, path)[i].path, ItemPath(path, j))
    decreases v, 0, n
  {
    if n == 0 {
      assert ItemSearch(v, n, path) == [];
    } else {
      var x := v.items[n - 1];
      var childPath := ItemPath(path, n - 1);
      ItemPathsBelow(v, n - 1, path);
      PathsBelowStart(x, childPath);
      var a: seq<Finding>, c: seq<Finding> := ItemSearch(v, n - 1, path), Search(x, childPath);
      assert ItemSearch(v, n, path) == a + c;
      forall i | 0 <= i < |ItemSearch(v, n, path)|
        ensures exists j :: 0 <= j < n && Below(ItemSearch(v, n, path)[i].path, ItemPath(path, j))
      {
        if i < |a| {
          var j :| 0 <= j < n - 1 && Below(a[i].path, ItemPath(path, j));
          assert ItemSearch(v, n, path)[i] == a[i];
        } else {
          assert ItemSearch(v, n, path)[i] == c[i - |a|];
          assert Below(c[i - |a|].path, ItemPath(path, n - 1));
        }
      }
    }
  }

  // ---------------------------------------------------------------------------
  // Distinct paths.

  ghost predicate DistinctPaths(fs: seq<Finding>) {
    forall i, j :: 0 <= i < j < |fs| ==> fs[i].path != fs[j].path
  }

  /** The paths of two different plain keys of one dict share nothing: no
      path lies at or below both. */
  lemma KeysApart(p: string, path: string, k1: string, k2: string)
    requires IsPlainKey(k1) && IsPlainKey(k2) && k1 != k2
    requires AtOrBelow(p, MemberPath(path, k1))
    ensures !AtOrBelow(p, MemberPath(path, k2))
  {
    var c := if path == "" then "" else path + ".";
    var q1, q2 := MemberPath(path, k1), MemberPath(path, k2);
    assert q1 == c + k1 && q2 == c + k2;
    if |k1| < |k2| {
      assert q2[|q1|] == k2[|k1|];
    } else if |k2| < |k1| {
      assert q1[|q2|] == k1[|k2|];
    } else {
      assert q1[|c|..] == k1 && q2[|c|..] == k2;
    }
  }

  /** The paths of two different elements of one list share nothing. */
  lemma IndicesApart(p: string, path: string, i1: nat, i2: nat)
    requires i1 != i2
    requires Below(p, ItemPath(path, i1))
    ensures !Below(p, ItemPath(path, i2))
  {
    var d1, d2 := DecimalText(i1), DecimalText(i2);
    var q1, q2 := ItemPath(path, i1), ItemPath(path, i2);
    assert q1 == path + "[" + d1 + "]" && q2 == path + "[" + d2 + "]";
    assert p[..|q1|] == q1;
    if |d1| == |d2| {
      DecimalRoundTrip(i1);
      DecimalRoundTrip(i2);
      assert q1[|path| + 1..|q1| - 1] == d1 != d2 == q2[|path| + 1..|q2| - 1];
    } else if |d1| < |d2| {
      assert p[|q1| - 1] == ']';
      assert q2[|q1| - 1] == d2[|d1|] != ']';
    } else {
      assert p[|q2| - 1] == q1[|q2| - 1] == d1[|d2|] != ']';
      assert q2[|q2| - 1] == ']';
    }
  }

  /** A non-empty path is extended by the path of every child beneath it. */
  lemma ChildPathBelow(v: Json, path: string, j: nat)
    requires j < Arity(v) && path != ""
    ensures Below(ChildPath(v, path, j), path)
  {
    match v
    case JObject(ms) => MemberPathBelow(path, ms[j].0);
    case JArray(xs) => ItemPathBelow(path, j);
  }

  /** With plain keys, the entry at position `p` lies at or below the path of
      the child that `p` enters first, and strictly below it when `p` goes
      deeper than that child. */
  lemma {:induction false} EntryBelowChild(v: Json, path: string, p: Position)
    requires PlainKeys(v) && Reportable(v, p)
    ensures AtOrBelow(EntryAt(v, path, p).path, ChildPath(v, path, p[0]))
    ensures |p| > 1 ==> Below(EntryAt(v, path, p).path, ChildPath(v, path, p[0]))
    decreases |p|
  {
    if |p| > 1 {
      var c, cp := Child(v, p[0]), ChildPath(v, path, p[0]);
      assert PlainKeys(c) && Reportable(c, p[1..]);
      assert EntryAt(v, path, p) == EntryAt(c, cp, p[1..]);
      assert cp != "";
      EntryBelowChild(c, cp, p[1..]);
      ChildPathBelow(c, cp, p[1..][0]);
      BelowTrans(EntryAt(c, cp, p[1..]).path, ChildPath(c, cp, p[1..][0]), cp);
    }
  }

  /** With plain keys, different reportable positions have different paths. */
  lemma {:induction false} EntryPathsDistinct(v: Json, path: string, p: Position, q: Position)
    requires PlainKeys(v) && Reportable(v, p) && Reportable(v, q) && p != q
    ensures EntryAt(v, path, p).path != EntryAt(v, path, q).path
    decreases |p|
  {
    var ep := EntryAt(v, path, p).path;
    EntryBelowChild(v, path, p);
    EntryBelowChild(v, path, q);
    if p[0] != q[0] {
      match v
      case JObject(ms) => KeysApart(ep, path, ms[p[0]].0, ms[q[0]].0);
      case JArray(xs) => IndicesApart(ep, path, p[0], q[0]);
    } else if |p| > 1 && |q| > 1 {
      var c, cp := Child(v, p[0]), ChildPath(v, path, p[0]);
      assert p == [p[0]] + p[1..] && q == [q[0]] + q[1..];
      assert EntryAt(v, path, p) == EntryAt(c, cp, p[1..]);
      assert EntryAt(v, path, q) == EntryAt(c, cp, q[1..]);
      EntryPathsDistinct(c, cp, p[1..], q[1..]);
    }
  }

  /** When every dict key in the value is plain (not empty, no '.' or '[')
      and keys are distinct within each dict, no two reported entries share
      a path. */
  lemma UniquePaths(v: Json, path: string)
    requires PlainKeys(v)
    ensures DistinctPaths(Search(v, path))
  {
    SearchReportsReportable(v, path);
    forall i, j | 0 <= i < j < |Search(v, path)|
      ensures Search(v, path)[i].path != Search(v, path)[j].path
    {
      EntryPathsDistinct(v, path, Hits(v)[i], Hits(v)[j]);
    }
  }

  // ---------------------------------------------------------------------------
  // Without plain keys, two entries can share a path.

  /** `{"speed": x}` walked from `path` reports its one member. */
  lemma SpeedObjectSearch(path: string, x: int)
    ensures Search(JObject([("speed", JInt(x))]), path) == [Finding(MemberPath(path, "speed"), JInt(x))]
  {
    var inner := JObject([("speed", JInt(x))]);
    assert Lower("speed") == "speed";
    KeywordAt("speed", "speed", 0);
    assert MemberSearch(inner, 1, path) == MemberSearch(inner, 0, path) + OwnEntry(path, inner.members[0]) + Search(JInt(x), MemberPath(path, "speed"));
  }

  /** A key containing '.' can spell out the path of a nested member:
      `{"a": {"speed": 1}, "a.speed": 2}` reports `a.speed` twice. */
  lemma DottedKeyCollision()
    ensures var v := JObject([("a", JObject([("speed", JInt(1))])), ("a.speed", JInt(2))]);
      Search(v, "") == [Finding("a.speed", JInt(1)), Finding("a.speed", JInt(2))]
  {
    var inner := JObject([("speed", JInt(1))]);
    var v := JObject([("a", inner), ("a.speed", JInt(2))]);
    SpeedObjectSearch("a", 1);
    assert MemberPath("a", "speed") == "a.speed";
    assert MatchesKeyword("a.speed") by {
      assert Lower("a.speed") == "a.speed";
      assert "a.speed"[2..7] == "speed";
      KeywordAt("a.speed", "speed", 2);
    }
    assert MemberSearch(v, 1, "") == [] + [] + Search(inner, "a");
  }

  /** An empty key leaves the path empty, so the walk below it starts over
      with bare keys (`if path` tests for the empty string, not for the
      root): `{"": {"speed": 1}, "speed": 2}` reports `speed` twice. */
  lemma EmptyKeyCollision()
    ensures var v := JObject([("", JObject([("speed", JInt(1))])), ("speed", JInt(2))]);
      Search(v, "") == [Finding("speed", JInt(1)), Finding("speed", JInt(2))]
  {
    var inner := JObject([("speed", JInt(1))]);
    var v := JObject([("", inner), ("speed", JInt(2))]);
    SpeedObjectSearch("", 1);
    assert Lower("speed") == "speed";
    KeywordAt("speed", "speed", 0);
    assert MemberSearch(v, 1, "") == [] + [] + Search(inner, "");
  }

  /** No keyword occurs in the key `a[0]`: none of its characters starts one. */
  lemma BracketKeyMisses()
    ensures !MatchesKeyword("a[0]")
  {
    assert Lower("a[0]") == "a[0]";
    forall w, i | w in Keywords && 0 <= i <= 4 - |w|
      ensures !OccursAt("a[0]", w, i)
    {
      assert "a[0]"[i..i + |w|][0] != w[0];
    }
  }

  /** A key containing '[' can spell out the path of a list element:
      `{"a": [{"speed": 1}], "a[0]": {"speed": 2}}` reports `a[0].speed` twice. */
  lemma BracketKeyCollision()
    ensures var v := JObject([("a", JArray([JObject([("speed", JInt(1))])])), ("a[0]", JObject([("speed", JInt(2))]))]);
      Search(v, "") == [Finding("a[0].speed", JInt(1)), Finding("a[0].speed", JInt(2))]
  {
    var one, two := JObject([("speed", JInt(1))]), JObject([("speed", JInt(2))]);
    var list := JArray([one]);
    var v := JObject([("a", list), ("a[0]", two)]);
    assert MemberPath("a[0]", "speed") == "a[0].speed";
    assert Search(list, "a") == [Finding("a[0].speed", JInt(1))] by {
      assert ItemPath("a", 0) == "a[0]";
      SpeedObjectSearch("a[0]", 1);
      assert ItemSearch(list, 1, "a") == [] + Search(one, ItemPath("a", 0));
    }
    assert Search(two, "a[0]") == [Finding("a[0].speed", JInt(2))] by {
      SpeedObjectSearch("a[0]", 2);
    }
    BracketKeyMisses();
    assert MemberSearch(v, 1, "") == [] + [] + Search(list, "a");
    assert MemberSearch(v, 2, "") == MemberSearch(v, 1, "") + [] + Search(two, "a[0]");
  }
}
