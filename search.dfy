/** `recursive_search` (bot.py:12-34): a depth-first walk over a decoded JSON
    value that reports every scalar whose dict key mentions a landing keyword,
    together with the dotted/indexed path that leads to it. */
module LandingSearch {
  import opened JsonModel
  import opened Text

  /** One reported hit: the path of a dict member and its scalar value.
      The source stores each hit already formatted as a text line; module
      Render produces that line from a Finding. */
  datatype Finding = Finding(path: string, value: Json)

  /** `new_path` for dict member `k`: the key alone when `path` is empty
      (Python's `if path` tests for the empty string), else `path.k`. */
  function MemberPath(path: string, k: string): string {
    if path == "" then k else path + "." + k
  }

  /** The path of list element `i`: `path[i]`, with `i` in decimal. */
  function ItemPath(path: string, i: nat): string {
    path + "[" + DecimalText(i) + "]"
  }

  /** What dict member `m` under `path` reports for itself: an entry when its
      key matches a keyword and its value is an int, float, str or bool. */
  function OwnEntry(path: string, m: (string, Json)): seq<Finding> {
    if MatchesKeyword(m.0) && IsScalar(m.1) then [Finding(MemberPath(path, m.0), m.1)] else []
  }

  /** Everything `recursive_search(data, path)` reports, in order. */
  ghost function Search(data: Json, path: string): seq<Finding>
    decreases data, 1, 0
  {
    match data
    case JObject(ms) => MemberSearch(data, |ms|, path)
    case JArray(xs) => ItemSearch(data, |xs|, path)
    case _ => []
  }

  /** What the first `n` iterations of the loop over a dict's members report:
      each member's own entry, then everything beneath its value. */
  ghost function MemberSearch(data: Json, n: nat, path: string): seq<Finding>
    requires data.JObject? && n <= |data.members|
    decreases data, 0, n
  {
    if n == 0 then []
    else
      var m := data.members[n - 1];
      MemberSearch(data, n - 1, path) + OwnEntry(path, m) + Search(m.1, MemberPath(path, m.0))
  }

  /** What the first `n` iterations of the loop over a list's elements report. */
  ghost function ItemSearch(data: Json, n: nat, path: string): seq<Finding>
    requires data.JArray? && n <= |data.items|
    decreases data, 0, n
  {
    if n == 0 then []
    else
      ItemSearch(data, n - 1, path) + Search(data.items[n - 1], ItemPath(path, n - 1))
  }

  /** The walk itself: a list `found` extended member by member, recursing
      into every dict value whether or not its key matched, and into every
      list element. */
  method RecursiveSearch(data: Json, path: string) returns (found: seq<Finding>)
    ensures found == Search(data, path)
    decreases data
  {
    found := [];
    match data {
      case JObject(members) =>
        for j := 0 to |members|
          invariant found == MemberSearch(data, j, path)
        {
          var k, v := members[j].0, members[j].1;
          var newPath := MemberPath(path, k);
          if MatchesKeyword(k) && IsScalar(v) {
            found := found + [Finding(newPath, v)];
          }
          assert found == MemberSearch(data, j, path) + OwnEntry(path, members[j]);
          var nested := RecursiveSearch(v, newPath);
          found := found + nested;
        }
      case JArray(items) =>
        for i := 0 to |items|
          invariant found == ItemSearch(data, i, path)
        {
          var nested := RecursiveSearch(items[i], ItemPath(path, i));
          found := found + nested;
        }
      case _ =>
    }
  }

  /** A scalar or null, an empty dict and an empty list report nothing. */
  lemma NothingToReport(data: Json, path: string)
    requires Arity(data) == 0
    ensures Search(data, path) == []
  {
  }

  /** Every reported value is an int, float, str or bool, and there are at
      most as many entries as there are dict keys in `data`. */
  lemma {:induction false} SearchBounds(data: Json, path: string)
    ensures forall j :: 0 <= j < |Search(data, path)| ==> IsScalar(Search(data, path)[j].value)
    ensures |Search(data, path)| <= KeyCount(data)
    decreases data, 1, 0
  {
    match data
    case JObject(ms) => MemberSearchBounds(data, |ms|, path);
    case JArray(xs) => ItemSearchBounds(data, |xs|, path);
    case _ =>
  }

  lemma {:induction false} MemberSearchBounds(data: Json, n: nat, path: string)
    requires data.JObject? && n <= |data.members|
    ensures forall j :: 0 <= j < |MemberSearch(data, n, path)| ==> IsScalar(MemberSearch(data, n, path)[j].value)
    ensures |MemberSearch(data, n, path)| <= MemberKeyCount(data, n)
    decreases data, 0, n
  {
    if n > 0 {
      var m := data.members[n - 1];
      var a: seq<Finding>, o: seq<Finding>, c: seq<Finding> := MemberSearch(data, n - 1, path), OwnEntry(path, m), Search(m.1, MemberPath(path, m.0));
      MemberSearchBounds(data, n - 1, path);
      SearchBounds(m.1, MemberPath(path, m.0));
      assert MemberSearch(data, n, path) == a + o + c;
      forall j | 0 <= j < |a + o + c|
        ensures IsScalar((a + o + c)[j].value)
      {
        if j < |a| {
          assert (a + o + c)[j] == a[j];
        } else if j >= |a| + |o| {
          assert (a + o + c)[j] == c[j - |a| - |o|];
        }
      }
    }
  }

  lemma {:induction false} ItemSearchBounds(data: Json, n: nat, path: string)
    requires data.JArray? && n <= |data.items|
    ensures forall j :: 0 <= j < |ItemSearch(data, n, path)| ==> IsScalar(ItemSearch(data, n, path)[j].value)
    ensures |ItemSearch(data, n, path)| <= ItemKeyCount(data, n)
    decreases data, 0, n
  {
    if n > 0 {
      var x := data.items[n - 1];
      var a: seq<Finding>, c: seq<Finding> := ItemSearch(data, n - 1, path), Search(x, ItemPath(path, n - 1));
      ItemSearchBounds(data, n - 1, path);
      SearchBounds(x, ItemPath(path, n - 1));
      assert ItemSearch(data, n, path) == a + c;
      forall j | 0 <= j < |a + c|
        ensures IsScalar((a + c)[j].value)
      {
        if j >= |a| {
          assert (a + c)[j] == c[j - |a|];
        }
      }
    }
  }
}

