/** The text line the source appends for each hit (bot.py:25): a search-icon
    marker, the path, " = ", and Python's `str()` of the value. */
module Render {
  import opened JsonModel
  import opened Text
  import opened LandingSearch

  /** The fixed start of every line: a magnifying-glass emoji and the
      Ukrainian word for "found". */
  const Marker: string := "\U{1F50D} ЗНАЙДЕНО: "

  /** `str(v)` for a reported value. Python's float formatting is not part of
      this model, so the text of a float is supplied by the caller. */
  function ValueText(v: Json, floatText: Float -> string): string
    requires IsScalar(v)
  {
    match v
    case JBool(b) => if b then "True" else "False"
    case JInt(i) => IntText(i)
    case JStr(s) => s
    case JFloat(x) => floatText(x)
  }

  /** The line for one finding: the marker, then the path, then the value. */
  function Line(f: Finding, floatText: Float -> string): (line: string)
    requires IsScalar(f.value)
    ensures |line| == |Marker| + |f.path| + 3 + |ValueText(f.value, floatText)|
    ensures line[..|Marker|] == Marker
    ensures line[|Marker|..|Marker| + |f.path|] == f.path
    ensures line[|Marker| + |f.path|..|Marker| + |f.path| + 3] == " = "
    ensures line[|Marker| + |f.path| + 3..] == ValueText(f.value, floatText)
  {
    Marker + f.path + " = " + ValueText(f.value, floatText)
  }

  /** Every finding carries an int, float, str or bool, so it has a line. */
  predicate AllScalar(found: seq<Finding>) {
    forall i :: 0 <= i < |found| ==> IsScalar(found[i].value)
  }

  /** The list of lines `recursive_search` returns, from its findings. */
  function Report(found: seq<Finding>, floatText: Float -> string): (lines: seq<string>)
    requires AllScalar(found)
    ensures |lines| == |found|
    ensures forall i :: 0 <= i < |found| ==> lines[i] == Line(found[i], floatText)
  {
    seq(|found|, i requires 0 <= i < |found| => Line(found[i], floatText))
  }

  /** Rendering distributes over concatenation: rendering two lists of
      findings one after the other gives the two lists of lines joined. */
  lemma ReportConcat(a: seq<Finding>, b: seq<Finding>, floatText: Float -> string)
    requires AllScalar(a) && AllScalar(b)
    ensures AllScalar(a + b) && Report(a + b, floatText) == Report(a, floatText) + Report(b, floatText)
  {
    forall i | 0 <= i < |a + b|
      ensures IsScalar((a + b)[i].value)
    {
      if i >= |a| {
        assert (a + b)[i] == b[i - |a|];
      }
    }
    var r, ra, rb := Report(a + b, floatText), Report(a, floatText), Report(b, floatText);
    forall i | 0 <= i < |r|
      ensures r[i] == (ra + rb)[i]
    {
      if i < |a| {
        assert (a + b)[i] == a[i];
        assert r[i] == ra[i];
      } else {
        assert (a + b)[i] == b[i - |a|];
        assert r[i] == rb[i - |a|];
      }
    }
    assert r == ra + rb;
  }

  /** One iteration of the loop over a dict's members, in lines: the lines
      of the earlier members, then the member's own line when its key
      matches and its value is a scalar (`found.append`), then the lines
      from beneath its value (`found.extend`). So rendering the walk's
      findings gives the list of strings the source builds level by level. */
  lemma ReportMemberStep(data: Json, n: nat, path: string, floatText: Float -> string)
    requires data.JObject? && 0 < n <= |data.members|
    ensures var m := data.members[n - 1]; var sub := MemberPath(path, m.0);
      AllScalar(MemberSearch(data, n - 1, path)) && AllScalar(Search(m.1, sub)) &&
      AllScalar(MemberSearch(data, n, path)) &&
      Report(MemberSearch(data, n, path), floatText) ==
        Report(MemberSearch(data, n - 1, path), floatText) +
        (if MatchesKeyword(m.0) && IsScalar(m.1) then [Line(Finding(sub, m.1), floatText)] else []) +
        Report(Search(m.1, sub), floatText)
  {
    var m := data.members[n - 1];
    var sub := MemberPath(path, m.0);
    var a, o, c := MemberSearch(data, n - 1, path), OwnEntry(path, m), Search(m.1, sub);
    MemberSearchBounds(data, n - 1, path);
    SearchBounds(m.1, sub);
    ReportConcat(a, o, floatText);
    ReportConcat(a + o, c, floatText);
  }

  /** One iteration of the loop over a list's elements, in lines: the lines
      of the earlier elements, then the lines from beneath this one. */
  lemma ReportItemStep(data: Json, n: nat, path: string, floatText: Float -> string)
    requires data.JArray? && 0 < n <= |data.items|
    ensures var sub := ItemPath(path, n - 1);
      AllScalar(ItemSearch(data, n - 1, path)) && AllScalar(Search(data.items[n - 1], sub)) &&
      AllScalar(ItemSearch(data, n, path)) &&
      Report(ItemSearch(data, n, path), floatText) ==
        Report(ItemSearch(data, n - 1, path), floatText) + Report(Search(data.items[n - 1], sub), floatText)
  {
    var sub := ItemPath(path, n - 1);
    ItemSearchBounds(data, n - 1, path);
    SearchBounds(data.items[n - 1], sub);
    ReportConcat(ItemSearch(data, n - 1, path), Search(data.items[n - 1], sub), floatText);
  }

  /** An integer written into a line reads back as the same integer. */
  lemma IntLineRoundTrip(f: Finding, floatText: Float -> string)
    requires f.value.JInt?
    ensures ParseInt(Line(f, floatText)[|Marker| + |f.path| + 3..]) == Some(f.value.i)
  {
    IntTextRoundTrip(f.value.i);
  }

  /** A bool is written the Python way, as `True` or `False`. */
  lemma BoolLine(f: Finding, floatText: Float -> string)
    requires f.value.JBool?
    ensures Line(f, floatText)[|Marker| + |f.path| + 3..] == if f.value.b then "True" else "False"
  {
  }
}
