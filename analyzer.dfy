/**
 * `parseGTMScript`: locate the container's `var data = {...}` literal in the
 * script text, cut it out with the brace scanner, parse it, and classify its
 * `resource` record. `JSON.parse` is a parameter (`None` when it throws).
 */
module Analyzer {
  import opened Wrappers
  import opened Strings
  import opened Json
  import opened PayloadExtractor
  import opened Classifier

  /** The text that introduces the container's data literal. */
  const Marker: string := "var data = "

  /** `data.resource || data`. */
  function ResourceOf(data: Json): Json {
    var resource := Prop(data, "resource");
    if TruthyProp(resource) then resource.value else data
  }

  /** The analysis `parseGTMScript` returns for `script`. */
  function AnalysisOfScript(script: string, parse: string -> Option<Json>): Analysis {
    var dataStart := IndexOf(script, Marker, 0);
    if dataStart == -1 then EmptyAnalysis
    else
      var jsonStart := IndexOf(script, "{", dataStart);
      if jsonStart == -1 then EmptyAnalysis
      else
        var jsonEnd := JsonEnd(script, jsonStart);
        if jsonEnd == -1 then EmptyAnalysis
        else
          var parsed := parse(script[jsonStart..jsonEnd]);
          if parsed.None? || !Truthy(parsed.value) || !IsObjectLike(parsed.value) then EmptyAnalysis
          else ResourceDetails(ResourceOf(parsed.value))
  }

  /** `parseGTMScript(scriptString)`. */
  method ParseGTMScript(script: string, parse: string -> Option<Json>) returns (r: Analysis)
    ensures r == AnalysisOfScript(script, parse)
  {
    var dataStart := IndexOf(script, Marker, 0);
    if dataStart == -1 {
      return EmptyAnalysis;
    }
    var jsonStart := IndexOf(script, "{", dataStart);
    if jsonStart == -1 {
      return EmptyAnalysis;
    }
    var jsonEnd := FindJsonEnd(script, jsonStart);
    if jsonEnd == -1 {
      return EmptyAnalysis;
    }
    var parsed := parse(script[jsonStart..jsonEnd]);
    if parsed.None? || !Truthy(parsed.value) || !IsObjectLike(parsed.value) {
      return EmptyAnalysis;
    }
    r := ExtractResourceDetails(ResourceOf(parsed.value));
  }

  /**
   * The three ways the cut fails, each giving the empty analysis: no marker;
   * no `{` at or after the marker; no balanced end from that brace.
   */
  lemma ParseFailures(script: string, parse: string -> Option<Json>)
    ensures !Contains(script, Marker) ==> AnalysisOfScript(script, parse) == EmptyAnalysis
    ensures var d := IndexOf(script, Marker, 0);
      d != -1 && IndexOf(script, "{", d) == -1 ==> AnalysisOfScript(script, parse) == EmptyAnalysis
    ensures var d := IndexOf(script, Marker, 0);
      d != -1 && IndexOf(script, "{", d) != -1 && JsonEnd(script, IndexOf(script, "{", d)) == -1 ==>
        AnalysisOfScript(script, parse) == EmptyAnalysis
  {
    var dataStart := IndexOf(script, Marker, 0);
    if dataStart != -1 {
      assert OccursAt(script, Marker, dataStart);
    }
  }

  /** The marker holds no brace, quote or backslash, so the scanner starts right after it. */
  lemma MarkerHasNoBrace()
    ensures forall i | 0 <= i < |Marker| :: Marker[i] != '{'
  {
  }

  /**
   * End to end: a script whose first marker is followed directly by the text
   * of an object, with any whitespace and escapes inside it and any text
   * after it, yields the analysis of the object's resource record, provided
   * `JSON.parse` reads an object `o` from that text.
   */
  lemma ScriptRoundTrip(p: string, t: Syntax, q: string, o: Json, parse: string -> Option<Json>)
    requires t.Braced? && WellFormedPiece(t)
    requires forall i | 0 <= i < |p| :: !OccursAt(p + Marker + Text(t) + q, Marker, i)
    requires parse(Text(t)) == Some(o) && o.JObject?
    ensures AnalysisOfScript(p + Marker + Text(t) + q, parse) == ResourceDetails(ResourceOf(o))
  {
    ScriptPositions(p, t, q, p + Marker, p + Marker + Text(t) + q);
  }

  /** The same for the compact text `Serialize` prints. */
  lemma CompactScriptRoundTrip(p: string, o: Json, q: string, parse: string -> Option<Json>)
    requires o.JObject?
    requires forall i | 0 <= i < |p| :: !OccursAt(p + Marker + Serialize(o) + q, Marker, i)
    requires parse(Serialize(o)) == Some(o)
    ensures AnalysisOfScript(p + Marker + Serialize(o) + q, parse) == ResourceDetails(ResourceOf(o))
  {
    var t := Braced(MemberPieces(o, 0));
    PiecesText(o);
    assert Pieces(o) == [t];
    assert Texts(Pieces(o)) == Text(t) == Serialize(o);
    ScriptRoundTrip(p, t, q, o, parse);
  }

  /** Where the scan finds the marker, the opening brace and the end of the literal in such a script. */
  lemma ScriptPositions(p: string, t: Syntax, q: string, head: string, script: string)
    requires t.Braced? && WellFormedPiece(t) && head == p + Marker && script == head + Text(t) + q
    requires forall i | 0 <= i < |p| :: !OccursAt(script, Marker, i)
    ensures IndexOf(script, Marker, 0) == |p|
    ensures IndexOf(script, "{", |p|) == |head|
    ensures JsonEnd(script, |head|) == |head| + |Text(t)|
    ensures script[|head|..|head| + |Text(t)|] == Text(t)
  {
    var text := Text(t);
    MarkerPosition(p, text, q, script);
    BraceAfterMarker(p, text, q, script);
    ObjectEndFound(head, t, q);
    Infix(head, text, q, 0, |text|);
  }

  lemma MarkerPosition(p: string, text: string, q: string, script: string)
    requires script == p + Marker + text + q
    requires forall i | 0 <= i < |p| :: !OccursAt(script, Marker, i)
    ensures IndexOf(script, Marker, 0) == |p|
  {
    assert forall k | 0 <= k < |Marker| :: script[|p| + k] == Marker[k];
    assert script[|p|..|p| + |Marker|] == Marker;
    IndexOfFirst(script, Marker, 0, |p|);
  }

  /** The first `{` at or after the marker is the first character after it, when that is a `{`. */
  lemma BraceAfterMarker(p: string, text: string, q: string, script: string)
    requires script == p + Marker + text + q && |text| > 0 && text[0] == '{'
    ensures IndexOf(script, "{", |p|) == |p| + |Marker|
  {
    var head := |p| + |Marker|;
    assert script[head] == text[0];
    assert script[head..head + 1] == [text[0]];
    forall i | |p| <= i < head
      ensures !OccursAt(script, "{", i)
    {
      assert script[i] == Marker[i - |p|];
      MarkerHasNoBrace();
      assert script[i..i + 1] == [script[i]];
    }
    IndexOfFirst(script, "{", |p|, head);
  }
}
