/**
 * Locating the container's JSON payload in the downloaded script: the brace
 * counter that finds where the object literal following `var data = ` ends.
 *
 * The counter reads one character at a time and keeps three variables:
 * the brace depth, whether it is inside a double-quoted string, and whether
 * the previous character was a backslash. A character after a backslash is
 * skipped wherever it occurs; a double quote toggles the string flag; braces
 * count only outside strings; the scan stops just after the closing brace
 * that brings the depth back to zero.
 */
module PayloadExtractor {
  import opened Json

  /** The scanner's variables: `braceCount`, `inString`, `escapeNext`. */
  datatype Scan = Scan(depth: int, inString: bool, escapeNext: bool)

  /** The state before the first character. */
  const Init := Scan(0, false, false)

  /** A state between two tokens of JSON text at the given depth. */
  function Between(depth: int): Scan {
    Scan(depth, false, false)
  }

  /** Reading `c` in state `st` is the closing brace that brings the depth back to zero. */
  predicate ClosesAt(st: Scan, c: char) {
    !st.escapeNext && !st.inString && c == '}' && st.depth - 1 == 0
  }

  /** The state after reading `c` in state `st`. */
  function Step(st: Scan, c: char): Scan {
    if st.escapeNext then st.(escapeNext := false)
    else if c == '\\' then st.(escapeNext := true)
    else if c == '"' then st.(inString := !st.inString)
    else if st.inString then st
    else if c == '{' then st.(depth := st.depth + 1)
    else if c == '}' then st.(depth := st.depth - 1)
    else st
  }

  /** The state after reading all of `s` from state `st`. */
  function Run(st: Scan, s: string): Scan
    decreases |s|
  {
    if s == [] then st else Run(Step(st, s[0]), s[1..])
  }

  /** Reading `s` from state `st` never meets the closing brace. */
  predicate NoClose(st: Scan, s: string)
    decreases |s|
  {
    s == [] || (!ClosesAt(st, s[0]) && NoClose(Step(st, s[0]), s[1..]))
  }

  /** The scan from index `i` in state `st`: the index just past the closing brace, or -1. */
  function EndFrom(s: string, i: nat, st: Scan): (r: int)
    ensures r == -1 || i < r <= |s|
    decreases |s| - i
  {
    if i >= |s| then -1
    else if ClosesAt(st, s[i]) then i + 1
    else EndFrom(s, i + 1, Step(st, s[i]))
  }

  /** `findJsonEnd(s, start)`. */
  function JsonEnd(s: string, start: nat): (r: int)
    ensures r == -1 || start < r <= |s|
  {
    EndFrom(s, start, Init)
  }

  /**
   * The brace counter's loop. The result is -1 exactly when no character from
   * `start` on closes the object; otherwise it is the index just past the
   * first closing brace that brings the depth back to zero.
   */
  method FindJsonEnd(s: string, start: nat) returns (r: int)
    ensures r == JsonEnd(s, start)
    ensures start <= |s| ==> (r == -1 <==> NoClose(Init, s[start..]))
    ensures r != -1 ==> start < r <= |s| && s[r - 1] == '}'
    ensures r != -1 ==> NoClose(Init, s[start..r - 1]) && ClosesAt(Run(Init, s[start..r - 1]), s[r - 1])
  {
    var braceCount := 0;
    var inString := false;
    var escapeNext := false;
    if start > |s| {
      return -1;
    }
    var i := start;
    while i < |s|
      invariant start <= i <= |s|
      invariant Scan(braceCount, inString, escapeNext) == Run(Init, s[start..i])
      invariant NoClose(Init, s[start..i])
      invariant EndFrom(s, i, Scan(braceCount, inString, escapeNext)) == JsonEnd(s, start)
    {
      RunAppend(Init, s[start..i], [s[i]]);
      assert s[start..i + 1] == s[start..i] + [s[i]];
      var c := s[i];
      if escapeNext {
        escapeNext := false;
      } else if c == '\\' {
        escapeNext := true;
      } else if c == '"' {
        inString := !inString;
      } else if !inString {
        if c == '{' {
          braceCount := braceCount + 1;
        }
        if c == '}' {
          braceCount := braceCount - 1;
          if braceCount == 0 {
            EndFromSpec(s, start, Init);
            return i + 1;
          }
        }
      }
      i := i + 1;
    }
    assert s[start..i] == s[start..];
    return -1;
  }

  // ---------------------------------------------------------------------------
  // Reading a concatenation
  // ---------------------------------------------------------------------------

  lemma {:induction false} RunAppend(st: Scan, a: string, b: string)
    ensures Run(st, a + b) == Run(Run(st, a), b)
    ensures NoClose(st, a + b) <==> NoClose(st, a) && NoClose(Run(st, a), b)
    decreases |a|
  {
    if a == [] {
      assert a + b == b;
    } else {
      assert (a + b)[0] == a[0] && (a + b)[1..] == a[1..] + b;
      RunAppend(Step(st, a[0]), a[1..], b);
    }
  }

  /** The scan passes over a stretch that does not close, in the state reading it leads to. */
  lemma {:induction false} EndFromSkips(s: string, i: nat, st: Scan, x: string)
    requires i + |x| <= |s| && s[i..i + |x|] == x && NoClose(st, x)
    ensures EndFrom(s, i, st) == EndFrom(s, i + |x|, Run(st, x))
    decreases |x|
  {
    if x != [] {
      assert s[i] == x[0];
      assert s[i + 1..i + 1 + |x[1..]|] == x[1..];
      EndFromSkips(s, i + 1, Step(st, x[0]), x[1..]);
    }
  }

  /** What the scan's result means, stated without the scan. */
  lemma {:induction false} EndFromSpec(s: string, i: nat, st: Scan)
    requires i <= |s|
    ensures EndFrom(s, i, st) == -1 <==> NoClose(st, s[i..])
    ensures EndFrom(s, i, st) != -1 ==>
      i < EndFrom(s, i, st) <= |s| && s[EndFrom(s, i, st) - 1] == '}'
      && NoClose(st, s[i..EndFrom(s, i, st) - 1])
      && ClosesAt(Run(st, s[i..EndFrom(s, i, st) - 1]), s[EndFrom(s, i, st) - 1])
    decreases |s| - i
  {
    if i < |s| {
      assert s[i..][0] == s[i] && s[i..][1..] == s[i + 1..];
      if !ClosesAt(st, s[i]) {
        EndFromSpec(s, i + 1, Step(st, s[i]));
        var r := EndFrom(s, i + 1, Step(st, s[i]));
        if r != -1 {
          assert s[i..r - 1] == [s[i]] + s[i + 1..r - 1];
        }
      } else {
        assert s[i..i] == [];
      }
    }
  }

  // ---------------------------------------------------------------------------
  // The scan over JSON text
  // ---------------------------------------------------------------------------

  lemma {:induction false} BareNeutral(d: int, x: string)
    requires forall k | 0 <= k < |x| :: BareChar(x[k])
    ensures Run(Between(d), x) == Between(d) && NoClose(Between(d), x)
    decreases |x|
  {
    if x != [] {
      assert BareChar(x[0]);
      BareNeutral(d, x[1..]);
    }
  }

  /** The state inside a string literal at the given depth. */
  function InString(depth: int): Scan {
    Scan(depth, true, false)
  }

  /**
   * Inside a string, the raw body of a literal leaves the state alone and
   * closes nothing: braces are ignored, and the character after each
   * backslash, a quote included, is skipped.
   */
  lemma {:induction false} BodyNeutral(d: int, x: string)
    requires LiteralBody(x)
    ensures Run(InString(d), x) == InString(d) && NoClose(InString(d), x)
    decreases |x|
  {
    if x != [] {
      if x[0] != '"' && x[0] != '\\' && LiteralBody(x[1..]) {
        BodyNeutral(d, x[1..]);
      } else {
        var escaping := Step(InString(d), x[0]);
        assert escaping == InString(d).(escapeNext := true);
        assert Step(escaping, x[1]) == InString(d);
        assert x[1..][1..] == x[2..];
        BodyNeutral(d, x[2..]);
      }
    }
  }

  /** A string literal is neutral between tokens, whatever braces and escapes it holds. */
  lemma LiteralNeutral(d: int, body: string)
    requires LiteralBody(body)
    ensures Run(Between(d), Text(Literal(body))) == Between(d)
    ensures NoClose(Between(d), Text(Literal(body)))
  {
    BodyNeutral(d, body);
    RunAppend(Between(d), "\"", body);
    RunAppend(Between(d), "\"" + body, "\"");
  }

  /**
   * Between tokens at depth at least 1, the text of a well-formed piece
   * leaves the depth as it was and never meets a closing brace that
   * returns it to zero.
   */
  lemma {:induction false} SyntaxNeutral(t: Syntax, d: int)
    requires WellFormedPiece(t) && d >= 1
    ensures Run(Between(d), Text(t)) == Between(d) && NoClose(Between(d), Text(t))
    decreases t
  {
    match t
    case Bare(raw) => BareNeutral(d, raw);
    case Literal(body) => LiteralNeutral(d, body);
    case Braced(parts) =>
      PartsNeutral(parts, d + 1);
      RunAppend(Between(d), "{", Texts(parts));
      RunAppend(Between(d), "{" + Texts(parts), "}");
  }

  lemma {:induction false} PartsNeutral(ps: seq<Syntax>, d: int)
    requires WellFormedPieces(ps) && d >= 1
    ensures Run(Between(d), Texts(ps)) == Between(d) && NoClose(Between(d), Texts(ps))
    decreases ps
  {
    if ps != [] {
      assert WellFormedPiece(ps[0]);
      SyntaxNeutral(ps[0], d);
      PartsNeutral(ps[1..], d);
      RunAppend(Between(d), Text(ps[0]), Texts(ps[1..]));
    }
  }

  /**
   * Round trip: when the text of a well-formed object is embedded in a
   * script, the counter started at its opening brace stops exactly at its
   * end, whatever whitespace and escapes it holds and whatever follows it.
   */
  lemma ObjectEndFound(p: string, t: Syntax, q: string)
    requires t.Braced? && WellFormedPiece(t)
    ensures JsonEnd(p + Text(t) + q, |p|) == |p| + |Text(t)|
  {
    var text := Text(t);
    var s := p + text + q;
    var body := Texts(t.parts);
    var close := |p| + 1 + |body|;
    assert text == "{" + body + "}";
    PartsNeutral(t.parts, 1);
    OpeningBrace(s, |p|, text, p, q);
    Infix(p, text, q, 1, 1 + |body|);
    assert text[1..1 + |body|] == body;
    EndFromSkips(s, |p| + 1, Between(1), body);
    assert s[close] == text[1 + |body|] == '}';
    assert EndFrom(s, close, Between(1)) == close + 1;
  }

  /** The compact text `Serialize` prints is found the same way. */
  lemma CompactObjectEndFound(p: string, o: Json, q: string)
    requires o.JObject?
    ensures JsonEnd(p + Serialize(o) + q, |p|) == |p| + |Serialize(o)|
  {
    PiecesText(o);
    assert Pieces(o) == [Braced(MemberPieces(o, 0))];
    assert Texts(Pieces(o)) == Text(Braced(MemberPieces(o, 0)));
    ObjectEndFound(p, Braced(MemberPieces(o, 0)), q);
  }

  /** The text's leading brace takes the scan from its start to depth one. */
  lemma OpeningBrace(s: string, i: nat, text: string, p: string, q: string)
    requires s == p + text + q && i == |p| && |text| > 0 && text[0] == '{'
    ensures EndFrom(s, i, Init) == EndFrom(s, i + 1, Between(1))
  {
    Infix(p, text, q, 0, 1);
    assert text[0..1] == "{";
    EndFromSkips(s, i, Init, "{");
    assert Run(Init, "{") == Between(1);
  }

  /** A slice of the middle part of `p + text + q`. */
  lemma Infix(p: string, text: string, q: string, i: nat, j: nat)
    requires i <= j <= |text|
    ensures (p + text + q)[|p| + i..|p| + j] == text[i..j]
  {
    var s := p + text + q;
    assert forall k | i <= k < j :: s[|p| + k] == text[k];
  }
}
