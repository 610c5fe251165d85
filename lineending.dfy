/**
 * Line-ending conversion applied to copied text: a CRLF pair, a lone CR and
 * a lone LF each count as one line break, and every break is rewritten to
 * the target mode's terminator.  An unknown mode leaves the text as it is.
 */
module LineEnding {
  import opened Wrappers

  predicate IsBreakChar(c: char) { c == '\r' || c == '\n' }

  /** Text holding neither CR nor LF. */
  predicate NoBreaks(s: string) { forall i :: 0 <= i < |s| ==> !IsBreakChar(s[i]) }

  /** The terminators a mode can ask for. */
  predicate IsTerminator(t: string) { t == "\n" || t == "\r\n" || t == "\r" }

  /** The terminator of a mode name: "lf", "crlf" and "cr", in lower or upper case. */
  function Terminator(mode: string): (r: Option<string>)
    ensures r.Some? ==> IsTerminator(r.value)
  {
    if mode == "lf" || mode == "LF" then Some("\n")
    else if mode == "crlf" || mode == "CRLF" then Some("\r\n")
    else if mode == "cr" || mode == "CR" then Some("\r")
    else None
  }

  /** The length of the line break at the start of `s`: 2 for CRLF, 1 for CR or LF, else 0. */
  function BreakAt(s: string): (k: nat)
    ensures k <= |s|
    ensures k > 0 <==> |s| > 0 && IsBreakChar(s[0])
  {
    if |s| >= 2 && s[0] == '\r' && s[1] == '\n' then 2
    else if |s| >= 1 && IsBreakChar(s[0]) then 1
    else 0
  }

  /** The lines of a text, that is the pieces between its line breaks. */
  function Lines(s: string): (ls: seq<string>)
    ensures |ls| >= 1
    ensures forall i :: 0 <= i < |ls| ==> NoBreaks(ls[i])
    decreases |s|
  {
    if |s| == 0 then [""]
    else if BreakAt(s) > 0 then [""] + Lines(s[BreakAt(s)..])
    else
      var rest := Lines(s[1..]);
      [[s[0]] + rest[0]] + rest[1..]
  }

  /** Lines put back together with `t` after every line but the last. */
  function JoinLines(ls: seq<string>, t: string): string
    requires |ls| >= 1
  {
    if |ls| == 1 then ls[0] else ls[0] + t + JoinLines(ls[1..], t)
  }

  /** Every line break of `s`, whatever its kind, replaced by `t`. */
  function Normalize(s: string, t: string): string
    decreases |s|
  {
    if |s| == 0 then ""
    else if BreakAt(s) > 0 then t + Normalize(s[BreakAt(s)..], t)
    else [s[0]] + Normalize(s[1..], t)
  }

  /** The conversion of copied text to the line endings of `mode`. */
  function ConvertLineEnding(text: string, mode: string): string {
    match Terminator(mode)
    case None => text
    case Some(t) => Normalize(text, t)
  }

  /** Normalizing keeps the lines and puts `t` between them. */
  lemma {:induction false} NormalizeJoinsLines(s: string, t: string)
    ensures Normalize(s, t) == JoinLines(Lines(s), t)
    decreases |s|
  {
    if |s| == 0 {
    } else if BreakAt(s) > 0 {
      NormalizeJoinsLines(s[BreakAt(s)..], t);
    } else {
      NormalizeJoinsLines(s[1..], t);
      var rest := Lines(s[1..]);
      if |rest| == 1 {
      } else {
        assert ([[s[0]] + rest[0]] + rest[1..])[1..] == rest[1..];
      }
    }
  }

  /** A line, its terminator and what follows: the line comes first among the lines. */
  lemma {:induction false} LinesOfLine(l: string, t: string, rest: string)
    requires NoBreaks(l) && IsTerminator(t)
    requires t == "\r" ==> rest == "" || rest[0] != '\n'
    ensures Lines(l + t + rest) == [l] + Lines(rest)
    decreases |l|
  {
    var s := l + t + rest;
    if |l| == 0 {
      assert s == t + rest;
      assert BreakAt(s) == |t|;
      assert s[|t|..] == rest;
    } else {
      assert s[0] == l[0];
      assert s[1..] == l[1..] + t + rest;
      LinesOfLine(l[1..], t, rest);
      assert [l[0]] + l[1..] == l;
    }
  }

  /** With CR as terminator, joined lines never start with LF. */
  lemma JoinedStart(ls: seq<string>, t: string)
    requires |ls| >= 1 && forall i :: 0 <= i < |ls| ==> NoBreaks(ls[i])
    requires t == "\r"
    ensures JoinLines(ls, t) == "" || JoinLines(ls, t)[0] != '\n'
  {
    if |ls| > 1 {
      var s := JoinLines(ls, t);
      assert s == ls[0] + t + JoinLines(ls[1..], t);
      if |ls[0]| > 0 {
        assert s[0] == ls[0][0];
      } else {
        assert s[0] == '\r';
      }
    }
  }

  /** Splitting joined lines gives back the lines. */
  lemma {:induction false} LinesJoinLines(ls: seq<string>, t: string)
    requires |ls| >= 1 && forall i :: 0 <= i < |ls| ==> NoBreaks(ls[i])
    requires IsTerminator(t)
    ensures Lines(JoinLines(ls, t)) == ls
    decreases |ls|
  {
    if |ls| == 1 {
      NoBreaksOneLine(ls[0]);
    } else {
      var rest := JoinLines(ls[1..], t);
      if t == "\r" {
        JoinedStart(ls[1..], t);
      }
      LinesOfLine(ls[0], t, rest);
      LinesJoinLines(ls[1..], t);
      assert ls == [ls[0]] + ls[1..];
    }
  }

  /** Text without line breaks is a single line. */
  lemma {:induction false} NoBreaksOneLine(l: string)
    requires NoBreaks(l)
    ensures Lines(l) == [l]
    decreases |l|
  {
    if |l| > 0 {
      NoBreaksOneLine(l[1..]);
      assert [l[0]] + l[1..] == l;
    }
  }

  /** Converting keeps every line of the text; only the breaks between them change. */
  lemma ConvertKeepsLines(text: string, mode: string)
    ensures Lines(ConvertLineEnding(text, mode)) == Lines(text)
  {
    if Terminator(mode).Some? {
      var t := Terminator(mode).value;
      NormalizeJoinsLines(text, t);
      LinesJoinLines(Lines(text), t);
    }
  }

  /** Converting twice gives what converting once gave. */
  lemma ConvertIdempotent(text: string, mode: string)
    ensures ConvertLineEnding(ConvertLineEnding(text, mode), mode) == ConvertLineEnding(text, mode)
  {
    if Terminator(mode).Some? {
      var t := Terminator(mode).value;
      var once := Normalize(text, t);
      NormalizeJoinsLines(text, t);
      NormalizeJoinsLines(once, t);
      LinesJoinLines(Lines(text), t);
    }
  }

  /** After conversion every line break is the mode's terminator. */
  lemma ConvertUsesTerminator(text: string, mode: string, t: string)
    requires Terminator(mode) == Some(t)
    ensures ConvertLineEnding(text, mode) == JoinLines(Lines(text), t)
  {
    NormalizeJoinsLines(text, t);
  }

  /** An unknown mode leaves the text as it is. */
  lemma UnknownModeUnchanged(text: string, mode: string)
    requires Terminator(mode).None?
    ensures ConvertLineEnding(text, mode) == text
  {
  }

  /** Two lines with any break between them come out with the mode's terminator between them. */
  lemma ConvertTwoLines(a: string, brk: string, b: string, mode: string, t: string)
    requires NoBreaks(a) && NoBreaks(b) && IsTerminator(brk)
    requires Terminator(mode) == Some(t)
    ensures ConvertLineEnding(a + brk + b, mode) == a + t + b
  {
    if brk == "\r" {
      assert b == "" || b[0] != '\n';
    }
    LinesOfLine(a, brk, b);
    NoBreaksOneLine(b);
    ConvertUsesTerminator(a + brk + b, mode, t);
    assert [a] + [b] == [a, b];
    assert JoinLines([a, b], t) == a + t + JoinLines([b], t);
  }

  lemma HelloWorldLines()
    ensures NoBreaks("hello") && NoBreaks("world")
  {
  }

  /** The example: "hello", CRLF, "world" converted to LF gives "hello", LF, "world". */
  lemma CrlfToLf()
    ensures ConvertLineEnding("hello" + "\r\n" + "world", "lf") == "hello" + "\n" + "world"
  {
    HelloWorldLines();
    ConvertTwoLines("hello", "\r\n", "world", "lf", "\n");
  }
}
