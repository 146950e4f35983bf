/** The console capture of src/engine/mcp_server.cpp. */
module McpServer {
  // ConsoleOutputCapture

  const LINE_LIMIT := 500
  const NOTICE := "[MCP] Output truncated at 500 lines."

  datatype CaptureState = Idle | WaitingForStart | Capturing | Completed

  datatype Capture = Capture(guid: string, lines: seq<string>, state: CaptureState, truncated: bool)

  predicate FoundAt(line: string, marker: string, i: nat) {
    i + |marker| <= |line| && line[i..i + |marker|] == marker
  }

  predicate Contains(line: string, marker: string) {
    exists i: nat | i <= |line| :: FoundAt(line, marker, i)
  }

  // The marker stands somewhere in the line.
  lemma ContainsIff(line: string, marker: string)
    ensures Contains(line, marker) <==> exists before, after :: line == before + marker + after
  {
    if Contains(line, marker) {
      var i: nat :| i <= |line| && FoundAt(line, marker, i);
      assert line == line[..i] + marker + line[i + |marker|..];
    }
    if exists before, after :: line == before + marker + after {
      var before, after :| line == before + marker + after;
      assert FoundAt(line, marker, |before|);
    }
  }

  // The markers of a session; a line with both is a start.
  lemma MarkersIff(guid: string, line: string)
    ensures IsStart(guid, line) <==> exists before, after :: line == before + ("[MCP-START:" + guid + "]") + after
    ensures IsEnd(guid, line) <==>
              !IsStart(guid, line) && exists before, after :: line == before + ("[MCP-END:" + guid + "]") + after
  {
    ContainsIff(line, "[MCP-START:" + guid + "]");
    ContainsIff(line, "[MCP-END:" + guid + "]");
    hide Contains;
  }

  predicate IsStart(guid: string, line: string) {
    Contains(line, "[MCP-START:" + guid + "]")
  }

  predicate IsEnd(guid: string, line: string) {
    !IsStart(guid, line) && Contains(line, "[MCP-END:" + guid + "]")
  }

  predicate IsOutput(guid: string, line: string) {
    !IsStart(guid, line) && !IsEnd(guid, line)
  }

  function Started(guid: string): Capture {
    Capture(guid, [], WaitingForStart, false)
  }

  function AfterLine(c: Capture, line: string): Capture {
    if c.guid == "" then c
    else if IsStart(c.guid, line) then c.(state := Capturing)
    else if IsEnd(c.guid, line) then c.(state := Completed)
    else if c.state != Capturing then c
    else if |c.lines| < LINE_LIMIT then c.(lines := c.lines + [line])
    else if !c.truncated then c.(truncated := true, lines := c.lines + [NOTICE], state := Completed)
    else c
  }

  // The capture of a whole log, line by line.
  function Fold(c: Capture, log: seq<string>): Capture {
    if log == [] then c else AfterLine(Fold(c, log[..|log| - 1]), log[|log| - 1])
  }

  // Whether the last marker of a log is a start marker.
  predicate On(guid: string, log: seq<string>) {
    if log == [] then false
    else
      var line := log[|log| - 1];
      if IsStart(guid, line) then true
      else if IsEnd(guid, line) then false
      else On(guid, log[..|log| - 1])
  }

  // The output lines of a log that stand after a start marker with no end marker between.
  function Inside(guid: string, log: seq<string>): seq<string> {
    if log == [] then []
    else
      var before := log[..|log| - 1];
      var line := log[|log| - 1];
      Inside(guid, before) + if IsOutput(guid, line) && On(guid, before) then [line] else []
  }

  function Limited(lines: seq<string>): (r: seq<string>)
    ensures |r| <= LINE_LIMIT + 1
    ensures |lines| <= 500 ==> r == lines
    ensures |lines| > 500 ==>
              |r| == 501 && r[..500] == lines[..500] && r[500] == "[MCP] Output truncated at 500 lines."
  {
    if |lines| <= LINE_LIMIT then lines else lines[..LINE_LIMIT] + [NOTICE]
  }

  // A session holds exactly the output inside its markers, or its first 500 lines and one notice.
  lemma {:induction false} CaptureIsInside(guid: string, log: seq<string>)
    requires guid != ""
    ensures var c := Fold(Started(guid), log);
            && c.guid == guid
            && c.lines == Limited(Inside(guid, log))
            && (c.truncated <==> |Inside(guid, log)| > LINE_LIMIT)
            && (!c.truncated ==> (c.state == Capturing <==> On(guid, log)))
            && (c.state == Capturing ==> On(guid, log))
  {
    if log != [] {
      CaptureIsInside(guid, log[..|log| - 1]);
      hide IsStart, IsEnd;
    }
  }

  lemma {:induction false} PlainLog(guid: string, log: seq<string>)
    requires forall i | 0 <= i < |log| :: IsOutput(guid, log[i])
    ensures !On(guid, log) && Inside(guid, log) == []
  {
    if log != [] {
      PlainLog(guid, log[..|log| - 1]);
      hide IsStart, IsEnd;
    }
  }

  lemma {:induction false} SessionLog(guid: string, before: seq<string>, start: string, body: seq<string>)
    requires IsStart(guid, start)
    requires forall i | 0 <= i < |before| :: IsOutput(guid, before[i])
    requires forall i | 0 <= i < |body| :: IsOutput(guid, body[i])
    ensures var log := before + [start] + body; On(guid, log) && Inside(guid, log) == body
  {
    hide IsStart, IsEnd;
    var log := before + [start] + body;
    if body == [] {
      PlainLog(guid, before);
      assert log[..|log| - 1] == before;
    } else {
      SessionLog(guid, before, start, body[..|body| - 1]);
      assert log[..|log| - 1] == before + [start] + body[..|body| - 1];
      assert body == body[..|body| - 1] + [body[|body| - 1]];
    }
  }

  /**
    A session with one pair of markers: what is taken after the end marker is the output between them, or its
    first 500 lines and the notice, and the session is complete.  Before the end marker it is complete exactly
    when it was truncated.
   */
  lemma SessionIsCaptured(guid: string, before: seq<string>, start: string, body: seq<string>, end: string)
    requires guid != "" && IsStart(guid, start) && IsEnd(guid, end)
    requires forall i | 0 <= i < |before| :: IsOutput(guid, before[i])
    requires forall i | 0 <= i < |body| :: IsOutput(guid, body[i])
    ensures Fold(Started(guid), before + [start] + body + [end])
         == Capture(guid, Limited(body), Completed, |body| > LINE_LIMIT)
    ensures Fold(Started(guid), before + [start] + body)
         == Capture(guid, Limited(body), if |body| > LINE_LIMIT then Completed else Capturing, |body| > LINE_LIMIT)
  {
    hide IsStart, Contains, Fold, IsOutput, Limited;
    TruncatedIsComplete(guid, before, start, body);
    FoldLast(Started(guid), before + [start] + body, end);
  }

  lemma FoldLast(c: Capture, log: seq<string>, line: string)
    ensures Fold(c, log + [line]) == AfterLine(Fold(c, log), line)
  {
    hide AfterLine;
    assert (log + [line])[..|log|] == log;
  }

  lemma {:induction false} TruncatedIsComplete(guid: string, before: seq<string>, start: string, body: seq<string>)
    requires guid != "" && IsStart(guid, start)
    requires forall i | 0 <= i < |before| :: IsOutput(guid, before[i])
    requires forall i | 0 <= i < |body| :: IsOutput(guid, body[i])
    ensures Fold(Started(guid), before + [start] + body)
         == Capture(guid, Limited(body), if |body| > LINE_LIMIT then Completed else Capturing, |body| > LINE_LIMIT)
  {
    hide IsStart, IsEnd;
    var log := before + [start] + body;
    CaptureIsInside(guid, log);
    SessionLog(guid, before, start, body);
    if |body| > LINE_LIMIT {
      TruncatedIsComplete(guid, before, start, body[..|body| - 1]);
      assert log[..|log| - 1] == before + [start] + body[..|body| - 1];
    }
  }

  // A log up to and with its last marker
  function Marked(guid: string, log: seq<string>): seq<string> {
    if log == [] then []
    else if IsOutput(guid, log[|log| - 1]) then Marked(guid, log[..|log| - 1])
    else log
  }

  // Whether the last marker of a log is an end marker.
  predicate Closed(guid: string, log: seq<string>) {
    var marked := Marked(guid, log); marked != [] && IsEnd(guid, marked[|marked| - 1])
  }

  // A session has ended: by its end marker, or since its last start marker by the line that was too many.
  predicate Ended(guid: string, log: seq<string>) {
    Closed(guid, log)
    || (On(guid, log) && |Inside(guid, Marked(guid, log))| <= 500 < |Inside(guid, log)|)
  }

  lemma {:induction false} MarkedIsEarlier(guid: string, log: seq<string>)
    ensures |Inside(guid, Marked(guid, log))| <= |Inside(guid, log)|
    ensures On(guid, log) ==> !Closed(guid, log)
    ensures Marked(guid, log) != [] ==> !IsOutput(guid, Marked(guid, log)[|Marked(guid, log)| - 1])
  {
    if log != [] && IsOutput(guid, log[|log| - 1]) {
      MarkedIsEarlier(guid, log[..|log| - 1]);
    }
    hide IsStart;
  }

  lemma EndedAfterMarker(guid: string, before: seq<string>, line: string)
    requires !IsOutput(guid, line)
    ensures Ended(guid, before + [line]) <==> IsEnd(guid, line)
  {
    hide IsStart;
    assert (before + [line])[..|before|] == before;
  }

  lemma AfterOutput(guid: string, before: seq<string>, line: string)
    requires IsOutput(guid, line)
    ensures var log := before + [line];
            && Marked(guid, log) == Marked(guid, before) && On(guid, log) == On(guid, before)
            && Inside(guid, log) == Inside(guid, before) + if On(guid, before) then [line] else []
  {
    hide IsStart, IsEnd;
    assert (before + [line])[..|before|] == before;
  }

  lemma EndedAfterOutput(guid: string, before: seq<string>, line: string)
    requires IsOutput(guid, line)
    ensures Ended(guid, before + [line]) <==>
              Ended(guid, before) || (On(guid, before) && |Inside(guid, before)| == LINE_LIMIT)
  {
    MarkedIsEarlier(guid, before);
    AfterOutput(guid, before, line);
    hide Marked, Inside, On, IsOutput, IsEnd;
  }

  lemma StateAfterOutput(c: Capture, line: string)
    requires c.guid != "" && IsOutput(c.guid, line)
    ensures AfterLine(c, line).state == Completed <==>
              c.state == Completed || (c.state == Capturing && |c.lines| >= LINE_LIMIT && !c.truncated)
  {
    hide IsStart, IsEnd;
  }

  // For every log, a session is complete if and only if it has ended.
  lemma {:induction false} CompletionIff(guid: string, log: seq<string>)
    requires guid != ""
    ensures Fold(Started(guid), log).state == Completed <==> Ended(guid, log)
  {
    if log != [] {
      var before := log[..|log| - 1];
      var line := log[|log| - 1];
      assert log == before + [line];
      CompletionIff(guid, before);
      CaptureIsInside(guid, before);
      hide Ended, Inside, On;
      if IsOutput(guid, line) {
        hide AfterLine, IsOutput;
        EndedAfterOutput(guid, before, line);
        StateAfterOutput(Fold(Started(guid), before), line);
      } else {
        EndedAfterMarker(guid, before, line);
        hide IsStart, IsEnd;
      }
    }
  }

  class ConsoleOutputCapture {
    var guid: string
    var lines: seq<string>
    var state: CaptureState
    var truncated: bool

    // Never more than the limit and the notice, over every use; without a session nothing is complete.
    ghost predicate Valid()
      reads this
    {
      && |lines| <= LINE_LIMIT + 1 && (|lines| == LINE_LIMIT + 1 ==> truncated || guid == "")
      && (guid == "" ==> state != Completed)
    }

    ghost function Model(): Capture
      reads this
    {
      Capture(guid, lines, state, truncated)
    }

    constructor ()
      ensures Valid() && Model() == Capture("", [], Idle, false)
    {
      guid, lines, state, truncated := "", [], Idle, false;
    }

    method Start(newGuid: string)
      modifies this
      ensures Valid() && Model() == Started(newGuid)
    {
      guid := newGuid;
      lines := [];
      state := WaitingForStart;
      truncated := false;
    }

    method Stop()
      requires Valid()
      modifies this
      ensures Valid() && Model() == Capture("", old(lines), Idle, false)
    {
      guid := "";
      state := Idle;
      truncated := false;
    }

    method AddLine(line: string)
      requires Valid()
      modifies this
      ensures Valid() && Model() == AfterLine(old(Model()), line)
    {
      hide Contains;
      if guid == "" {
        return;
      }
      if Contains(line, "[MCP-START:" + guid + "]") {
        state := Capturing;
        return;
      }
      if Contains(line, "[MCP-END:" + guid + "]") {
        state := Completed;
        return;
      }
      if state != Capturing {
        return;
      }
      if |lines| < LINE_LIMIT {
        lines := lines + [line];
        return;
      }
      if !truncated {
        truncated := true;
        lines := lines + [NOTICE];
        state := Completed;
      }
    }

    method TakeLines() returns (taken: seq<string>)
      requires Valid()
      modifies this`lines
      ensures Valid() && taken == old(lines) && |taken| <= 501
      ensures Model() == old(Model()).(lines := [])
    {
      taken := lines;
      lines := [];
    }

    // What the wait answers once its condition or its time-out ends it, `log` being what the session has seen:
    // whether there is a session, still that one, and it has ended.
    method WaitForCompletion(wanted: string, ghost log: seq<string>) returns (ok: bool)
      requires Valid() && (guid != "" ==> Model() == Fold(Started(guid), log))
      ensures ok <==> guid == wanted && wanted != "" && Ended(wanted, log)
    {
      if guid == wanted && wanted != "" {
        CompletionIff(wanted, log);
      }
      var signalled := guid != wanted || state == Completed;
      ok := signalled && guid == wanted && state == Completed;
    }
  }
}
