/**
 * `setMarkersFromESLint`: the messages of the first lint result become editor
 * markers, one per message in order; the markers are handed to the editor's
 * model when it has one.  Linting itself and the editor are not modelled.
 */
module EslintService {
  import opened Options

  datatype MarkerSeverity = Error | Warning

  /** One ESLint message; `endLine` / `endColumn` may be absent. */
  datatype LintMessage = LintMessage(
    severity: int, message: string, line: int, column: int,
    endLine: Option<int>, endColumn: Option<int>)

  datatype LintResult = LintResult(messages: seq<LintMessage>)

  /** A Monaco marker. */
  datatype Marker = Marker(
    severity: MarkerSeverity, message: string,
    startLineNumber: int, startColumn: int, endLineNumber: int, endColumn: int)

  /** `n || fallback` on an optional number: absent and 0 are falsy. */
  function OrElse(n: Option<int>, fallback: int): (r: int)
    ensures n.Some? && n.value != 0 ==> r == n.value
    ensures n.None? || n.value == 0 ==> r == fallback
  {
    if n.Some? && n.value != 0 then n.value else fallback
  }

  /** The marker for one message. */
  function ToMarker(msg: LintMessage): (m: Marker)
    ensures m.severity == Error <==> msg.severity == 2
    ensures m.message == msg.message
    ensures m.startLineNumber == msg.line && m.startColumn == msg.column
    ensures m.endLineNumber == OrElse(msg.endLine, msg.line)
    ensures m.endColumn == OrElse(msg.endColumn, msg.column + 1)
  {
    Marker(if msg.severity == 2 then Error else Warning, msg.message,
           msg.line, msg.column, OrElse(msg.endLine, msg.line), OrElse(msg.endColumn, msg.column + 1))
  }

  /** Without an explicit end a marker spans one column of its start line. */
  lemma DefaultRangeIsOneColumn(msg: LintMessage)
    requires msg.endLine.None? && msg.endColumn.None?
    ensures ToMarker(msg).endLineNumber == ToMarker(msg).startLineNumber
    ensures ToMarker(msg).endColumn == ToMarker(msg).startColumn + 1
  {
  }

  /** The messages that become markers: those of `results[0]`, or none. */
  function MarkedMessages(results: Option<seq<LintResult>>): (msgs: seq<LintMessage>)
    ensures results.None? || results.value == [] ==> msgs == []
    ensures results.Some? && results.value != [] ==> msgs == results.value[0].messages
  {
    if results.Some? && |results.value| > 0 then results.value[0].messages else []
  }

  /** Only the first result counts: appending more results changes nothing. */
  lemma LaterResultsIgnored(first: LintResult, rest: seq<LintResult>)
    ensures MarkedMessages(Some([first] + rest)) == MarkedMessages(Some([first]))
  {
  }

  /**
   * `setMarkersFromESLint(editor, results)`: builds the markers and returns what
   * is handed to `setModelMarkers` (`None` when the editor has no model).
   */
  method SetMarkersFromESLint(hasModel: bool, results: Option<seq<LintResult>>)
    returns (markers: seq<Marker>, applied: Option<seq<Marker>>)
    ensures |markers| == |MarkedMessages(results)|
    ensures forall i :: 0 <= i < |markers| ==> markers[i] == ToMarker(MarkedMessages(results)[i])
    ensures applied == (if hasModel then Some(markers) else None)
  {
    markers := [];
    if results.Some? && |results.value| > 0 {
      var messages := results.value[0].messages;
      var i := 0;
      while i < |messages|
        invariant 0 <= i <= |messages|
        invariant |markers| == i
        invariant forall k :: 0 <= k < i ==> markers[k] == ToMarker(messages[k])
      {
        var msg := messages[i];
        markers := markers + [Marker(
          if msg.severity == 2 then Error else Warning,
          msg.message, msg.line, msg.column,
          OrElse(msg.endLine, msg.line), OrElse(msg.endColumn, msg.column + 1))];
        i := i + 1;
      }
    }
    applied := if hasModel then Some(markers) else None;
  }
}
