/**
 * The chat message box: `@[name](id)` file mentions and `/command` tokens
 * parsed out of the composed text, the mention and slash pop-ups driven by
 * what follows the last "@" or "/", consecutive messages grouped by role,
 * and submission of the composed message with its attachments.
 */
module MessageBoxComponent {
  import opened Options
  import opened Lists
  import opened Strings

  /* ---------------------------------------------------------------------- */
  /*                        `text.split(/\s+/)`                             */
  /* ---------------------------------------------------------------------- */

  /** The index of the first whitespace character at or after `i`, or `|s|`. */
  function FirstWhitespace(s: string, i: nat): (j: nat)
    requires i <= |s|
    ensures i <= j <= |s|
    ensures forall k :: i <= k < j ==> !IsWhitespace(s[k])
    ensures j < |s| ==> IsWhitespace(s[j])
    decreases |s| - i
  {
    if i == |s| || IsWhitespace(s[i]) then i else FirstWhitespace(s, i + 1)
  }

  /** The end of the whitespace run starting at `i`. */
  function WhitespaceRunEnd(s: string, i: nat): (j: nat)
    requires i <= |s|
    ensures i <= j <= |s|
    ensures forall k :: i <= k < j ==> IsWhitespace(s[k])
    ensures j < |s| ==> !IsWhitespace(s[j])
    decreases |s| - i
  {
    if i == |s| || !IsWhitespace(s[i]) then i else WhitespaceRunEnd(s, i + 1)
  }

  function Concat(parts: seq<string>): string
  {
    if parts == [] then "" else parts[0] + Concat(parts[1..])
  }

  function NotWhitespace(c: char): bool
  {
    !IsWhitespace(c)
  }

  /** `s` with every whitespace character removed. */
  function Letters(s: string): string
  {
    Filter(s, NotWhitespace)
  }

  lemma LettersOfBlank(s: string)
    requires forall k :: 0 <= k < |s| ==> IsWhitespace(s[k])
    ensures Letters(s) == []
  {
    FilterNone(s, NotWhitespace);
  }

  lemma LettersOfSplit(s: string, i: nat, j: nat)
    requires i <= j <= |s|
    requires forall k :: 0 <= k < i ==> !IsWhitespace(s[k])
    requires forall k :: i <= k < j ==> IsWhitespace(s[k])
    ensures Letters(s) == s[..i] + Letters(s[j..])
  {
    var x, y, z := s[..i], s[i..j], s[j..];
    assert s == x + y + z;
    assert forall k :: 0 <= k < |y| ==> IsWhitespace(y[k]);
    LettersOfBlank(y);
    FilterAll(x, NotWhitespace);
    FilterAppend(x, y, NotWhitespace);
    assert Letters(x + y) == x;
    FilterAppend(x + y, z, NotWhitespace);
  }

  /**
   * `s.split(/\s+/)`: the text between maximal whitespace runs, with an empty
   * first (last) piece when `s` starts (ends) with whitespace.
   */
  function Split(s: string): (r: seq<string>)
    ensures |r| >= 1
    decreases |s|
  {
    var i := FirstWhitespace(s, 0);
    if i == |s| then [s]
    else [s[..i]] + Split(s[WhitespaceRunEnd(s, i)..])
  }

  /** No piece holds whitespace, and together they hold every other character of the text, in order. */
  lemma {:induction false} SplitPieces(s: string)
    ensures forall k :: 0 <= k < |Split(s)| ==> !HasWhitespace(Split(s)[k])
    ensures Concat(Split(s)) == Letters(s)
    decreases |s|
  {
    var i := FirstWhitespace(s, 0);
    if i == |s| {
      FilterAll(s, NotWhitespace);
    } else {
      var j := WhitespaceRunEnd(s, i);
      var rest := Split(s[j..]);
      SplitPieces(s[j..]);
      LettersOfSplit(s, i, j);
      assert Split(s) == [s[..i]] + rest;
      assert ([s[..i]] + rest)[1..] == rest;
    }
  }

  /**
   * Only the first and the last piece can be empty: the first exactly when
   * the text starts with whitespace, the last exactly when it ends with it
   * or is empty.
   */
  lemma {:induction false} SplitEmptyPieces(s: string)
    ensures s == "" ==> Split(s) == [""]
    ensures |s| > 0 && !IsWhitespace(s[0]) ==> Split(s)[0] != ""
    ensures |s| > 0 && IsWhitespace(s[0]) ==> Split(s)[0] == ""
    ensures |s| > 0 && IsWhitespace(s[|s| - 1]) ==> Split(s)[|Split(s)| - 1] == ""
    ensures Split(s)[|Split(s)| - 1] == "" ==> s == "" || IsWhitespace(s[|s| - 1])
    ensures forall k :: 0 < k < |Split(s)| - 1 ==> Split(s)[k] != ""
    decreases |s|
  {
    var i := FirstWhitespace(s, 0);
    if i < |s| {
      var j := WhitespaceRunEnd(s, i);
      SplitEmptyPieces(s[j..]);
      assert Split(s) == [s[..i]] + Split(s[j..]);
      if j == |s| {
        assert IsWhitespace(s[j - 1]);
      } else {
        assert s[j..][|s[j..]| - 1] == s[|s| - 1];
      }
    }
  }

  predicate AllWhitespace(t: string)
  {
    forall k :: 0 <= k < |t| ==> IsWhitespace(t[k])
  }

  /** The whitespace runs the text is cut at, in order. */
  function Separators(s: string): seq<string>
    decreases |s|
  {
    var i := FirstWhitespace(s, 0);
    if i == |s| then []
    else
      var j := WhitespaceRunEnd(s, i);
      [s[i..j]] + Separators(s[j..])
  }

  /** The pieces with the separators put back between consecutive ones. */
  function Interleave(pieces: seq<string>, seps: seq<string>): string
    requires |pieces| == |seps| + 1
    decreases |seps|
  {
    if seps == [] then pieces[0] else pieces[0] + seps[0] + Interleave(pieces[1..], seps[1..])
  }

  /** Every separator is a non-empty run of whitespace. */
  lemma {:induction false} SeparatorsAreRuns(s: string)
    ensures forall k :: 0 <= k < |Separators(s)| ==> |Separators(s)[k]| > 0 && AllWhitespace(Separators(s)[k])
    decreases |s|
  {
    var i := FirstWhitespace(s, 0);
    if i < |s| {
      var j := WhitespaceRunEnd(s, i);
      SeparatorsAreRuns(s[j..]);
      var run, seps := s[i..j], Separators(s[j..]);
      assert Separators(s) == [run] + seps;
      assert |run| > 0 by {
        assert j != i;
      }
      assert AllWhitespace(run) by {
        forall k | 0 <= k < |run| ensures IsWhitespace(run[k]) {
          assert run[k] == s[i + k];
        }
      }
      forall k | 0 <= k < |Separators(s)| ensures |Separators(s)[k]| > 0 && AllWhitespace(Separators(s)[k]) {
        if k > 0 {
          assert Separators(s)[k] == seps[k - 1];
        }
      }
    }
  }

  /**
   * Where the cuts are: the text is the pieces with a separator put back
   * between each two consecutive ones. Since separators are non-empty
   * whitespace runs (`SeparatorsAreRuns`) and no piece holds whitespace
   * (`SplitPieces`), each maximal whitespace run is exactly one cut.
   */
  lemma {:induction false} SplitCuts(s: string)
    ensures |Split(s)| == |Separators(s)| + 1
    ensures Interleave(Split(s), Separators(s)) == s
    decreases |s|
  {
    var i := FirstWhitespace(s, 0);
    if i < |s| {
      var j := WhitespaceRunEnd(s, i);
      SplitCuts(s[j..]);
      var pieces, seps := Split(s[j..]), Separators(s[j..]);
      assert Split(s) == [s[..i]] + pieces;
      assert Separators(s) == [s[i..j]] + seps;
      InterleaveCons(s[..i], pieces, s[i..j], seps);
      ThreeSlices(s, i, j);
    }
  }

  lemma InterleaveCons(piece: string, pieces: seq<string>, sep: string, seps: seq<string>)
    requires |pieces| == |seps| + 1
    ensures Interleave([piece] + pieces, [sep] + seps) == piece + sep + Interleave(pieces, seps)
  {
    assert ([piece] + pieces)[1..] == pieces;
    assert ([sep] + seps)[1..] == seps;
  }

  lemma ThreeSlices(s: string, i: nat, j: nat)
    requires i <= j <= |s|
    ensures s[..i] + s[i..j] + s[j..] == s
  {
  }

  lemma {:induction false} FirstWhitespaceAppend(a: string, b: string, k: nat)
    requires k <= |a| && FirstWhitespace(a, k) < |a|
    ensures FirstWhitespace(a + b, k) == FirstWhitespace(a, k)
    decreases |a| - k
  {
    assert (a + b)[k] == a[k];
    if !IsWhitespace(a[k]) {
      FirstWhitespaceAppend(a, b, k + 1);
    }
  }

  lemma {:induction false} WhitespaceRunEndAppend(a: string, b: string, k: nat)
    requires k <= |a|
    requires |b| > 0 && !IsWhitespace(b[0])
    ensures WhitespaceRunEnd(a + b, k) == WhitespaceRunEnd(a, k)
    decreases |a| - k
  {
    if k == |a| {
      assert (a + b)[k] == b[0];
    } else {
      assert (a + b)[k] == a[k];
      if IsWhitespace(a[k]) {
        WhitespaceRunEndAppend(a, b, k + 1);
      }
    }
  }

  /** One step of `Split`: the text before the first whitespace run, then the rest split. */
  lemma SplitStep(s: string)
    requires FirstWhitespace(s, 0) < |s|
    ensures Split(s) == [s[..FirstWhitespace(s, 0)]] + Split(s[WhitespaceRunEnd(s, FirstWhitespace(s, 0))..])
  {
  }

  /** Where the first whitespace run of `a` ends, `a + b` has the same run at the same place. */
  lemma AppendFirstRun(a: string, b: string) returns (i: nat, j: nat)
    requires |a| > 0 && IsWhitespace(a[|a| - 1])
    requires |b| > 0 && !IsWhitespace(b[0])
    ensures i == FirstWhitespace(a, 0) == FirstWhitespace(a + b, 0) && i < |a|
    ensures j == WhitespaceRunEnd(a, i) == WhitespaceRunEnd(a + b, i) && i < j <= |a|
    ensures (a + b)[..i] == a[..i] && (a + b)[j..] == a[j..] + b
  {
    i := FirstWhitespace(a, 0);
    FirstWhitespaceAppend(a, b, 0);
    WhitespaceRunEndAppend(a, b, i);
    j := WhitespaceRunEnd(a, i);
  }

  /**
   * Splitting text that ends in whitespace and then a word: the pieces of
   * the text, without its empty last piece, then the pieces of the rest.
   */
  lemma {:induction false} SplitAppend(a: string, b: string)
    requires |a| > 0 && IsWhitespace(a[|a| - 1])
    requires |b| > 0 && !IsWhitespace(b[0])
    ensures Split(a + b) == Split(a)[..|Split(a)| - 1] + Split(b)
    decreases |a|
  {
    var i, j := AppendFirstRun(a, b);
    SplitStep(a);
    SplitStep(a + b);
    var head := [a[..i]];
    var rest := a[j..];
    if j == |a| {
      assert rest == "";
      assert (a + b)[j..] == b;
    } else {
      SplitAppend(rest, b);
      SplitAppendStep(head, Split(rest), Split(rest + b), Split(b));
    }
  }

  lemma SplitAppendStep(head: seq<string>, x: seq<string>, y: seq<string>, z: seq<string>)
    requires |x| > 0 && y == x[..|x| - 1] + z
    ensures head + y == (head + x)[..|head + x| - 1] + z
  {
    assert (head + x)[..|head + x| - 1] == head + x[..|x| - 1];
  }

  /** `token.substring(1)` for each token starting with "/", in order. */
  function SlashCommands(tokens: seq<string>): (r: seq<string>)
    ensures forall c :: c in r <==> "/" + c in tokens
    ensures |r| <= |tokens|
  {
    if tokens == [] then []
    else
      var t := tokens[|tokens| - 1];
      var init := SlashCommands(tokens[..|tokens| - 1]);
      assert tokens == tokens[..|tokens| - 1] + [t];
      if StartsWith(t, "/") then
        assert t == "/" + t[1..];
        init + [t[1..]]
      else
        assert forall c :: "/" + c != t by {
          forall c ensures "/" + c != t {
            assert ("/" + c)[..1] == "/";
          }
        }
        init
  }

  lemma {:induction false} SlashCommandsAppend(a: seq<string>, b: seq<string>)
    ensures SlashCommands(a + b) == SlashCommands(a) + SlashCommands(b)
    decreases |b|
  {
    if b == [] {
      assert a + b == a;
    } else {
      var bi := b[..|b| - 1];
      assert (a + b)[..|a + b| - 1] == a + bi;
      assert (a + b)[|a + b| - 1] == b[|b| - 1];
      SlashCommandsAppend(a, bi);
    }
  }

  /** `parseUsedSlashCommands`: every whitespace-separated token starting with "/", without the "/". */
  method ParseUsedSlashCommands(text: string) returns (used: seq<string>)
    ensures used == SlashCommands(Split(text))
    ensures forall c :: c in used <==> "/" + c in Split(text)
    ensures forall k :: 0 <= k < |used| ==> !HasWhitespace(used[k])
  {
    var tokens := Split(text);
    used := [];
    var i := 0;
    while i < |tokens|
      invariant 0 <= i <= |tokens|
      invariant used == SlashCommands(tokens[..i])
    {
      var token := tokens[i];
      assert tokens[..i + 1][..i] == tokens[..i];
      if StartsWith(token, "/") {
        used := used + [token[1..]];
      }
      i := i + 1;
    }
    assert tokens[..i] == tokens;
    UsedCommandsAreWords(text);
  }

  /** A used command holds no whitespace: it is a whole token less its "/". */
  lemma UsedCommandsAreWords(text: string)
    ensures forall k :: 0 <= k < |SlashCommands(Split(text))| ==> !HasWhitespace(SlashCommands(Split(text))[k])
  {
    var tokens := Split(text);
    var used := SlashCommands(tokens);
    SplitPieces(text);
    forall k | 0 <= k < |used| ensures !HasWhitespace(used[k]) {
      var t := "/" + used[k];
      assert used[k] in used;
      assert t in tokens;
      forall m | 0 <= m < |used[k]| ensures !IsWhitespace(used[k][m]) {
        assert used[k][m] == t[m + 1];
      }
    }
  }

  /**
   * A command chosen from the slash pop-up after whitespace (or at the start)
   * is the one command the completed text adds to those already used.
   */
  lemma SelectedSlashCommandIsUsed(prefix: string, command: string)
    requires prefix == "" || IsWhitespace(prefix[|prefix| - 1])
    requires !HasWhitespace(command)
    ensures SlashCommands(Split(prefix + SlashText(command))) == SlashCommands(Split(prefix)) + [command]
  {
    CompletedCommandTokens(command);
    SlashCommandsOfAppend(prefix, SlashText(command));
  }

  /** Text appended after whitespace (or to nothing) adds its own commands after the earlier ones. */
  lemma SlashCommandsOfAppend(a: string, b: string)
    requires a == "" || IsWhitespace(a[|a| - 1])
    requires |b| > 0 && !IsWhitespace(b[0])
    ensures SlashCommands(Split(a + b)) == SlashCommands(Split(a)) + SlashCommands(Split(b))
  {
    if a == "" {
      assert a + b == b;
      SplitEmptyPieces(a);
      assert SlashCommands(Split(a)) == [];
    } else {
      SplitAppend(a, b);
      SlashCommandsAfterBlank(a, Split(b));
    }
  }

  /** Tokens following text that ends in whitespace add their commands to the text's own. */
  lemma SlashCommandsAfterBlank(prefix: string, tokens: seq<string>)
    requires |prefix| > 0 && IsWhitespace(prefix[|prefix| - 1])
    ensures SlashCommands(Split(prefix)[..|Split(prefix)| - 1] + tokens)
      == SlashCommands(Split(prefix)) + SlashCommands(tokens)
  {
    SplitEmptyPieces(prefix);
    var p := Split(prefix);
    var init := p[..|p| - 1];
    assert p == init + [""];
    SlashCommandsAppend(init, tokens);
    SlashCommandsAppend(init, [""]);
  }

  /** The text the slash pop-up inserts for a command. */
  function SlashText(command: string): string
  {
    "/" + command + " "
  }

  /** The text the slash pop-up inserts is one "/command" token and an empty one after the space. */
  lemma CompletedCommandTokens(command: string)
    requires !HasWhitespace(command)
    ensures |SlashText(command)| > 0 && !IsWhitespace(SlashText(command)[0])
    ensures Split(SlashText(command)) == ["/" + command, ""]
    ensures SlashCommands(Split(SlashText(command))) == [command]
  {
    var b := SlashText(command);
    assert FirstWhitespace(b, 0) == |command| + 1 by {
      forall k | 0 <= k < |command| + 1 ensures !IsWhitespace(b[k]) {
        if k > 0 { assert b[k] == command[k - 1]; }
      }
      assert b[|command| + 1] == ' ';
    }
    assert WhitespaceRunEnd(b, |command| + 1) == |command| + 2;
    assert b[..|command| + 1] == "/" + command;
    assert b[|command| + 2..] == "";
    SplitStep(b);
    assert ("/" + command)[1..] == command;
    assert StartsWith("/" + command, "/");
    SlashCommandsAppend(["/" + command], [""]);
  }


  /* ---------------------------------------------------------------------- */
  /*                 `/\@\[(.*?)\]\((.*?)\)/g` file mentions                 */
  /* ---------------------------------------------------------------------- */

  /** The characters `.` does not match in a JavaScript regular expression. */
  predicate IsLineTerminator(c: char)
  {
    c == '\n' || c == '\r' || c == '\U{2028}' || c == '\U{2029}'
  }

  /** No line terminator in `s[k..m]`. */
  predicate OneLine(s: string, k: nat, m: nat)
    requires k <= m <= |s|
  {
    forall q :: k <= q < m ==> !IsLineTerminator(s[q])
  }

  /** One match: "@[" at `start`, the id between `idStart` and the ")" at `idEnd`. */
  datatype MentionMatch = MentionMatch(start: nat, idStart: nat, idEnd: nat)

  /** "](" at `q`. */
  predicate NameEndAt(s: string, q: nat)
  {
    q + 1 < |s| && s[q] == ']' && s[q + 1] == '('
  }

  /**
   * The lazy `(.*?)\]\(`: the first "](" at or after `k` with no line
   * terminator before it.
   */
  function FindNameEnd(s: string, k: nat): (r: Option<nat>)
    requires k <= |s|
    ensures r.Some? ==> k <= r.value && NameEndAt(s, r.value) && OneLine(s, k, r.value)
    ensures r.Some? ==> forall q :: k <= q < r.value ==> !NameEndAt(s, q)
    decreases |s| - k
  {
    if k + 1 < |s| && s[k] == ']' && s[k + 1] == '(' then Some(k)
    else if k == |s| || IsLineTerminator(s[k]) then None
    else FindNameEnd(s, k + 1)
  }

  /** The lazy `(.*?)\)`: the first ")" at or after `k` with no line terminator before it. */
  function FindIdEnd(s: string, k: nat): (r: Option<nat>)
    requires k <= |s|
    ensures r.Some? ==> k <= r.value < |s| && s[r.value] == ')' && OneLine(s, k, r.value)
    ensures r.Some? ==> forall q :: k <= q < r.value ==> s[q] != ')'
    decreases |s| - k
  {
    if k == |s| || IsLineTerminator(s[k]) then None
    else if s[k] == ')' then Some(k)
    else FindIdEnd(s, k + 1)
  }

  /** When no "](" is found, every later "](" has a line break before it. */
  lemma {:induction false} FindNameEndNone(s: string, k: nat)
    requires k <= |s| && FindNameEnd(s, k).None?
    ensures forall m :: k <= m < |s| && NameEndAt(s, m) ==> !OneLine(s, k, m)
    decreases |s| - k
  {
    if k < |s| && !IsLineTerminator(s[k]) && !NameEndAt(s, k) {
      FindNameEndNone(s, k + 1);
    }
  }

  /** When no ")" is found, every later ")" has a line break before it. */
  lemma {:induction false} FindIdEndNone(s: string, k: nat)
    requires k <= |s| && FindIdEnd(s, k).None?
    ensures forall m :: k <= m < |s| && s[m] == ')' ==> !OneLine(s, k, m)
    decreases |s| - k
  {
    if k < |s| && !IsLineTerminator(s[k]) && s[k] != ')' {
      FindIdEndNone(s, k + 1);
    }
  }

  /**
   * The match starting at `p`, if any. Backtracking into a later "](" cannot
   * help when no ")" follows the first one on its line, since the later one
   * is on the same line, so the first "](" decides.
   */
  function MatchAt(s: string, p: nat): (r: Option<MentionMatch>)
    requires p <= |s|
    ensures r.Some? ==> r.value.start == p && p + 4 <= r.value.idStart <= r.value.idEnd < |s|
    ensures r.Some? ==> s[p] == '@' && s[p + 1] == '[' && s[r.value.idStart - 2] == ']' && s[r.value.idStart - 1] == '('
    ensures r.Some? ==> s[r.value.idEnd] == ')'
  {
    if p + 1 < |s| && s[p] == '@' && s[p + 1] == '[' then
      var nameEnd := FindNameEnd(s, p + 2);
      if nameEnd.None? then None
      else
        var idEnd := FindIdEnd(s, nameEnd.value + 2);
        if idEnd.None? then None
        else Some(MentionMatch(p, nameEnd.value + 2, idEnd.value))
    else None
  }

  /** `regex.exec(text)` with `lastIndex == from`: the leftmost match at or after `from`. */
  function FindMention(s: string, from: nat): (r: Option<MentionMatch>)
    requires from <= |s|
    ensures r.Some? ==> from <= r.value.start < |s| && MatchAt(s, r.value.start) == r
    decreases |s| - from
  {
    if from == |s| then None
    else if MatchAt(s, from).Some? then MatchAt(s, from)
    else FindMention(s, from + 1)
  }

  /** `exec` finds the leftmost match: none starts between `from` and the one found, or anywhere when none is found. */
  lemma {:induction false} FindMentionIsLeftmost(s: string, from: nat)
    requires from <= |s|
    ensures FindMention(s, from).Some? ==> forall q :: from <= q < FindMention(s, from).value.start ==> MatchAt(s, q).None?
    ensures FindMention(s, from).None? ==> forall q :: from <= q <= |s| ==> MatchAt(s, q).None?
    decreases |s| - from
  {
    if from < |s| && MatchAt(s, from).None? {
      FindMentionIsLeftmost(s, from + 1);
    }
  }

  /** The ids (second groups) of the successive matches from `from` on. */
  function MentionIds(s: string, from: nat): seq<string>
    requires from <= |s|
    decreases |s| - from
  {
    var found := FindMention(s, from);
    if found.None? then []
    else [s[found.value.idStart..found.value.idEnd]] + MentionIds(s, found.value.idEnd + 1)
  }

  /** What the second group can hold: no ")" and no line break. */
  predicate CleanId(id: string)
  {
    ')' !in id && OneLine(id, 0, |id|)
  }

  /** Every parsed id is clean. */
  lemma {:induction false} MentionIdsAreClean(s: string, from: nat)
    requires from <= |s|
    ensures forall k :: 0 <= k < |MentionIds(s, from)| ==> CleanId(MentionIds(s, from)[k])
    decreases |s| - from
  {
    MentionIdsStep(s, from);
    var found := FindMention(s, from);
    if found.Some? {
      var m := found.value;
      MatchedIdIsClean(s, m);
      MentionIdsAreClean(s, m.idEnd + 1);
    }
  }

  lemma MatchedIdIsClean(s: string, m: MentionMatch)
    requires m.start <= |s| && MatchAt(s, m.start) == Some(m)
    ensures CleanId(s[m.idStart..m.idEnd])
  {
    var id := s[m.idStart..m.idEnd];
    assert FindIdEnd(s, m.idStart) == Some(m.idEnd);
    assert forall q :: 0 <= q < |id| ==> id[q] == s[m.idStart + q];
  }

  /** `parseMentionedFileIds`: `exec` until it finds nothing, collecting each match's id. */
  method ParseMentionedFileIds(text: string) returns (results: seq<string>)
    ensures results == MentionIds(text, 0)
  {
    results := [];
    var lastIndex := 0;
    ghost var all := MentionIds(text, 0);
    while true
      invariant lastIndex <= |text|
      invariant results + MentionIds(text, lastIndex) == all
      decreases |text| - lastIndex
    {
      var found := FindMention(text, lastIndex);
      if found.None? {
        MentionIdsStep(text, lastIndex);
        assert results + [] == results;
        return;
      }
      var m := found.value;
      var fileId := text[m.idStart..m.idEnd];
      MentionIdsSnoc(text, lastIndex, results, all);
      results := results + [fileId];
      lastIndex := m.idEnd + 1;
    }
  }

  /** One step of the scan: the id found at `from` moves from the pending ids to the collected ones. */
  lemma MentionIdsSnoc(s: string, from: nat, ids: seq<string>, all: seq<string>)
    requires from <= |s| && FindMention(s, from).Some?
    requires ids + MentionIds(s, from) == all
    ensures var m := FindMention(s, from).value;
      (ids + [s[m.idStart..m.idEnd]]) + MentionIds(s, m.idEnd + 1) == all
  {
    var m := FindMention(s, from).value;
    MentionIdsStep(s, from);
    AppendAssoc(ids, [s[m.idStart..m.idEnd]], MentionIds(s, m.idEnd + 1));
  }

  lemma MentionIdsStep(s: string, from: nat)
    requires from <= |s|
    ensures FindMention(s, from).None? ==> MentionIds(s, from) == []
    ensures FindMention(s, from).Some? ==>
      var m := FindMention(s, from).value;
      MentionIds(s, from) == [s[m.idStart..m.idEnd]] + MentionIds(s, m.idEnd + 1)
  {
  }


  lemma {:induction false} FindMentionSkips(s: string, from: nat, to: nat)
    requires from <= to <= |s|
    requires forall q :: from <= q < to ==> s[q] != '@'
    ensures FindMention(s, from) == FindMention(s, to)
    decreases |s| - from
  {
    if from < to {
      FindMentionSkips(s, from + 1, to);
    }
  }

  lemma {:induction false} FindNameEndAt(s: string, k: nat, m: nat)
    requires k <= m && m + 1 < |s| && s[m] == ']' && s[m + 1] == '('
    requires forall q :: k <= q < m ==> s[q] != ']' && !IsLineTerminator(s[q])
    ensures FindNameEnd(s, k) == Some(m)
    decreases m - k
  {
    if k < m {
      FindNameEndAt(s, k + 1, m);
    }
  }

  lemma {:induction false} FindIdEndAt(s: string, k: nat, m: nat)
    requires k <= m < |s| && s[m] == ')'
    requires forall q :: k <= q < m ==> s[q] != ')' && !IsLineTerminator(s[q])
    ensures FindIdEnd(s, k) == Some(m)
    decreases m - k
  {
    if k < m {
      FindIdEndAt(s, k + 1, m);
    }
  }

  /** The text the mention pop-up inserts for a file. */
  function MentionText(name: string, id: string): string
  {
    "@[" + name + "](" + id + ") "
  }

  /**
   * A mention inserted by the pop-up, where no "@" comes before it, parses
   * back to exactly the file's id, provided the name holds no "]" and neither
   * holds a line break (nor the id a ")").
   */
  lemma SelectedMentionIsParsed(prefix: string, name: string, id: string)
    requires '@' !in prefix && ']' !in name && ')' !in id
    requires OneLine(name, 0, |name|) && OneLine(id, 0, |id|)
    ensures MentionIds(prefix + MentionText(name, id), 0) == [id]
  {
    var t := prefix + MentionText(name, id);
    var p, e := |prefix|, |prefix| + |name| + |id| + 4;
    InsertedMentionMatches(prefix, name, id);
    MentionAfterPrefix(prefix, name, id);
    MentionIdsStep(t, 0);
    NothingAfterMention(prefix, name, id);
  }

  /** Without "@" in the prefix, the first match is sought from the inserted "@[" on. */
  lemma MentionAfterPrefix(prefix: string, name: string, id: string)
    requires '@' !in prefix
    ensures FindMention(prefix + MentionText(name, id), 0) == FindMention(prefix + MentionText(name, id), |prefix|)
  {
    var t := prefix + MentionText(name, id);
    assert forall q :: 0 <= q < |prefix| ==> t[q] == prefix[q];
    FindMentionSkips(t, 0, |prefix|);
  }

  /** After the inserted mention only a space remains, which holds no id. */
  lemma NothingAfterMention(prefix: string, name: string, id: string)
    ensures var t := prefix + MentionText(name, id);
      |t| == |prefix| + |name| + |id| + 6 && MentionIds(t, |prefix| + |name| + |id| + 5) == []
  {
    var t := prefix + MentionText(name, id);
    var e := |prefix| + |name| + |id| + 4;
    assert t[e + 1] == ' ' && |t| == e + 2;
    FindMentionSkips(t, e + 1, |t|);
    MentionIdsStep(t, e + 1);
  }

  /** At the inserted "@[", the regular expression matches the whole mention, with `id` as its second group. */
  lemma InsertedMentionMatches(prefix: string, name: string, id: string)
    requires ']' !in name && ')' !in id
    requires OneLine(name, 0, |name|) && OneLine(id, 0, |id|)
    ensures var t, p, n := prefix + MentionText(name, id), |prefix|, |name|;
      && MatchAt(t, p) == Some(MentionMatch(p, p + n + 4, p + n + |id| + 4))
      && t[p + n + 4..p + n + |id| + 4] == id
  {
    var t := prefix + MentionText(name, id);
    var p, n, i := |prefix|, |name|, |id|;
    MentionNameEnd(prefix, name, id);
    MentionIdEnd(prefix, name, id);
    assert t[p] == '@' && t[p + 1] == '[';
  }

  /** The inserted name ends at the inserted "](". */
  lemma MentionNameEnd(prefix: string, name: string, id: string)
    requires ']' !in name && OneLine(name, 0, |name|)
    ensures var t, p, n := prefix + MentionText(name, id), |prefix|, |name|;
      |t| == p + n + |id| + 6 && FindNameEnd(t, p + 2) == Some(p + n + 2)
  {
    var t := prefix + MentionText(name, id);
    var p, n := |prefix|, |name|;
    assert forall q :: 0 <= q < n ==> t[p + 2 + q] == name[q];
    assert t[p + n + 2] == ']' && t[p + n + 3] == '(';
    NameRun(t, p + 2, name);
  }

  /** The inserted id ends at the inserted ")" and is the text between "](" and ")". */
  lemma MentionIdEnd(prefix: string, name: string, id: string)
    requires ')' !in id && OneLine(id, 0, |id|)
    ensures var t, p, n, i := prefix + MentionText(name, id), |prefix|, |name|, |id|;
      && |t| == p + n + i + 6
      && FindIdEnd(t, p + n + 4) == Some(p + n + i + 4)
      && t[p + n + 4..p + n + i + 4] == id
  {
    var t := prefix + MentionText(name, id);
    var p, n, i := |prefix|, |name|, |id|;
    MentionIdChars(prefix, name, id);
    IdRun(t, p + n + 4, id);
  }

  /** Where the characters of the inserted id sit. */
  lemma MentionIdChars(prefix: string, name: string, id: string)
    ensures var t, p, n, i := prefix + MentionText(name, id), |prefix|, |name|, |id|;
      && |t| == p + n + i + 6
      && (forall q :: 0 <= q < i ==> t[p + n + 4 + q] == id[q])
      && t[p + n + i + 4] == ')'
  {
    var t := prefix + MentionText(name, id);
    var p, n, i := |prefix|, |name|, |id|;
    assert t == (prefix + "@[" + name + "](") + id + ") ";
  }

  /** A name without "]" or line break, followed by "](", ends where the "](" starts. */
  lemma NameRun(t: string, a: nat, name: string)
    requires ']' !in name && OneLine(name, 0, |name|)
    requires a + |name| + 1 < |t| && t[a + |name|] == ']' && t[a + |name| + 1] == '('
    requires forall q :: 0 <= q < |name| ==> t[a + q] == name[q]
    ensures FindNameEnd(t, a) == Some(a + |name|)
  {
    forall q | a <= q < a + |name| ensures t[q] != ']' && !IsLineTerminator(t[q]) {
      assert t[a + (q - a)] == name[q - a];
    }
    FindNameEndAt(t, a, a + |name|);
  }

  /** An id without ")" or line break, followed by ")", ends at that ")". */
  lemma IdRun(t: string, a: nat, id: string)
    requires ')' !in id && OneLine(id, 0, |id|)
    requires a + |id| < |t| && t[a + |id|] == ')'
    requires forall q :: 0 <= q < |id| ==> t[a + q] == id[q]
    ensures FindIdEnd(t, a) == Some(a + |id|)
    ensures t[a..a + |id|] == id
  {
    forall q | a <= q < a + |id| ensures t[q] != ')' && !IsLineTerminator(t[q]) {
      assert t[a + (q - a)] == id[q - a];
    }
    FindIdEndAt(t, a, a + |id|);
    forall q | 0 <= q < |id| ensures t[a..a + |id|][q] == id[q] {
      assert t[a..a + |id|][q] == t[a + q];
    }
  }

  /* ---------------------------------------------------------------------- */
  /*                      Mention and slash pop-ups                          */
  /* ---------------------------------------------------------------------- */

  /** Whether a pop-up is open and the query it filters by. */
  datatype Popup = Popup(open: bool, query: string)

  /**
   * The pop-up state after an edit, for trigger character `c` ("@" or "/"):
   * open with what follows the last `c` when that holds no whitespace,
   * otherwise closed with the previous query left as it was.
   */
  function AfterEdit(text: string, c: char, prev: Popup): (r: Popup)
    ensures r.open <==> exists k :: 0 <= k < |text| && text[k] == c && !HasWhitespace(text[k + 1..])
    ensures r.open ==> |r.query| < |text| && text == text[..|text| - |r.query| - 1] + [c] + r.query
    ensures r.open ==> c !in r.query && !HasWhitespace(r.query)
    ensures !r.open ==> r.query == prev.query
  {
    var last := LastIndexOf(text, c);
    if last == -1 then Popup(false, prev.query)
    else
      var after := text[last + 1..];
      assert text == text[..last] + [c] + after;
      if HasWhitespace(after) then
        WhitespaceAfterLast(text, c, last);
        Popup(false, prev.query)
      else
        Popup(true, after)
  }

  /** When whitespace follows the last `c`, it follows every `c`. */
  lemma WhitespaceAfterLast(text: string, c: char, last: nat)
    requires last < |text| && text[last] == c && c !in text[last + 1..]
    requires HasWhitespace(text[last + 1..])
    ensures forall k :: 0 <= k < |text| && text[k] == c ==> HasWhitespace(text[k + 1..])
  {
    var after := text[last + 1..];
    var w :| 0 <= w < |after| && IsWhitespace(after[w]);
    forall k | 0 <= k < |text| && text[k] == c ensures HasWhitespace(text[k + 1..]) {
      assert forall q :: last < q < |text| ==> text[q] == after[q - last - 1];
      assert text[k + 1..][last - k + w] == after[w];
    }
  }

  datatype FileInfo = FileInfo(id: string, name: string)

  datatype SlashCommand = SlashCommand(command: string, description: string)

  const DefaultSlashCommands: seq<SlashCommand> := [
    SlashCommand("explain", "Explain what the code does"),
    SlashCommand("refactor", "Refactor the code to be cleaner"),
    SlashCommand("lint", "Run a linter on the code"),
    SlashCommand("optimize", "Optimize performance"),
    SlashCommand("translate", "Translate code to another language")
  ]

  function NameMatches(query: string): FileInfo -> bool
  {
    (f: FileInfo) => Contains(ToLower(f.name), ToLower(query))
  }

  /** `filteredFiles`: nothing for a blank query, else the files whose name contains it, ignoring ASCII case. */
  function FilteredFiles(files: seq<FileInfo>, query: string): (r: seq<FileInfo>)
    ensures Trim(query) == "" ==> r == []
    ensures Trim(query) != "" ==> forall f :: f in r <==> f in files && Contains(ToLower(f.name), ToLower(query))
    ensures IsSubsequence(r, files)
  {
    if Trim(query) == "" then
      []
    else
      FilterIsSubsequence(files, NameMatches(query));
      Filter(files, NameMatches(query))
  }

  function CommandMatches(query: string): SlashCommand -> bool
  {
    (sc: SlashCommand) => StartsWith(ToLower(sc.command), ToLower(query))
  }

  /** `filteredSlashCommands`: nothing for a blank query, else the commands that start with it, ignoring ASCII case. */
  function FilteredSlashCommands(commands: seq<SlashCommand>, query: string): (r: seq<SlashCommand>)
    ensures Trim(query) == "" ==> r == []
    ensures Trim(query) != "" ==> forall sc :: sc in r <==> sc in commands && StartsWith(ToLower(sc.command), ToLower(query))
    ensures IsSubsequence(r, commands)
  {
    if Trim(query) == "" then
      []
    else
      FilterIsSubsequence(commands, CommandMatches(query));
      Filter(commands, CommandMatches(query))
  }

  /* ---------------------------------------------------------------------- */
  /*                           Grouping by role                             */
  /* ---------------------------------------------------------------------- */

  datatype Role = User | Assistant

  datatype ChatMessage = ChatMessage(role: Role, text: string, timestamp: Option<string>)

  datatype Group = Group(role: Role, items: seq<ChatMessage>)

  function Flatten(groups: seq<Group>): seq<ChatMessage>
  {
    if groups == [] then [] else Flatten(groups[..|groups| - 1]) + groups[|groups| - 1].items
  }

  predicate NonEmptyGroups(groups: seq<Group>)
  {
    forall k :: 0 <= k < |groups| ==> |groups[k].items| > 0
  }

  predicate SingleRoleGroups(groups: seq<Group>)
  {
    forall k, m :: 0 <= k < |groups| && 0 <= m < |groups[k].items| ==> groups[k].items[m].role == groups[k].role
  }

  predicate AlternatingRoles(groups: seq<Group>)
  {
    forall k :: 0 <= k < |groups| - 1 ==> groups[k].role != groups[k + 1].role
  }

  /** Every group is a non-empty run of one role, and neighbouring groups differ in role. */
  predicate WellGrouped(groups: seq<Group>)
  {
    NonEmptyGroups(groups) && SingleRoleGroups(groups) && AlternatingRoles(groups)
  }

  lemma {:induction false} FlattenSnoc(groups: seq<Group>, g: Group)
    ensures Flatten(groups + [g]) == Flatten(groups) + g.items
  {
    assert (groups + [g])[..|groups|] == groups;
  }

  /** Appending a non-empty single-role group of a new role keeps the grouping well formed. */
  lemma {:induction false} WellGroupedSnoc(groups: seq<Group>, g: Group)
    requires WellGrouped(groups)
    requires |g.items| > 0 && forall m :: 0 <= m < |g.items| ==> g.items[m].role == g.role
    requires groups != [] ==> groups[|groups| - 1].role != g.role
    ensures WellGrouped(groups + [g])
  {
    var r := groups + [g];
    forall k | 0 <= k < |r| ensures |r[k].items| > 0 {
      if k < |groups| { assert r[k] == groups[k]; }
    }
    forall k, m | 0 <= k < |r| && 0 <= m < |r[k].items| ensures r[k].items[m].role == r[k].role {
      if k < |groups| { assert r[k] == groups[k]; }
    }
    forall k | 0 <= k < |r| - 1 ensures r[k].role != r[k + 1].role {
      if k + 1 < |groups| { assert r[k] == groups[k] && r[k + 1] == groups[k + 1]; }
    }
  }

  /** A prefix of a well-formed grouping is well formed. */
  lemma {:induction false} WellGroupedPrefix(groups: seq<Group>, n: nat)
    requires WellGrouped(groups) && n <= |groups|
    ensures WellGrouped(groups[..n])
  {
    var r := groups[..n];
    forall k | 0 <= k < |r| ensures |r[k].items| > 0 {
      assert r[k] == groups[k];
    }
    forall k, m | 0 <= k < |r| && 0 <= m < |r[k].items| ensures r[k].items[m].role == r[k].role {
      assert r[k] == groups[k];
    }
    forall k | 0 <= k < |r| - 1 ensures r[k].role != r[k + 1].role {
      assert r[k] == groups[k] && r[k + 1] == groups[k + 1];
    }
  }

  /** A message whose role differs from the last group's opens a new group. */
  lemma {:induction false} StartGroup(groups: seq<Group>, msg: ChatMessage)
    requires WellGrouped(groups)
    requires groups != [] ==> groups[|groups| - 1].role != msg.role
    ensures WellGrouped(groups + [Group(msg.role, [msg])])
    ensures Flatten(groups + [Group(msg.role, [msg])]) == Flatten(groups) + [msg]
  {
    FlattenSnoc(groups, Group(msg.role, [msg]));
    WellGroupedSnoc(groups, Group(msg.role, [msg]));
  }

  /** The groups with `msg` added to the last group. */
  function Extended(groups: seq<Group>, msg: ChatMessage): seq<Group>
    requires groups != []
  {
    var last := groups[|groups| - 1];
    groups[..|groups| - 1] + [Group(last.role, last.items + [msg])]
  }

  /** A message of the last group's role joins that group. */
  lemma {:induction false} ExtendGroup(groups: seq<Group>, msg: ChatMessage)
    requires WellGrouped(groups)
    requires groups != [] && groups[|groups| - 1].role == msg.role
    ensures WellGrouped(Extended(groups, msg))
    ensures Flatten(Extended(groups, msg)) == Flatten(groups) + [msg]
  {
    ExtendedFlatten(groups, msg);
    var n := |groups|;
    var r := Extended(groups, msg);
    assert |r| == n;
    forall k | 0 <= k < n ensures r[k].role == groups[k].role && |r[k].items| > 0 {
      if k < n - 1 {
        assert r[k] == groups[k];
      }
    }
    forall k, m | 0 <= k < n && 0 <= m < |r[k].items| ensures r[k].items[m].role == r[k].role {
      if k < n - 1 {
        assert r[k] == groups[k];
      } else if m < |groups[k].items| {
        assert r[k].items[m] == groups[k].items[m];
      }
    }
    forall k | 0 <= k < n - 1 ensures r[k].role != r[k + 1].role {
      assert groups[k].role != groups[k + 1].role;
    }
  }

  lemma {:induction false} ExtendedFlatten(groups: seq<Group>, msg: ChatMessage)
    requires groups != []
    ensures Flatten(Extended(groups, msg)) == Flatten(groups) + [msg]
  {
    var n := |groups|;
    var last := groups[n - 1];
    var init := groups[..n - 1];
    var g := Group(last.role, last.items + [msg]);
    assert groups == init + [last];
    FlattenSnoc(init, last);
    FlattenSnoc(init, g);
  }

  /** `groupMessagesByRole`: the messages cut into maximal runs of one role, in order. */
  method GroupMessagesByRole(messages: seq<ChatMessage>) returns (groups: seq<Group>)
    ensures Flatten(groups) == messages
    ensures WellGrouped(groups)
    ensures |groups| <= |messages|
  {
    groups := [];
    var i := 0;
    while i < |messages|
      invariant 0 <= i <= |messages|
      invariant Flatten(groups) == messages[..i]
      invariant WellGrouped(groups)
      invariant |groups| <= i
      invariant i > 0 <==> |groups| > 0
      invariant i > 0 ==> groups[|groups| - 1].role == messages[i - 1].role
    {
      var msg := messages[i];
      assert messages[..i + 1] == messages[..i] + [msg];
      if groups == [] || groups[|groups| - 1].role != msg.role {
        StartGroup(groups, msg);
        groups := groups + [Group(msg.role, [msg])];
      } else {
        ExtendGroup(groups, msg);
        groups := Extended(groups, msg);
      }
      i := i + 1;
    }
    assert messages[..i] == messages;
  }

  /* ---------------------------------------------------------------------- */
  /*                          The component state                           */
  /* ---------------------------------------------------------------------- */

  /** A dropped `File`. */
  datatype Attachment = Attachment(name: string, size: nat)

  datatype Payload = Payload(message: string, attachments: seq<Attachment>,
                             mentionedFileIds: seq<string>, slashCommandsUsed: seq<string>)

  class MessageBox {
    var message: string
    var attachments: seq<Attachment>
    var isMentionMode: bool
    var mentionQuery: string
    var isSlashMode: bool
    var slashQuery: string
    var isDragging: bool

    constructor ()
      ensures message == "" && attachments == [] && !isDragging
      ensures !isMentionMode && mentionQuery == "" && !isSlashMode && slashQuery == ""
    {
      message := "";
      attachments := [];
      isMentionMode := false;
      mentionQuery := "";
      isSlashMode := false;
      slashQuery := "";
      isDragging := false;
    }

    method HandleDragEnter()
      modifies this`isDragging
      ensures isDragging
    {
      isDragging := true;
    }

    method HandleDragLeave()
      modifies this`isDragging
      ensures !isDragging
    {
      isDragging := false;
    }

    /** `handleDrop`: dropped files are added after those already attached. */
    method HandleDrop(files: seq<Attachment>)
      modifies this`isDragging, this`attachments
      ensures !isDragging
      ensures attachments == old(attachments) + files
    {
      isDragging := false;
      if |files| > 0 {
        attachments := attachments + files;
      }
    }

    /** `handleMessageChange`: the text is taken and both pop-ups follow it. */
    method HandleMessageChange(newVal: string)
      modifies this
      ensures message == newVal && attachments == old(attachments) && isDragging == old(isDragging)
      ensures Popup(isMentionMode, mentionQuery) == AfterEdit(newVal, '@', Popup(old(isMentionMode), old(mentionQuery)))
      ensures Popup(isSlashMode, slashQuery) == AfterEdit(newVal, '/', Popup(old(isSlashMode), old(slashQuery)))
    {
      message := newVal;
      var mention := AfterEdit(newVal, '@', Popup(isMentionMode, mentionQuery));
      isMentionMode, mentionQuery := mention.open, mention.query;
      var slash := AfterEdit(newVal, '/', Popup(isSlashMode, slashQuery));
      isSlashMode, slashQuery := slash.open, slash.query;
    }

    /** `handleFileMentionSelect`: the text from the last "@" on becomes the file's mention. */
    method HandleFileMentionSelect(file: FileInfo)
      modifies this`message, this`isMentionMode, this`mentionQuery
      ensures '@' !in old(message) ==>
        message == old(message) && isMentionMode == old(isMentionMode) && mentionQuery == old(mentionQuery)
      ensures '@' in old(message) ==>
        && message == old(message)[..LastIndexOf(old(message), '@')] + MentionText(file.name, file.id)
        && !isMentionMode && mentionQuery == ""
    {
      var lastAt := LastIndexOf(message, '@');
      if lastAt == -1 {
        return;
      }
      message := message[..lastAt] + MentionText(file.name, file.id);
      isMentionMode := false;
      mentionQuery := "";
    }

    /** `handleSlashCommandSelect`: the text from the last "/" on becomes the command and a space. */
    method HandleSlashCommandSelect(sc: SlashCommand)
      modifies this`message, this`isSlashMode, this`slashQuery
      ensures '/' !in old(message) ==>
        message == old(message) && isSlashMode == old(isSlashMode) && slashQuery == old(slashQuery)
      ensures '/' in old(message) ==>
        && message == old(message)[..LastIndexOf(old(message), '/')] + SlashText(sc.command)
        && !isSlashMode && slashQuery == ""
    {
      var lastSlash := LastIndexOf(message, '/');
      if lastSlash == -1 {
        return;
      }
      message := message[..lastSlash] + SlashText(sc.command);
      isSlashMode := false;
      slashQuery := "";
    }

    /**
     * `handleSubmit`: nothing is sent for a blank message without attachments;
     * otherwise the message, its attachments, mentioned ids and used commands
     * are sent and the box is emptied.
     */
    method HandleSubmit() returns (sent: Option<Payload>)
      modifies this`message, this`attachments
      ensures Trim(old(message)) == "" && old(attachments) == [] ==>
        sent == None && message == old(message) && attachments == old(attachments)
      ensures !(Trim(old(message)) == "" && old(attachments) == []) ==>
        && sent == Some(Payload(old(message), old(attachments), MentionIds(old(message), 0),
                                SlashCommands(Split(old(message)))))
        && message == "" && attachments == []
    {
      if Trim(message) == "" && |attachments| == 0 {
        return None;
      }
      var mentionedFileIds := ParseMentionedFileIds(message);
      var slashCommandsUsed := ParseUsedSlashCommands(message);
      sent := Some(Payload(message, attachments, mentionedFileIds, slashCommandsUsed));
      message := "";
      attachments := [];
    }
  }
}
