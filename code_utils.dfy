/**
 * Code-block detection in chat text: fenced blocks "```lang\n...```" and
 * inline "`...`" spans, and their replacement by numbered placeholders.
 */
module CodeUtils {
  import opened Options
  import opened Lists
  import opened Strings

  datatype CodeBlock = CodeBlock(code: string, language: string, fullMatch: string)

  /** A match: the block it yields, where it starts and where the search resumes. */
  datatype Found = Found(block: CodeBlock, start: nat, end: nat)

  /** The `\w` class. */
  predicate IsWordChar(c: char)
  {
    'a' <= c <= 'z' || 'A' <= c <= 'Z' || '0' <= c <= '9' || c == '_'
  }

  /** The end of the run of word characters starting at `k`. */
  function WordRunEnd(s: string, k: nat): (e: nat)
    requires k <= |s|
    ensures k <= e <= |s|
    ensures forall q :: k <= q < e ==> IsWordChar(s[q])
    ensures e < |s| ==> !IsWordChar(s[e])
    decreases |s| - k
  {
    if k == |s| || !IsWordChar(s[k]) then k else WordRunEnd(s, k + 1)
  }

  /** The first backtick at or after `k`, or `|s|`. */
  function NextBacktick(s: string, k: nat): (e: nat)
    requires k <= |s|
    ensures k <= e <= |s|
    ensures forall q :: k <= q < e ==> s[q] != '`'
    ensures e < |s| ==> s[e] == '`'
    decreases |s| - k
  {
    if k == |s| || s[k] == '`' then k else NextBacktick(s, k + 1)
  }

  /* ------------------------------------------------------------------------ */
  /*                   /```(\w+)?\n([\s\S]*?)```/g                            */
  /* ------------------------------------------------------------------------ */

  /**
   * Where the fenced expression matches at `p`, as the end `w` of the word
   * run and the start `close` of the closing fence. `(\w+)?` must be
   * followed by a newline, so only the whole word run (or none) can succeed;
   * the lazy body ends at the first "```" after that newline.
   */
  function FenceBounds(s: string, p: nat): (r: Option<(nat, nat)>)
    requires p <= |s|
    ensures r.Some? ==>
      var (w, close) := r.value;
      && OccursAt(s, "```", p) && w == WordRunEnd(s, p + 3) && w < close
      && OccursAt(s, "```", close) && s[w] == '\n' && (forall k :: w + 1 <= k < close ==> !OccursAt(s, "```", k))
    ensures r.None? ==>
      || !OccursAt(s, "```", p)
      || WordRunEnd(s, p + 3) == |s| || s[WordRunEnd(s, p + 3)] != '\n'
      || forall k :: WordRunEnd(s, p + 3) < k ==> !OccursAt(s, "```", k)
  {
    if OccursAt(s, "```", p) then
      var w := WordRunEnd(s, p + 3);
      if w < |s| && s[w] == '\n' then
        var close := IndexOf(s, "```", w + 1);
        if close == -1 then None else Some((w, close))
      else None
    else None
  }

  /** The fenced match starting at `p`. */
  function FenceAt(s: string, p: nat): (r: Option<Found>)
    requires p <= |s|
    ensures r.Some? <==> FenceBounds(s, p).Some?
    ensures r.Some? ==> r.value.start == p && p + 7 <= r.value.end <= |s|
    ensures r.Some? ==> r.value.block.fullMatch == s[p..r.value.end]
  {
    match FenceBounds(s, p)
    case None => None
    case Some((w, close)) => Some(FenceMatch(s, p, w, close))
  }

  /** The match of an opening fence at `p`, a word run ending at `w` and a closing fence at `close`. */
  function FenceMatch(s: string, p: nat, w: nat, close: nat): (f: Found)
    requires OccursAt(s, "```", p) && p + 3 <= w < close && OccursAt(s, "```", close)
    ensures f.start == p && f.end == close + 3
    ensures f.block.fullMatch == s[p..close + 3]
    ensures f.block.language == (if w == p + 3 then "plaintext" else s[p + 3..w])
    ensures f.block.code == Trim(s[w + 1..close])
  {
    Found(CodeBlock(Trim(s[w + 1..close]), if w == p + 3 then "plaintext" else s[p + 3..w], s[p..close + 3]), p, close + 3)
  }

  /**
   * A fenced match is the block cut at the bounds the expression finds, so
   * `FenceBounds` and `FenceMatch` together say what it holds.
   */
  lemma FenceAtParts(s: string, p: nat)
    requires p <= |s| && FenceAt(s, p).Some?
    ensures FenceBounds(s, p).Some?
    ensures var (w, close) := FenceBounds(s, p).value;
      FenceAt(s, p).value == FenceMatch(s, p, w, close)
  {
  }

  /**
   * What a fenced block looks like on its own: its full match opens and
   * closes with "```", a word run follows the opening fence up to a newline,
   * the language is that word ("plaintext" when there is none) and the code
   * is the trimmed text between the newline and the closing fence.
   */
  predicate FencedShape(b: CodeBlock)
  {
    var m := b.fullMatch;
    && |m| >= 7 && StartsWith(m, "```") && EndsWith(m, "```")
    && var w := WordRunEnd(m, 3);
       && w < |m| - 3 && m[w] == '\n'
       && b.language == (if w == 3 then "plaintext" else m[3..w])
       && b.code == Trim(m[w + 1..|m| - 3])
  }

  /** Every fenced match has the shape of a fenced block. */
  lemma FenceAtShape(s: string, p: nat)
    requires p <= |s| && FenceAt(s, p).Some?
    ensures FencedShape(FenceAt(s, p).value.block)
  {
    var (w, close) := FenceBounds(s, p).value;
    var f := FenceMatch(s, p, w, close);
    assert FenceAt(s, p) == Some(f);
    FencedShapeOfSlice(s, p, w, close, f.block);
  }

  /** A block cut from `s` along an opening fence, word run, newline and closing fence is fenced-shaped. */
  lemma FencedShapeOfSlice(s: string, p: nat, w: nat, close: nat, b: CodeBlock)
    requires OccursAt(s, "```", p) && p + 3 <= w < close && OccursAt(s, "```", close)
    requires w == WordRunEnd(s, p + 3) && s[w] == '\n'
    requires b.fullMatch == s[p..close + 3]
    requires b.language == (if w == p + 3 then "plaintext" else s[p + 3..w])
    requires b.code == Trim(s[w + 1..close])
    ensures FencedShape(b)
  {
    var m, v, body := b.fullMatch, w - p, s[w + 1..close];
    FenceSliceFacts(s, p, w, close, m, v, body);
    FencedShapeIntro(b, v, body);
  }

  /** The fences, word run, newline and body of a fenced match, read inside the match. */
  lemma FenceSliceFacts(s: string, p: nat, w: nat, close: nat, m: string, v: nat, body: string)
    requires OccursAt(s, "```", p) && p + 3 <= w < close && OccursAt(s, "```", close)
    requires w == WordRunEnd(s, p + 3) && s[w] == '\n'
    requires m == s[p..close + 3] && v == w - p && body == s[w + 1..close]
    ensures |m| >= 7 && StartsWith(m, "```") && EndsWith(m, "```")
    ensures WordRunEnd(m, 3) == v && v < |m| - 3 && m[v] == '\n'
    ensures m[3..v] == s[p + 3..w] && m[v + 1..|m| - 3] == body
  {
    WordRunInSlice(s, p, w, close + 3, m);
    FenceSliceParts(s, p, w, close, m);
  }

  /** The fenced shape, checked against a known word end and body. */
  lemma FencedShapeIntro(b: CodeBlock, w: nat, body: string)
    requires |b.fullMatch| >= 7 && StartsWith(b.fullMatch, "```") && EndsWith(b.fullMatch, "```")
    requires WordRunEnd(b.fullMatch, 3) == w && w < |b.fullMatch| - 3 && b.fullMatch[w] == '\n'
    requires b.language == (if w == 3 then "plaintext" else b.fullMatch[3..w])
    requires b.fullMatch[w + 1..|b.fullMatch| - 3] == body && b.code == Trim(body)
    ensures FencedShape(b)
  {
  }

  /** The pieces of a fenced match, read inside the match and inside `s`. */
  lemma FenceSliceParts(s: string, p: nat, w: nat, close: nat, m: string)
    requires OccursAt(s, "```", p) && p + 3 <= w < close && OccursAt(s, "```", close)
    requires m == s[p..close + 3]
    ensures |m| == close + 3 - p && StartsWith(m, "```") && EndsWith(m, "```") && m[w - p] == s[w]
    ensures m[3..w - p] == s[p + 3..w] && m[w - p + 1..|m| - 3] == s[w + 1..close]
  {
    assert m[..3] == s[p..p + 3];
    assert m[|m| - 3..] == s[close..close + 3];
  }

  /** The word run after an opening fence ends at the same place when the match is cut out of `s`. */
  lemma WordRunInSlice(s: string, p: nat, w: nat, end: nat, m: string)
    requires p + 3 <= w < end <= |s| && w == WordRunEnd(s, p + 3)
    requires m == s[p..end]
    ensures WordRunEnd(m, 3) == w - p
  {
    forall q | 3 <= q < w - p ensures IsWordChar(m[q]) {
      assert m[q] == s[p + q];
    }
    assert m[w - p] == s[w];
    WordRunEndAt(m, 3, w - p);
  }

  /** The leftmost fenced match at or after `from`. */
  function FindFence(s: string, from: nat): (r: Option<Found>)
    requires from <= |s|
    ensures r.Some? ==> from <= r.value.start <= |s| && FenceAt(s, r.value.start) == r
    decreases |s| - from
  {
    if from == |s| then None
    else if FenceAt(s, from).Some? then FenceAt(s, from)
    else FindFence(s, from + 1)
  }

  /** `exec` finds the leftmost fenced match: none starts earlier, and none exists at all when it finds nothing. */
  lemma {:induction false} FindFenceIsLeftmost(s: string, from: nat)
    requires from <= |s|
    ensures FindFence(s, from).Some? ==> forall q :: from <= q < FindFence(s, from).value.start ==> FenceAt(s, q).None?
    ensures FindFence(s, from).None? ==> forall q :: from <= q <= |s| ==> FenceAt(s, q).None?
    decreases |s| - from
  {
    if from == |s| {
      assert FindFence(s, from) == None;
      assert !OccursAt(s, "```", from);
    } else if FenceAt(s, from).Some? {
      assert FindFence(s, from).value.start == from;
    } else {
      FindFenceIsLeftmost(s, from + 1);
      var r := FindFence(s, from + 1);
      assert FindFence(s, from) == r;
      var bound := if r.Some? then r.value.start else |s| + 1;
      forall q | from <= q < bound ensures FenceAt(s, q).None? {
        if q == from {
        }
      }
    }
  }

  /** The blocks of the successive fenced matches from `from` on. */
  function FencedBlocks(s: string, from: nat): seq<CodeBlock>
    requires from <= |s|
    decreases |s| - from
  {
    var found := FindFence(s, from);
    if found.None? then [] else [found.value.block] + FencedBlocks(s, found.value.end)
  }

  /* ------------------------------------------------------------------------ */
  /*                          /`([^`]+)`/g                                     */
  /* ------------------------------------------------------------------------ */

  /**
   * The inline match starting at `p`: a backtick, at least one other
   * character (line breaks included) and the next backtick.
   */
  function InlineAt(s: string, p: nat): (r: Option<Found>)
    requires p <= |s|
    ensures r.Some? ==> r.value.start == p && p + 3 <= r.value.end <= |s|
    ensures r.Some? ==> r.value.block.fullMatch == s[p..r.value.end]
    ensures r.Some? ==> r.value.block.language == "plaintext"
  {
    if p < |s| && s[p] == '`' then
      var e := NextBacktick(s, p + 1);
      if p + 1 < e < |s| then
        Some(Found(CodeBlock(Trim(s[p + 1..e]), "plaintext", s[p..e + 1]), p, e + 1))
      else None
    else None
  }

  /**
   * What an inline block looks like on its own: a backtick, a non-empty run
   * without backticks and a backtick; the code is that run trimmed and the
   * language is "plaintext".
   */
  predicate InlineShape(b: CodeBlock)
  {
    var m := b.fullMatch;
    && |m| >= 3 && m[0] == '`' && m[|m| - 1] == '`' && '`' !in m[1..|m| - 1]
    && b.language == "plaintext" && b.code == Trim(m[1..|m| - 1])
  }

  function FindInline(s: string, from: nat): (r: Option<Found>)
    requires from <= |s|
    ensures r.Some? ==> from <= r.value.start <= |s| && InlineAt(s, r.value.start) == r
    decreases |s| - from
  {
    if from == |s| then None
    else if InlineAt(s, from).Some? then InlineAt(s, from)
    else FindInline(s, from + 1)
  }

  /** `exec` finds the leftmost inline match: none starts earlier, and none exists at all when it finds nothing. */
  lemma {:induction false} FindInlineIsLeftmost(s: string, from: nat)
    requires from <= |s|
    ensures FindInline(s, from).Some? ==> forall q :: from <= q < FindInline(s, from).value.start ==> InlineAt(s, q).None?
    ensures FindInline(s, from).None? ==> forall q :: from <= q <= |s| ==> InlineAt(s, q).None?
    decreases |s| - from
  {
    if from == |s| {
      assert FindInline(s, from) == None;
    } else if InlineAt(s, from).Some? {
      assert FindInline(s, from).value.start == from;
    } else {
      FindInlineIsLeftmost(s, from + 1);
      var r := FindInline(s, from + 1);
      assert FindInline(s, from) == r;
      var bound := if r.Some? then r.value.start else |s| + 1;
      forall q | from <= q < bound ensures InlineAt(s, q).None? {
        if q == from {
        }
      }
    }
  }

  function InlineBlocks(s: string, from: nat): seq<CodeBlock>
    requires from <= |s|
    decreases |s| - from
  {
    var found := FindInline(s, from);
    if found.None? then [] else [found.value.block] + InlineBlocks(s, found.value.end)
  }

  lemma FencedBlocksStep(s: string, from: nat)
    requires from <= |s|
    ensures FindFence(s, from).None? ==> FencedBlocks(s, from) == []
    ensures FindFence(s, from).Some? ==>
      FencedBlocks(s, from) == [FindFence(s, from).value.block] + FencedBlocks(s, FindFence(s, from).value.end)
  {
  }

  lemma InlineBlocksStep(s: string, from: nat)
    requires from <= |s|
    ensures FindInline(s, from).None? ==> InlineBlocks(s, from) == []
    ensures FindInline(s, from).Some? ==>
      InlineBlocks(s, from) == [FindInline(s, from).value.block] + InlineBlocks(s, FindInline(s, from).value.end)
  {
  }

  /** `detectCodeBlocks`: every fenced match, in order, then every inline match, in order. */
  method DetectCodeBlocks(text: string) returns (codeBlocks: seq<CodeBlock>)
    ensures codeBlocks == FencedBlocks(text, 0) + InlineBlocks(text, 0)
  {
    var fenced := ScanFenced(text);
    var inline := ScanInline(text);
    codeBlocks := fenced + inline;
  }

  /** The first `exec` loop of `detectCodeBlocks`. */
  method ScanFenced(text: string) returns (blocks: seq<CodeBlock>)
    ensures blocks == FencedBlocks(text, 0)
  {
    blocks := [];
    var lastIndex := 0;
    while true
      invariant lastIndex <= |text|
      invariant blocks + FencedBlocks(text, lastIndex) == FencedBlocks(text, 0)
      decreases |text| - lastIndex
    {
      var found := FindFence(text, lastIndex);
      if found.None? {
        FencedBlocksStep(text, lastIndex);
        assert blocks + [] == blocks;
        return;
      }
      FencedBlocksSnoc(text, lastIndex, blocks);
      blocks := blocks + [found.value.block];
      lastIndex := found.value.end;
    }
  }

  /** One step of the fenced scan: the block found at `from` moves from the pending matches to the collected ones. */
  lemma FencedBlocksSnoc(text: string, from: nat, blocks: seq<CodeBlock>)
    requires from <= |text| && FindFence(text, from).Some?
    ensures var found := FindFence(text, from).value;
      blocks + FencedBlocks(text, from) == (blocks + [found.block]) + FencedBlocks(text, found.end)
  {
    var found := FindFence(text, from).value;
    FencedBlocksStep(text, from);
    AppendAssoc(blocks, [found.block], FencedBlocks(text, found.end));
  }

  /** The second `exec` loop of `detectCodeBlocks`: it scans the whole text again. */
  method ScanInline(text: string) returns (blocks: seq<CodeBlock>)
    ensures blocks == InlineBlocks(text, 0)
  {
    blocks := [];
    var lastIndex := 0;
    while true
      invariant lastIndex <= |text|
      invariant blocks + InlineBlocks(text, lastIndex) == InlineBlocks(text, 0)
      decreases |text| - lastIndex
    {
      var found := FindInline(text, lastIndex);
      if found.None? {
        InlineBlocksStep(text, lastIndex);
        assert blocks + [] == blocks;
        return;
      }
      InlineBlocksSnoc(text, lastIndex, blocks);
      blocks := blocks + [found.value.block];
      lastIndex := found.value.end;
    }
  }

  /** One step of the inline scan. */
  lemma InlineBlocksSnoc(text: string, from: nat, blocks: seq<CodeBlock>)
    requires from <= |text| && FindInline(text, from).Some?
    ensures var found := FindInline(text, from).value;
      blocks + InlineBlocks(text, from) == (blocks + [found.block]) + InlineBlocks(text, found.end)
  {
    var found := FindInline(text, from).value;
    InlineBlocksStep(text, from);
    AppendAssoc(blocks, [found.block], InlineBlocks(text, found.end));
  }

  /** Each detected block's `fullMatch` is text found in the message. */
  lemma FoundFenceOccurs(s: string, from: nat)
    requires from <= |s| && FindFence(s, from).Some?
    ensures Contains(s, FindFence(s, from).value.block.fullMatch)
  {
    var f := FindFence(s, from).value;
    assert OccursAt(s, f.block.fullMatch, f.start);
    ContainsAt(s, f.block.fullMatch, f.start);
  }

  lemma {:induction false} FencedBlocksOccur(s: string, from: nat)
    requires from <= |s|
    ensures forall k :: 0 <= k < |FencedBlocks(s, from)| ==> Contains(s, FencedBlocks(s, from)[k].fullMatch)
    decreases |s| - from
  {
    FencedBlocksStep(s, from);
    var found := FindFence(s, from);
    if found.Some? {
      var blocks, rest := FencedBlocks(s, from), FencedBlocks(s, found.value.end);
      FoundFenceOccurs(s, from);
      FencedBlocksOccur(s, found.value.end);
      forall k | 0 < k < |blocks| ensures Contains(s, blocks[k].fullMatch) {
        assert blocks[k] == rest[k - 1];
      }
    }
  }

  lemma {:induction false} InlineBlocksOccur(s: string, from: nat)
    requires from <= |s|
    ensures forall k :: 0 <= k < |InlineBlocks(s, from)| ==> Contains(s, InlineBlocks(s, from)[k].fullMatch)
    decreases |s| - from
  {
    InlineBlocksStep(s, from);
    var found := FindInline(s, from);
    if found.Some? {
      var blocks, rest := InlineBlocks(s, from), InlineBlocks(s, found.value.end);
      ContainsAt(s, found.value.block.fullMatch, found.value.start);
      InlineBlocksOccur(s, found.value.end);
      forall k | 0 < k < |blocks| ensures Contains(s, blocks[k].fullMatch) {
        assert blocks[k] == rest[k - 1];
      }
    }
  }

  /** Every inline match has the shape of an inline block. */
  lemma InlineAtShape(s: string, p: nat)
    requires p <= |s| && InlineAt(s, p).Some?
    ensures InlineShape(InlineAt(s, p).value.block)
  {
    var e := NextBacktick(s, p + 1);
    var b := CodeBlock(Trim(s[p + 1..e]), "plaintext", s[p..e + 1]);
    assert InlineAt(s, p) == Some(Found(b, p, e + 1));
    InnerRun(s, p, e);
    InlineShapeIntro(b, s[p + 1..e]);
  }

  /** Between the backticks at `p` and `e` of `s` lies the same run inside the match as inside `s`. */
  lemma InnerRun(s: string, p: nat, e: nat)
    requires p < e < |s|
    ensures var m := s[p..e + 1]; |m| == e + 1 - p && m[1..|m| - 1] == s[p + 1..e]
  {
    var m := s[p..e + 1];
    var inner, run := m[1..|m| - 1], s[p + 1..e];
    forall q | 0 <= q < |run| ensures inner[q] == run[q] {
      assert inner[q] == m[1 + q] == s[p + 1 + q];
    }
    assert inner == run;
  }

  /** The inline shape, checked against a known run between the backticks. */
  lemma InlineShapeIntro(b: CodeBlock, run: string)
    requires |b.fullMatch| >= 3 && b.fullMatch[0] == '`' && b.fullMatch[|b.fullMatch| - 1] == '`'
    requires b.fullMatch[1..|b.fullMatch| - 1] == run && '`' !in run
    requires b.language == "plaintext" && b.code == Trim(run)
    ensures InlineShape(b)
  {
  }

  /** Every fenced block found has the shape of a fenced block. */
  lemma {:induction false} FencedBlocksShaped(s: string, from: nat)
    requires from <= |s|
    ensures forall k :: 0 <= k < |FencedBlocks(s, from)| ==> FencedShape(FencedBlocks(s, from)[k])
    decreases |s| - from
  {
    FencedBlocksStep(s, from);
    var found := FindFence(s, from);
    if found.Some? {
      var blocks, rest := FencedBlocks(s, from), FencedBlocks(s, found.value.end);
      FenceAtShape(s, found.value.start);
      FencedBlocksShaped(s, found.value.end);
      forall k | 0 < k < |blocks| ensures FencedShape(blocks[k]) {
        assert blocks[k] == rest[k - 1];
      }
    }
  }

  /** Every inline block found has the shape of an inline block, and so never carries a language. */
  lemma {:induction false} InlineBlocksShaped(s: string, from: nat)
    requires from <= |s|
    ensures forall k :: 0 <= k < |InlineBlocks(s, from)| ==> InlineShape(InlineBlocks(s, from)[k])
    decreases |s| - from
  {
    InlineBlocksStep(s, from);
    var found := FindInline(s, from);
    if found.Some? {
      var blocks, rest := InlineBlocks(s, from), InlineBlocks(s, found.value.end);
      InlineAtShape(s, found.value.start);
      InlineBlocksShaped(s, found.value.end);
      forall k | 0 < k < |blocks| ensures InlineShape(blocks[k]) {
        assert blocks[k] == rest[k - 1];
      }
    }
  }

  /** The fence written for `language` (a word, or nothing) around `code`. */
  function Fence(language: string, code: string): string
  {
    "```" + language + "\n" + code + "```"
  }

  /**
   * A lone fence around code without backticks is detected as one block carrying its language ("plaintext"
   * when none is written), its trimmed code and the whole fence.
   */
  lemma LoneFenceIsDetected(language: string, code: string)
    requires forall q :: 0 <= q < |language| ==> IsWordChar(language[q])
    requires '`' !in code
    ensures FencedBlocks(Fence(language, code), 0)
      == [CodeBlock(Trim(code), if language == "" then "plaintext" else language, Fence(language, code))]
  {
    var s := Fence(language, code);
    var l, c := |language|, |code|;
    FenceMatches(language, code);
    assert FindFence(s, 0) == FenceAt(s, 0);
    FencedBlocksStep(s, 0);
    FencedBlocksStep(s, |s|);
  }

  lemma FenceMatches(language: string, code: string)
    requires forall q :: 0 <= q < |language| ==> IsWordChar(language[q])
    requires '`' !in code
    ensures FenceAt(Fence(language, code), 0)
      == Some(Found(CodeBlock(Trim(code), if language == "" then "plaintext" else language, Fence(language, code)),
                    0, |Fence(language, code)|))
  {
    FenceLayout(language, code);
    LaidOutFenceMatches(Fence(language, code), language, code);
  }

  /** The match of a string laid out as an opening fence, a word, a newline, code and a closing fence. */
  lemma LaidOutFenceMatches(s: string, language: string, code: string)
    requires forall q :: 0 <= q < |language| ==> IsWordChar(language[q])
    requires '`' !in code
    requires var l, c := |language|, |code|;
      && |s| == l + c + 7
      && OccursAt(s, "```", 0) && OccursAt(s, "```", l + c + 4)
      && s[3..3 + l] == language && s[3 + l] == '\n' && s[l + 4..l + 4 + c] == code
      && s[..l + c + 7] == s
    ensures FenceAt(s, 0)
      == Some(Found(CodeBlock(Trim(code), if language == "" then "plaintext" else language, s), 0, |s|))
  {
    var l, c := |language|, |code|;
    forall q | 3 <= q < 3 + l ensures IsWordChar(s[q]) {
      assert s[q] == s[3..3 + l][q - 3];
    }
    var w, close := 3 + l, l + 4 + c;
    WordRunEndAt(s, 3, w);
    NoFenceInSlice(s, w + 1, close, code);
    IndexOfAt(s, "```", w + 1, close);
    assert s[0..close + 3] == s;
    assert FenceBounds(s, 0) == Some((w, close));
    assert s[w + 1..close] == code;
    assert FenceAt(s, 0) == Some(FenceMatch(s, 0, w, close));
  }

  /** No fence starts inside a slice without backticks. */
  lemma NoFenceInSlice(s: string, a: nat, b: nat, code: string)
    requires a <= b <= |s| && s[a..b] == code && '`' !in code
    ensures forall k :: a <= k < b ==> !OccursAt(s, "```", k)
  {
    forall k | a <= k < b ensures !OccursAt(s, "```", k) {
      assert s[k] == code[k - a] != '`';
      if k + 3 <= |s| {
        assert s[k..k + 3][0] == s[k];
      }
    }
  }

  lemma FenceLayout(language: string, code: string)
    ensures var s, l, c := Fence(language, code), |language|, |code|;
      && |s| == l + c + 7
      && OccursAt(s, "```", 0) && OccursAt(s, "```", l + c + 4)
      && s[3..3 + l] == language && s[3 + l] == '\n' && s[l + 4..l + 4 + c] == code
      && s[..l + c + 7] == s
  {
  }

  lemma {:induction false} WordRunEndAt(s: string, k: nat, e: nat)
    requires k <= e < |s| && !IsWordChar(s[e])
    requires forall q :: k <= q < e ==> IsWordChar(s[q])
    ensures WordRunEnd(s, k) == e
    decreases e - k
  {
    if k < e {
      WordRunEndAt(s, k + 1, e);
    }
  }

  /* ------------------------------------------------------------------------ */
  /*                       replaceCodeBlocks                                  */
  /* ------------------------------------------------------------------------ */

  /** `[[CODEBLOCK_i]]` */
  function Placeholder(i: nat): string
  {
    "[[CODEBLOCK_" + NatToString(i) + "]]"
  }

  /** `s.replace(pat, rep)` with a string pattern: only the first occurrence is replaced. */
  function ReplaceFirst(s: string, pat: string, rep: string): (r: string)
    ensures !Contains(s, pat) ==> r == s
    ensures Contains(s, pat) ==>
      var k := IndexOf(s, pat, 0);
      r == s[..k] + rep + s[k + |pat|..] && |r| == |s| - |pat| + |rep|
  {
    var k := IndexOf(s, pat, 0);
    if k == -1 then s else s[..k] + rep + s[k + |pat|..]
  }

  /** The text after the placeholders for `blocks[..n]` are in. */
  function Replaced(text: string, blocks: seq<CodeBlock>, n: nat): string
    requires n <= |blocks|
  {
    if n == 0 then text
    else ReplaceFirst(Replaced(text, blocks, n - 1), blocks[n - 1].fullMatch, Placeholder(n - 1))
  }

  /** `replaceCodeBlocks`: block `i`'s first remaining occurrence becomes placeholder `i`, in order. */
  method ReplaceCodeBlocks(text: string, codeBlocks: seq<CodeBlock>) returns (result: string)
    ensures result == Replaced(text, codeBlocks, |codeBlocks|)
  {
    result := text;
    var index := 0;
    while index < |codeBlocks|
      invariant 0 <= index <= |codeBlocks|
      invariant result == Replaced(text, codeBlocks, index)
    {
      result := ReplaceFirst(result, codeBlocks[index].fullMatch, Placeholder(index));
      index := index + 1;
    }
  }

  /**
   * A block whose text opens with a backtick, standing after backtick-free
   * text, is replaced where it stands, and the text around it is kept.
   */
  lemma BlockReplacedInPlace(prefix: string, block: CodeBlock, suffix: string)
    requires |block.fullMatch| > 0 && block.fullMatch[0] == '`' && '`' !in prefix
    ensures Replaced(prefix + block.fullMatch + suffix, [block], 1) == prefix + Placeholder(0) + suffix
  {
    var t := prefix + block.fullMatch + suffix;
    var p, m := |prefix|, block.fullMatch;
    assert t[p..p + |m|] == m;
    forall j | 0 <= j < p ensures !OccursAt(t, m, j) {
      assert t[j] == prefix[j];
    }
    IndexOfAt(t, m, 0, p);
    assert t[..p] == prefix && t[p + |m|..] == suffix;
  }
}
