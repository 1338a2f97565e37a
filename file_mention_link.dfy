/** `FileMentionLink`'s click handler: `mention.replace(/^@/, "")`. */
module FileMentionLink {

  /** The file name passed on: at most one leading "@" removed. */
  function StripMention(mention: string): (fileName: string)
    ensures |mention| > 0 && mention[0] == '@' ==> "@" + fileName == mention
    ensures !(|mention| > 0 && mention[0] == '@') ==> fileName == mention
    ensures fileName == mention || fileName == mention[1..]
  {
    if |mention| > 0 && mention[0] == '@' then mention[1..] else mention
  }

  /** Only the first "@" goes: "@@a" becomes "@a", and an "@" further in is kept. */
  lemma StripOnlyOne(rest: string)
    ensures StripMention("@@" + rest) == "@" + rest
    ensures |rest| > 0 && rest[0] != '@' ==> StripMention(rest + "@") == rest + "@"
  {
    assert ("@@" + rest)[1..] == "@" + rest;
  }
}
