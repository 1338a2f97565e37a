/** `guessContentType` of the static-export route: a content type from a file name's suffix. */
module BuildRoute {
  import opened Strings

  const ContentTypes: set<string> := {"text/html", "text/css", "application/javascript",
    "application/json", "image/png", "image/jpeg", "text/plain"}

  function GuessContentType(filename: string): (r: string)
    ensures r in ContentTypes
    ensures r == "text/html" <==> EndsWith(filename, ".html")
    ensures r == "text/css" <==> EndsWith(filename, ".css")
    ensures r == "application/javascript" <==> EndsWith(filename, ".js")
    ensures r == "application/json" <==> EndsWith(filename, ".json")
    ensures r == "image/png" <==> EndsWith(filename, ".png")
    ensures r == "image/jpeg" <==> EndsWith(filename, ".jpg") || EndsWith(filename, ".jpeg")
    ensures r == "text/plain" <==>
      !(EndsWith(filename, ".html") || EndsWith(filename, ".css") || EndsWith(filename, ".js")
        || EndsWith(filename, ".json") || EndsWith(filename, ".png") || EndsWith(filename, ".jpg")
        || EndsWith(filename, ".jpeg"))
  {
    SuffixesExclusive(filename);
    if EndsWith(filename, ".html") then "text/html"
    else if EndsWith(filename, ".css") then "text/css"
    else if EndsWith(filename, ".js") then "application/javascript"
    else if EndsWith(filename, ".json") then "application/json"
    else if EndsWith(filename, ".png") then "image/png"
    else if EndsWith(filename, ".jpg") || EndsWith(filename, ".jpeg") then "image/jpeg"
    else "text/plain"
  }

  /** The suffixes `GuessContentType` tests are pairwise exclusive (".jpg" and ".jpeg" aside,
      which map to the same type), so the order of its tests does not matter. */
  lemma SuffixesExclusive(f: string)
    ensures EndsWith(f, ".css") ==> !EndsWith(f, ".html")
    ensures EndsWith(f, ".js") ==> !EndsWith(f, ".html") && !EndsWith(f, ".css")
    ensures EndsWith(f, ".json") ==> !EndsWith(f, ".html") && !EndsWith(f, ".css") && !EndsWith(f, ".js")
    ensures EndsWith(f, ".png") ==>
      !EndsWith(f, ".html") && !EndsWith(f, ".css") && !EndsWith(f, ".js") && !EndsWith(f, ".json")
    ensures EndsWith(f, ".jpg") || EndsWith(f, ".jpeg") ==>
      !EndsWith(f, ".html") && !EndsWith(f, ".css") && !EndsWith(f, ".js") && !EndsWith(f, ".json")
      && !EndsWith(f, ".png")
  {
    // Each suffix is told apart by one of its last three characters.
    if EndsWith(f, ".html") { EndsWithAt(f, ".html", 0); }
    if EndsWith(f, ".css") { EndsWithAt(f, ".css", 0); EndsWithAt(f, ".css", 2); }
    if EndsWith(f, ".js") { EndsWithAt(f, ".js", 0); EndsWithAt(f, ".js", 2); }
    if EndsWith(f, ".json") { EndsWithAt(f, ".json", 0); }
    if EndsWith(f, ".png") { EndsWithAt(f, ".png", 0); EndsWithAt(f, ".png", 1); EndsWithAt(f, ".png", 2); }
    if EndsWith(f, ".jpg") { EndsWithAt(f, ".jpg", 0); EndsWithAt(f, ".jpg", 2); }
    if EndsWith(f, ".jpeg") { EndsWithAt(f, ".jpeg", 0); EndsWithAt(f, ".jpeg", 1); }
  }
}
