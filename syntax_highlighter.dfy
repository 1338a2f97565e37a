/** `getLanguageClass` of the syntax highlighter: the Prism class for a language name. */
module SyntaxHighlighter {

  function GetLanguageClass(lang: string): (r: string)
    ensures r == "language-graphql" <==> lang == "graphql"
    ensures r == "language-json" <==> lang == "json"
    ensures r == "language-markdown" <==> lang == "md" || lang == "markdown"
    ensures r == "language-sql" <==> lang == "sql"
    ensures r == "language-jsx" <==> lang !in {"graphql", "json", "md", "markdown", "sql"}
  {
    match lang
    case "graphql" => "language-graphql"
    case "json" => "language-json"
    case "md" => "language-markdown"
    case "markdown" => "language-markdown"
    case "sql" => "language-sql"
    case _ => "language-jsx"
  }
}
