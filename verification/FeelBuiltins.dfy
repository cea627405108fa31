/** The names of the built-in functions that have several words. */
module FeelBuiltins {

  import opened FeelSyntax
  import opened FeelPrinter

  /** The built-in functions whose names have several words. */
  function BuiltinPhrases(): set<seq<Word>> {
    {[Plain("date"), And, Plain("time")]} +
    set pair | pair in {
      ("is", "defined"), ("string", "length"), ("upper", "case"), ("lower", "case"), ("starts", "with"),
      ("ends", "with"), ("substring", "before"), ("substring", "after"), ("string", "join"),
      ("list", "contains"), ("is", "empty"), ("index", "of"), ("distinct", "values"), ("get", "value"),
      ("context", "put"), ("context", "merge"), ("get", "entries")} :: [Plain(pair.0), Plain(pair.1)]
  }

  /** They can be told from what may stand around them. */
  lemma BuiltinsArePhrases()
    ensures Phrases(BuiltinPhrases())
  {
  }
}
