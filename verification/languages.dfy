/**
 * The language catalogue of a challenge: every language code the
 * challenge's model lists, mapped to a display name from a fixed table,
 * or to the code itself when the table has no entry for it.
 */
module HackerRankLanguages {
  import opened Wrappers
  import opened HackerRank

  /** The decoded challenge model: `status` and `model.languages`. */
  datatype ModelReply = ModelReply(status: bool, languages: seq<string>)

  /** Display names of the judge's language codes. */
  const LangDisplayMapping: map<string, string> :=
    map[
      "c" := "C", "cpp" := "C++", "java" := "Java 7", "csharp" := "C#", "haskell" := "Haskell",
      "php" := "PHP", "python" := "Python 2", "pypy" := "Pypy 2", "pypy3" := "Pypy 3",
      "ruby" := "Ruby", "perl" := "Perl", "bash" := "BASH", "oracle" := "Oracle",
      "mysql" := "MySQL", "sql" := "SQL", "clojure" := "Clojure", "scala" := "Scala",
      "code" := "Generic", "text" := "Plain Text", "brainfuck" := "Brainfuck",
      "javascript" := "Javascript", "typescript" := "Typescript", "lua" := "Lua",
      "sbcl" := "Common Lisp (SBCL)", "erlang" := "Erlang", "go" := "Go", "d" := "D",
      "ocaml" := "OCaml", "pascal" := "Pascal", "python3" := "Python 3", "groovy" := "Groovy",
      "objectivec" := "Objective-C", "text_pseudo" := "Plain Text", "fsharp" := "F#",
      "visualbasic" := "VB. NET", "cobol" := "COBOL", "tsql" := "MS SQL Server",
      "lolcode" := "LOLCODE", "smalltalk" := "Smalltalk", "tcl" := "Tcl",
      "whitespace" := "Whitespace", "css" := "CSS", "html" := "HTML", "java8" := "Java 8",
      "db2" := "DB2", "octave" := "Octave", "r" := "R", "xquery" := "XQuery",
      "racket" := "Racket", "xml" := "XML", "rust" := "Rust", "swift" := "Swift",
      "elixir" := "Elixir", "fortran" := "Fortran", "ada" := "Ada", "nim" := "Nim",
      "julia" := "Julia", "cpp14" := "C++14", "coffeescript" := "Coffeescript"
    ]

  /** The display name of `lang`, falling back to the code itself. */
  function Description(lang: string): string
  {
    if lang in LangDisplayMapping then LangDisplayMapping[lang] else lang
  }

  /**
   * `get_language_dict` once the model is decoded: a failed model fetch is a
   * submission error; otherwise each listed code maps to its description.
   */
  method GetLanguageDict(reply: ModelReply) returns (r: Result<map<string, map<string, string>>, SubmissionError>)
    ensures !reply.status ==> r == Failure(SubmissionError)
    ensures reply.status ==> r.Success? && r.value.Keys == set lang | lang in reply.languages
    ensures r.Success? ==>
              forall lang :: lang in r.value ==>
                r.value[lang] == map["description" :=
                                   if lang in LangDisplayMapping then LangDisplayMapping[lang] else lang]
  {
    if !reply.status {
      return Failure(SubmissionError);
    }
    var result: map<string, map<string, string>> := map[];
    for i := 0 to |reply.languages|
      invariant result.Keys == set lang | lang in reply.languages[..i]
      invariant forall lang :: lang in result ==> result[lang] == map["description" := Description(lang)]
    {
      var lang := reply.languages[i];
      var descr := if lang in LangDisplayMapping then LangDisplayMapping[lang] else lang;
      result := result[lang := map["description" := descr]];
      assert reply.languages[..i + 1] == reply.languages[..i] + [lang];
    }
    assert reply.languages[..|reply.languages|] == reply.languages;
    return Success(result);
  }
}
