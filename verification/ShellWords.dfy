/**
 The words of a simple command in the POSIX Shell Command Language: quoting (sections 2.2.1 to
 2.2.3), token recognition (section 2.3), and parameter expansion inside double quotes
 (section 2.6.2).  Everything else a shell would interpret is refused rather than guessed at.
 */
module ShellWords {
  import opened Wrappers
  import opened GoStrings

  type Environment = string -> string

  datatype Mode = Unquoted | Escape | Single | Double | DoubleEscape | Parameter(name: string)

  // The finished words, and the word being read (None between words).
  datatype State = Refused | Reading(mode: Mode, words: seq<string>, word: Option<string>)

  predicate NameStart(c: char) { 'a' <= c <= 'z' || 'A' <= c <= 'Z' || c == '_' }

  predicate NameChar(c: char) { NameStart(c) || IsDigit(c) }

  function Text(word: Option<string>): string {
    match word case None => "" case Some(w) => w
  }

  function StepUnquoted(words: seq<string>, word: Option<string>, c: char): State {
    if c == ' ' || c == '\t' then
      Reading(Unquoted, if word.Some? then words + [word.value] else words, None)
    else if c == '\'' then Reading(Single, words, Some(Text(word)))
    else if c == '"' then Reading(Double, words, Some(Text(word)))
    else if c == '\\' then Reading(Escape, words, word)
    else if c in "|&;<>()$`*?[\n" then Refused
    else if (c == '#' || c == '~') && word.None? then Refused
    else if c == '=' && words == [] then Refused
    else Reading(Unquoted, words, Some(Text(word) + [c]))
  }

  function StepDouble(words: seq<string>, w: string, c: char): State {
    if c == '"' then Reading(Unquoted, words, Some(w))
    else if c == '$' then Reading(Parameter(""), words, Some(w))
    else if c == '`' then Refused
    else if c == '\\' then Reading(DoubleEscape, words, Some(w))
    else Reading(Double, words, Some(w + [c]))
  }

  function Step(st: State, c: char, env: Environment): State {
    match st
    case Refused => Refused
    case Reading(mode, words, word) =>
      var w := Text(word);
      match mode
      case Unquoted => StepUnquoted(words, word, c)
      case Escape =>
        if c == '\n' then Reading(Unquoted, words, word) else Reading(Unquoted, words, Some(w + [c]))
      case Single =>
        if c == '\'' then Reading(Unquoted, words, Some(w)) else Reading(Single, words, Some(w + [c]))
      case Double => StepDouble(words, w, c)
      case DoubleEscape =>
        if c in "$`\"\\" then Reading(Double, words, Some(w + [c]))
        else if c == '\n' then Reading(Double, words, Some(w))
        else Reading(Double, words, Some(w + ['\\', c]))
      case Parameter(name) =>
        if name == "" && !NameStart(c) then Refused
        else if NameChar(c) then Reading(Parameter(name + [c]), words, Some(w))
        else StepDouble(words, w + env(name), c)
  }

  function Run(st: State, s: string, env: Environment): State
    decreases |s|
  {
    if s == "" then st else Run(Step(st, s[0], env), s[1..], env)
  }

  const START := Reading(Unquoted, [], None)

  // The words of a command text, or None when a quote is left open or a construct is refused.
  function Words(s: string, env: Environment): Option<seq<string>> {
    match Run(START, s, env)
    case Reading(Unquoted, words, None) => Some(words)
    case Reading(Unquoted, words, Some(w)) => Some(words + [w])
    case _ => None
  }

  lemma RunEmpty(st: State, env: Environment)
    ensures Run(st, "", env) == st
  {
  }

  lemma {:induction false} RunAppend(st: State, a: string, b: string, env: Environment)
    ensures Run(st, a + b, env) == Run(Run(st, a, env), b, env)
    decreases |a|
  {
    if a == "" {
      assert a + b == b;
    } else {
      RunAppend(Step(st, a[0], env), a[1..], b, env);
      assert (a + b)[1..] == a[1..] + b;
    }
  }

  // ---------- printed words ----------

  predicate PlainChar(c: char) { 'a' <= c <= 'z' || 'A' <= c <= 'Z' || IsDigit(c) || c == '-' }

  predicate PlainWord(s: string) {
    s != "" && forall c :: c in s ==> PlainChar(c)
  }

  // shellQuoteForSh
  function Quote(s: string): string {
    "'" + ReplaceChar(s, '\'', "'\\''") + "'"
  }

  // The state after exactly these words, the last one still open.
  function After(words: seq<string>): State
    requires words != []
  {
    Reading(Unquoted, words[..|words| - 1], Some(words[|words| - 1]))
  }

  lemma StepPlain(words: seq<string>, word: Option<string>, c: char, env: Environment)
    requires PlainChar(c)
    ensures Step(Reading(Unquoted, words, word), c, env) == Reading(Unquoted, words, Some(Text(word) + [c]))
  {
  }

  lemma {:induction false} RunPlain(words: seq<string>, word: Option<string>, s: string, env: Environment)
    requires forall c :: c in s ==> PlainChar(c)
    requires s != ""
    ensures Run(Reading(Unquoted, words, word), s, env) == Reading(Unquoted, words, Some(Text(word) + s))
    decreases |s|
  {
    hide Step;
    assert PlainChar(s[0]);
    StepPlain(words, word, s[0], env);
    var next := Some(Text(word) + [s[0]]);
    if |s| > 1 {
      RunPlain(words, next, s[1..], env);
      assert Text(next) + s[1..] == Text(word) + s;
    } else {
      assert [s[0]] == s;
    }
  }

  lemma {:induction false} RunInsideQuotes(words: seq<string>, w: string, s: string, env: Environment)
    ensures Run(Reading(Single, words, Some(w)), ReplaceChar(s, '\'', "'\\''"), env)
         == Reading(Single, words, Some(w + s))
    decreases |s|
  {
    if s == "" {
      assert w + s == w;
    } else {
      var st := Reading(Single, words, Some(w));
      var head := if s[0] == '\'' then "'\\''" else [s[0]];
      RunAppend(st, head, ReplaceChar(s[1..], '\'', "'\\''"), env);
      assert Run(st, head, env) == Reading(Single, words, Some(w + [s[0]])) by {
        if s[0] == '\'' {
          QuotedQuote(words, w, env);
        }
      }
      RunInsideQuotes(words, w + [s[0]], s[1..], env);
      assert w + [s[0]] + s[1..] == w + s;
    }
  }

  // The four characters '\'' inside single quotes stand for one apostrophe.
  lemma QuotedQuote(words: seq<string>, w: string, env: Environment)
    ensures Run(Reading(Single, words, Some(w)), "'\\''", env) == Reading(Single, words, Some(w + "'"))
  {
    var st := Reading(Single, words, Some(w));
    var q := "'\\''";
    RunAppend(st, q[..2], q[2..], env);
    assert q[..2] + q[2..] == q && q[..2] == "'\\" && q[2..] == "''";
    assert Run(st, "'\\", env) == Reading(Escape, words, Some(w));
    assert Run(Reading(Escape, words, Some(w)), "''", env) == Reading(Single, words, Some(w + "'"));
  }

  // Quoting is undone by the shell, whatever the text is.
  lemma RunQuote(words: seq<string>, s: string, env: Environment)
    ensures Run(Reading(Unquoted, words, None), Quote(s), env) == Reading(Unquoted, words, Some(s))
  {
    var body := ReplaceChar(s, '\'', "'\\''");
    var st := Reading(Unquoted, words, None);
    RunAppend(st, "'" + body, "'", env);
    RunAppend(st, "'", body, env);
    RunInsideQuotes(words, "", s, env);
    assert "" + s == s;
  }

  // A blank and a plain word append that word.
  lemma RunNextPlain(words: seq<string>, w: string, env: Environment)
    requires words != [] && PlainWord(w)
    ensures Run(After(words), " " + w, env) == After(words + [w])
  {
    RunAppend(After(words), " ", w, env);
    assert words[..|words| - 1] + [words[|words| - 1]] == words;
    RunPlain(words, None, w, env);
    assert "" + w == w && (words + [w])[..|words|] == words;
  }

  // A blank and a quoted text append that text as one word.
  lemma RunNextQuoted(words: seq<string>, s: string, env: Environment)
    requires words != []
    ensures Run(After(words), " " + Quote(s), env) == After(words + [s])
  {
    RunAppend(After(words), " ", Quote(s), env);
    assert words[..|words| - 1] + [words[|words| - 1]] == words;
    RunQuote(words, s, env);
    assert (words + [s])[..|words|] == words;
  }

  // A blank and a parameter in double quotes.
  function ParameterText(name: string): string { " \"$" + name + "\"" }

  // It appends the parameter's value as one word, whatever the value is.
  lemma RunParameter(words: seq<string>, name: string, env: Environment)
    requires words != [] && name != "" && forall c :: c in name ==> NameStart(c)
    ensures Run(After(words), ParameterText(name), env) == Reading(Unquoted, words, Some(env(name)))
  {
    RunAppend(After(words), " \"$" + name, "\"", env);
    RunAppend(After(words), " \"$", name, env);
    RunAppend(After(words), " \"", "$", env);
    assert " \"" + "$" == " \"$";
    assert words[..|words| - 1] + [words[|words| - 1]] == words;
    RunName(words, "", name, env);
    assert "" + name == name && "" + env(name) == env(name);
  }

  lemma {:induction false} RunName(words: seq<string>, prefix: string, name: string, env: Environment)
    requires forall c :: c in name ==> NameStart(c)
    ensures Run(Reading(Parameter(prefix), words, Some("")), name, env) == Reading(Parameter(prefix + name), words, Some(""))
    decreases |name|
  {
    if name == "" {
      assert prefix + name == prefix;
    } else {
      assert NameStart(name[0]);
      RunName(words, prefix + [name[0]], name[1..], env);
      assert prefix + [name[0]] + name[1..] == prefix + name;
    }
  }

  // A word as a printer writes it: as it is, or quoted.
  datatype Token = Bare(text: string) | Quoted(text: string) {
    function Printed(): string {
      match this case Bare(s) => s case Quoted(s) => Quote(s)
    }

    predicate Safe() { Bare? ==> PlainWord(text) }
  }

  predicate AllSafe(tokens: seq<Token>) {
    forall t :: t in tokens ==> t.Safe()
  }

  // Every token after a blank.
  function Print(tokens: seq<Token>): string {
    if tokens == [] then ""
    else Print(tokens[..|tokens| - 1]) + " " + tokens[|tokens| - 1].Printed()
  }

  function Texts(tokens: seq<Token>): seq<string> {
    seq(|tokens|, i requires 0 <= i < |tokens| => tokens[i].text)
  }

  lemma PrintOneMore(tokens: seq<Token>, t: Token)
    ensures Print(tokens + [t]) == Print(tokens) + " " + t.Printed()
  {
    assert (tokens + [t])[..|tokens|] == tokens;
  }

  lemma RunToken(words: seq<string>, t: Token, env: Environment)
    requires words != [] && t.Safe()
    ensures Run(After(words), " " + t.Printed(), env) == After(words + [t.text])
  {
    if t.Bare? {
      RunNextPlain(words, t.text, env);
    } else {
      RunNextQuoted(words, t.text, env);
    }
  }

  // The shell reads printed tokens as their texts, whatever those are.
  lemma {:induction false} RunPrint(words: seq<string>, tokens: seq<Token>, env: Environment)
    requires words != [] && AllSafe(tokens)
    ensures Run(After(words), Print(tokens), env) == After(words + Texts(tokens))
    decreases |tokens|
  {
    hide Run, Token.Printed, Token.Safe, After;
    if tokens == [] {
      RunEmpty(After(words), env);
      assert words + Texts(tokens) == words;
    } else {
      var init, last := tokens[..|tokens| - 1], tokens[|tokens| - 1];
      RunPrint(words, init, env);
      RunAppend(After(words), Print(init), " " + last.Printed(), env);
      RunToken(words + Texts(init), last, env);
      assert Print(tokens) == Print(init) + (" " + last.Printed());
      assert words + Texts(init) + [last.text] == words + Texts(tokens);
    }
  }

  // For every text there is a quoted form, and the shell reads it back as one word.
  lemma QuoteRoundTrip(s: string, env: Environment)
    ensures Words(Quote(s), env) == Some([s])
  {
    RunQuote([], s, env);
    assert [] + [s] == [s];
  }
}
