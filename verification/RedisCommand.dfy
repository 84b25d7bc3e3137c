/**
 The `redis-server` command of a deployed container (internal/app_redis_k8s_tuning.go and
 buildRedisMainContainer in internal/app_redis_k8s_deploy.go), which is printed as one shell text
 when a password is set and as an argument vector otherwise.
 */
module RedisCommand {
  import opened Wrappers
  import opened GoStrings
  import opened ShellWords

  datatype Opts = Opts(
    maxmemory: string,
    maxmemoryPolicy: string,
    appendonly: bool,
    password: string,
    tcpBacklog: int,
    tcpKeepalive: int,
    clientTimeoutSec: int,
    maxClients: int,
    hz: int,
    lazyfreeLazyEviction: bool,
    lazyfreeLazyExpire: bool,
    ioThreads: int,
    rdbSaveLines: seq<string>,
    extraRedisServerArgs: seq<string>)

  datatype Container = Container(passwordEnv: bool, command: seq<string>, args: seq<string>)

  function YesNo(b: bool): string { if b then "yes" else "no" }

  function OrDefault(n: int, default: int): int { if n <= 0 then default else n }

  // ---------- production settings ----------

  function FlagText(name: string, value: string): string { " " + name + " " + value }

  function EnterpriseArgsShell(o: Opts): string {
    var s :=
      FlagText("--tcp-backlog", Itoa(OrDefault(o.tcpBacklog, 511))) +
      FlagText("--tcp-keepalive", Itoa(OrDefault(o.tcpKeepalive, 60))) +
      FlagText("--timeout", Itoa(if o.clientTimeoutSec < 0 then 0 else o.clientTimeoutSec)) +
      FlagText("--maxclients", Itoa(OrDefault(o.maxClients, 10000))) +
      FlagText("--hz", Itoa(OrDefault(o.hz, 10))) +
      FlagText("--lazyfree-lazy-eviction", YesNo(o.lazyfreeLazyEviction)) +
      FlagText("--lazyfree-lazy-expire", YesNo(o.lazyfreeLazyExpire));
    if o.ioThreads > 0 then
      s + FlagText("--io-threads", Itoa(o.ioThreads)) + FlagText("--io-threads-do-reads", "yes")
    else s
  }

  function FlagWords(name: string, value: string): seq<string> { [name, value] }

  function EnterpriseArgsArgv(o: Opts): seq<string> {
    var out :=
      FlagWords("--tcp-backlog", Itoa(OrDefault(o.tcpBacklog, 511))) +
      FlagWords("--tcp-keepalive", Itoa(OrDefault(o.tcpKeepalive, 60))) +
      FlagWords("--timeout", Itoa(if o.clientTimeoutSec < 0 then 0 else o.clientTimeoutSec)) +
      FlagWords("--maxclients", Itoa(OrDefault(o.maxClients, 10000))) +
      FlagWords("--hz", Itoa(OrDefault(o.hz, 10))) +
      FlagWords("--lazyfree-lazy-eviction", YesNo(o.lazyfreeLazyEviction)) +
      FlagWords("--lazyfree-lazy-expire", YesNo(o.lazyfreeLazyExpire));
    if o.ioThreads > 0 then
      out + FlagWords("--io-threads", Itoa(o.ioThreads)) + FlagWords("--io-threads-do-reads", "yes")
    else out
  }

  // Both forms gain one flag with a plain value.
  lemma AddFlag(s: string, argv: seq<string>, name: string, value: string, words: seq<string>, env: Environment)
    requires words != [] && PlainWord(name) && PlainWord(value)
    requires Run(After(words), s, env) == After(words + argv)
    ensures Run(After(words), s + FlagText(name, value), env) == After(words + (argv + FlagWords(name, value)))
  {
    hide Run;
    RunAppend(After(words), s, FlagText(name, value), env);
    RunAppend(After(words + argv), " " + name, " " + value, env);
    assert FlagText(name, value) == " " + name + (" " + value);
    RunNextPlain(words + argv, name, env);
    RunNextPlain(words + argv + [name], value, env);
    assert words + argv + [name] + [value] == words + (argv + FlagWords(name, value));
  }

  lemma FirstFlag(name: string, value: string, words: seq<string>, env: Environment)
    requires words != [] && PlainWord(name) && PlainWord(value)
    ensures Run(After(words), FlagText(name, value), env) == After(words + FlagWords(name, value))
  {
    RunEmpty(After(words), env);
    assert words + [] == words;
    AddFlag("", [], name, value, words, env);
    assert "" + FlagText(name, value) == FlagText(name, value);
    assert [] + FlagWords(name, value) == FlagWords(name, value);
  }

  lemma LimitNamesArePlain()
    ensures PlainWord("--tcp-backlog") && PlainWord("--tcp-keepalive") && PlainWord("--timeout")
    ensures PlainWord("--maxclients") && PlainWord("--hz")
  {
  }

  lemma SwitchNamesArePlain()
    ensures PlainWord("--lazyfree-lazy-eviction") && PlainWord("--lazyfree-lazy-expire")
    ensures PlainWord("--io-threads") && PlainWord("--io-threads-do-reads")
    ensures PlainWord("yes") && PlainWord("no")
  {
  }

  lemma NumbersArePlain(n: int)
    ensures PlainWord(Itoa(n))
  {
  }

  // The two printers of the production settings, defaults included, denote the same words.
  lemma EnterpriseFormsAgree(o: Opts, words: seq<string>, env: Environment)
    requires words != []
    ensures Run(After(words), EnterpriseArgsShell(o), env) == After(words + EnterpriseArgsArgv(o))
  {
    hide Run, FlagText, FlagWords, Itoa, PlainWord;
    LimitNamesArePlain();
    SwitchNamesArePlain();
    forall n ensures PlainWord(Itoa(n)) { NumbersArePlain(n); }
    var n, v := "--tcp-backlog", Itoa(OrDefault(o.tcpBacklog, 511));
    FirstFlag(n, v, words, env);
    var s, a := FlagText(n, v), FlagWords(n, v);
    n, v := "--tcp-keepalive", Itoa(OrDefault(o.tcpKeepalive, 60));
    AddFlag(s, a, n, v, words, env);
    s, a := s + FlagText(n, v), a + FlagWords(n, v);
    n, v := "--timeout", Itoa(if o.clientTimeoutSec < 0 then 0 else o.clientTimeoutSec);
    AddFlag(s, a, n, v, words, env);
    s, a := s + FlagText(n, v), a + FlagWords(n, v);
    n, v := "--maxclients", Itoa(OrDefault(o.maxClients, 10000));
    AddFlag(s, a, n, v, words, env);
    s, a := s + FlagText(n, v), a + FlagWords(n, v);
    n, v := "--hz", Itoa(OrDefault(o.hz, 10));
    AddFlag(s, a, n, v, words, env);
    s, a := s + FlagText(n, v), a + FlagWords(n, v);
    n, v := "--lazyfree-lazy-eviction", YesNo(o.lazyfreeLazyEviction);
    AddFlag(s, a, n, v, words, env);
    s, a := s + FlagText(n, v), a + FlagWords(n, v);
    n, v := "--lazyfree-lazy-expire", YesNo(o.lazyfreeLazyExpire);
    AddFlag(s, a, n, v, words, env);
    s, a := s + FlagText(n, v), a + FlagWords(n, v);
    if o.ioThreads > 0 {
      n, v := "--io-threads", Itoa(o.ioThreads);
      AddFlag(s, a, n, v, words, env);
      s, a := s + FlagText(n, v), a + FlagWords(n, v);
      n, v := "--io-threads-do-reads", "yes";
      AddFlag(s, a, n, v, words, env);
    }
  }

  // ---------- RDB save rules ----------

  predicate OffWord(low: string) { low == "none" || low == "off" }

  predicate TurnsOff(line: string) { OffWord(ToLower(TrimSpace(line))) }

  // A single line may also be blank or a pair of quotes.
  predicate OffAlone(x: string) { x == "" || OffWord(x) || x == "\"\"" }

  predicate OnlyLineTurnsOff(lines: seq<string>) {
    |lines| == 1 && OffAlone(TrimSpace(ToLower(lines[0])))
  }

  // Saving is switched off by any "off" line, wherever it stands.
  predicate SavingOff(lines: seq<string>) {
    OnlyLineTurnsOff(lines) || exists i :: 0 <= i < |lines| && TurnsOff(lines[i])
  }

  function SaveTokens(seconds: string, changes: string): seq<Token> {
    [Bare("--save"), Quoted(seconds), Quoted(changes)]
  }

  function SaveOffTokens(): seq<Token> { [Bare("--save"), Quoted("")] }

  // The first two fields of a line are one rule; a line with fewer gives none.
  function Rule(line: string): seq<Token> {
    var f := Fields(TrimSpace(line));
    if |f| < 2 then [] else SaveTokens(f[0], f[1])
  }

  function RuleTokens(lines: seq<string>): seq<Token> {
    if lines == [] then [] else RuleTokens(lines[..|lines| - 1]) + Rule(lines[|lines| - 1])
  }

  function RdbTokens(lines: seq<string>): seq<Token> {
    if SavingOff(lines) then SaveOffTokens() else RuleTokens(lines)
  }

  lemma PrintRule(tokens: seq<Token>, a: string, b: string)
    ensures Print(tokens + SaveTokens(a, b))
         == Print(tokens) + (" --save " + Quote(a) + " " + Quote(b))
  {
    hide Print, Quote;
    var t0, t1, t2 := Bare("--save"), Quoted(a), Quoted(b);
    PrintOneMore(tokens, t0);
    PrintOneMore(tokens + [t0], t1);
    PrintOneMore(tokens + [t0] + [t1], t2);
    assert tokens + [t0] + [t1] + [t2] == tokens + SaveTokens(a, b);
    SaveText(Print(tokens), Quote(a), Quote(b));
  }

  lemma SaveText(s: string, a: string, b: string)
    ensures s + " " + "--save" + " " + a + " " + b == s + (" --save " + a + " " + b)
  {
  }

  lemma SaveTexts(tokens: seq<Token>, a: string, b: string)
    ensures Texts(tokens + SaveTokens(a, b)) == Texts(tokens) + ["--save", a, b]
    ensures Texts(SaveOffTokens()) == ["--save", ""]
  {
  }

  // What one more line adds to the rules, in both printed forms.
  lemma NextRule(lines: seq<string>, i: nat)
    requires i < |lines|
    ensures
      var f := Fields(TrimSpace(lines[i]));
      var before, after := RuleTokens(lines[..i]), RuleTokens(lines[..i + 1]);
      if |f| < 2 then after == before
      else
        Texts(after) == Texts(before) + ["--save", f[0], f[1]] &&
        Print(after) == Print(before) + (" --save " + Quote(f[0]) + " " + Quote(f[1]))
    ensures TrimSpace(lines[i]) == "" ==> Fields(TrimSpace(lines[i])) == []
  {
    hide TrimSpace, Print, Texts, Quote, SaveTokens;
    var f := Fields(TrimSpace(lines[i]));
    assert lines[..i + 1][..i] == lines[..i];
    if |f| >= 2 {
      hide Fields;
      SaveTexts(RuleTokens(lines[..i]), f[0], f[1]);
      PrintRule(RuleTokens(lines[..i]), f[0], f[1]);
    }
  }

  lemma RuleStart()
    ensures RuleTokens([]) == [] && Texts([]) == [] && Print([]) == ""
  {
  }

  method RdbArgv(o: Opts) returns (out: seq<string>)
    ensures out == Texts(RdbTokens(o.rdbSaveLines))
  {
    hide TrimSpace, ToLower, Fields, OffWord, OffAlone, Texts, RuleTokens, SaveOffTokens, Print, Quote;
    RuleStart();
    SaveTexts([], "", "");
    var lines := o.rdbSaveLines;
    if |lines| == 0 {
      return [];
    }
    if |lines| == 1 {
      var x := TrimSpace(ToLower(lines[0]));
      if OffAlone(x) {
        return ["--save", ""];
      }
    }
    out := [];
    for i := 0 to |lines|
      invariant out == Texts(RuleTokens(lines[..i]))
      invariant forall j :: 0 <= j < i ==> !TurnsOff(lines[j])
    {
      NextRule(lines, i);
      var line := TrimSpace(lines[i]);
      if line == "" {
        assert !TurnsOff(lines[i]) by { EmptyIsNotOff(); }
        continue;
      }
      var low := ToLower(line);
      if OffWord(low) {
        assert TurnsOff(lines[i]);
        return ["--save", ""];
      }
      var f := Fields(line);
      if |f| < 2 {
        continue;
      }
      out := out + ["--save", f[0], f[1]];
    }
    assert lines[..|lines|] == lines;
  }

  method RdbShellFragment(o: Opts) returns (b: string)
    ensures b == Print(RdbTokens(o.rdbSaveLines))
  {
    hide TrimSpace, ToLower, Fields, OffWord, OffAlone, Texts, RuleTokens, SaveOffTokens, Print, Quote;
    RuleStart();
    PrintSaveOff();
    var lines := o.rdbSaveLines;
    if |lines| == 0 {
      return "";
    }
    if |lines| == 1 {
      var x := TrimSpace(ToLower(lines[0]));
      if OffAlone(x) {
        return " --save ''";
      }
    }
    b := "";
    for i := 0 to |lines|
      invariant b == Print(RuleTokens(lines[..i]))
      invariant forall j :: 0 <= j < i ==> !TurnsOff(lines[j])
    {
      NextRule(lines, i);
      var line := TrimSpace(lines[i]);
      if line == "" {
        assert !TurnsOff(lines[i]) by { EmptyIsNotOff(); }
        continue;
      }
      var low := ToLower(line);
      if OffWord(low) {
        assert TurnsOff(lines[i]);
        return " --save ''";
      }
      var f := Fields(line);
      if |f| < 2 {
        continue;
      }
      b := b + (" --save " + Quote(f[0]) + " " + Quote(f[1]));
    }
    assert lines[..|lines|] == lines;
  }

  lemma EmptyIsNotOff()
    ensures !OffWord(ToLower(""))
  {
  }

  lemma PrintNothing()
    ensures Print([]) == ""
  {
  }

  lemma PrintSaveOff()
    ensures Print(SaveOffTokens()) == " --save ''"
  {
    PrintNothing();
    PrintOneMore([], Bare("--save"));
    PrintOneMore([Bare("--save")], Quoted(""));
    assert [Bare("--save")] + [Quoted("")] == [Bare("--save"), Quoted("")];
    assert [] + [Bare("--save")] == [Bare("--save")];
  }

  // ---------- extra arguments ----------

  // The words of the shell form: each non-blank element, trimmed, is one word.
  function ExtraTokens(args: seq<string>): seq<Token> {
    if args == [] then []
    else
      var a := TrimSpace(args[|args| - 1]);
      ExtraTokens(args[..|args| - 1]) + if a == "" then [] else [Quoted(a)]
  }

  function ExtraWords(args: seq<string>): seq<string> { Texts(ExtraTokens(args)) }

  // The fields of every word, in order.
  function AllFields(words: seq<string>): seq<string> {
    if words == [] then [] else AllFields(words[..|words| - 1]) + Fields(words[|words| - 1])
  }

  method ExtraArgsShellFragment(o: Opts) returns (b: string)
    ensures b == Print(ExtraTokens(o.extraRedisServerArgs))
  {
    hide Print, Quote, TrimSpace;
    var args := o.extraRedisServerArgs;
    PrintNothing();
    b := "";
    for i := 0 to |args|
      invariant b == Print(ExtraTokens(args[..i]))
    {
      assert args[..i + 1][..i] == args[..i];
      ghost var before := ExtraTokens(args[..i]);
      assert before + [] == before;
      var a := TrimSpace(args[i]);
      if a == "" {
        continue;
      }
      PrintOneMore(before, Quoted(a));
      b := b + " " + Quote(a);
    }
    assert args[..|args|] == args;
  }

  method ExtraArgsArgv(o: Opts) returns (out: seq<string>)
    ensures out == AllFields(ExtraWords(o.extraRedisServerArgs))
  {
    hide TrimSpace, Fields;
    var args := o.extraRedisServerArgs;
    out := [];
    for i := 0 to |args|
      invariant out == AllFields(ExtraWords(args[..i]))
    {
      assert args[..i + 1][..i] == args[..i];
      ghost var before := ExtraWords(args[..i]);
      var a := TrimSpace(args[i]);
      if a == "" {
        assert ExtraWords(args[..i + 1]) == before;
        continue;
      }
      assert ExtraWords(args[..i + 1]) == before + [a];
      assert (before + [a])[..|before|] == before;
      out := out + Fields(a);
    }
    assert args[..|args|] == args;
  }

  // ---------- the container ----------

  const POLICIES := {
    "noeviction", "allkeys-lru", "volatile-lru", "allkeys-lfu", "volatile-lfu", "allkeys-random",
    "volatile-random", "volatile-ttl"}

  function MaxmemPolicyOrDefault(p: string): string {
    var low := TrimSpace(ToLower(p));
    if low in POLICIES then low else "allkeys-lru"
  }

  function Policy(o: Opts): string { TrimSpace(MaxmemPolicyOrDefault(o.maxmemoryPolicy)) }

  function Memory(o: Opts): string {
    if Blank(o.maxmemory) then "256mb" else TrimSpace(o.maxmemory)
  }

  function DirText(dataDir: string): string {
    if Blank(dataDir) then "" else "--dir" + " " + Quote(TrimSpace(dataDir)) + " "
  }

  function DirWords(dataDir: string): seq<string> {
    if Blank(dataDir) then [] else ["--dir", TrimSpace(dataDir)]
  }

  function FixedText(dirText: string, mem: string, pol: string, aof: string): string {
    "exec" + " " + "redis-server" + " " + dirText +
    "--maxmemory" + " " + Quote(mem) + " " +
    "--maxmemory-policy" + " " + Quote(pol) + " " +
    "--appendonly" + " " + Quote(aof)
  }

  function FixedWords(dirWords: seq<string>, mem: string, pol: string, aof: string): seq<string> {
    ["redis-server"] + dirWords + ["--maxmemory", mem, "--maxmemory-policy", pol, "--appendonly", aof]
  }

  const REQUIREPASS := " " + "--requirepass" + ParameterText("REDIS_PASSWORD")

  function ShellCommand(o: Opts, dataDir: string): string {
    FixedText(DirText(dataDir), Memory(o), Policy(o), YesNo(o.appendonly)) +
    (Print(RdbTokens(o.rdbSaveLines)) + EnterpriseArgsShell(o) + Print(ExtraTokens(o.extraRedisServerArgs))) +
    REQUIREPASS
  }

  // Everything up to the extra arguments, as words.
  function ServerWords(o: Opts, dataDir: string): seq<string> {
    FixedWords(DirWords(dataDir), Memory(o), Policy(o), YesNo(o.appendonly)) +
    Texts(RdbTokens(o.rdbSaveLines)) + EnterpriseArgsArgv(o)
  }

  method BuildRedisMainContainer(o: Opts, dataDir: string) returns (c: Container)
    ensures !Blank(o.password) ==>
              c == Container(true, ["/bin/sh", "-c"], [ShellCommand(o, dataDir)])
    ensures Blank(o.password) ==>
              c == Container(false, [], ServerWords(o, dataDir) + AllFields(ExtraWords(o.extraRedisServerArgs)))
  {
    hide TrimSpace, MaxmemPolicyOrDefault, Print, Texts, Quote, EnterpriseArgsShell, EnterpriseArgsArgv;
    var pol := TrimSpace(MaxmemPolicyOrDefault(o.maxmemoryPolicy));
    var mem := TrimSpace(o.maxmemory);
    if mem == "" {
      mem := "256mb";
    }
    var aof := YesNo(o.appendonly);
    var rdbText := RdbShellFragment(o);
    var extraText := ExtraArgsShellFragment(o);
    var extraShell := rdbText + EnterpriseArgsShell(o) + extraText;
    var dirArg := "";
    if TrimSpace(dataDir) != "" {
      dirArg := "--dir" + " " + Quote(TrimSpace(dataDir)) + " ";
    }
    if TrimSpace(o.password) != "" {
      c := Container(true, ["/bin/sh", "-c"], [FixedText(dirArg, mem, pol, aof) + extraShell + REQUIREPASS]);
    } else {
      var args := ["redis-server"];
      if TrimSpace(dataDir) != "" {
        args := args + ["--dir", TrimSpace(dataDir)];
      } else {
        assert args == args + [];
      }
      args := args + ["--maxmemory", mem, "--maxmemory-policy", pol, "--appendonly", aof];
      var rdb := RdbArgv(o);
      args := args + rdb;
      args := args + EnterpriseArgsArgv(o);
      var extra := ExtraArgsArgv(o);
      args := args + extra;
      c := Container(false, [], args);
    }
  }

  // ---------- the shell reads the two forms as the same words ----------

  // A text that already reads as `more`, a blank, a flag name and a quoted value.
  lemma AddQuotedFlag(text: string, more: seq<string>, name: string, value: string, env: Environment)
    requires more != [] && PlainWord(name)
    requires Run(START, text, env) == After(more)
    ensures Run(START, text + " " + name + " " + Quote(value), env) == After(more + [name] + [value])
  {
    hide Run, PlainWord, Quote;
    RunAppend(START, text, " " + name, env);
    RunAppend(START, text + " " + name, " " + Quote(value), env);
    RunNextPlain(more, name, env);
    RunNextQuoted(more + [name], value, env);
    assert text + (" " + name) == text + " " + name;
    assert text + " " + name + (" " + Quote(value)) == text + " " + name + " " + Quote(value);
  }

  lemma FixedNamesArePlain()
    ensures PlainWord("exec") && PlainWord("redis-server") && PlainWord("--dir")
    ensures PlainWord("--maxmemory") && PlainWord("--maxmemory-policy")
    ensures PlainWord("--appendonly") && PlainWord("--requirepass") && PlainWord("--save")
  {
  }

  lemma RunProgram(env: Environment)
    ensures Run(START, "exec" + " " + "redis-server", env) == After(["exec", "redis-server"])
  {
    hide Run, PlainWord;
    FixedNamesArePlain();
    var first, second := "exec", "redis-server";
    FirstWord(first, env);
    RunAppend(START, first, " " + second, env);
    RunNextPlain([first], second, env);
    assert [first] + [second] == [first, second];
    assert first + (" " + second) == first + " " + second;
  }

  lemma FirstWord(w: string, env: Environment)
    requires PlainWord(w)
    ensures Run(START, w, env) == After([w])
  {
    RunPlain([], None, w, env);
    assert "" + w == w;
  }

  // The format string ends the directory argument with its own blank.
  lemma Regroup(head: string, dir: string, quoted: string)
    ensures head + " " + (dir + " " + quoted + " ") == head + " " + dir + " " + quoted + " "
    ensures head + " " + "" == head + " "
  {
  }

  lemma RunFixed(o: Opts, dataDir: string, env: Environment)
    ensures Run(START, FixedText(DirText(dataDir), Memory(o), Policy(o), YesNo(o.appendonly)), env)
         == After(["exec"] + FixedWords(DirWords(dataDir), Memory(o), Policy(o), YesNo(o.appendonly)))
  {
    hide Run, PlainWord, Quote, Memory, Policy, YesNo, TrimSpace;
    FixedNamesArePlain();
    RunProgram(env);
    var t, w := "exec" + " " + "redis-server", ["exec", "redis-server"];
    if !Blank(dataDir) {
      var dir, value := "--dir", TrimSpace(dataDir);
      AddQuotedFlag(t, w, dir, value, env);
      Regroup(t, dir, Quote(value));
      t, w := t + " " + dir + " " + Quote(value), w + [dir] + [value];
    } else {
      Regroup(t, "", "");
    }
    var n, v := "--maxmemory", Memory(o);
    AddQuotedFlag(t, w, n, v, env);
    t, w := t + " " + n + " " + Quote(v), w + [n] + [v];
    n, v := "--maxmemory-policy", Policy(o);
    AddQuotedFlag(t, w, n, v, env);
    t, w := t + " " + n + " " + Quote(v), w + [n] + [v];
    n, v := "--appendonly", YesNo(o.appendonly);
    AddQuotedFlag(t, w, n, v, env);
    t, w := t + " " + n + " " + Quote(v), w + [n] + [v];
    assert w == ["exec"] + FixedWords(DirWords(dataDir), Memory(o), Policy(o), YesNo(o.appendonly));
  }

  lemma RdbTokensAreSafe(lines: seq<string>)
    ensures AllSafe(RdbTokens(lines))
  {
    hide PlainWord;
    FixedNamesArePlain();
    if !SavingOff(lines) {
      RuleTokensAreSafe(lines);
    }
  }

  lemma {:induction false} RuleTokensAreSafe(lines: seq<string>)
    ensures AllSafe(RuleTokens(lines))
  {
    hide PlainWord;
    FixedNamesArePlain();
    if lines != [] {
      RuleTokensAreSafe(lines[..|lines| - 1]);
    }
  }

  lemma {:induction false} ExtraTokensAreQuoted(args: seq<string>)
    ensures forall t :: t in ExtraTokens(args) ==> t.Quoted? && t.text != "" && Trimmed(t.text)
  {
    if args != [] {
      ExtraTokensAreQuoted(args[..|args| - 1]);
    }
  }

  // The text from the fixed part on, up to the password.
  lemma RunBody(o: Opts, dataDir: string, env: Environment)
    ensures
      var text := FixedText(DirText(dataDir), Memory(o), Policy(o), YesNo(o.appendonly)) +
                  (Print(RdbTokens(o.rdbSaveLines)) + EnterpriseArgsShell(o) + Print(ExtraTokens(o.extraRedisServerArgs)));
      Run(START, text, env) == After(["exec"] + ServerWords(o, dataDir) + ExtraWords(o.extraRedisServerArgs))
  {
    hide Run, Print, Texts, EnterpriseArgsShell, EnterpriseArgsArgv, FixedText, FixedWords, After,
      DirText, DirWords, Memory, Policy, YesNo, RdbTokens, ExtraTokens;
    var rdb, extra := RdbTokens(o.rdbSaveLines), ExtraTokens(o.extraRedisServerArgs);
    var head := FixedText(DirText(dataDir), Memory(o), Policy(o), YesNo(o.appendonly));
    var w0 := ["exec"] + FixedWords(DirWords(dataDir), Memory(o), Policy(o), YesNo(o.appendonly));
    var w1 := w0 + Texts(rdb);
    var w2 := w1 + EnterpriseArgsArgv(o);
    RunFixed(o, dataDir, env);
    RunAppend(START, head, Print(rdb) + EnterpriseArgsShell(o) + Print(extra), env);
    RunAppend(After(w0), Print(rdb) + EnterpriseArgsShell(o), Print(extra), env);
    RunAppend(After(w0), Print(rdb), EnterpriseArgsShell(o), env);
    RdbTokensAreSafe(o.rdbSaveLines);
    RunPrint(w0, rdb, env);
    EnterpriseFormsAgree(o, w1, env);
    ExtraTokensAreQuoted(o.extraRedisServerArgs);
    RunPrint(w2, extra, env);
    assert w2 == ["exec"] + ServerWords(o, dataDir);
  }

  // Whatever the options and the data directory are, the shell reads the password form as `exec`,
  // the server words, one word per extra argument, and --requirepass with the password.
  lemma ShellFormWords(o: Opts, dataDir: string, env: Environment)
    ensures Words(ShellCommand(o, dataDir), env)
         == Some(["exec"] + ServerWords(o, dataDir) + ExtraWords(o.extraRedisServerArgs) +
                 ["--requirepass", env("REDIS_PASSWORD")])
  {
    hide Run, Print, ServerWords, ExtraWords, EnterpriseArgsShell, FixedText, PlainWord, ParameterText, After,
      DirText, Memory, Policy, YesNo, RdbTokens, ExtraTokens;
    var body := FixedText(DirText(dataDir), Memory(o), Policy(o), YesNo(o.appendonly)) +
                (Print(RdbTokens(o.rdbSaveLines)) + EnterpriseArgsShell(o) + Print(ExtraTokens(o.extraRedisServerArgs)));
    var words := ["exec"] + ServerWords(o, dataDir) + ExtraWords(o.extraRedisServerArgs);
    RunBody(o, dataDir, env);
    FixedNamesArePlain();
    var flag, name := "--requirepass", "REDIS_PASSWORD";
    RunAppend(START, body, REQUIREPASS, env);
    RunAppend(After(words), " " + flag, ParameterText(name), env);
    RunNextPlain(words, flag, env);
    RunParameter(words + [flag], name, env);
    assert words + [flag] + [env(name)] == words + [flag, env(name)];
  }

  // ---------- what the words are ----------

  lemma {:induction false} TextsAppend(a: seq<Token>, b: seq<Token>)
    ensures Texts(a + b) == Texts(a) + Texts(b)
  {
  }

  // The words that the save lines stand for
  function SaveWords(lines: seq<string>): seq<string> { Texts(RdbTokens(lines)) }

  predicate SaysOff(line: string) {
    var low := ToLower(TrimSpace(line));
    low == "none" || low == "off"
  }

  // Lower case and trimming may change places.
  lemma {:induction false} TrimLeftLowers(s: string)
    ensures TrimLeft(ToLower(s)) == ToLower(TrimLeft(s))
  {
    LowerSpace();
    if s != "" {
      hide IsSpace, ToLowerChar;
      assert ToLower(s)[1..] == ToLower(s[1..]);
      TrimLeftLowers(s[1..]);
    }
  }

  lemma {:induction false} TrimRightLowers(s: string)
    ensures TrimRight(ToLower(s)) == ToLower(TrimRight(s))
  {
    LowerSpace();
    if s != "" {
      hide IsSpace, ToLowerChar;
      assert ToLower(s)[..|s| - 1] == ToLower(s[..|s| - 1]);
      TrimRightLowers(s[..|s| - 1]);
    }
  }

  lemma LowerSpace()
    ensures forall c :: IsSpace(ToLowerChar(c)) <==> IsSpace(c)
  {
  }

  lemma TrimLowers(s: string)
    ensures TrimSpace(ToLower(s)) == ToLower(TrimSpace(s))
  {
    hide TrimLeft, TrimRight, ToLower;
    TrimLeftLowers(s);
    TrimRightLowers(TrimLeft(s));
  }

  lemma OffAloneIs(line: string)
    ensures OffAlone(TrimSpace(ToLower(line))) <==>
      SaysOff(line) || TrimSpace(line) == "" || TrimSpace(line) == "\"\""
  {
    TrimLowers(line);
    var t, low, quotes := TrimSpace(line), ToLower(TrimSpace(line)), "\"\"";
    hide TrimSpace;
    assert low == quotes <==> t == quotes by {
      assert low == quotes <==> |low| == 2 && low[0] == '"' && low[1] == '"';
      assert t == quotes <==> |t| == 2 && t[0] == '"' && t[1] == '"';
    }
  }

  // Saving is switched off by a line that says none or off, by itself or among others, and by a
  // single line that is blank or two quotes.
  lemma SavingIsOff(lines: seq<string>)
    requires (exists i :: 0 <= i < |lines| && SaysOff(lines[i])) ||
             (|lines| == 1 && (TrimSpace(lines[0]) == "" || TrimSpace(lines[0]) == "\"\""))
    ensures SaveWords(lines) == ["--save", ""]
  {
    hide RuleTokens, TrimSpace, ToLower;
    SaveTexts([], "", "");
    if i :| 0 <= i < |lines| && SaysOff(lines[i]) {
      assert TurnsOff(lines[i]);
    } else {
      OffAloneIs(lines[0]);
    }
  }

  // Otherwise each line with two fields or more is one rule, and the others are ignored.
  lemma SavingIsOn(lines: seq<string>)
    requires forall i :: 0 <= i < |lines| ==> !SaysOff(lines[i])
    requires |lines| == 1 ==> TrimSpace(lines[0]) != "" && TrimSpace(lines[0]) != "\"\""
    ensures SaveWords(lines) == Texts(RuleTokens(lines))
  {
    hide RuleTokens, TrimSpace, ToLower;
    if |lines| == 1 { OffAloneIs(lines[0]); }
  }

  lemma {:induction false} RulesAppend(a: seq<string>, b: seq<string>)
    ensures Texts(RuleTokens(a + b)) == Texts(RuleTokens(a)) + Texts(RuleTokens(b))
  {
    hide Rule, Texts;
    if b == [] {
      assert a + b == a;
      RuleStart();
    } else {
      var last := Rule(b[|b| - 1]);
      RulesAppend(a, b[..|b| - 1]);
      assert (a + b)[..|a + b| - 1] == a + b[..|b| - 1];
      TextsAppend(RuleTokens(a + b[..|b| - 1]), last);
      TextsAppend(RuleTokens(b[..|b| - 1]), last);
    }
  }

  lemma RuleIs(line: string)
    ensures var f := Fields(TrimSpace(line));
      Texts(RuleTokens([line])) == if |f| >= 2 then ["--save", f[0], f[1]] else []
  {
    hide TrimSpace, Fields, Texts;
    var f := Fields(TrimSpace(line));
    assert [line][..0] == [];
    RuleStart();
    if |f| >= 2 { SaveTexts([], f[0], f[1]); }
    assert [] + Rule(line) == Rule(line);
  }

  lemma {:induction false} ExtraTokensAppend(a: seq<string>, b: seq<string>)
    ensures ExtraTokens(a + b) == ExtraTokens(a) + ExtraTokens(b)
  {
    hide TrimSpace;
    if b == [] {
      assert a + b == a;
    } else {
      ExtraTokensAppend(a, b[..|b| - 1]);
      assert (a + b)[..|a + b| - 1] == a + b[..|b| - 1];
    }
  }

  lemma ExtraAppend(a: seq<string>, b: seq<string>)
    ensures ExtraWords(a + b) == ExtraWords(a) + ExtraWords(b)
  {
    hide ExtraTokens, Texts;
    ExtraTokensAppend(a, b);
    TextsAppend(ExtraTokens(a), ExtraTokens(b));
  }

  lemma {:induction false} AllFieldsAppend(a: seq<string>, b: seq<string>)
    ensures AllFields(a + b) == AllFields(a) + AllFields(b)
  {
    hide Fields;
    if b == [] {
      assert a + b == a;
    } else {
      AllFieldsAppend(a, b[..|b| - 1]);
      assert (a + b)[..|a + b| - 1] == a + b[..|b| - 1];
    }
  }

  // An extra argument is one word to the shell and its fields in the vector; a blank one is nothing.
  lemma ExtraIs(arg: string)
    ensures ExtraWords([arg]) == if TrimSpace(arg) == "" then [] else [TrimSpace(arg)]
    ensures AllFields(ExtraWords([arg])) == if TrimSpace(arg) == "" then [] else Fields(TrimSpace(arg))
  {
    hide TrimSpace, Fields;
    var w := TrimSpace(arg);
    assert [arg][..0] == [] && [w][..0] == [];
    assert ExtraTokens([]) == [] && AllFields([]) == [];
    assert ExtraTokens([arg]) == if w == "" then [] else [Quoted(w)];
    assert Texts([Quoted(w)]) == [w];
    assert AllFields([w]) == Fields(w);
  }

  // The vector begins with the program, the data directory if there is one, memory and policy with
  // their defaults, and whether the append-only file is on.
  lemma ServerWordsBegin(o: Opts, dataDir: string)
    ensures var words := ServerWords(o, dataDir);
      var k := if TrimSpace(dataDir) == "" then 1 else 3;
      |words| >= k + 6 && words[0] == "redis-server" &&
      (k == 3 ==> words[1..3] == ["--dir", TrimSpace(dataDir)]) &&
      words[k..k + 6] == [
        "--maxmemory", if TrimSpace(o.maxmemory) == "" then "256mb" else TrimSpace(o.maxmemory),
        "--maxmemory-policy", Policy(o), "--appendonly", if o.appendonly then "yes" else "no"]
  {
    hide TrimSpace, Policy, RdbTokens, EnterpriseArgsArgv, Texts;
  }

  // The policy is one of eight, in any case of letters; any other text counts as allkeys-lru.
  lemma PolicyIs(o: Opts)
    ensures var p := TrimSpace(ToLower(o.maxmemoryPolicy));
      if p == "noeviction" || p == "allkeys-lru" || p == "volatile-lru" || p == "allkeys-lfu" || p == "volatile-lfu" ||
         p == "allkeys-random" || p == "volatile-random" || p == "volatile-ttl"
      then Policy(o) == p else Policy(o) == "allkeys-lru"
  {
    hide ToLower, TrimSpace;
    assert Trimmed("allkeys-lru");
  }

  predicate Pair(words: seq<string>, k: nat, name: string, n: int) {
    k + 1 < |words| && words[k] == name && Numeral(words[k + 1]) == Some(n)
  }

  // The production settings: positive numbers are taken as they are and others replaced by the
  // defaults; a negative timeout is none.
  lemma NumbersAre(o: Opts)
    ensures var argv := EnterpriseArgsArgv(o);
      Pair(argv, 0, "--tcp-backlog", if o.tcpBacklog > 0 then o.tcpBacklog else 511) &&
      Pair(argv, 2, "--tcp-keepalive", if o.tcpKeepalive > 0 then o.tcpKeepalive else 60) &&
      Pair(argv, 4, "--timeout", if o.clientTimeoutSec >= 0 then o.clientTimeoutSec else 0) &&
      Pair(argv, 6, "--maxclients", if o.maxClients > 0 then o.maxClients else 10000) &&
      Pair(argv, 8, "--hz", if o.hz > 0 then o.hz else 10)
  {
    hide Numeral, Itoa, YesNo;
    NumeralOfItoa(OrDefault(o.tcpBacklog, 511));
    NumeralOfItoa(OrDefault(o.tcpKeepalive, 60));
    NumeralOfItoa(if o.clientTimeoutSec < 0 then 0 else o.clientTimeoutSec);
    NumeralOfItoa(OrDefault(o.maxClients, 10000));
    NumeralOfItoa(OrDefault(o.hz, 10));
  }

  // I/O threads are only mentioned when there are some.
  lemma SwitchesAre(o: Opts)
    ensures var argv := EnterpriseArgsArgv(o);
      |argv| == (if o.ioThreads > 0 then 18 else 14) &&
      argv[10..14] == ["--lazyfree-lazy-eviction", if o.lazyfreeLazyEviction then "yes" else "no",
                       "--lazyfree-lazy-expire", if o.lazyfreeLazyExpire then "yes" else "no"] &&
      (o.ioThreads > 0 ==> Pair(argv, 14, "--io-threads", o.ioThreads) && argv[16..18] == ["--io-threads-do-reads", "yes"])
  {
    hide Numeral, Itoa, OrDefault;
    NumeralOfItoa(o.ioThreads);
  }

  // ---------- the one difference between the two forms ----------

  lemma {:induction false} FieldsOfWords(words: seq<string>)
    requires forall w :: w in words ==> w != "" && Trimmed(w)
    ensures AllFields(words) == words <==> forall w :: w in words ==> !HasSpace(w)
  {
    hide Fields, HasSpace, Trimmed;
    FieldsHaveNoSpace(words);
    if (forall w :: w in words ==> !HasSpace(w)) && words != [] {
      var init, last := words[..|words| - 1], words[|words| - 1];
      assert forall w :: w in init ==> w in words;
      FieldsOfWords(init);
      FieldsOfTrimmed(last);
      assert init + [last] == words;
    }
  }

  lemma {:induction false} FieldsHaveNoSpace(words: seq<string>)
    ensures forall f :: f in AllFields(words) ==> !HasSpace(f)
  {
    hide Fields, HasSpace;
    if words != [] {
      FieldsHaveNoSpace(words[..|words| - 1]);
      FieldsAreWords(words[|words| - 1]);
    }
  }

  lemma MiddleEqual(left: seq<string>, a: seq<string>, b: seq<string>, right: seq<string>)
    ensures left + a + right == left + b + right <==> a == b
  {
    var x, y := left + a + right, left + b + right;
    if x == y {
      assert |a| == |b|;
      assert a == x[|left|..|left| + |a|] && b == y[|left|..|left| + |b|];
    }
  }

  // The argument vector is the shell's word list exactly when no extra argument, once trimmed,
  // holds white space; in general it is the fields of those words.
  lemma ShellFormRefinesArgvForm(o: Opts, dataDir: string, env: Environment)
    ensures
      var extra := ExtraWords(o.extraRedisServerArgs);
      Words(ShellCommand(o, dataDir), env)
        == Some(["exec"] + ServerWords(o, dataDir) + AllFields(extra) + ["--requirepass", env("REDIS_PASSWORD")])
      <==> forall w :: w in extra ==> !HasSpace(w)
  {
    hide Words, ShellCommand, ServerWords, AllFields, HasSpace, Trimmed;
    var extra := ExtraWords(o.extraRedisServerArgs);
    ShellFormWords(o, dataDir, env);
    ExtraTokensAreQuoted(o.extraRedisServerArgs);
    FieldsOfWords(extra);
    MiddleEqual(["exec"] + ServerWords(o, dataDir), extra, AllFields(extra), ["--requirepass", env("REDIS_PASSWORD")]);
  }
}
