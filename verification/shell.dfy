/** Shell quoting, and the script that wraps an addon command (controllers/runtime_helpers.go,
    shellQuote, shellCommand and addonWrappedCommand), read back by a tokeniser. */
module Shell {
  import opened Options
  import opened Strings

  // ---------------------------------------------------------------- a tokeniser

  /** Outside quotes, inside single quotes (section 2.2.2 of the POSIX Shell Command Language), or
      inside double quotes (section 2.2.3). */
  datatype Mode = Bare | Single | Double

  /** The token being read, the words of the command being read, and the commands read so far; or
      `Stuck` on input whose meaning goes beyond words and command separators. */
  datatype Lexer = Lexer(mode: Mode, word: Option<string>, words: seq<string>, commands: seq<seq<string>>)
                 | Stuck

  /** Characters that stand for themselves anywhere in an unquoted word. */
  predicate Plain(c: char) {
    'a' <= c <= 'z' || 'A' <= c <= 'Z' || '0' <= c <= '9' || c in {'/', '.', '_', '-', ',', ':', '@', '%', '+'}
  }

  predicate AllPlain(s: string) {
    forall i | 0 <= i < |s| :: Plain(s[i])
  }

  function Text(word: Option<string>): string {
    if word.Some? then word.value else ""
  }

  /** A blank ends the word (section 2.3). */
  function EndWord(st: Lexer): Lexer
    requires st.Lexer?
  {
    if st.word.Some? then st.(word := None, words := st.words + [st.word.value]) else st
  }

  /** A separator ends the command. */
  function EndCommand(st: Lexer): Lexer
    requires st.Lexer?
  {
    var ended := EndWord(st);
    if ended.words == [] then ended else ended.(words := [], commands := ended.commands + [ended.words])
  }

  function Read(st: Lexer, c: char): Lexer {
    if st.Stuck? then Stuck
    else
      match st.mode
      case Single =>
        if c == '\'' then st.(mode := Bare) else st.(word := Some(Text(st.word) + [c]))
      case Double =>
        if c == '"' then st.(mode := Bare)
        else if c in {'$', '`', '\\'} then Stuck
        else st.(word := Some(Text(st.word) + [c]))
      case Bare =>
        if c == '\'' then st.(mode := Single, word := Some(Text(st.word)))
        else if c == '"' then st.(mode := Double, word := Some(Text(st.word)))
        else if c == ' ' || c == '\t' then EndWord(st)
        else if c == '\n' || c == ';' then EndCommand(st)
        else if Plain(c) then st.(word := Some(Text(st.word) + [c]))
        else Stuck
  }

  function ReadAll(st: Lexer, s: string): Lexer
    decreases |s|
  {
    if s == "" then st else ReadAll(Read(st, s[0]), s[1..])
  }

  function Fresh(commands: seq<seq<string>>): Lexer {
    Lexer(Bare, None, [], commands)
  }

  /** The commands of a script, each as its list of words. */
  function Parse(script: string): Option<seq<seq<string>>> {
    var st := ReadAll(Fresh([]), script);
    if st.Lexer? && st.mode == Bare then Some(EndCommand(st).commands) else None
  }

  // ---------------------------------------------------------------- the printers

  /** `strings.ReplaceAll` of each single quote by a closing quote, a double-quoted single quote and
      an opening quote. */
  function Escaped(value: string): string {
    if value == "" then ""
    else (if value[0] == '\'' then "'\"'\"'" else [value[0]]) + Escaped(value[1..])
  }

  function ShellQuote(value: string): string {
    "'" + Escaped(value) + "'"
  }

  function ShellQuoteAll(values: seq<string>): (quoted: seq<string>)
    ensures |quoted| == |values|
  {
    if values == [] then [] else [ShellQuote(values[0])] + ShellQuoteAll(values[1..])
  }

  /** Written in pieces, so that the proofs can look at one piece at a time. */
  const MISSING_MESSAGE := "[ERROR] " + "addon " + "template " + "requires " + "command " + "or args"

  function Missing(message: string): string {
    "echo '" + message + "'; exit 1"
  }

  function ShellCommand(command: seq<string>, args: seq<string>, workingDir: string): string {
    var cd := if TrimSpace(workingDir) != "" then ["cd " + ShellQuote(workingDir)] else [];
    var body :=
      if |command| > 0 then Join(ShellQuoteAll(command + args), " ")
      else if |args| > 0 then Join(ShellQuoteAll(args), " ")
      else Missing(MISSING_MESSAGE);
    Join(cd + [body], "\n")
  }

  function AddonWrappedCommand(command: seq<string>, args: seq<string>, workingDir: string,
                               doneFile: string, failedFile: string): string
  {
    Join(["set -eu",
          "trap 'touch " + ShellQuote(failedFile) + "' ERR",
          ShellCommand(command, args, workingDir),
          "touch " + ShellQuote(doneFile)], "\n")
  }

  // ---------------------------------------------------------------- reading what was printed

  lemma {:induction false} ReadConcat(st: Lexer, a: string, b: string)
    ensures ReadAll(st, a + b) == ReadAll(ReadAll(st, a), b)
    decreases |a|
  {
    if a == "" {
      assert a + b == b;
    } else {
      assert (a + b)[1..] == a[1..] + b;
      ReadConcat(Read(st, a[0]), a[1..], b);
    }
  }

  lemma ReadOne(st: Lexer, c: char)
    ensures ReadAll(st, [c]) == Read(st, c)
  {
  }

  lemma ReadQuoteMark(st: Lexer)
    requires st.Lexer? && st.mode == Single && st.word.Some?
    ensures ReadAll(st, "'\"'\"'") == st.(word := Some(st.word.value + "'"))
  {
    var s := "'\"'\"'";
    assert s[1..] == "\"'\"'" && s[1..][1..] == "'\"'" && s[1..][1..][1..] == "\"'" && s[1..][1..][1..][1..] == "'";
    assert s[1..][1..][1..][1..][1..] == "";
  }

  lemma {:induction false} ReadEscaped(st: Lexer, value: string)
    requires st.Lexer? && st.mode == Single && st.word.Some?
    ensures ReadAll(st, Escaped(value)) == st.(word := Some(st.word.value + value))
    decreases |value|
  {
    if value == "" {
      assert st.word.value + value == st.word.value;
    } else {
      var first := if value[0] == '\'' then "'\"'\"'" else [value[0]];
      ReadConcat(st, first, Escaped(value[1..]));
      if value[0] == '\'' {
        ReadQuoteMark(st);
      }
      var next := st.(word := Some(st.word.value + [value[0]]));
      assert ReadAll(st, first) == next;
      ReadEscaped(next, value[1..]);
      assert st.word.value + [value[0]] + value[1..] == st.word.value + value;
    }
  }

  /** Reading a quoted value adds exactly that value to the current word, whatever it contains. */
  lemma ReadQuoted(st: Lexer, value: string)
    requires st.Lexer? && st.mode == Bare
    ensures ReadAll(st, ShellQuote(value)) == st.(word := Some(Text(st.word) + value))
  {
    var open := st.(mode := Single, word := Some(Text(st.word)));
    ReadConcat(st, "'" + Escaped(value), "'");
    ReadConcat(st, "'", Escaped(value));
    assert ReadAll(st, "'") == open;
    ReadEscaped(open, value);
    ReadOne(open.(word := Some(Text(st.word) + value)), '\'');
  }

  lemma {:induction false} ReadPlain(st: Lexer, s: string)
    requires st.Lexer? && st.mode == Bare && AllPlain(s)
    ensures ReadAll(st, s) == if s == "" then st else st.(word := Some(Text(st.word) + s))
    decreases |s|
  {
    if s != "" {
      var next := st.(word := Some(Text(st.word) + [s[0]]));
      assert Read(st, s[0]) == next;
      ReadPlain(next, s[1..]);
      assert Text(st.word) + [s[0]] + s[1..] == Text(st.word) + s;
      assert s[1..] == "" ==> s == [s[0]];
    }
  }

  /** Quoted words joined by blanks are read as those words. */
  lemma {:induction false} ReadWords(st: Lexer, values: seq<string>)
    requires st.Lexer? && st.mode == Bare && st.word == None
    requires values != []
    ensures Ended(ReadAll(st, Join(ShellQuoteAll(values), " "))) == Some(st.(words := st.words + values))
    decreases |values|
  {
    var quoted := ShellQuoteAll(values);
    ReadQuoted(st, values[0]);
    var first := ReadAll(st, ShellQuote(values[0]));
    assert "" + values[0] == values[0];
    if |values| == 1 {
      assert quoted == [ShellQuote(values[0])];
      assert st.words + [values[0]] == st.words + values;
    } else {
      var rest := Join(quoted[1..], " ");
      assert Join(quoted, " ") == ShellQuote(values[0]) + " " + rest;
      ReadConcat(st, ShellQuote(values[0]) + " ", rest);
      ReadConcat(st, ShellQuote(values[0]), " ");
      ReadOne(first, ' ');
      var next := st.(words := st.words + [values[0]]);
      ReadWords(next, values[1..]);
      assert st.words + [values[0]] + values[1..] == st.words + values;
    }
  }

  function Ended(st: Lexer): Option<Lexer> {
    if st.Lexer? && st.mode == Bare then Some(EndWord(st)) else None
  }

  /** Reading `text` from the start of a command, and ending the command, gives these commands. */
  ghost predicate Gives(text: string, commands: seq<seq<string>>) {
    forall before: seq<seq<string>> ::
      var st := ReadAll(Fresh(before), text);
      st.Lexer? && st.mode == Bare && EndCommand(st) == Fresh(before + commands)
  }

  lemma GivesParse(text: string, commands: seq<seq<string>>)
    requires Gives(text, commands)
    ensures Parse(text) == Some(commands)
  {
    var none: seq<seq<string>> := [];
    assert none + commands == commands;
    assert ReadAll(Fresh(none), text).Lexer?;
  }

  /** Two pieces on lines of their own give the commands of both. */
  lemma GivesLines(a: string, xs: seq<seq<string>>, b: string, ys: seq<seq<string>>)
    requires Gives(a, xs) && Gives(b, ys)
    ensures Gives(a + "\n" + b, xs + ys)
  {
    forall before: seq<seq<string>>
      ensures var st := ReadAll(Fresh(before), a + "\n" + b);
              st.Lexer? && st.mode == Bare && EndCommand(st) == Fresh(before + (xs + ys))
    {
      var st := ReadAll(Fresh(before), a);
      ReadConcat(Fresh(before), a + "\n", b);
      ReadConcat(Fresh(before), a, "\n");
      ReadOne(st, '\n');
      assert ReadAll(Fresh(before), a + "\n") == Fresh(before + xs);
      assert before + xs + ys == before + (xs + ys);
      assert ReadAll(Fresh(before + xs), b).Lexer?;
    }
  }

  /** A command line of quoted words. */
  lemma GivesWords(values: seq<string>)
    requires values != []
    ensures Gives(Join(ShellQuoteAll(values), " "), [values])
  {
    forall before: seq<seq<string>>
      ensures var st := ReadAll(Fresh(before), Join(ShellQuoteAll(values), " "));
              st.Lexer? && st.mode == Bare && EndCommand(st) == Fresh(before + [values])
    {
      ReadWords(Fresh(before), values);
      assert [] + values == values;
    }
  }

  lemma ReadNamed(st: Lexer, name: string, value: string)
    requires st.Lexer? && st.mode == Bare && st.word == None
    requires name != "" && AllPlain(name)
    ensures ReadAll(st, name + " " + ShellQuote(value)) == st.(words := st.words + [name], word := Some(value))
  {
    ReadConcat(st, name + " ", ShellQuote(value));
    ReadConcat(st, name, " ");
    ReadPlain(st, name);
    assert "" + name == name && "" + value == value;
    ReadOne(st.(word := Some(name)), ' ');
    ReadQuoted(st.(words := st.words + [name]), value);
  }

  /** A plain word followed by a quoted one. */
  lemma GivesPair(name: string, value: string)
    requires name != "" && AllPlain(name)
    ensures Gives(name + " " + ShellQuote(value), [[name, value]])
  {
    forall before: seq<seq<string>>
      ensures var st := ReadAll(Fresh(before), name + " " + ShellQuote(value));
              st.Lexer? && st.mode == Bare && EndCommand(st) == Fresh(before + [[name, value]])
    {
      ReadNamed(Fresh(before), name, value);
      assert [] + [name] + [value] == [name, value];
    }
  }

  lemma PlainPair(st: Lexer, a: string, b: string)
    requires st.Lexer? && st.mode == Bare && st.word == None
    requires a != "" && b != "" && AllPlain(a) && AllPlain(b)
    ensures ReadAll(st, a + " " + b) == st.(words := st.words + [a], word := Some(b))
  {
    ReadConcat(st, a + " ", b);
    ReadConcat(st, a, " ");
    ReadPlain(st, a);
    assert "" + a == a && "" + b == b;
    ReadOne(st.(word := Some(a)), ' ');
    ReadPlain(st.(words := st.words + [a]), b);
  }

  /** Two plain words. */
  lemma GivesPlainPair(a: string, b: string)
    requires a != "" && b != "" && AllPlain(a) && AllPlain(b)
    ensures Gives(a + " " + b, [[a, b]])
  {
    forall before: seq<seq<string>>
      ensures var st := ReadAll(Fresh(before), a + " " + b);
              st.Lexer? && st.mode == Bare && EndCommand(st) == Fresh(before + [[a, b]])
    {
      PlainPair(Fresh(before), a, b);
      assert [] + [a] + [b] == [a, b];
    }
  }

  lemma {:induction false} EscapedFree(s: string)
    requires Free(s, '\'')
    ensures Escaped(s) == s
  {
    if s != "" {
      EscapedFree(s[1..]);
      assert [s[0]] + s[1..] == s;
    }
  }

  lemma TrapText(name: string, action: string, file: string, signal: string)
    requires Free(action, '\'') && AllPlain(file)
    ensures name + " '" + action + ShellQuote(file) + "' " + signal
         == name + " " + ShellQuote(action) + file + (ShellQuote("") + (" " + signal))
  {
    assert Free(file, '\'');
    EscapedFree(action);
    EscapedFree(file);
    QuotesTogether(name, action, file, signal);
  }

  lemma QuotesTogether(name: string, action: string, file: string, signal: string)
    ensures name + " '" + action + ("'" + file + "'") + "' " + signal
         == name + " " + ("'" + action + "'") + file + (("'" + "" + "'") + (" " + signal))
  {
  }

  /** Quoted text, plain text and quoted text again run together into one word. */
  lemma ReadTrap(st: Lexer, name: string, action: string, file: string, signal: string)
    requires st.Lexer? && st.mode == Bare && st.word == None
    requires name != "" && AllPlain(name) && Free(action, '\'') && AllPlain(file)
    requires signal != "" && AllPlain(signal)
    ensures ReadAll(st, name + " '" + action + ShellQuote(file) + "' " + signal)
         == st.(words := st.words + [name, action + file], word := Some(signal))
  {
    TrapText(name, action, file, signal);
    var head, tail := name + " " + ShellQuote(action), ShellQuote("") + (" " + signal);
    ReadConcat(st, head + file, tail);
    ReadConcat(st, head, file);
    ReadNamed(st, name, action);
    var begun := st.(words := st.words + [name], word := Some(action));
    ReadPlain(begun, file);
    assert action + "" == action;
    var named := begun.(word := Some(action + file));
    ReadTail(named, signal);
    assert st.words + [name] + [action + file] == st.words + [name, action + file];
  }

  lemma ReadTail(st: Lexer, signal: string)
    requires st.Lexer? && st.mode == Bare && st.word.Some? && signal != "" && AllPlain(signal)
    ensures ReadAll(st, ShellQuote("") + (" " + signal))
         == st.(words := st.words + [st.word.value], word := Some(signal))
  {
    ReadConcat(st, ShellQuote(""), " " + signal);
    ReadQuoted(st, "");
    assert st.word.value + "" == st.word.value;
    ReadConcat(st, " ", signal);
    ReadOne(st, ' ');
    ReadPlain(EndWord(st), signal);
    assert "" + signal == signal;
  }

  /** The trap line: its quotes do not nest, but around a file name of plain characters the pieces
      run together into one word. */
  lemma GivesTrap(name: string, action: string, file: string, signal: string)
    requires name != "" && AllPlain(name) && Free(action, '\'') && AllPlain(file)
    requires signal != "" && AllPlain(signal)
    ensures Gives(name + " '" + action + ShellQuote(file) + "' " + signal, [[name, action + file, signal]])
  {
    forall before: seq<seq<string>>
      ensures var st := ReadAll(Fresh(before), name + " '" + action + ShellQuote(file) + "' " + signal);
              st.Lexer? && st.mode == Bare && EndCommand(st) == Fresh(before + [[name, action + file, signal]])
    {
      ReadTrap(Fresh(before), name, action, file, signal);
      assert [] + [name, action + file] + [signal] == [name, action + file, signal];
    }
  }

  /** Two commands on one line. */
  lemma GivesBoth(a: string, xs: seq<seq<string>>, b: string, ys: seq<seq<string>>)
    requires Gives(a, xs) && Gives(b, ys)
    ensures Gives(a + "; " + b, xs + ys)
  {
    forall before: seq<seq<string>>
      ensures var st := ReadAll(Fresh(before), a + "; " + b);
              st.Lexer? && st.mode == Bare && EndCommand(st) == Fresh(before + (xs + ys))
    {
      var st := ReadAll(Fresh(before), a);
      assert a + "; " + b == a + ";" + (" " + b);
      ReadConcat(Fresh(before), a + ";", " " + b);
      ReadConcat(Fresh(before), a, ";");
      ReadOne(st, ';');
      assert ReadAll(Fresh(before), a + ";") == Fresh(before + xs);
      ReadConcat(Fresh(before + xs), " ", b);
      ReadOne(Fresh(before + xs), ' ');
      assert before + xs + ys == before + (xs + ys);
      assert ReadAll(Fresh(before + xs), b).Lexer?;
    }
  }

  // ---------------------------------------------------------------- round trips

  /** What the body of a template runs. */
  function BodyCommands(words: seq<string>): seq<seq<string>> {
    if words != [] then [words]
    else [["echo", MISSING_MESSAGE], ["exit", "1"]]
  }

  function DirCommands(workingDir: string): seq<seq<string>> {
    if TrimSpace(workingDir) != "" then [["cd", workingDir]] else []
  }

  lemma MissingText(message: string)
    ensures "echo" + " " + ("'" + message + "'") + "; " + ("exit" + " " + "1") == Missing(message)
  {
  }

  lemma GivesMissing(message: string)
    requires Free(message, '\'')
    ensures Gives(Missing(message), [["echo", message], ["exit", "1"]])
  {
    EscapedFree(message);
    GivesPair("echo", message);
    GivesPlainPair("exit", "1");
    assert "exit" + " " + "1" == "exit 1";
    GivesBoth("echo" + " " + ShellQuote(message), [["echo", message]], "exit" + " " + "1", [["exit", "1"]]);
    assert [["echo", message]] + [["exit", "1"]] == [["echo", message], ["exit", "1"]];
    MissingText(message);
  }

  lemma MessageFree()
    ensures Free(MISSING_MESSAGE, '\'')
  {
    assert Free("[ERROR] ", '\'') && Free("addon ", '\'') && Free("template ", '\'');
    assert Free("requires ", '\'') && Free("command ", '\'') && Free("or args", '\'');
  }

  /** Whatever the words contain, quotes, blanks and line breaks included, the shell reads the
      command back as exactly those words, behind the change of directory if there is one. */
  lemma ShellCommandRoundTrip(command: seq<string>, args: seq<string>, workingDir: string)
    ensures Gives(ShellCommand(command, args, workingDir), DirCommands(workingDir) + BodyCommands(command + args))
    ensures Parse(ShellCommand(command, args, workingDir))
         == Some(DirCommands(workingDir) + BodyCommands(command + args))
  {
    var words := command + args;
    var body :=
      if |command| > 0 then Join(ShellQuoteAll(command + args), " ")
      else if |args| > 0 then Join(ShellQuoteAll(args), " ")
      else Missing(MISSING_MESSAGE);
    assert |command| == 0 ==> words == args;
    if words != [] {
      GivesWords(words);
    } else {
      MessageFree();
      GivesMissing(MISSING_MESSAGE);
    }
    assert Gives(body, BodyCommands(words));
    if TrimSpace(workingDir) != "" {
      GivesPair("cd", workingDir);
      var cd := "cd " + ShellQuote(workingDir);
      assert "cd" + " " + ShellQuote(workingDir) == cd;
      GivesLines(cd, [["cd", workingDir]], body, BodyCommands(words));
      JoinTwoLines(cd, body);
    } else {
      assert [body] == [] + [body];
      assert [] + BodyCommands(words) == BodyCommands(words);
    }
    GivesParse(ShellCommand(command, args, workingDir), DirCommands(workingDir) + BodyCommands(words));
  }

  lemma JoinTwoLines(a: string, b: string)
    ensures Join([a] + [b], "\n") == a + "\n" + b
  {
    assert ([a] + [b])[1..] == [b];
  }

  lemma JoinFourLines(a: string, b: string, c: string, d: string)
    ensures Join([a, b, c, d], "\n") == a + "\n" + (b + "\n" + (c + "\n" + d))
  {
    assert [c, d][1..] == [d];
    assert Join([c, d], "\n") == c + "\n" + d;
    assert [b, c, d][1..] == [c, d];
    assert Join([b, c, d], "\n") == b + "\n" + (c + "\n" + d);
    assert [a, b, c, d][1..] == [b, c, d];
  }

  function TrapLine(failedFile: string): string {
    "trap 'touch " + ShellQuote(failedFile) + "' ERR"
  }

  lemma TrapLineGives(failedFile: string)
    requires AllPlain(failedFile)
    ensures Gives(TrapLine(failedFile), [["trap", "touch " + failedFile, "ERR"]])
  {
    GivesTrap("trap", "touch ", failedFile, "ERR");
    assert "trap" + " '" + "touch " + ShellQuote(failedFile) + "' " + "ERR" == TrapLine(failedFile);
  }

  /** The wrapped script is read back as exactly: `set -eu`, the trap, the change of directory if
      there is one, the addon's words, and the touch of the done file. The trap line needs a failed
      file of plain characters. */
  lemma WrappedRoundTrip(command: seq<string>, args: seq<string>, workingDir: string,
                         doneFile: string, failedFile: string)
    requires AllPlain(failedFile)
    ensures Parse(AddonWrappedCommand(command, args, workingDir, doneFile, failedFile))
         == Some([["set", "-eu"]] + ([["trap", "touch " + failedFile, "ERR"]]
                 + ((DirCommands(workingDir) + BodyCommands(command + args)) + [["touch", doneFile]])))
  {
    var actual := ShellCommand(command, args, workingDir);
    var inner := DirCommands(workingDir) + BodyCommands(command + args);
    var lines := actual + "\n" + ("touch " + ShellQuote(doneFile));
    ShellCommandRoundTrip(command, args, workingDir);
    TouchGives(actual, inner, doneFile);
    TrapLineGives(failedFile);
    GivesLines(TrapLine(failedFile), [["trap", "touch " + failedFile, "ERR"]], lines, inner + [["touch", doneFile]]);
    SetGives(TrapLine(failedFile) + "\n" + lines,
             [["trap", "touch " + failedFile, "ERR"]] + (inner + [["touch", doneFile]]));
    JoinFourLines("set -eu", TrapLine(failedFile), actual, "touch " + ShellQuote(doneFile));
    GivesParse(AddonWrappedCommand(command, args, workingDir, doneFile, failedFile),
               [["set", "-eu"]] + ([["trap", "touch " + failedFile, "ERR"]] + (inner + [["touch", doneFile]])));
  }

  lemma TouchGives(text: string, commands: seq<seq<string>>, doneFile: string)
    requires Gives(text, commands)
    ensures Gives(text + "\n" + ("touch " + ShellQuote(doneFile)), commands + [["touch", doneFile]])
  {
    GivesPair("touch", doneFile);
    assert "touch" + " " + ShellQuote(doneFile) == "touch " + ShellQuote(doneFile);
    GivesLines(text, commands, "touch " + ShellQuote(doneFile), [["touch", doneFile]]);
  }

  lemma SetGives(text: string, commands: seq<seq<string>>)
    requires Gives(text, commands)
    ensures Gives("set -eu" + "\n" + text, [["set", "-eu"]] + commands)
  {
    GivesPlainPair("set", "-eu");
    assert "set" + " " + "-eu" == "set -eu";
    GivesLines("set -eu", [["set", "-eu"]], text, commands);
  }

  /** The action of the trap, when it fires, is the touch of the failed file. */
  lemma TrapActionRoundTrip(failedFile: string)
    requires AllPlain(failedFile) && failedFile != ""
    ensures Parse("touch " + failedFile) == Some([["touch", failedFile]])
  {
    GivesPlainPair("touch", failedFile);
    assert "touch" + " " + failedFile == "touch " + failedFile;
    GivesParse("touch " + failedFile, [["touch", failedFile]]);
  }
}
