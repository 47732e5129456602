/**
 * `CodexRunner.run` of scripts/codex_http_bridge.py: how the configured
 * command line and prompt mode become one process invocation. Starting the
 * process is outside the model; its outcome is an input.
 */
module CodexRunner {
  import opened Wrappers
  import opened Text

  /** The characters `shlex.split` separates words with. */
  const ShellSpace: set<char> := {' ', '\t', '\r', '\n'}

  /** The longest prefix of `s` holding no separator. */
  function WordPrefix(s: string): (w: string)
    ensures |w| <= |s| && w == s[..|w|]
    ensures forall i :: 0 <= i < |w| ==> w[i] !in ShellSpace
    ensures |w| == |s| || s[|w|] in ShellSpace
  {
    if s == [] || s[0] in ShellSpace then [] else [s[0]] + WordPrefix(s[1..])
  }

  /** `shlex.split` of a command line without quotes, escapes or comments:
      its maximal runs of non-separator characters. */
  function Words(s: string): seq<string>
    decreases |s|
  {
    var t := TrimLeft(s, ShellSpace);
    if t == [] then []
    else
      var w := WordPrefix(t);
      [w] + Words(t[|w|..])
  }

  /** A single word splits into itself. */
  lemma WordsOfOneWord(w: string)
    requires w != [] && NoSpace(w)
    ensures Words(w) == [w]
  {
    assert TrimLeft(w, ShellSpace) == w;
    assert WordPrefix(w) == w;
    assert w[|w|..] == [];
  }

  /** Every word is non-empty and free of separators. */
  lemma {:induction false} WordsAreWords(s: string)
    ensures forall i :: 0 <= i < |Words(s)| ==> Words(s)[i] != [] && NoSpace(Words(s)[i])
    decreases |s|
  {
    var t := TrimLeft(s, ShellSpace);
    if t != [] {
      var w := WordPrefix(t);
      var rest := t[|w|..];
      WordsAreWords(rest);
      var ws := Words(s);
      assert ws == [w] + Words(rest);
      assert w != [];
      forall i | 0 <= i < |ws| ensures ws[i] != [] && NoSpace(ws[i]) {
        if i > 0 {
          assert ws[i] == Words(rest)[i - 1];
        }
      }
    }
  }

  predicate NoSpace(w: string) {
    forall i :: 0 <= i < |w| ==> w[i] !in ShellSpace
  }

  /** The characters of `s` that are not separators, in order. */
  function Solid(s: string): (r: string)
    ensures NoSpace(r)
  {
    if s == [] then []
    else if s[0] in ShellSpace then Solid(s[1..])
    else [s[0]] + Solid(s[1..])
  }

  function Concat(ws: seq<string>): string {
    if ws == [] then [] else ws[0] + Concat(ws[1..])
  }

  lemma {:induction false} SolidAppend(a: string, b: string)
    ensures Solid(a + b) == Solid(a) + Solid(b)
  {
    if a != [] {
      assert (a + b)[1..] == a[1..] + b;
      SolidAppend(a[1..], b);
    } else {
      assert a + b == b;
    }
  }

  lemma {:induction false} SolidOfSpace(s: string)
    requires forall i :: 0 <= i < |s| ==> s[i] in ShellSpace
    ensures Solid(s) == []
  {
    if s != [] {
      SolidOfSpace(s[1..]);
    }
  }

  lemma {:induction false} SolidOfWord(w: string)
    requires NoSpace(w)
    ensures Solid(w) == w
  {
    if w != [] {
      SolidOfWord(w[1..]);
      assert w == [w[0]] + w[1..];
    }
  }

  /** Leading separators contribute nothing to `Solid`. */
  lemma SolidTrimmed(s: string)
    ensures Solid(s) == Solid(TrimLeft(s, ShellSpace))
  {
    var t := TrimLeft(s, ShellSpace);
    var lead := s[..|s| - |t|];
    TrimLeftSlice(s, ShellSpace);
    assert s == lead + t;
    SolidAppend(lead, t);
    SolidOfSpace(lead);
  }

  /** A word followed by the rest: `Solid` keeps the word whole. */
  lemma SolidOfPrefix(t: string)
    ensures Solid(t) == WordPrefix(t) + Solid(t[|WordPrefix(t)|..])
  {
    var w := WordPrefix(t);
    assert t == w + t[|w|..];
    SolidAppend(w, t[|w|..]);
    SolidOfWord(w);
  }

  /** One step of `Words`, for a line with something left after trimming. */
  lemma WordsStep(s: string)
    requires TrimLeft(s, ShellSpace) != []
    ensures var t := TrimLeft(s, ShellSpace);
      Concat(Words(s)) == WordPrefix(t) + Concat(Words(t[|WordPrefix(t)|..]))
  {
    var t := TrimLeft(s, ShellSpace);
    var w := WordPrefix(t);
    assert Words(s) == [w] + Words(t[|w|..]);
    assert Words(s)[1..] == Words(t[|w|..]);
  }

  /** Splitting loses only separators: the words, put back together, are the
      command line with its separators removed. */
  lemma {:induction false} WordsKeepText(s: string)
    ensures Concat(Words(s)) == Solid(s)
    decreases |s|
  {
    var t := TrimLeft(s, ShellSpace);
    SolidTrimmed(s);
    if t != [] {
      var w := WordPrefix(t);
      WordsKeepText(t[|w|..]);
      WordsStep(s);
      SolidOfPrefix(t);
    }
  }

  /** The command line has no words exactly when it is all separators. */
  lemma WordsEmptyIff(s: string)
    ensures Words(s) == [] <==> forall i :: 0 <= i < |s| ==> s[i] in ShellSpace
  {
    var t := TrimLeft(s, ShellSpace);
    TrimLeftSlice(s, ShellSpace);
    if t != [] {
      assert s[|s| - |t|] == t[0];
    }
  }

  /** What the runner starts: an argument vector and, in stdin mode, the text
      written to the process's standard input. */
  datatype Invocation = Invocation(argv: seq<string>, input: Option<string>)

  const EmptyCommand: string := "CODEX_COMMAND is empty"
  const BadPromptMode: string := "CODEX_PROMPT_MODE must be 'arg' or 'stdin'"

  /** The invocation `run` makes for `prompt`, or the `RuntimeError` it raises
      first. The command is checked before the mode. */
  function Plan(command: string, mode: string, prompt: string): Result<Invocation> {
    PlanOf(Words(command), mode, prompt)
  }

  /** `Plan` once the command line is split into `cmd`. */
  function PlanOf(cmd: seq<string>, mode: string, prompt: string): Result<Invocation> {
    if cmd == [] then Err(EmptyCommand)
    else if mode == "arg" then Ok(Invocation(cmd + [prompt], None))
    else if mode == "stdin" then Ok(Invocation(cmd, Some(prompt)))
    else Err(BadPromptMode)
  }

  lemma PlanOfSpec(cmd: seq<string>, mode: string, prompt: string)
    ensures var r := PlanOf(cmd, mode, prompt);
      && (r.Err? <==> (cmd == [] || (mode != "arg" && mode != "stdin")))
      && (cmd == [] ==> r == Err(EmptyCommand))
      && (r.Err? && cmd != [] ==> r.error == BadPromptMode)
      && (r.Ok? ==>
            && |r.value.argv| >= 1 && r.value.argv[..|cmd|] == cmd
            && (mode == "arg" <==> r.value.input.None?)
            && (mode == "arg" ==> r.value.argv == cmd + [prompt])
            && (mode == "stdin" ==> r.value.argv == cmd && r.value.input == Some(prompt)))
  {
    if cmd != [] && mode == "arg" {
      assert (cmd + [prompt])[..|cmd|] == cmd;
    } else if cmd != [] && mode == "stdin" {
      assert cmd[..|cmd|] == cmd;
    }
  }

  /** `run` fails exactly on an empty command or an unknown mode, the empty
      command taking precedence; otherwise the prompt reaches the process
      exactly once, as the last argument in "arg" mode and on standard input
      in "stdin" mode, after the command's own words. */
  lemma PlanSpec(command: string, mode: string, prompt: string)
    ensures var r := Plan(command, mode, prompt);
      && (r.Err? <==> (Words(command) == [] || (mode != "arg" && mode != "stdin")))
      && (Words(command) == [] ==> r == Err(EmptyCommand))
      && (r.Err? && Words(command) != [] ==> r.error == BadPromptMode)
      && (r.Ok? ==>
            && |r.value.argv| >= 1 && r.value.argv[..|Words(command)|] == Words(command)
            && (mode == "arg" <==> r.value.input.None?)
            && (mode == "arg" ==> r.value.argv == Words(command) + [prompt])
            && (mode == "stdin" ==> r.value.argv == Words(command) && r.value.input == Some(prompt)))
  {
    PlanOfSpec(Words(command), mode, prompt);
  }

  /** What came of starting the process: its exit code and captured output, or
      the message of the exception that escaped `run`. */
  datatype Outcome = Completed(code: int, out: string, err: string) | Raised(message: string)

  /** `run`: an empty command, and then an unknown mode, raises before any
      process starts; otherwise the result is whatever the process did
      (`proc`). What the process is given is `Plan`'s invocation, which
      `PlanSpec` characterises. */
  function Run(command: string, mode: string, prompt: string, proc: Outcome): (o: Outcome)
    ensures Words(command) == [] ==> o == Raised(EmptyCommand)
    ensures Words(command) != [] && mode != "arg" && mode != "stdin" ==> o == Raised(BadPromptMode)
    ensures Words(command) != [] && (mode == "arg" || mode == "stdin") ==> o == proc
  {
    match Plan(command, mode, prompt)
    case Err(e) => Raised(e)
    case Ok(_) => proc
  }
}
