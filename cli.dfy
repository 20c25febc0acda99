/**
  * The command-line entry point: reading its flags, and the question loop
  * that keeps asking until the user types nothing or a word to stop.  The
  * console, the process arguments and the answering chain are parameters.
  */
module Cli {
  import opened Wrappers
  import opened Text
  import opened Js

  datatype CliArgs = CliArgs(
    forceRebuild: bool,
    audioPath: string,
    transcriptCachePath: Option<string>,
    forceAudioRecompute: bool,
    queryExpansionsPath: Option<string>)

  const MissingAudio := "Missing required argument: --audio <path>"

  /** `args.indexOf(x)`, with `None` for -1. */
  function Find(args: seq<string>, x: string): (r: Option<nat>)
    ensures r.None? <==> x !in args
    ensures r.Some? ==> r.value < |args| && args[r.value] == x && x !in args[..r.value]
  {
    if args == [] then None
    else if args[0] == x then Some(0)
    else match Find(args[1..], x)
      case None => None
      case Some(k) =>
        assert args[..k + 1] == [args[0]] + args[1..][..k];
        Some(k + 1)
  }

  /** `valueAfter(flag)`: the argument after the first occurrence of the
      flag, unless it is missing, empty or itself a flag. */
  function ValueAfter(args: seq<string>, flag: string): Option<string> {
    match Find(args, flag)
    case None => None
    case Some(idx) =>
      if idx + 1 >= |args| then None
      else
        var v := args[idx + 1];
        if v == "" || StartsWith(v, "--") then None else Some(v)
  }

  /** A value is found exactly when the flag occurs and the argument after
      its first occurrence is there, non-empty and not a flag; the value is
      that argument. */
  lemma ValueAfterResult(args: seq<string>, flag: string)
    ensures ValueAfter(args, flag).Some? <==>
      exists i :: 0 <= i < |args| - 1 && args[i] == flag && flag !in args[..i]
                  && args[i + 1] != "" && !StartsWith(args[i + 1], "--")
    ensures ValueAfter(args, flag).Some? ==>
      exists i :: 0 <= i < |args| - 1 && args[i] == flag && flag !in args[..i] && ValueAfter(args, flag).value == args[i + 1]
    ensures flag !in args ==> ValueAfter(args, flag).None?
  {
    if exists i :: 0 <= i < |args| - 1 && args[i] == flag && flag !in args[..i]
                   && args[i + 1] != "" && !StartsWith(args[i + 1], "--") {
      var i :| 0 <= i < |args| - 1 && args[i] == flag && flag !in args[..i]
               && args[i + 1] != "" && !StartsWith(args[i + 1], "--");
      FirstIsUnique(args, flag, i);
    }
    if ValueAfter(args, flag).Some? {
      var i := Find(args, flag).value;
      assert 0 <= i < |args| - 1 && args[i] == flag && flag !in args[..i] && ValueAfter(args, flag).value == args[i + 1];
    }
  }

  /** The first occurrence is where `Find` stops. */
  lemma FirstIsUnique(args: seq<string>, flag: string, i: nat)
    requires i < |args| && args[i] == flag && flag !in args[..i]
    ensures Find(args, flag) == Some(i)
  {
  }

  /** `parseArguments` on `process.argv`; the first two entries are the
      runtime and the script. */
  function ParseArguments(argv: seq<string>): Result<CliArgs, JsError> {
    var args := if |argv| >= 2 then argv[2..] else [];
    var audioPath := ValueAfter(args, "--audio");
    if audioPath.None? then Failure(JsError("Error", MissingAudio, None))
    else Success(CliArgs(
      "--force-rebuild" in args,
      audioPath.value,
      ValueAfter(args, "--transcript-cache"),
      "--force-audio-recompute" in args,
      ValueAfter(args, "--query-expansions")))
  }

  /** It fails, with the fixed message, exactly when `--audio` has no value;
      the two switches are on exactly when they appear anywhere; an absent
      path option is `null`. */
  lemma ParseArgumentsResult(argv: seq<string>)
    ensures var args := if |argv| >= 2 then argv[2..] else [];
      var r := ParseArguments(argv);
      && (r.Failure? <==> ValueAfter(args, "--audio").None?)
      && (r.Failure? ==> r.error.message == MissingAudio)
      && (r.Success? ==> r.value.audioPath == ValueAfter(args, "--audio").value && r.value.audioPath != "")
      && (r.Success? ==> (r.value.forceRebuild <==> "--force-rebuild" in args))
      && (r.Success? ==> (r.value.forceAudioRecompute <==> "--force-audio-recompute" in args))
      && (r.Success? && "--transcript-cache" !in args ==> r.value.transcriptCachePath.None?)
      && (r.Success? && "--query-expansions" !in args ==> r.value.queryExpansionsPath.None?)
  {
    var args := if |argv| >= 2 then argv[2..] else [];
    ValueAfterResult(args, "--transcript-cache");
    ValueAfterResult(args, "--query-expansions");
  }

  /** `--audio --force-rebuild` has no audio path: the next argument is a flag. */
  lemma FlagIsNotAValue()
    ensures ParseArguments(["node", "cli", "--audio", "--force-rebuild"]).Failure?
  {
    var args := ["--audio", "--force-rebuild"];
    assert ["node", "cli", "--audio", "--force-rebuild"][2..] == args;
    FirstIsUnique(args, "--audio", 0);
    assert StartsWith(args[1], "--");
  }

  const ExitWords: seq<string> := ["exit", "quit", "q"]

  /** A line that ends the loop: blank, or a stop word in any letter case. */
  predicate IsExit(line: string) {
    var trimmed := Trim(line);
    trimmed == "" || ToLower(trimmed) in ExitWords
  }

  /** The questions put to the chain for the lines typed: each line trimmed,
      up to the first line that ends the loop. */
  function Questions(lines: seq<string>): seq<string> {
    AskedUntil(lines, IsExit)
  }

  /** The lines before the first one `stop` accepts, trimmed. */
  function AskedUntil(lines: seq<string>, stop: string -> bool): seq<string> {
    if lines == [] || stop(lines[0]) then [] else [Trim(lines[0])] + AskedUntil(lines[1..], stop)
  }

  /** What the loop prints after a question. */
  datatype Printed = AnswerLine(answer: string) | ErrorLine(message: string)

  /** The answering chain: the answer to a question, or the error it throws. */
  type Chain = string -> Result<string, JsError>

  /** The `try`/`catch` around one question: the answer line, or the
      error line with the thrown error's message. */
  function PrintedFor(chain: Chain, q: string): Printed {
    match chain(q)
    case Success(a) => AnswerLine(a)
    case Failure(e) => ErrorLine(e.message)
  }

  /** What is printed after each of the questions `qs`, in order. */
  function Replies(chain: Chain, qs: seq<string>): (r: seq<Printed>)
    ensures |r| == |qs|
  {
    if qs == [] then [] else [PrintedFor(chain, qs[0])] + Replies(chain, qs[1..])
  }

  /** One question more, one reply more. */
  lemma {:induction false} RepliesSnoc(chain: Chain, qs: seq<string>, q: string)
    ensures Replies(chain, qs + [q]) == Replies(chain, qs) + [PrintedFor(chain, q)]
  {
    if qs == [] {
      assert qs + [q] == [q];
    } else {
      assert (qs + [q])[1..] == qs[1..] + [q];
      RepliesSnoc(chain, qs[1..], q);
    }
  }

  /** Each question gets its own reply: the answer, or the error's message. */
  lemma {:induction false} RepliesAt(chain: Chain, qs: seq<string>, k: nat)
    requires k < |qs|
    ensures Replies(chain, qs)[k] == PrintedFor(chain, qs[k])
    ensures chain(qs[k]).Success? ==> Replies(chain, qs)[k] == AnswerLine(chain(qs[k]).value)
    ensures chain(qs[k]).Failure? ==> Replies(chain, qs)[k] == ErrorLine(chain(qs[k]).error.message)
  {
    if k > 0 {
      RepliesAt(chain, qs[1..], k - 1);
    }
  }

  /** One line more of `AskedUntil`. */
  lemma AskedStep(lines: seq<string>, stop: string -> bool, i: nat)
    requires i < |lines|
    ensures stop(lines[i]) ==> AskedUntil(lines[i..], stop) == []
    ensures !stop(lines[i]) ==> AskedUntil(lines[i..], stop) == [Trim(lines[i])] + AskedUntil(lines[i + 1..], stop)
  {
    assert lines[i..][1..] == lines[i + 1..];
  }

  /** `runInteractiveMode` on the lines the user types: the loop asks again
      after an answer and after an error alike. */
  method RunInteractiveMode(lines: seq<string>, chain: Chain) returns (asked: seq<string>, printed: seq<Printed>)
    ensures asked == Questions(lines)
    ensures printed == Replies(chain, asked)
  {
    asked := [];
    printed := [];
    var i := 0;
    while i < |lines|
      invariant 0 <= i <= |lines|
      invariant asked + AskedUntil(lines[i..], IsExit) == Questions(lines)
      invariant printed == Replies(chain, asked)
    {
      AskedStep(lines, IsExit, i);
      if IsExit(lines[i]) {
        assert asked + [] == asked;
        break;
      }
      var trimmed := Trim(lines[i]);
      printed := printed + [PrintedFor(chain, trimmed)];
      var rest := AskedUntil(lines[i + 1..], IsExit);
      assert (asked + [trimmed]) + rest == asked + ([trimmed] + rest);
      RepliesSnoc(chain, asked, trimmed);
      asked := asked + [trimmed];
      i := i + 1;
    }
    if i == |lines| {
      assert lines[i..] == [];
      assert asked + [] == asked;
    }
  }

  /** The `k`th question is the `k`th line trimmed, and no line up to it
      ended the loop. */
  lemma {:induction false} QuestionAt(lines: seq<string>, stop: string -> bool, k: nat)
    requires k < |AskedUntil(lines, stop)|
    ensures k < |lines| && AskedUntil(lines, stop)[k] == Trim(lines[k]) && !stop(lines[k])
    ensures forall j :: 0 <= j <= k ==> !stop(lines[j])
  {
    if k > 0 {
      QuestionAt(lines[1..], stop, k - 1);
      assert forall j :: 1 <= j <= k ==> lines[j] == lines[1..][j - 1];
    }
  }

  /** A line that does not end the loop trims to a question that would not
      end it either. */
  lemma QuestionIsNotExit(line: string)
    requires !IsExit(line)
    ensures Trim(line) != "" && !IsExit(Trim(line))
  {
    TrimUnchanged(Trim(line));
  }

  /** Every question asked is a non-blank line that does not stop the
      loop, and there are no more questions than lines. */
  lemma QuestionsResult(lines: seq<string>)
    ensures |Questions(lines)| <= |lines|
    ensures forall k :: 0 <= k < |Questions(lines)| ==>
      Questions(lines)[k] == Trim(lines[k]) && Questions(lines)[k] != "" && !IsExit(Questions(lines)[k])
  {
    var qs := Questions(lines);
    if |qs| > 0 {
      QuestionAt(lines, IsExit, |qs| - 1);
    }
    forall k | 0 <= k < |qs|
      ensures qs[k] == Trim(lines[k]) && qs[k] != "" && !IsExit(qs[k])
    {
      QuestionAt(lines, IsExit, k);
      QuestionIsNotExit(lines[k]);
    }
  }

  /** "QUIT", in capitals and surrounded by spaces, stops the loop. */
  lemma QuitStops(rest: seq<string>)
    ensures Questions(["  QUIT "] + rest) == []
  {
    var line := "  QUIT ";
    TrimExample();
    assert ToLower("QUIT") == "quit";
    assert IsExit(line);
  }

  lemma TrimExample()
    ensures Trim("  QUIT ") == "QUIT"
  {
    var line := "  QUIT ";
    assert DropWhile(line, Whitespace) == DropWhile(line[1..], Whitespace) == DropWhile(line[2..], Whitespace);
    assert line[2..] == "QUIT ";
    assert TrimStart(line) == "QUIT ";
    assert "QUIT "[..4] == "QUIT";
    assert TrimEnd("QUIT ") == TrimEnd("QUIT");
    TrimUnchanged("QUIT");
  }
}
