/** The entry point of the wrapper (main.go): find the tool's command among
    the arguments, recognise it by name, let the matching command (only
    `compile` is registered) do its work, and forward the command line to
    the real tool. */
module Tool {
  import opened Wrappers
  import opened GoLib
  import opened Ast
  import opened Compile

  // ---------------------------------------------------------------------
  // Command names

  /** `parseCommandID`: the empty name is an error; otherwise the last
      element of the path with its extension, if any, removed. */
  function ParseCommandID(cmd: string): (r: Result<string, Error>)
    ensures r.Failure? <==> cmd == []
    ensures r.Failure? ==> r.error == Error("unexpected empty command name")
    ensures r.Success? ==> r.value == "/" || '/' !in r.value
    ensures r.Success? && IsSlashes(cmd) ==> r.value == "/"
  {
    if cmd == [] then Failure(Error("unexpected empty command name"))
    else
      var base := Base(cmd);
      var ext := Ext(base);
      Success(if ext != [] then TrimSuffix(base, ext) else base)
  }

  /** Trailing separators after a name that does not end in one are dropped. */
  lemma {:induction false} TrimSlashesAfter(path: string, slashes: string)
    requires path == [] || path[|path| - 1] != '/'
    requires IsSlashes(slashes)
    ensures TrimTrailingSlashes(path + slashes) == path
    decreases |slashes|
  {
    if slashes != [] {
      var shorter := slashes[..|slashes| - 1];
      DropLastOfConcat(path, slashes);
      TrimSlashesAfter(path, shorter);
    } else {
      assert path + slashes == path;
    }
  }

  /** The last element of `dir + e`, `dir` empty or ending in a separator, is
      `e` when `e` has no separator. */
  lemma {:induction false} LastElementAfter(dir: string, e: string)
    requires dir == [] || dir[|dir| - 1] == '/'
    requires '/' !in e
    ensures LastElement(dir + e) == e
    decreases |e|
  {
    if e == [] {
      assert dir + e == dir;
    } else {
      var init := e[..|e| - 1];
      DropLastOfConcat(dir, e);
      LastElementAfter(dir, init);
      InitLast(e);
    }
  }

  /** A name without '.' and '/' has no extension. */
  lemma {:induction false} ExtOfPlainName(name: string)
    requires '.' !in name && '/' !in name
    ensures Ext(name) == []
    decreases |name|
  {
    if name != [] {
      var init := name[..|name| - 1];
      var last := name[|name| - 1];
      assert last in name;
      assert forall c | c in init :: c in name;
      ExtOfPlainName(init);
      ExtAppend(init, last);
      InitLast(name);
    }
  }

  /** The extension of `name + "." + rest`, `rest` free of '.' and '/', is
      `"." + rest`, whatever `name` holds. */
  lemma {:induction false} ExtOfDotted(name: string, rest: string)
    requires '.' !in rest && '/' !in rest
    ensures Ext(name + ['.'] + rest) == ['.'] + rest
    decreases |rest|
  {
    if rest == [] {
      ExtAfterDot(name);
      assert name + ['.'] + rest == name + ['.'];
    } else {
      var init := rest[..|rest| - 1];
      var last := rest[|rest| - 1];
      assert last in rest;
      assert forall c | c in init :: c in rest;
      ExtOfDotted(name, init);
      ExtAppend(name + ['.'] + init, last);
      InitLast(rest);
      SnocAssoc(name + ['.'], init, last);
      SnocAssoc(['.'], init, last);
    }
  }

  /** `filepath.Base` of `dir + file + slashes` is `file`, for a non-empty
      `file` without separator. */
  lemma BaseOfPath(dir: string, file: string, slashes: string)
    requires dir == [] || dir[|dir| - 1] == '/'
    requires '/' !in file && file != []
    requires IsSlashes(slashes)
    ensures Base(dir + file + slashes) == file
  {
    assert file[|file| - 1] in file;
    assert (dir + file)[|dir + file| - 1] == file[|file| - 1];
    TrimSlashesAfter(dir + file, slashes);
    LastElementAfter(dir, file);
  }

  /** The command name of a path `dir + name + slashes`, `name` free of '.'
      and '/', is `name`: the directory part and trailing separators are
      ignored. */
  lemma ParseCommandIDOfPlainPath(dir: string, name: string, slashes: string)
    requires dir == [] || dir[|dir| - 1] == '/'
    requires name != [] && '/' !in name && '.' !in name
    requires IsSlashes(slashes)
    ensures ParseCommandID(dir + name + slashes) == Success(name)
  {
    BaseOfPath(dir, name, slashes);
    ExtOfPlainName(name);
  }

  /** The command name of a path `dir + name + "." + rest + slashes`, with
      `name` free of '/' and `rest` free of '.' and '/', is `name`: only the
      last extension is removed. */
  lemma ParseCommandIDOfDottedPath(dir: string, name: string, rest: string, slashes: string)
    requires dir == [] || dir[|dir| - 1] == '/'
    requires '/' !in name && '.' !in rest && '/' !in rest
    requires IsSlashes(slashes)
    ensures ParseCommandID(dir + name + ['.'] + rest + slashes) == Success(name)
  {
    var file := name + ['.'] + rest;
    assert '/' !in file by {
      assert forall c | c in file :: c in name || c == '.' || c in rest;
    }
    Regroup(dir, name, rest, slashes);
    BaseOfPath(dir, file, slashes);
    DottedNameWithoutExt(name, rest);
  }

  /** Removing the extension of `name + "." + rest` leaves `name`. */
  lemma DottedNameWithoutExt(name: string, rest: string)
    requires '.' !in rest && '/' !in rest
    ensures Ext(name + ['.'] + rest) != []
    ensures TrimSuffix(name + ['.'] + rest, Ext(name + ['.'] + rest)) == name
  {
    ExtOfDotted(name, rest);
    PrefixOfConcat(name, ['.'] + rest);
    assert name + ['.'] + rest == name + (['.'] + rest);
  }

  // ---------------------------------------------------------------------
  // Dispatch

  /** The command parsers the wrapper knows (`commandParserMap`). */
  datatype CommandParser = CompileParser

  const CompileCommandName := "compile"

  const CommandParsers: map<string, CommandParser> := map[CompileCommandName := CompileParser]

  /** Run a registered parser on the command's arguments. */
  function RunParser(p: CommandParser, flagParse: seq<string> -> CompileFlagSet, args: seq<string>)
    : Result<CompileCommand, Error>
  {
    match p
    case CompileParser => ParseCompileCommand(flagParse, args)
  }

  /** The three results of `parseCommand`: the command to execute if any
      (a nil function value is `None`), the position of the command token,
      and the error if any. */
  datatype ParsedCommand = ParsedCommand(cmd: Option<CompileCommand>, pos: int, err: Option<Error>)

  /** `parseCommand`. The scanner of the wrapper's own options
      (`parseFlagsUntilFirstNonOptionArg`) is a parameter answering the
      position of the first argument that is not an option, or -1. */
  function ParseCommand(flagScan: seq<string> -> int, flagParse: seq<string> -> CompileFlagSet, args: seq<string>)
    : (r: ParsedCommand)
    requires -1 <= flagScan(args) < |args|
    ensures r.pos == flagScan(args)
    ensures r.pos == -1 ==> r.cmd == None && r.err == Some(Error("unexpected arguments"))
    ensures r.pos != -1 ==> (r.err.Some? <==> args[r.pos] == [])
    ensures r.pos != -1 && args[r.pos] == [] ==> r.cmd == None && r.err == Some(Error("unexpected empty command name"))
    ensures r.cmd.Some? <==> r.pos != -1 && ParseCommandID(args[r.pos]) == Success(CompileCommandName)
    ensures r.cmd.Some? ==>
      && r.err == None
      && r.cmd.value.args == args[r.pos..]
      && r.cmd.value.args[0] == args[r.pos]
      && r.cmd.value.flags == flagParse(args[r.pos + 1..])
  {
    var pos := flagScan(args);
    if pos == -1 then ParsedCommand(None, pos, Some(Error("unexpected arguments")))
    else Dispatch(ParseCommandID(args[pos]), pos, args[pos..], flagParse)
  }

  /** The second half of `parseCommand`: given the outcome of
      `parseCommandID` on the command token and the arguments from the token
      on, look the name up among the registered parsers. */
  function Dispatch(id: Result<string, Error>, pos: int, rest: seq<string>, flagParse: seq<string> -> CompileFlagSet)
    : (r: ParsedCommand)
    requires rest != []
    ensures r.pos == pos
    ensures id.Failure? ==> r.cmd == None && r.err == Some(id.error)
    ensures id.Success? ==> r.err == None
    ensures r.cmd.Some? <==> id == Success(CompileCommandName)
    ensures r.cmd.Some? ==> r.cmd.value.args == rest && r.cmd.value.flags == flagParse(rest[1..])
  {
    if id.Failure? then ParsedCommand(None, pos, Some(id.error))
    else if id.value in CommandParsers then
      match RunParser(CommandParsers[id.value], flagParse, rest)
      case Success(c) => ParsedCommand(Some(c), pos, None)
      case Failure(e) => ParsedCommand(None, pos, Some(e))
    else ParsedCommand(None, pos, None)
  }

  /** `main`'s argument selection: the wrapper's own options are hidden when
      a command token was found. */
  function ForwardedArgs(args: seq<string>, pos: int): (r: seq<string>)
    requires -1 <= pos < |args|
    ensures pos == -1 ==> r == args
    ensures pos != -1 ==> r != [] && r == args[pos..] && |r| == |args| - pos
  {
    if pos != -1 then args[pos..] else args
  }

  /** How the process ends: the command line is forwarded to the real tool
      (`path` and its arguments), or the process crashes before that. */
  datatype Outcome = Forward(path: string, toolArgs: seq<string>) | Crash

  /** The compile command runs and one of the files it adds panics the hook. */
  ghost predicate InstrumentationCrashes(flagScan: seq<string> -> int, flagParse: seq<string> -> CompileFlagSet,
                                         parse: string -> Result<seq<Decl>, Error>, args: seq<string>)
    requires -1 <= flagScan(args) < |args|
  {
    var pc := ParseCommand(flagScan, flagParse, args);
    pc.cmd.Some? && Instruments(pc.cmd.value) && InstrumentPanics(pc.cmd.value.args, parse)
  }

  /** The command block of `main` on a fresh process state: the command
      runs against an empty set of parsed files, so it panics exactly when
      one of its panic sources does, and it never asks for new arguments. */
  method Execute(cmd: CompileCommand, parse: string -> Result<seq<Decl>, Error>)
    returns (newArgs: Option<seq<string>>, panicked: bool)
    ensures panicked <==> Instruments(cmd) && InstrumentPanics(cmd.args, parse)
    ensures newArgs == None
  {
    var session := new Session();
    var err;
    ghost var order;
    newArgs, err, panicked, order := session.RunCompileCommand(cmd, parse);
  }

  /** `main` on `os.Args[1:]`. The command's error result is dropped as in
      the source; new arguments replace the forwarded ones only when the
      command returns some; `forwardCommand` reads the first argument, which
      an empty command line does not have. */
  method Run(args: seq<string>, flagScan: seq<string> -> int, flagParse: seq<string> -> CompileFlagSet,
             parse: string -> Result<seq<Decl>, Error>) returns (outcome: Outcome)
    requires -1 <= flagScan(args) < |args|
    ensures outcome.Crash? <==> args == [] || InstrumentationCrashes(flagScan, flagParse, parse, args)
    ensures outcome.Forward? ==> [outcome.path] + outcome.toolArgs == ForwardedArgs(args, flagScan(args))
  {
    var parsed := ParseCommand(flagScan, flagParse, args);
    var forwarded := ForwardedArgs(args, parsed.pos);
    assert forwarded == [] <==> args == [];
    if parsed.cmd.Some? {
      var newArgs, panicked := Execute(parsed.cmd.value, parse);
      if panicked {
        return Crash;
      }
      match newArgs {
        case Some(a) => forwarded := a;
        case None =>
      }
    }
    if forwarded == [] {
      return Crash;
    }
    HeadTail(forwarded);
    outcome := Forward(forwarded[0], forwarded[1..]);
  }

  /** Why `main` crashes on a non-empty command line: the command token names
      the compile tool, its flags are valid and name the runtime package, and
      one argument from the command token on is a panic argument; and each
      such command line does crash. */
  lemma {:induction false} CrashCause(flagScan: seq<string> -> int, flagParse: seq<string> -> CompileFlagSet,
                                      parse: string -> Result<seq<Decl>, Error>, args: seq<string>)
    requires -1 <= flagScan(args) < |args|
    ensures InstrumentationCrashes(flagScan, flagParse, parse, args) <==>
      var pos := flagScan(args);
      && pos != -1
      && ParseCommandID(args[pos]) == Success(CompileCommandName)
      && flagParse(args[pos + 1..]).IsValid()
      && flagParse(args[pos + 1..]).pkg == RuntimePackage
      && exists i | pos <= i < |args| :: PanicArgument(args[i], parse)
  {
    var pc := ParseCommand(flagScan, flagParse, args);
    var pos := flagScan(args);
    if pc.cmd.Some? {
      InstrumentPanicsIff(args[pos..], parse);
      PanicArgumentFrom(args, pos, parse);
    }
  }

  /** A panic argument at or after `pos` is one of the suffix from `pos`. */
  lemma PanicArgumentFrom(args: seq<string>, pos: nat, parse: string -> Result<seq<Decl>, Error>)
    requires pos <= |args|
    ensures (exists i | pos <= i < |args| :: PanicArgument(args[i], parse)) <==>
            (exists j | 0 <= j < |args[pos..]| :: PanicArgument(args[pos..][j], parse))
  {
    if i :| pos <= i < |args| && PanicArgument(args[i], parse) {
      assert args[pos..][i - pos] == args[i];
    }
  }
}
