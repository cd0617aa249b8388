# A verified model of a Go toolexec wrapper

The wrapper stands in front of the Go toolchain's tools. It runs as `wrapper [own options] <tool path> <tool arguments…>`. At startup it:

1. finds the tool's command token;
2. reduces the token to a command name by dropping the directory and the extension (`/x/y/compile.exe` becomes `compile`);
3. if the name is `compile`, runs the compile interception;
4. forwards the command line to the real tool.

The compile interception acts only when the `-p` and `-o` flags are both set and the package is `runtime`. It then takes every `.go` argument whose path contains `panic.go` and parses it. Each file is added to two process-wide maps: path to file, and file to path. After each addition it walks the whole package accumulated so far. The walk prepends a block to the body of every function declared as `gopanic`. The block holds one call of `print` with one STRING literal, and the literal's raw value is the text `Rajeev` followed by a newline.

The project has five modules:

- `Wrappers`: `Option` and `Result`.
- `GoLib`: the few Go library operations the code calls (`strings.HasSuffix`, `strings.Contains`, `strings.TrimSuffix`, `filepath.Base`, `filepath.Ext` with '/' as the only separator) and Go errors.
- `Ast`: the fragment of the decorated syntax tree the hook touches.
- `Compile`: compile.go.
- `Tool`: main.go.

External code is passed in as function-valued parameters:

- the file parser (`decorator.ParseFile`): `parse`;
- the scanner for the wrapper's own options (`parseFlagsUntilFirstNonOptionArg`): `flagScan`;
- the flag binder of the compile command (`parseFlags`): `flagParse`.

How the model represents the code:

- **Files.** A parsed file is a `class File`. The maps hold it by identity and the hook changes it in place.
- **Process state.** The two global maps are fields of `class Session`.
- **Loops.** `parseCompileCommandArgs`, the walk over a file's declarations and the loop of `instrument` are `while`/`for` loops.
- **Specifications.** Each loop method is proved against ghost functions, mainly `Walked(ds, n)`, which is the declarations after `n` walks.
- **Panics.** Go panics are modelled as a `panicked` result:
  - an index out of range at compile.go:73 when `gopanic` has no named first parameter;
  - a nil dereference at compile.go:78 when it has no body;
  - `args[0]` of an empty command line at main.go:40.
  On a panic, `main` ends in `Crash` instead of forwarding.

What the proofs establish:

- **Arguments are never rewritten.** The compile command always returns no new arguments and no error. `main` therefore forwards exactly `args[pos:]`, the command line from the command token on, for every command. It forwards all of `args` when no command token is found.
- **Files are walked repeatedly.** Every package walk walks every file added so far. So a matching file added on iteration `i` of the `n` iterations of `instrument`'s loop holds `n - i` copies of the diagnostic at the head of each `gopanic` body, followed by the original statements in order.
- **When `main` crashes** (`Tool.Run`, `Tool.CrashCause`). On a non-empty command line, `main` crashes exactly when all of these hold:
  - the command token names `compile`;
  - the flags are valid and name `runtime`;
  - some argument from the token on is a `.go` path containing `panic.go` that parses;
  - that file declares a `gopanic` with no parameters, with an unnamed first parameter, or with no body.

Behaviours of the code that the model keeps as they are:

- **No rewriting.** The code does not rewrite arguments. The write-back of instrumented files is commented out (compile.go:140-161), and `instrument` returns its arguments unchanged.
- **Failures are not passed through.** The panics listed above end the process before anything is forwarded. A parse error of `AddFile` is ignored (compile.go:136).
- **Missing command token.** `main` ignores `parseCommand`'s error and forwards the whole command line (main.go:19-24).
- **Exit status.** `main` exits with status 0 whatever the forwarded tool returns, because the error of `forwardCommand` is dropped before `os.Exit(0)` (main.go:33-34).
- **Narrow targets.** Only functions named `gopanic` in `.go` files whose path contains `panic.go` are instrumented.

## Model

| member | source | states |
|---|---|---|
| GoLib.TrimSuffix | main.go:92 | when `s` ends in `suffix` the result followed by `suffix` is `s`; otherwise the result is `s` |
| GoLib.Base | main.go:89 | the result is never empty, is "/" or free of separators, is "." for the empty path and "/" for a path of separators only |
| GoLib.Ext | main.go:91 | the result is empty or starts with its only '.', holds no separator, and is a suffix of the path |
| GoLib.ExtEmptyIff | main.go:91 | the extension is empty exactly when the last path element has no '.'; with the contract of `GoLib.Ext` this fixes the result as the last element from its last '.' |
| Compile.CompileFlagSet.IsValid | compile.go:32-34 | valid exactly when both the package and the output are non-empty |
| Compile.ParseCompileCommand | compile.go:40-48 | failure exactly on empty arguments, with the source's message; on success the arguments are kept whole (element 0 is the command token) and the flags are read from those after it |
| Compile.GoFileIndices | compile.go:191-204 | every key ends in ".go" and indexes an argument equal to it; an argument is a key exactly when it ends in ".go"; a key's index is its last occurrence |
| Compile.ParseCompileCommandArgs | compile.go:191-204 | the map built by the loop is `GoFileIndices(args)` |
| Compile.DstStatement | compile.go:83-100 | a block of exactly one statement, a call of `print` with one string literal and no ellipsis, whose value is the diagnostic text |
| Compile.HookPanics | compile.go:71-78 | the hook panics only on a declaration named `gopanic` |
| Compile.InstrumentedDecl | compile.go:70-81 | a visited `gopanic` body grows by one statement: the injected block first, then the old body in order; every other declaration, and one the hook panics on, is unchanged; names, parameters and body presence never change |
| Compile.WalkedDecls | compile.go:133-138 | one walk keeps the number of declarations and every declaration's header |
| Compile.Walked | compile.go:133-138 | any number of walks keeps the number of declarations |
| Compile.WalkedHeaders | compile.go:70-81 | walks change no header, so they neither create nor remove a declaration the hook panics on |
| Compile.WalkedAt | compile.go:133-138 | after `n > 0` walks a `gopanic` body is `n` injected blocks then the original statements; other declarations are unchanged |
| Compile.WalkedWithoutTarget | compile.go:70-71 | a file without `gopanic` is unchanged by any number of walks |
| Compile.OneWalkPrependsOnce | compile.go:76-78 | in a file where no declaration panics the hook, one walk turns the body of a `gopanic` declaration, such as `{ a(); b() }`, into `{ diagnostic; a(); b() }`, and leaves every declaration that is not a target unchanged |
| Compile.File.constructor | compile.go:171 | a freshly parsed file holds the parser's declarations |
| Compile.File.InstrumentFuncDeclPre | compile.go:70-81 | panics exactly when the hook panics on the declaration, changing nothing then; otherwise the declaration becomes its instrumented form and nothing else changes |
| Compile.File.InstrumentPre | compile.go:102-113 | answers "descend" exactly for a declaration that is not a function; a function goes to the hook |
| Compile.File.Walk | compile.go:102-113 | the walk of one file panics exactly when one of its declarations panics the hook; otherwise every declaration is replaced by its instrumented form |
| Compile.WalkFiles | compile.go:137-138 | walking a set of files panics exactly when one of them panics the hook; otherwise every file has been walked once more |
| Compile.Session.constructor | compile.go:21-25 | at process start both maps are nil (empty) and inverse |
| Compile.Session.AddFile | compile.go:165-189 | on a parse error the error is returned and nothing changes; otherwise the maps are allocated if nil, `parsedFiles[src]` is a fresh file with the parsed declarations, and `parsedFileSources` maps it back to `src`; the maps stay inverse when `src` is new and stop being inverse when it was already there |
| Compile.Session.WalkPackage | compile.go:137-138 | the package walk panics exactly when a file of the package panics the hook; otherwise every file has been walked once more |
| Compile.Session.AddAndWalk | compile.go:134-139 | one iteration adds the file as `AddFile` does (on success a fresh file under `src` in `parsedFiles`, mapped back to `src` in `parsedFileSources`, maps allocated; on a parse error neither map changes), keeps the maps inverse when `src` is new, then walks all files, panicking exactly when one of them panics the hook |
| Compile.Session.VisitMatching | compile.go:134-139 | one iteration of the loop keeps its progress invariant, the inverse of the maps when the matching paths were new, and adds at most one fresh file; a panic comes from a file present before the loop or from a matching file |
| Compile.Session.InstrumentPaths | compile.go:133-143 | the loop visits exactly the paths containing "panic.go", each once; each one that parses is in `parsedFiles` and a file added on iteration `i` of `n` holds its parse walked `n - i` times; without a panic no matching file that parses panics the hook; a panic comes from such a file or from one added before; the maps stay inverse when no matching path was there before |
| Compile.Session.Instrument | compile.go:127-163 | the arguments come back unchanged with no error; the same visit, walk-count, inverse and panic facts, over the `.go` arguments containing "panic.go" |
| Compile.Session.RunCompileCommand | compile.go:50-68 | never new arguments and never an error; with invalid flags or another package nothing changes and nothing panics; for the runtime package the matching `.go` arguments are visited exactly once each, every one that parses is in `parsedFiles` holding its parse walked `n - i` times, the maps stay inverse when those paths are new, and on fresh state it panics exactly when some matching file panics the hook |
| Compile.InstrumentPanicsIff | compile.go:132-138 | `instrument` panics exactly when some argument is a `.go` path containing "panic.go" that parses with a `gopanic` the hook panics on |
| Compile.ProgressAdd | compile.go:133-139 | one iteration of the loop keeps its progress invariant, and a package panic after it comes from an earlier or a matching file |
| Compile.ProgressDone | compile.go:133-143 | at the end of the loop every matching path has been visited, none that parses panics, and each file added on iteration `i` is its parse walked `n - i` times |
| Compile.WalkedSince | compile.go:133-139 | the file added on iteration `i` holds its parse walked `n - i` times |
| Tool.ParseCommandID | main.go:82-95 | error exactly for the empty token, with the source's message; otherwise a name that is "/" or free of separators, "/" for a token of separators only |
| Tool.BaseOfPath | main.go:89 | the base of `dir + file + slashes` is `file` |
| Tool.ExtOfPlainName | main.go:91 | a name without '.' has no extension |
| Tool.ExtOfDotted | main.go:91 | the extension of `name + "." + rest` is `"." + rest` when `rest` has no '.' |
| Tool.DottedNameWithoutExt | main.go:91-93 | removing the extension of `name + "." + rest` leaves `name` |
| Tool.ParseCommandIDOfPlainPath | main.go:88-94 | `dir + name + slashes` names `name`, e.g. `/x/y/compile` names `compile` |
| Tool.ParseCommandIDOfDottedPath | main.go:88-94 | `dir + name + "." + rest + slashes` names `name`, e.g. `compile.exe` names `compile` |
| Tool.ParseCommand | main.go:54-80 | position -1 gives no command and "unexpected arguments"; for an empty token the name error comes back with the position; a command comes back exactly when the token names `compile`, with no error, the arguments from the token on and flags read after it; any other name gives no command and no error |
| Tool.Dispatch | main.go:65-79 | a name error comes back as the error with no command; a command comes back exactly for the name `compile`, holding the arguments from the token on and the flags read after the token; otherwise no error |
| Tool.ForwardedArgs | main.go:21-24 | the whole command line when no token was found; otherwise the non-empty suffix from the token on |
| Tool.Execute | main.go:26-27 | the compile command on fresh state returns no new arguments and panics exactly when it instruments and a matching file panics the hook |
| Tool.Run | main.go:17-40 | crashes exactly on an empty command line or when the compile command panics; otherwise forwards exactly `args[pos:]` (all of `args` without a token), split into tool path and arguments |
| Tool.CrashCause | main.go:19-27 | on a valid position, the compile step panics exactly when the token names `compile`, the flags are valid for `runtime`, and some argument from the token on is a panic-causing `.go` file |

## Left out

- `forwardCommand`'s process spawn, standard streams and exit status, and `os.Exit` (main.go:41-48, 34) are operating-system I/O. The model only records which command line would be forwarded, and the crash at `args[0]`.
- All `fmt.Printf` and `log.Printf` diagnostics. Only the reads of compile.go:73 that can panic are kept.
- The parser (`decorator.ParseFile`) is the parameter `parse`. Comments and decorations are not modelled.
- `token.NewFileSet` and `fset` (compile.go:24, 170) are position bookkeeping inside the library.
- `dst.NewPackage` and `dstutil.Apply` are replaced by a walk over the top-level declarations of each file in `parsedFiles`. This follows the no-descent rule of `instrumentPre`. A `GenDecl` is opaque, since nothing below it can be a function declaration.
- The error result of `dst.NewPackage` is ignored by the code. Package naming is not modelled.
- The post-order hook `instrumentPost` and `instrumentFilePost` only print, and `compileFlagSet.String` only formats. None of them is modelled.
- `parseFlags` and `parseFlagsUntilFirstNonOptionArg` are not part of this model. They are the parameters `flagParse` and `flagScan`, and the scanner is required to answer -1 or an index of the arguments.
- `globalFlags` (main.go:15) is not modelled. It is filled by that scanner.
- `packageBuildDir` (compile.go:59) is computed but never used, so it is not modelled.
- The order in which `instrument` visits the map is left arbitrary. Each run picks one order, and the ghost result `order` records it.
- `filepath` is modelled for '/' only. Strings are sequences of characters, not bytes.
- The commented-out write-back and argument rewriting (compile.go:140-161) is not live code.
- The `Obj.Kind` read at compile.go:73 is assumed to succeed once a first parameter name exists.
- Compile.Session.Instrument: on a panic the contract only names the possible causes. It does not say which file was walked when the panic happened.
- Compile.Session.Instrument: the inverse property of the two maps is promised only when no matching path was in `parsedFiles` before the call. That always holds on a fresh process's state, as `main` uses it.
- Tool.ParseCommandID: concrete names are covered by the general lemmas `Tool.ParseCommandIDOfPlainPath` and `Tool.ParseCommandIDOfDottedPath`, not by literal instances.
