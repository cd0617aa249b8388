/** The interception of the toolchain's `compile` step (compile.go): the
    flags it needs, the classification of its `.go` arguments, the in-memory
    instrumentation of every function named `gopanic`, and the process-wide
    maps of parsed files that the instrumentation accumulates.

    What the live code does, and therefore what is modelled: the command
    always answers "no new arguments, no error"; files are parsed and their
    trees are changed in memory, but nothing is written back, so the
    instrumented trees never reach the real compiler. */
module Compile {
  import opened Wrappers
  import opened GoLib
  import opened Ast

  const GoFileSuffix := ".go"
  const PanicFileMarker := "panic.go"
  const RuntimePackage := "runtime"
  const TargetFunction := "gopanic"

  /** The literal printed by the injected statement. */
  const DiagnosticText := "Rajeev\n"

  /** The flags of the compile command the wrapper reads: `-p` (the package
      path) and `-o` (the output file). */
  datatype CompileFlagSet = CompileFlagSet(pkg: string, output: string) {
    /** Both required flags were given a non-empty value. */
    predicate IsValid()
      ensures IsValid() <==> |pkg| > 0 && |output| > 0
    {
      pkg != "" && output != ""
    }
  }

  /** The execution closure built by `makeCompileCommandExecutionFunc`: the
      parsed flags and the compile command's arguments, whose element 0 is
      the command token itself. */
  datatype CompileCommand = CompileCommand(flags: CompileFlagSet, args: seq<string>)

  /** `parseCompileCommand`: an empty argument list is an error; otherwise
      the flags are read from the arguments after the command token. The
      flag parser (`parseFlags`) is a parameter. */
  function ParseCompileCommand(flagParse: seq<string> -> CompileFlagSet, args: seq<string>)
    : (r: Result<CompileCommand, Error>)
    ensures r.Failure? <==> args == []
    ensures r.Failure? ==> r.error == Error("unexpected number of command arguments")
    ensures r.Success? ==> r.value.args == args && r.value.flags == flagParse(args[1..])
  {
    if |args| == 0 then Failure(Error("unexpected number of command arguments"))
    else Success(CompileCommand(flagParse(args[1..]), args))
  }

  /** The command instruments only a valid flag set for the runtime package. */
  predicate Instruments(cmd: CompileCommand)
  {
    cmd.flags.IsValid() && cmd.flags.pkg == RuntimePackage
  }

  // ---------------------------------------------------------------------
  // Argument classification

  predicate IsGoFile(src: string)
  {
    HasSuffix(src, GoFileSuffix)
  }

  /** The map `parseCompileCommandArgs` builds: every argument ending in
      ".go" is a key, mapped to the index of its LAST occurrence; no other
      string is a key. */
  function GoFileIndices(args: seq<string>): (m: map<string, nat>)
    ensures forall k | k in m :: IsGoFile(k) && m[k] < |args| && args[m[k]] == k
    ensures forall j | 0 <= j < |args| :: args[j] in m <==> IsGoFile(args[j])
    ensures forall k, j | k in m && m[k] < j < |args| :: args[j] != k
    decreases |args|
  {
    if args == [] then map[]
    else
      var prev := GoFileIndices(args[..|args| - 1]);
      var last := args[|args| - 1];
      var m := if IsGoFile(last) then prev[last := |args| - 1] else prev;
      GoFileIndicesStep(args, prev);
      m
  }

  /** The three facts `GoFileIndices` promises, for the map `m` of `args`. */
  ghost predicate IndexesGoFiles(args: seq<string>, m: map<string, nat>)
  {
    && (forall k | k in m :: IsGoFile(k) && m[k] < |args| && args[m[k]] == k)
    && (forall j | 0 <= j < |args| :: args[j] in m <==> IsGoFile(args[j]))
    && (forall k, j | k in m && m[k] < j < |args| :: args[j] != k)
  }

  /** Recording the last argument, if it is a `.go` file, extends the facts
      from all but the last argument to all of them. */
  lemma GoFileIndicesStep(args: seq<string>, prev: map<string, nat>)
    requires args != []
    requires IndexesGoFiles(args[..|args| - 1], prev)
    ensures IndexesGoFiles(args, if IsGoFile(args[|args| - 1]) then prev[args[|args| - 1] := |args| - 1] else prev)
  {
    var init := args[..|args| - 1];
    assert forall j | 0 <= j < |init| :: init[j] == args[j];
  }

  /** `parseCompileCommandArgs`: one pass over the arguments, each `.go`
      argument overwriting the index stored for it. */
  method ParseCompileCommandArgs(args: seq<string>) returns (goFiles: map<string, nat>)
    ensures goFiles == GoFileIndices(args)
  {
    goFiles := map[];
    for i := 0 to |args|
      invariant goFiles == GoFileIndices(args[..i])
    {
      assert args[..i + 1][..i] == args[..i];
      var src := args[i];
      if IsGoFile(src) {
        goFiles := goFiles[src := i];
      }
    }
    assert args[..|args|] == args;
  }

  /** The classified files `instrument` parses and walks. */
  ghost function PanicSources(args: seq<string>): set<string>
  {
    Matching(GoFileIndices(args).Keys)
  }

  /** The paths of `paths` that contain "panic.go". */
  ghost function Matching(paths: set<string>): set<string>
  {
    set s | s in paths && Contains(s, PanicFileMarker)
  }

  // ---------------------------------------------------------------------
  // The injected statement and the pre-order hook

  /** `getDstStatement`: a block holding the single statement
      `print(<DiagnosticText>)`. The source ignores its argument. */
  function DstStatement(): (s: Stmt)
    ensures s.BlockStmt? && |s.list| == 1 && IsPrintOfString(s.list[0])
    ensures s.list[0].x.args[0].value == DiagnosticText
  {
    BlockStmt([ExprStmt(CallExpr(Ident("print"), [BasicLit(STRING, DiagnosticText)], false))])
  }

  /** A function declaration whose name is exactly `gopanic`. */
  predicate IsTarget(d: Decl)
  {
    d.FuncDecl? && d.name == TargetFunction
  }

  /** The part of a declaration the hook never changes: its kind, and for a
      function its name, its parameters and whether it has a body. */
  datatype Header = FuncHeader(name: string, params: seq<Field>, hasBody: bool) | GenHeader

  function HeaderOf(d: Decl): Header
  {
    match d
    case FuncDecl(name, params, body) => FuncHeader(name, params, body.Some?)
    case GenDecl(_) => GenHeader
  }

  /** `instrumentFuncDeclPre` panics on a target: its diagnostic reads the
      first name of the first parameter, and it reads the statement list of
      the body, which a declaration without body does not have. */
  predicate HeaderPanics(h: Header)
  {
    h.FuncHeader? && h.name == TargetFunction && (|h.params| == 0 || |h.params[0].names| == 0 || !h.hasBody)
  }

  predicate HookPanics(d: Decl)
    ensures HookPanics(d) ==> IsTarget(d)
  {
    HeaderPanics(HeaderOf(d))
  }

  /** Some declaration of the file makes the hook panic. */
  predicate AnyHookPanics(ds: seq<Decl>)
  {
    exists i | 0 <= i < |ds| :: HookPanics(ds[i])
  }

  /** What visiting one top-level declaration does to it: a target gets the
      diagnostic prepended to its body; any other declaration is left as it
      is. On a declaration the hook panics on no walk completes, and the
      function leaves it as it is. */
  function InstrumentedDecl(d: Decl): (r: Decl)
    ensures HeaderOf(r) == HeaderOf(d)
    ensures IsTarget(d) && !HookPanics(d) ==>
      && |r.body.value| == |d.body.value| + 1
      && r.body.value[0] == DstStatement()
      && r.body.value[1..] == d.body.value
    ensures !IsTarget(d) || HookPanics(d) ==> r == d
  {
    if IsTarget(d) && !HookPanics(d) then
      var b := [DstStatement()] + d.body.value;
      assert b[1..] == d.body.value;
      d.(body := Some(b))
    else d
  }

  /** One walk over a file's declarations. */
  ghost function WalkedDecls(ds: seq<Decl>): (r: seq<Decl>)
    ensures |r| == |ds|
    ensures forall i | 0 <= i < |ds| :: HeaderOf(r[i]) == HeaderOf(ds[i])
  {
    seq(|ds|, i requires 0 <= i < |ds| => InstrumentedDecl(ds[i]))
  }

  /** The declarations after `n` walks. */
  ghost function Walked(ds: seq<Decl>, n: nat): (r: seq<Decl>)
    ensures |r| == |ds|
  {
    if n == 0 then ds else WalkedDecls(Walked(ds, n - 1))
  }

  /** A walk changes no header, so it neither adds nor removes a target the
      hook panics on. */
  lemma {:induction false} WalkedHeaders(ds: seq<Decl>, n: nat)
    ensures forall i | 0 <= i < |ds| :: HeaderOf(Walked(ds, n)[i]) == HeaderOf(ds[i])
    ensures AnyHookPanics(Walked(ds, n)) == AnyHookPanics(ds)
  {
    if n > 0 {
      WalkedHeaders(ds, n - 1);
    }
    var r := Walked(ds, n);
    assert forall i | 0 <= i < |ds| :: HookPanics(r[i]) == HookPanics(ds[i]);
  }

  /** `n` copies of statement `s`. */
  function Repeat(s: Stmt, n: nat): (r: seq<Stmt>)
  {
    if n == 0 then [] else [s] + Repeat(s, n - 1)
  }

  /** After `n > 0` walks a target's body starts with `n` injected
      statements followed by its original statements in their order; every
      other declaration is unchanged. */
  lemma {:induction false} WalkedAt(ds: seq<Decl>, n: nat, i: nat)
    requires n > 0 ==> !AnyHookPanics(ds)
    requires i < |ds|
    ensures Walked(ds, n)[i] ==
      if IsTarget(ds[i]) && n > 0 then ds[i].(body := Some(Repeat(DstStatement(), n) + ds[i].body.value))
      else ds[i]
  {
    if n > 0 {
      WalkedAt(ds, n - 1, i);
      var prev := Walked(ds, n - 1)[i];
      assert Walked(ds, n)[i] == InstrumentedDecl(prev);
      if IsTarget(ds[i]) {
        var b := ds[i].body.value;
        var r := InstrumentedDecl(prev).body.value;
        assert r == [r[0]] + r[1..];
        assert prev.body.value == Repeat(DstStatement(), n - 1) + b;
        assert Repeat(DstStatement(), n) == [DstStatement()] + Repeat(DstStatement(), n - 1);
        assert r == Repeat(DstStatement(), n) + b;
      }
    }
  }

  /** A file without a target comes out of any number of walks unchanged. */
  lemma {:induction false} WalkedWithoutTarget(ds: seq<Decl>, n: nat)
    requires forall i | 0 <= i < |ds| :: !IsTarget(ds[i])
    ensures Walked(ds, n) == ds
  {
    assert !AnyHookPanics(ds);
    forall i | 0 <= i < |ds| ensures Walked(ds, n)[i] == ds[i] {
      WalkedAt(ds, n, i);
    }
  }

  /** One walk over a file none of whose declarations panics the hook: the
      body of a target `func gopanic(e any) { a(); b() }` becomes
      `{ diagnostic; a(); b() }`, and every declaration that is not a target
      is unchanged (other targets are instrumented the same way). */
  lemma {:induction false} OneWalkPrependsOnce(ds: seq<Decl>, i: nat)
    requires !AnyHookPanics(ds)
    requires i < |ds| && IsTarget(ds[i])
    ensures Walked(ds, 1)[i] == ds[i].(body := Some([DstStatement()] + ds[i].body.value))
    ensures forall j | 0 <= j < |ds| && j != i && !IsTarget(ds[j]) :: Walked(ds, 1)[j] == ds[j]
  {
    WalkedAt(ds, 1, i);
    forall j | 0 <= j < |ds| && j != i && !IsTarget(ds[j]) ensures Walked(ds, 1)[j] == ds[j] {
      WalkedAt(ds, 1, j);
    }
  }

  // ---------------------------------------------------------------------
  // Parsed files

  /** A parsed file (`*dst.File`). It is a reference: the maps of the
      session key and hold it by identity, and the hook changes its
      declarations in place. The ghost constants record the declarations
      the parser produced and how many package walks had happened when the
      file was added. */
  class File {
    var decls: seq<Decl>
    ghost const base: seq<Decl>
    ghost const addedAt: nat

    /** After `rounds` package walks in all, the declarations are the parsed
        ones walked `rounds - addedAt` times; a file that has been walked
        holds no target the hook panics on. */
    ghost predicate Valid(rounds: nat)
      reads this
    {
      && addedAt <= rounds
      && (rounds > addedAt ==> !AnyHookPanics(base))
      && decls == Walked(base, rounds - addedAt)
    }

    /** A file fresh from the parser, added after `rounds` walks. */
    constructor (decls: seq<Decl>, ghost rounds: nat)
      ensures this.decls == decls && base == decls && addedAt == rounds
      ensures Valid(rounds)
    {
      this.decls := decls;
      base, addedAt := decls, rounds;
    }

    /** `instrumentFuncDeclPre` on the function declaration at index `i`. */
    method InstrumentFuncDeclPre(i: nat) returns (panicked: bool)
      requires i < |decls| && decls[i].FuncDecl?
      modifies this`decls
      ensures panicked <==> HookPanics(old(decls[i]))
      ensures panicked ==> decls == old(decls)
      ensures !panicked ==> decls == old(decls)[i := InstrumentedDecl(old(decls[i]))]
    {
      var fd := decls[i];
      panicked := false;
      if fd.name == TargetFunction {
        // The diagnostic printed first reads `Params.List[0].Names[0]`.
        if |fd.params| == 0 || |fd.params[0].names| == 0 {
          return true;
        }
        // `Body.List` of a declaration without a body.
        if fd.body.None? {
          return true;
        }
        var stmt := DstStatement();
        decls := decls[i := fd.(body := Some([stmt] + fd.body.value))];
      }
    }

    /** `instrumentPre` on the declaration at index `i`: a function
      declaration goes to the hook and is not descended into; any other
      node is descended into. */
    method InstrumentPre(i: nat) returns (descend: bool, panicked: bool)
      requires i < |decls|
      modifies this`decls
      ensures descend <==> !old(decls[i]).FuncDecl?
      ensures panicked <==> HookPanics(old(decls[i]))
      ensures !panicked ==> decls == old(decls)[i := InstrumentedDecl(old(decls[i]))]
    {
      if decls[i].FuncDecl? {
        panicked := InstrumentFuncDeclPre(i);
        descend := false;
      } else {
        descend, panicked := true, false;
      }
    }

    /** The part of `dstutil.Apply(root, instrumentPre, ...)` below this
      file: the file node itself is descended into (`instrumentPre` answers
      true), then each top-level declaration is visited in order. Descending
      below a declaration reaches no function declaration, so the answer of
      the hook changes nothing further. A panic stops the walk. */
    method Walk(ghost rounds: nat) returns (panicked: bool)
      requires Valid(rounds)
      modifies this`decls
      ensures panicked <==> AnyHookPanics(base)
      ensures !panicked ==> decls == WalkedDecls(old(decls)) && Valid(rounds + 1)
    {
      WalkedHeaders(base, rounds - addedAt);
      var i := 0;
      while i < |decls|
        invariant 0 <= i <= |decls| == |old(decls)|
        invariant forall k | 0 <= k < i :: !HookPanics(old(decls)[k]) && decls[k] == InstrumentedDecl(old(decls)[k])
        invariant forall k | i <= k < |decls| :: decls[k] == old(decls)[k]
      {
        var descend;
        descend, panicked := InstrumentPre(i);
        if panicked {
          return;
        }
        i := i + 1;
      }
      panicked := false;
    }
  }

  /** Walk every file of `files` once, in an unspecified order, after
      `rounds` walks; a panic stops the walk. */
  method WalkFiles(files: set<File>, ghost rounds: nat) returns (panicked: bool)
    requires forall f | f in files :: f.Valid(rounds)
    modifies files
    ensures panicked <==> exists f | f in files :: AnyHookPanics(f.base)
    ensures !panicked ==> forall f | f in files :: f.Valid(rounds + 1)
  {
    var todo := files;
    while todo != {}
      invariant todo <= files
      invariant forall f | f in files && f !in todo :: f.Valid(rounds + 1)
      invariant forall f | f in todo :: f.Valid(rounds)
      decreases todo
    {
      var f :| f in todo;
      panicked := f.Walk(rounds);
      if panicked {
        return;
      }
      todo := todo - {f};
    }
    panicked := false;
  }

  /** The process-wide state of compile.go: `parsedFiles` (path to file) and
      `parsedFileSources` (file to path), both nil until the first file is
      added. The ghost `rounds` counts the package walks so far. */
  class Session {
    var parsedFiles: map<string, File>
    var parsedFileSources: map<File, string>
    /** The maps are no longer nil. */
    var initialised: bool
    ghost var rounds: nat

    /** The invariant of the two maps: nil maps are empty; every path's file
        maps back to the path; every recorded file maps to a known path. */
    ghost predicate MapsValid()
      reads this
    {
      && (!initialised ==> parsedFiles == map[] && parsedFileSources == map[])
      && (forall s | s in parsedFiles :: parsedFiles[s] in parsedFileSources && parsedFileSources[parsedFiles[s]] == s)
      && (forall f | f in parsedFileSources :: parsedFileSources[f] in parsedFiles)
    }

    ghost predicate Valid()
      reads this, parsedFiles.Values
    {
      MapsValid() && forall f | f in parsedFiles.Values :: f.Valid(rounds)
    }

    /** The two maps are exact inverses of each other. */
    ghost predicate Inverse()
      reads this
    {
      forall f | f in parsedFileSources :: parsedFileSources[f] in parsedFiles && parsedFiles[parsedFileSources[f]] == f
    }

    /** The state at process start: both maps nil. */
    constructor ()
      ensures Valid() && Inverse()
      ensures parsedFiles == map[] && parsedFileSources == map[] && !initialised && rounds == 0
    {
      parsedFiles, parsedFileSources, initialised := map[], map[], false;
      rounds := 0;
    }

    /** `AddFile`: parse `src` (the parser is a parameter). On a parse error
      nothing changes; otherwise a fresh file is recorded in both maps,
      which are first allocated if still nil. A path added a second time
      leaves its previous file behind in `parsedFileSources`. */
    method AddFile(src: string, parse: string -> Result<seq<Decl>, Error>) returns (err: Option<Error>)
      requires Valid()
      modifies this`parsedFiles, this`parsedFileSources, this`initialised
      ensures Valid()
      ensures parse(src).Failure? ==>
        && err == Some(parse(src).error)
        && parsedFiles == old(parsedFiles) && parsedFileSources == old(parsedFileSources)
        && initialised == old(initialised)
      ensures parse(src).Success? ==>
        && err == None && initialised
        && src in parsedFiles && fresh(parsedFiles[src])
        && parsedFiles == old(parsedFiles)[src := parsedFiles[src]]
        && parsedFileSources == old(parsedFileSources)[parsedFiles[src] := src]
        && parsedFiles[src].decls == parsedFiles[src].base == parse(src).value
        && parsedFiles[src].addedAt == rounds
      ensures old(Inverse()) && src !in old(parsedFiles) ==> Inverse()
      ensures parse(src).Success? && src in old(parsedFiles) ==> !Inverse()
    {
      var r := parse(src);
      if r.Failure? {
        return Some(r.error);
      }
      var file := new File(r.value, rounds);
      if !initialised {
        parsedFiles, parsedFileSources, initialised := map[], map[], true;
      }
      parsedFiles := parsedFiles[src := file];
      parsedFileSources := parsedFileSources[file := src];
      err := None;
      if src in old(parsedFiles) {
        var stale := old(parsedFiles)[src];
        assert stale in parsedFileSources && parsedFiles[parsedFileSources[stale]] != stale;
      }
    }

    /** Some file of the package holds a target the hook panics on. */
    ghost predicate PackagePanics()
      reads this
    {
      exists s | s in parsedFiles :: AnyHookPanics(parsedFiles[s].base)
    }

    /** `dst.NewPackage(fset, parsedFiles, ...)` walked by `dstutil.Apply`
      with `instrumentPre`: the package node is descended into, then every
      file of `parsedFiles` is walked once. A panic stops the walk. */
    method WalkPackage() returns (panicked: bool)
      requires Valid()
      modifies this`rounds, parsedFiles.Values
      ensures panicked <==> PackagePanics()
      ensures !panicked ==> Valid() && rounds == old(rounds) + 1
    {
      panicked := WalkFiles(parsedFiles.Values, rounds);
      if panicked {
        ghost var f :| f in parsedFiles.Values && AnyHookPanics(f.base);
        ghost var s :| s in parsedFiles && parsedFiles[s] == f;
        return;
      }
      forall s | s in parsedFiles ensures !AnyHookPanics(parsedFiles[s].base) {
        assert parsedFiles[s] in parsedFiles.Values;
      }
      rounds := rounds + 1;
    }

    /** One iteration of the loop of `instrument` for a matching path: add
      the file (its error is ignored) and walk the whole package. */
    method AddAndWalk(src: string, parse: string -> Result<seq<Decl>, Error>) returns (panicked: bool)
      requires Valid()
      modifies this, parsedFiles.Values
      ensures Added(old(parsedFiles), parsedFiles, src, parse, old(rounds))
      ensures parse(src).Success? ==>
        && fresh(parsedFiles[src]) && initialised
        && parsedFileSources == old(parsedFileSources)[parsedFiles[src] := src]
      ensures parse(src).Failure? ==>
        parsedFileSources == old(parsedFileSources) && initialised == old(initialised)
      ensures old(Inverse()) && src !in old(parsedFiles) ==> Inverse()
      ensures panicked <==> PackagePanics()
      ensures !panicked ==> Valid() && rounds == old(rounds) + 1
    {
      var _ := AddFile(src, parse);
      panicked := WalkPackage();
    }

    /** `instrument`: for every classified file whose path contains
      "panic.go", in the map's (unspecified) order, add the file (its parse
      error is ignored) and walk the whole package accumulated so far. A
      file added on iteration `i` of `n` is therefore walked `n - i` times.
      The arguments come back unchanged. The ghost `order` is the order the
      loop took. */
    method Instrument(args: seq<string>, parse: string -> Result<seq<Decl>, Error>)
      returns (newArgs: seq<string>, err: Option<Error>, panicked: bool, ghost order: seq<string>)
      requires Valid()
      modifies this, parsedFiles.Values
      ensures !panicked ==> newArgs == args && err == None
      ensures panicked ==>
        || (exists s | s in old(parsedFiles) :: AnyHookPanics(old(parsedFiles)[s].base))
        || InstrumentPanics(args, parse)
      ensures !panicked ==> !InstrumentPanics(args, parse)
      ensures !panicked ==> Valid() && rounds == old(rounds) + |order|
      ensures !panicked ==> Progress(PanicSources(args), parse, {}, order, parsedFiles, old(parsedFiles), old(rounds))
      ensures !panicked && old(Inverse()) && (forall s | s in PanicSources(args) :: s !in old(parsedFiles)) ==> Inverse()
      ensures !panicked ==> forall s :: s in order <==> s in PanicSources(args)
      ensures !panicked ==> WalkedSinceAdded(order, parse, parsedFiles)
    {
      var argIndices := ParseCompileCommandArgs(args);
      panicked, order := InstrumentPaths(argIndices.Keys, parse);
      newArgs, err := args, None;
    }

    /** The loop of `instrument` over the paths `paths`. */
    method InstrumentPaths(paths: set<string>, parse: string -> Result<seq<Decl>, Error>)
      returns (panicked: bool, ghost order: seq<string>)
      requires Valid()
      modifies this, parsedFiles.Values
      ensures panicked ==>
        || (exists s | s in old(parsedFiles) :: AnyHookPanics(old(parsedFiles)[s].base))
        || SourcesPanic(Matching(paths), parse)
      ensures !panicked ==> !SourcesPanic(Matching(paths), parse)
      ensures !panicked ==> Valid() && rounds == old(rounds) + |order|
      ensures !panicked ==> Progress(Matching(paths), parse, {}, order, parsedFiles, old(parsedFiles), old(rounds))
      ensures !panicked && old(Inverse()) && (forall s | s in Matching(paths) :: s !in old(parsedFiles)) ==> Inverse()
      ensures !panicked ==> forall s :: s in order <==> s in Matching(paths)
      ensures !panicked ==> WalkedSinceAdded(order, parse, parsedFiles)
    {
      var todo := paths;
      order := [];
      panicked := false;
      ghost var sources := Matching(paths);
      ghost var added: set<File> := {};
      ghost var apart := old(Inverse()) && forall s | s in sources :: s !in old(parsedFiles);
      while todo != {}
        invariant todo <= paths
        invariant Valid() && rounds == old(rounds) + |order|
        invariant Progress(sources, parse, todo, order, parsedFiles, old(parsedFiles), old(rounds))
        invariant parsedFiles.Values <= old(parsedFiles).Values + added
        invariant forall f | f in added :: fresh(f)
        invariant apart ==> Inverse()
        decreases todo
      {
        var src :| src in todo;
        if Contains(src, PanicFileMarker) {
          ghost var file;
          panicked, file := VisitMatching(src, parse, sources, todo, order, old(parsedFiles), old(rounds), apart);
          if panicked {
            return;
          }
          added := added + file;
          order := order + [src];
        }
        todo := todo - {src};
      }
      ProgressDone(sources, parse, order, parsedFiles, old(parsedFiles), old(rounds), rounds);
    }

    /** One iteration of the loop of `instrument` on the matching path `src`,
      with the loop's progress so far: `AddAndWalk`, seen against the
      progress invariant. `file` is the file added, if any. */
    method VisitMatching(src: string, parse: string -> Result<seq<Decl>, Error>, ghost sources: set<string>,
                         ghost todo: set<string>, ghost order: seq<string>, ghost start: map<string, File>,
                         ghost startRounds: nat, ghost apart: bool)
      returns (panicked: bool, ghost file: set<File>)
      requires Valid() && rounds == startRounds + |order|
      requires Progress(sources, parse, todo, order, parsedFiles, start, startRounds)
      requires src in todo && src in sources
      requires apart ==> Inverse() && src !in start
      modifies this, parsedFiles.Values
      ensures panicked ==>
        || (exists s | s in start :: AnyHookPanics(start[s].base))
        || SourcesPanic(sources, parse)
      ensures !panicked ==> Valid() && rounds == startRounds + |order| + 1
      ensures !panicked ==> Progress(sources, parse, todo - {src}, order + [src], parsedFiles, start, startRounds)
      ensures !panicked && apart ==> Inverse()
      ensures parsedFiles.Values <= old(parsedFiles).Values + file
      ensures forall f | f in file :: fresh(f)
    {
      ghost var before := parsedFiles;
      if apart {
        NotYetAdded(sources, parse, todo, order, parsedFiles, start, startRounds, src);
      }
      panicked := AddAndWalk(src, parse);
      ProgressAdd(sources, parse, todo, order, before, start, startRounds, src, parsedFiles);
      file := {};
      if parse(src).Success? {
        ValuesUpdate(before, src, parsedFiles[src]);
        file := {parsedFiles[src]};
      }
    }

    /** The execution closure of the compile command: nothing to do unless
      the flags are valid; instrumentation only for the runtime package;
      in every case no new arguments and no error. The ghost `order` is the
      order in which `instrument` visited its matching files (none when it
      does not run). */
    method RunCompileCommand(cmd: CompileCommand, parse: string -> Result<seq<Decl>, Error>)
      returns (newArgs: Option<seq<string>>, err: Option<Error>, panicked: bool, ghost order: seq<string>)
      requires Valid()
      modifies this, parsedFiles.Values
      ensures newArgs == None && err == None
      ensures !panicked ==> Valid()
      ensures !Instruments(cmd) ==> !panicked && order == [] && unchanged(this) && unchanged(parsedFiles.Values)
      ensures Instruments(cmd) && !panicked ==> !InstrumentPanics(cmd.args, parse)
      ensures Instruments(cmd) && old(parsedFiles) == map[] ==> (panicked <==> InstrumentPanics(cmd.args, parse))
      ensures Instruments(cmd) && !panicked ==>
        && rounds == old(rounds) + |order|
        && Progress(PanicSources(cmd.args), parse, {}, order, parsedFiles, old(parsedFiles), old(rounds))
        && (forall s :: s in order <==> s in PanicSources(cmd.args))
        && WalkedSinceAdded(order, parse, parsedFiles)
      ensures Instruments(cmd) && !panicked && old(Inverse()) && (forall s | s in PanicSources(cmd.args) :: s !in old(parsedFiles)) ==> Inverse()
    {
      newArgs, err, panicked, order := None, None, false, [];
      if !cmd.flags.IsValid() {
        return;
      }
      var pkgPath := cmd.flags.pkg;
      if pkgPath == RuntimePackage {
        var instrumentedArgs, instrumentErr;
        instrumentedArgs, instrumentErr, panicked, order := Instrument(cmd.args, parse);
      }
    }
  }

  /** Some file `instrument` adds parses and holds a target the hook panics
      on. */
  ghost predicate InstrumentPanics(args: seq<string>, parse: string -> Result<seq<Decl>, Error>)
  {
    SourcesPanic(PanicSources(args), parse)
  }

  /** One command argument that makes `instrument` panic: a `.go` file whose
      path holds the panic marker and whose declarations hold a target the
      hook panics on. */
  ghost predicate PanicArgument(src: string, parse: string -> Result<seq<Decl>, Error>)
  {
    IsGoFile(src) && Contains(src, PanicFileMarker) && parse(src).Success? && AnyHookPanics(parse(src).value)
  }

  /** `instrument` panics on a command line exactly when one of its
      arguments is a panic argument, whatever its position or repetition. */
  lemma {:induction false} InstrumentPanicsIff(args: seq<string>, parse: string -> Result<seq<Decl>, Error>)
    ensures InstrumentPanics(args, parse) <==> exists i | 0 <= i < |args| :: PanicArgument(args[i], parse)
  {
    var m := GoFileIndices(args);
    if InstrumentPanics(args, parse) {
      var s :| s in PanicSources(args) && parse(s).Success? && AnyHookPanics(parse(s).value);
      assert s in m;
      assert PanicArgument(args[m[s]], parse);
    }
    if i :| 0 <= i < |args| && PanicArgument(args[i], parse) {
      assert args[i] in m;
      assert args[i] in PanicSources(args);
    }
  }

  /** Some path of `sources` parses, and its declarations hold a target the
      hook panics on. */
  ghost predicate SourcesPanic(sources: set<string>, parse: string -> Result<seq<Decl>, Error>)
  {
    exists s | s in sources :: parse(s).Success? && AnyHookPanics(parse(s).value)
  }

  /** The paths the loop of `instrument` parsed successfully. */
  ghost function AddedOk(order: seq<string>, parse: string -> Result<seq<Decl>, Error>): set<string>
  {
    set s | s in order && parse(s).Success?
  }

  /** `after` is `before` once `AddFile(src)` has run with a parser that
      answers `parse`, after `rounds` walks. */
  ghost predicate Added(before: map<string, File>, after: map<string, File>, src: string,
                        parse: string -> Result<seq<Decl>, Error>, rounds: nat)
  {
    if parse(src).Success? then
      && src in after && after == before[src := after[src]]
      && after[src].base == parse(src).value && after[src].addedAt == rounds
    else after == before
  }

  /** Where the loop of `instrument` stands: `order` lists, without
      repetition, the matching paths already taken out of `todo` (every
      matching path not in `todo` is one of them); each one that parsed
      sits in `files` with the parser's declarations, added on its
      iteration; the other paths of `files` are the ones of `start`,
      holding the same files. */
  ghost predicate Progress(sources: set<string>, parse: string -> Result<seq<Decl>, Error>, todo: set<string>,
                           order: seq<string>, files: map<string, File>, start: map<string, File>, startRounds: nat)
  {
    && (forall i | 0 <= i < |order| :: order[i] in sources && order[i] !in todo)
    && (forall s | s in sources && s !in todo :: s in order)
    && (forall i, j | 0 <= i < j < |order| :: order[i] != order[j])
    && (forall s | s in files :: s in start || s in AddedOk(order, parse))
    && (forall i | 0 <= i < |order| && parse(order[i]).Success? ::
          && order[i] in files
          && files[order[i]].base == parse(order[i]).value
          && files[order[i]].addedAt == startRounds + i)
    && (forall s | s in start && s !in AddedOk(order, parse) :: s in files && files[s] == start[s])
  }

  /** One iteration on a matching path keeps `Progress`; and a file of the
      package after it that panics the hook is a file of `start` or a
      matching file as parsed. */
  lemma ProgressAdd(sources: set<string>, parse: string -> Result<seq<Decl>, Error>, todo: set<string>,
                    order: seq<string>, files: map<string, File>, start: map<string, File>, startRounds: nat,
                    src: string, after: map<string, File>)
    requires Progress(sources, parse, todo, order, files, start, startRounds)
    requires src in todo && src in sources
    requires Added(files, after, src, parse, startRounds + |order|)
    ensures Progress(sources, parse, todo - {src}, order + [src], after, start, startRounds)
    ensures (exists s | s in after :: AnyHookPanics(after[s].base)) ==>
      || (exists s | s in start :: AnyHookPanics(start[s].base))
      || SourcesPanic(sources, parse)
  {
    var order' := order + [src];
    assert AddedOk(order', parse) == AddedOk(order, parse) + (if parse(src).Success? then {src} else {});
    forall i | 0 <= i < |order'| && parse(order'[i]).Success?
      ensures order'[i] in after && after[order'[i]].base == parse(order'[i]).value
      ensures after[order'[i]].addedAt == startRounds + i
    {
      if i < |order| {
        assert order'[i] == order[i] != src;
      }
    }
    if s :| s in after && AnyHookPanics(after[s].base) {
      if s !in AddedOk(order', parse) {
        assert s in start && after[s] == start[s];
      } else {
        var i :| 0 <= i < |order'| && order'[i] == s;
        assert s in sources && parse(s).Success? && after[s].base == parse(s).value;
      }
    }
  }

  /** A path still to do that was not in the maps at the start is not in
      them now. */
  lemma NotYetAdded(sources: set<string>, parse: string -> Result<seq<Decl>, Error>, todo: set<string>,
                    order: seq<string>, files: map<string, File>, start: map<string, File>, startRounds: nat,
                    src: string)
    requires Progress(sources, parse, todo, order, files, start, startRounds)
    requires src in todo && src !in start
    ensures src !in files
  {
    forall i | 0 <= i < |order| ensures order[i] != src {
      assert order[i] !in todo;
    }
  }

  /** Each path of `order` that parses holds, in `files`, its parsed
      declarations walked once for every iteration from its own on. */
  ghost predicate WalkedSinceAdded(order: seq<string>, parse: string -> Result<seq<Decl>, Error>, files: map<string, File>)
    reads files.Values
  {
    forall i | 0 <= i < |order| && parse(order[i]).Success? ::
      order[i] in files && files[order[i]].decls == Walked(parse(order[i]).value, |order| - i)
  }

  /** At the end of the loop every matching path is in `order`; a file
      added on iteration `i` of `|order|` has been walked `|order| - i`
      times, which also means that no matching file that parses panics the
      hook. */
  lemma ProgressDone(sources: set<string>, parse: string -> Result<seq<Decl>, Error>, order: seq<string>,
                     files: map<string, File>, start: map<string, File>, startRounds: nat, rounds: nat)
    requires Progress(sources, parse, {}, order, files, start, startRounds)
    requires rounds == startRounds + |order|
    requires forall s | s in files :: files[s].Valid(rounds)
    ensures forall s :: s in order <==> s in sources
    ensures !SourcesPanic(sources, parse)
    ensures WalkedSinceAdded(order, parse, files)
  {
    forall s | s in sources && parse(s).Success?
      ensures !AnyHookPanics(parse(s).value)
    {
      var i :| 0 <= i < |order| && order[i] == s;
      assert files[s].Valid(rounds);
    }
    forall i | 0 <= i < |order| && parse(order[i]).Success?
      ensures files[order[i]].decls == Walked(parse(order[i]).value, |order| - i)
    {
      WalkedSince(sources, parse, order, files, start, startRounds, rounds, i);
    }
  }

  /** The file added on iteration `i` has been walked `|order| - i` times. */
  lemma WalkedSince(sources: set<string>, parse: string -> Result<seq<Decl>, Error>, order: seq<string>,
                    files: map<string, File>, start: map<string, File>, startRounds: nat, rounds: nat, i: nat)
    requires Progress(sources, parse, {}, order, files, start, startRounds)
    requires rounds == startRounds + |order|
    requires forall s | s in files :: files[s].Valid(rounds)
    requires i < |order| && parse(order[i]).Success?
    ensures files[order[i]].decls == Walked(parse(order[i]).value, |order| - i)
  {
    var f := files[order[i]];
    assert f.Valid(rounds);
    ValidAfter(f, parse(order[i]).value, rounds, |order| - i);
  }

  /** A valid file parsed into `ds` and added `walks` walks ago holds `ds`
      walked `walks` times. */
  lemma ValidAfter(f: File, ds: seq<Decl>, rounds: nat, walks: nat)
    requires f.Valid(rounds) && f.base == ds && f.addedAt + walks == rounds
    ensures f.decls == Walked(ds, walks)
  {
  }

  /** Updating a map adds at most the new value to its values. */
  lemma ValuesUpdate<K, V>(m: map<K, V>, k: K, v: V)
    ensures m[k := v].Values <= m.Values + {v}
  {
  }
}
