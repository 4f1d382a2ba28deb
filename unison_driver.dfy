/**
 * The pass that hands a machine function to the external Unison toolchain:
 * it decides whether to run, picks the target, runs the nine stages
 * (import, linearize, extend, augment, normalize, model, presolver,
 * solver, export) as external commands over temporary files, stops at the
 * first one that fails, and finally replaces the function's blocks with
 * the ones the toolchain produced.
 *
 * The host is a set of oracles: where a program is found, which path a new
 * temporary file gets, whether a command succeeds, and which blocks a MIR
 * file holds. The driver records the commands it runs and the files it
 * removes.
 */
module UnisonDriver {

  import opened Wrappers
  import opened Strings
  import opened MachineIR

  /** The whitespace-separated words of `s`, as repeated `>>` extractions read them. */
  function Tokens(s: string): (r: seq<string>)
    ensures s != [] && !IsSpace(s[|s| - 1]) ==> r != []
  {
    if s == [] then []
    else
      var init, c := Tokens(s[..|s| - 1]), s[|s| - 1];
      if IsSpace(c) then init
      else if |s| >= 2 && !IsSpace(s[|s| - 2]) then init[..|init| - 1] + [init[|init| - 1] + [c]]
      else init + [[c]]
  }

  /** `insertFlags`: the words of the flag string after the arguments so far, then "--lint" when asked for. */
  function FlagsInserted(argv: seq<string>, flags: string, lint: bool): seq<string> {
    argv + Tokens(flags) + (if lint then ["--lint"] else [])
  }

  /** `insertFlags`: reads word after word and appends each one. */
  method InsertFlags(argv: seq<string>, flags: string, lint: bool) returns (argv1: seq<string>)
    ensures argv1 == FlagsInserted(argv, flags, lint)
  {
    argv1 := argv;
    var flag := "";
    for i := 0 to |flags|
      invariant flag == [] ==> argv1 == argv + Tokens(flags[..i])
      invariant flag != [] ==> argv1 + [flag] == argv + Tokens(flags[..i])
      invariant flag != [] <==> i > 0 && !IsSpace(flags[i - 1])
    {
      assert flags[..i + 1] == flags[..i] + [flags[i]];
      if IsSpace(flags[i]) {
        TokensSpace(flags[..i], flags[i]);
        if flag != [] {
          argv1 := argv1 + [flag];
          flag := "";
        }
      } else if flag != [] {
        ExtendWord(argv, argv1, flag, flags[..i], flags[i]);
        flag := flag + [flags[i]];
      } else {
        TokensStart(flags[..i], flags[i]);
        flag := [flags[i]];
      }
    }
    assert flags[..|flags|] == flags;
    if flag != [] {
      argv1 := argv1 + [flag];
    }
    if lint {
      argv1 := argv1 + ["--lint"];
    }
  }

  lemma TokensSpace(s: string, c: char)
    requires IsSpace(c)
    ensures Tokens(s + [c]) == Tokens(s)
  {
    assert (s + [c])[..|s|] == s;
  }

  lemma TokensExtend(s: string, c: char)
    requires !IsSpace(c) && s != [] && !IsSpace(s[|s| - 1])
    ensures Tokens(s) != []
    ensures Tokens(s + [c]) == Tokens(s)[..|Tokens(s)| - 1] + [Tokens(s)[|Tokens(s)| - 1] + [c]]
  {
    assert (s + [c])[..|s|] == s;
  }

  /** A word character after a word character extends the pending word. */
  lemma ExtendWord(argv: seq<string>, argv1: seq<string>, flag: string, s: string, c: char)
    requires !IsSpace(c) && s != [] && !IsSpace(s[|s| - 1])
    requires argv1 + [flag] == argv + Tokens(s)
    ensures argv1 + [flag + [c]] == argv + Tokens(s + [c])
  {
    var t := Tokens(s);
    TokensExtend(s, c);
    LastOfJoin(argv1, flag, argv, t);
    SnocAssoc(argv, t[..|t| - 1], flag + [c]);
  }

  lemma SnocAssoc<T>(a: seq<T>, b: seq<T>, x: T)
    ensures a + (b + [x]) == (a + b) + [x]
  {
  }

  /** Splitting the last element off a concatenation whose right part is non-empty. */
  lemma LastOfJoin<T>(a: seq<T>, x: T, b: seq<T>, t: seq<T>)
    requires a + [x] == b + t && t != []
    ensures a == b + t[..|t| - 1] && x == t[|t| - 1]
  {
    var l := a + [x];
    assert l[..|l| - 1] == a;
    assert (b + t)[..|b + t| - 1] == b + t[..|t| - 1];
    assert l[|l| - 1] == x && (b + t)[|b + t| - 1] == t[|t| - 1];
  }

  lemma TokensStart(s: string, c: char)
    requires !IsSpace(c) && (s == [] || IsSpace(s[|s| - 1]))
    ensures Tokens(s + [c]) == Tokens(s) + [[c]]
  {
    assert (s + [c])[..|s|] == s;
  }

  /** `s` with its white space removed. */
  function NonSpace(s: string): string {
    if s == [] then [] else NonSpace(s[..|s| - 1]) + (if IsSpace(s[|s| - 1]) then [] else [s[|s| - 1]])
  }

  predicate Word(w: string) {
    w != [] && forall i :: 0 <= i < |w| ==> !IsSpace(w[i])
  }

  /** The words are non-empty and hold no white space. */
  lemma {:induction false} TokensAreWords(s: string)
    ensures forall k :: 0 <= k < |Tokens(s)| ==> Word(Tokens(s)[k])
    decreases |s|
  {
    if s != [] {
      var init, c := Tokens(s[..|s| - 1]), s[|s| - 1];
      TokensAreWords(s[..|s| - 1]);
      if !IsSpace(c) && |s| >= 2 && !IsSpace(s[|s| - 2]) {
        var last := init[|init| - 1];
        assert Word(last + [c]);
      }
    }
  }

  /** Together the words are the flag string's characters other than white space, in order. */
  lemma {:induction false} TokensCoverNonSpace(s: string)
    ensures Concat(Tokens(s)) == NonSpace(s)
    decreases |s|
  {
    if s != [] {
      var init, c := Tokens(s[..|s| - 1]), s[|s| - 1];
      TokensCoverNonSpace(s[..|s| - 1]);
      if !IsSpace(c) {
        if |s| >= 2 && !IsSpace(s[|s| - 2]) {
          var last := init[|init| - 1];
          var r := init[..|init| - 1] + [last + [c]];
          assert r[..|r| - 1] == init[..|init| - 1];
          assert Concat(init) == Concat(init[..|init| - 1]) + last;
          AppendAssoc(Concat(init[..|init| - 1]), last, [c]);
        } else {
          var r := init + [[c]];
          assert r[..|r| - 1] == init;
        }
      }
    }
  }

  /** A word on its own is one token. */
  lemma {:induction false} TokensOfWord(w: string)
    requires Word(w)
    ensures Tokens(w) == [w]
    decreases |w|
  {
    var n := |w|;
    if n == 1 {
      TokensStart([], w[0]);
      assert [] + [w[0]] == w;
    } else {
      var init := w[..n - 1];
      assert Word(init);
      TokensOfWord(init);
      TokensExtend(init, w[n - 1]);
      assert init + [w[n - 1]] == w;
    }
  }

  /**
   * White space ends a word: the tokens on either side of a space character
   * are split independently, so no token spans it.
   */
  lemma {:induction false} TokensSeparated(a: string, c: char, b: string)
    requires IsSpace(c)
    ensures Tokens(a + [c] + b) == Tokens(a) + Tokens(b)
    decreases |b|
  {
    if b == [] {
      TokensSpace(a, c);
      assert a + [c] + b == a + [c];
    } else {
      var b0, d := b[..|b| - 1], b[|b| - 1];
      var s0 := a + [c] + b0;
      TokensSeparated(a, c, b0);
      assert a + [c] + b == s0 + [d];
      assert b0 + [d] == b;
      SeparatedStep(s0, b0, d, Tokens(a));
    }
  }

  /** One more character after `s0 == a + [c] + b0` changes both sides' tokens alike. */
  lemma SeparatedStep(s0: string, b0: string, d: char, x: seq<string>)
    requires s0 != []
    requires b0 == [] ==> IsSpace(s0[|s0| - 1])
    requires b0 != [] ==> s0[|s0| - 1] == b0[|b0| - 1]
    requires Tokens(s0) == x + Tokens(b0)
    ensures Tokens(s0 + [d]) == x + Tokens(b0 + [d])
  {
    if IsSpace(d) {
      TokensSpace(s0, d);
      TokensSpace(b0, d);
    } else if b0 == [] || IsSpace(b0[|b0| - 1]) {
      TokensStart(s0, d);
      TokensStart(b0, d);
    } else {
      TokensExtend(s0, d);
      TokensExtend(b0, d);
      LastExtended(x, Tokens(b0), d);
    }
  }

  lemma LastExtended(x: seq<string>, y: seq<string>, d: char)
    requires y != []
    ensures (x + y)[..|x + y| - 1] + [(x + y)[|x + y| - 1] + [d]] == x + (y[..|y| - 1] + [y[|y| - 1] + [d]])
  {
    assert (x + y)[..|x + y| - 1] == x + y[..|y| - 1];
  }

  /** Words joined by one white-space character. */
  function Joined(ws: seq<string>, c: char): string {
    if ws == [] then []
    else if |ws| == 1 then ws[0]
    else Joined(ws[..|ws| - 1], c) + [c] + ws[|ws| - 1]
  }

  /** Splitting words joined by white space gives back exactly those words: each token is maximal. */
  lemma {:induction false} TokensOfJoined(ws: seq<string>, c: char)
    requires IsSpace(c)
    requires forall k :: 0 <= k < |ws| ==> Word(ws[k])
    ensures Tokens(Joined(ws, c)) == ws
    decreases |ws|
  {
    if |ws| == 1 {
      TokensOfWord(ws[0]);
    } else if |ws| > 1 {
      var init, w := ws[..|ws| - 1], ws[|ws| - 1];
      var j := Joined(init, c);
      assert Joined(ws, c) == j + [c] + w;
      assert forall k :: 0 <= k < |init| ==> init[k] == ws[k];
      TokensOfJoined(init, c);
      TokensSeparated(j, c, w);
      TokensOfWord(w);
      assert init + [w] == ws;
    }
  }

  /** The `--goal=` value: "size" when optimizing for size, "speed" otherwise. */
  function Goal(optForSize: bool): string {
    if optForSize then "size" else "speed"
  }

  /** The architectures the target selection tells apart. */
  datatype Arch = Hexagon | Arm | OtherArch

  /** What the pass reads from the target machine: its architecture, its CPU and the `-unison` option. */
  datatype TargetMachine = TargetMachine(arch: Arch, cpu: string, unison: bool)

  /** The pass's command-line options (`-unison-maxblocksize`, `-unison-no-clean`, ...). */
  datatype Options = Options(
    maxBlockSize: nat,
    noClean: bool,
    lint: bool,
    singleFunction: string,
    importFlags: string,
    linearizeFlags: string,
    extendFlags: string,
    augmentFlags: string,
    normalizeFlags: string,
    modelFlags: string,
    presolverFlags: string,
    solverFlags: string,
    exportFlags: string)

  /** A command: the program's path and its argument vector, `argv[0]` included. */
  type Command = (string, seq<string>)

  /**
   * The host, as oracles: where `findProgramByName` finds a program, the path
   * the `n`-th temporary file with a suffix gets, whether a command exits
   * with status 0, and the blocks the MIR parser reads from a file.
   */
  datatype Host = Host(
    findProgram: string -> Option<string>,
    tempFile: (nat, string) -> string,
    run: Command -> bool,
    load: string -> seq<MachineBasicBlock>)

  /** How a run of the pass ends: the function left alone, its blocks replaced, or a fatal error. */
  datatype Outcome = NotRun | Replaced | Fatal(message: string)

  /**
   * One entry of the module's `llvm.global.annotations` table: the function
   * its first operand names, when that is a function, and the annotation's
   * text, when its second operand is a global variable.
   */
  datatype Annotation = Annotation(annotated: Option<string>, text: Option<string>)

  /** An entry the annotation search accepts for `f` (any function when `f` is null). */
  predicate Annotates(a: Annotation, f: Option<string>) {
    (f.None? || a.annotated == f) && a.text == Some("unison")
  }

  ghost predicate AnnotatedIn(annotations: Option<seq<Annotation>>, f: Option<string>) {
    annotations.Some? && exists i :: 0 <= i < |annotations.value| && Annotates(annotations.value[i], f)
  }

  /** `hasUnisonAnnotation`: scans the table, skipping entries for other functions and entries without a variable. */
  method HasUnisonAnnotation(annotations: Option<seq<Annotation>>, f: Option<string>) returns (r: bool)
    ensures r <==> AnnotatedIn(annotations, f)
  {
    if annotations.None? {
      return false;
    }
    var a := annotations.value;
    for i := 0 to |a|
      invariant forall j :: 0 <= j < i ==> !Annotates(a[j], f)
    {
      if f.Some? && a[i].annotated != f {
        continue;
      }
      if a[i].text.None? {
        continue;
      }
      if a[i].text.value == "unison" {
        return true;
      }
    }
    return false;
  }

  /** An annotation for the function is an annotation for some function. */
  lemma AnnotationForAnyFunction(annotations: Option<seq<Annotation>>, name: string)
    requires AnnotatedIn(annotations, Some(name))
    ensures AnnotatedIn(annotations, None)
  {
    var i :| 0 <= i < |annotations.value| && Annotates(annotations.value[i], Some(name));
    assert Annotates(annotations.value[i], None);
  }

  /**
   * Whether the pipeline runs: the `-unison` option or an annotation turns it
   * on, and a non-empty `-unison-single-function` can only narrow that to one
   * function.
   */
  predicate Activated(unison: bool, annotated: bool, singleFunction: string, name: string) {
    (unison || annotated) && (singleFunction == "" || singleFunction == name)
  }

  /** The single-function filter never enables the pipeline on its own, and picks out exactly the named function. */
  lemma ActivationFilter(unison: bool, annotated: bool, singleFunction: string, name: string)
    ensures !unison && !annotated ==> !Activated(unison, annotated, singleFunction, name)
    ensures singleFunction != "" ==>
      (Activated(unison, annotated, singleFunction, name) <==> (unison || annotated) && name == singleFunction)
    ensures singleFunction == "" ==> (Activated(unison, annotated, singleFunction, name) <==> unison || annotated)
  {
  }

  /** The target's name in Unison: only Hexagon V4 and the ARM1156T2F-S are supported. */
  function TargetName(tm: TargetMachine): (r: Option<string>)
    ensures r == Some("Hexagon") <==> tm.arch == Hexagon && tm.cpu == "hexagonv4"
    ensures r == Some("ARM") <==> tm.arch == Arm && tm.cpu == "arm1156t2f-s"
    ensures r.None? <==> !(tm.arch == Hexagon && tm.cpu == "hexagonv4") && !(tm.arch == Arm && tm.cpu == "arm1156t2f-s")
  {
    if tm.arch == Hexagon && tm.cpu == "hexagonv4" then Some("Hexagon")
    else if tm.arch == Arm && tm.cpu == "arm1156t2f-s" then Some("ARM")
    else None
  }

  /**
   * `ProgramPath::load` for `uni`, `gecode-presolver` and `gecode-solver`,
   * in that order: the paths found, or the message for the first program
   * that is missing.
   */
  function Programs(host: Host): (r: Result<(string, string, string), string>)
    ensures r.Success? <==>
      host.findProgram("uni").Some? && host.findProgram("gecode-presolver").Some? && host.findProgram("gecode-solver").Some?
    ensures r.Success? ==>
      r.value == (host.findProgram("uni").value, host.findProgram("gecode-presolver").value, host.findProgram("gecode-solver").value)
    ensures r.Failure? ==> r.error in {"Program 'uni' not found", "Program 'gecode-presolver' not found", "Program 'gecode-solver' not found"}
  {
    match host.findProgram("uni")
    case None => Failure("Program 'uni' not found")
    case Some(u) =>
      match host.findProgram("gecode-presolver")
      case None => Failure("Program 'gecode-presolver' not found")
      case Some(p) =>
        match host.findProgram("gecode-solver")
        case None => Failure("Program 'gecode-solver' not found")
        case Some(v) => Success((u, p, v))
  }

  /** The suffixes of the temporary files, in the order the pass creates them. */
  const Suffixes: seq<string> :=
    ["asm.mir", "uni", "lssa.uni", "ext.uni", "alt.uni", "llvm.mir", "json", "ext.json", "out.json", "unison.mir"]

  /** The messages `ensure` reports when a stage fails. */
  const StageMessages: seq<string> :=
    ["'uni import' failed.", "'uni linearize' failed.", "'uni extend' failed.", "'uni augment' failed.",
     "'uni normalize' failed.", "'uni model' failed.", "'gecode-presolver' failed.", "'gecode-solver' failed.",
     "'uni export' failed."]

  /**
   * What one run of the nine stages depends on: the options, the host, the
   * input MIR file, the function's name and size goal, the programs found,
   * the target flag and how many temporary files existed before.
   */
  datatype Setup = Setup(
    opts: Options,
    host: Host,
    preMir: string,
    name: string,
    optForSize: bool,
    uniPath: string,
    presolverPath: string,
    solverPath: string,
    target: string,
    first: nat)

  /** The `i`-th temporary file of the run. */
  function TempPath(s: Setup, i: nat): string
    requires i < |Suffixes|
  {
    s.host.tempFile(s.first + i, Suffixes[i])
  }

  /** `runTool`: `uni <tool> <target> <input> -o <output>` followed by the extra arguments. */
  function UniCommand(s: Setup, tool: string, input: string, output: string, extra: seq<string>): Command {
    (s.uniPath, ["uni", tool, s.target, input, "-o", output] + extra)
  }

  /** The command stage `k` runs (0 import, ..., 8 export). */
  function StageCommand(s: Setup, k: nat): Command
    requires k < 9
  {
    match k
    case 0 =>
      var head := ["--function=" + s.name, "--maxblocksize=" + NatToString(s.opts.maxBlockSize), "--goal=" + Goal(s.optForSize)];
      UniCommand(s, "import", s.preMir, TempPath(s, 1), FlagsInserted(head, s.opts.importFlags, s.opts.lint))
    case 1 => UniCommand(s, "linearize", TempPath(s, 1), TempPath(s, 2), FlagsInserted([], s.opts.linearizeFlags, s.opts.lint))
    case 2 => UniCommand(s, "extend", TempPath(s, 2), TempPath(s, 3), FlagsInserted([], s.opts.extendFlags, s.opts.lint))
    case 3 => UniCommand(s, "augment", TempPath(s, 3), TempPath(s, 4), FlagsInserted([], s.opts.augmentFlags, s.opts.lint))
    case 4 => UniCommand(s, "normalize", TempPath(s, 0), TempPath(s, 5), FlagsInserted([], s.opts.normalizeFlags, false))
    case 5 =>
      var head := ["--basefile=" + TempPath(s, 5), "+RTS", "-K20M", "-RTS"];
      UniCommand(s, "model", TempPath(s, 4), TempPath(s, 6), FlagsInserted(head, s.opts.modelFlags, false))
    case 6 =>
      var head := ["gecode-presolver", "-o", TempPath(s, 7)];
      (s.presolverPath, FlagsInserted(head, s.opts.presolverFlags, false) + [TempPath(s, 6)])
    case 7 =>
      var head := ["gecode-solver", "-o", TempPath(s, 8), "--verbose"];
      (s.solverPath, FlagsInserted(head, s.opts.solverFlags, false) + [TempPath(s, 7)])
    case _ =>
      var head := ["--basefile=" + TempPath(s, 5), "--solfile=" + TempPath(s, 8)];
      UniCommand(s, "export", TempPath(s, 4), TempPath(s, 9), FlagsInserted(head, s.opts.exportFlags, false))
  }

  /** `s` with the lint option set to `lint`. */
  function WithLint(s: Setup, lint: bool): (r: Setup)
    ensures r.opts.lint == lint
  {
    s.(opts := s.opts.(lint := lint))
  }

  /** With the lint flag, `insertFlags` appends "--lint" after exactly what it appends without it. */
  lemma FlagsInsertedLint(argv: seq<string>, flags: string)
    ensures FlagsInserted(argv, flags, true) == FlagsInserted(argv, flags, false) + ["--lint"]
  {
    assert FlagsInserted(argv, flags, false) == argv + Tokens(flags) + [];
  }

  /** A `uni` command whose extra arguments gain "--lint" gains it at the end. */
  lemma UniCommandLint(s: Setup, tool: string, input: string, output: string, head: seq<string>, flags: string)
    ensures UniCommand(s, tool, input, output, FlagsInserted(head, flags, true))
         == (s.uniPath, UniCommand(s, tool, input, output, FlagsInserted(head, flags, false)).1 + ["--lint"])
  {
    FlagsInsertedLint(head, flags);
    var fixed := ["uni", tool, s.target, input, "-o", output];
    assert fixed + (FlagsInserted(head, flags, false) + ["--lint"]) == fixed + FlagsInserted(head, flags, false) + ["--lint"];
  }

  /**
   * `--lint` is requested of import, linearize, extend and augment: with the
   * option on, each of them gets it after the arguments it has with the
   * option off.
   */
  lemma LintOnlyEarlyStages(s: Setup, k: nat)
    requires k < 4
    ensures StageCommand(WithLint(s, true), k) == (s.uniPath, StageCommand(WithLint(s, false), k).1 + ["--lint"])
  {
    var on := WithLint(s, true);
    match k
    case 0 =>
      var head := ["--function=" + s.name, "--maxblocksize=" + NatToString(s.opts.maxBlockSize), "--goal=" + Goal(s.optForSize)];
      UniCommandLint(on, "import", s.preMir, TempPath(s, 1), head, s.opts.importFlags);
    case 1 => UniCommandLint(on, "linearize", TempPath(s, 1), TempPath(s, 2), [], s.opts.linearizeFlags);
    case 2 => UniCommandLint(on, "extend", TempPath(s, 2), TempPath(s, 3), [], s.opts.extendFlags);
    case 3 => UniCommandLint(on, "augment", TempPath(s, 3), TempPath(s, 4), [], s.opts.augmentFlags);
  }

  /** The five later stages do not depend on the lint option. */
  lemma LintIgnoredByLaterStages(s: Setup, k: nat)
    requires 4 <= k < 9
    ensures StageCommand(WithLint(s, true), k) == StageCommand(WithLint(s, false), k)
  {
  }

  /**
   * The data flow between the stages: each `uni` stage reads the file the
   * previous one wrote (import reads the input MIR file, normalize the
   * baseline file), model and export take normalize's output as base file,
   * the presolver reads model's output, the solver the presolver's, and
   * export reads augment's output and the solver's solution; every stage
   * writes a new temporary file.
   */
  lemma StageDataFlow(s: Setup)
    ensures StageCommand(s, 0).1[3] == s.preMir
    ensures forall k :: 1 <= k < 4 ==> StageCommand(s, k).1[3] == StageCommand(s, k - 1).1[5]
    ensures StageCommand(s, 4).1[3] == TempPath(s, 0)
    ensures StageCommand(s, 5).1[3] == StageCommand(s, 3).1[5]
    ensures StageCommand(s, 5).1[6] == "--basefile=" + StageCommand(s, 4).1[5]
    ensures StageCommand(s, 6).1[|StageCommand(s, 6).1| - 1] == StageCommand(s, 5).1[5]
    ensures StageCommand(s, 7).1[|StageCommand(s, 7).1| - 1] == StageCommand(s, 6).1[2]
    ensures StageCommand(s, 8).1[3] == StageCommand(s, 3).1[5]
    ensures StageCommand(s, 8).1[6] == "--basefile=" + StageCommand(s, 4).1[5]
    ensures StageCommand(s, 8).1[7] == "--solfile=" + StageCommand(s, 7).1[2]
    ensures forall k :: 0 <= k < 9 && k != 6 && k != 7 ==> StageCommand(s, k).1[5] == TempPath(s, k + 1)
    ensures StageCommand(s, 6).1[2] == TempPath(s, 7) && StageCommand(s, 7).1[2] == TempPath(s, 8)
  {
  }

  /** The first stage from `from` on whose command fails, or 9 when none does. */
  function FirstFailure(s: Setup, from: nat): (r: nat)
    requires from <= 9
    ensures from <= r <= 9
    ensures forall k :: from <= k < r ==> s.host.run(StageCommand(s, k))
    ensures r < 9 ==> !s.host.run(StageCommand(s, r))
    decreases 9 - from
  {
    if from == 9 then 9
    else if !s.host.run(StageCommand(s, from)) then from
    else FirstFailure(s, from + 1)
  }

  /** `FirstFailure` is the stage that fails after all earlier ones succeeded. */
  lemma FirstFailureAt(s: Setup, k: nat)
    requires k <= 9
    requires Succeeded(s, k)
    requires k < 9 ==> !s.host.run(StageCommand(s, k))
    ensures FirstFailure(s, 0) == k
  {
  }

  /** After stage `k` succeeded, so did every stage before `k + 1`. */
  lemma SucceededNext(s: Setup, k: nat)
    requires k < 9 && Succeeded(s, k) && s.host.run(StageCommand(s, k))
    ensures Succeeded(s, k + 1)
  {
  }

  /** Every stage before `k` succeeded. */
  ghost predicate Succeeded(s: Setup, k: nat)
    requires k <= 9
  {
    forall j :: 0 <= j < k ==> s.host.run(StageCommand(s, j))
  }

  /** The stages up to the first failure, the failing one included, run; no later one does. */
  function RunCount(k: nat): nat {
    if k < 9 then k + 1 else 9
  }

  /** The temporary files created when the first failure is at `k`: the baseline and one per stage run. */
  function Created(k: nat): nat {
    if k < 9 then k + 2 else 10
  }

  /** `xs` is `prefix` followed by the commands of the first `n` stages, in order. */
  ghost predicate CommandsAfter(xs: seq<Command>, prefix: seq<Command>, s: Setup, n: nat)
    requires n <= 9
  {
    |xs| == |prefix| + n && xs[..|prefix|] == prefix
    && forall j :: 0 <= j < n ==> xs[|prefix| + j] == StageCommand(s, j)
  }

  /** `xs` is `prefix` followed by the first `n` temporary files of the run, in creation order. */
  ghost predicate PathsAfter(xs: seq<string>, prefix: seq<string>, s: Setup, n: nat)
    requires n <= |Suffixes|
  {
    |xs| == |prefix| + n && xs[..|prefix|] == prefix
    && forall j :: 0 <= j < n ==> xs[|prefix| + j] == TempPath(s, j)
  }

  /** `Ran` on the values of the driver's fields. */
  ghost predicate RanWith(s: Setup, n: nat, commands0: seq<Command>, paths0: seq<string>,
                          commands: seq<Command>, paths: seq<string>, created: nat, asmMir: string)
    requires n <= 9
  {
    CommandsAfter(commands, commands0, s, n)
    && PathsAfter(paths, paths0, s, n + 1)
    && created == s.first + n + 1
    && asmMir == TempPath(s, 0)
  }

  /** Running stage `k` records its command and its output file. */
  lemma RanWithNext(s: Setup, k: nat, commands0: seq<Command>, paths0: seq<string>,
                    commands: seq<Command>, paths: seq<string>, created: nat, asmMir: string)
    requires k < 9 && RanWith(s, k, commands0, paths0, commands, paths, created, asmMir)
    ensures RanWith(s, k + 1, commands0, paths0, commands + [StageCommand(s, k)], paths + [TempPath(s, k + 1)], created + 1, asmMir)
  {
    CommandsAfterNext(commands, commands0, s, k);
    PathsAfterNext(paths, paths0, s, k + 1);
  }

  /** `Finished` on the values of the driver's fields and the function's blocks. */
  ghost predicate FinishedWith(s: Setup, commands0: seq<Command>, paths0: seq<string>, removed0: seq<string>,
                               blocks0: seq<MachineBasicBlock>, outcome: Outcome, noClean: bool,
                               commands: seq<Command>, paths: seq<string>, removed: seq<string>, created: nat,
                               asmMir: string, blocks: seq<MachineBasicBlock>)
  {
    var k := FirstFailure(s, 0);
    CommandsAfter(commands, commands0, s, RunCount(k))
    && created == s.first + Created(k)
    && asmMir == TempPath(s, 0)
    && (if noClean then PathsAfter(paths, paths0, s, Created(k)) && removed == removed0
        else paths == [] && PathsAfter(removed, removed0 + paths0, s, Created(k)))
    && (k < 9 ==> outcome == Fatal(StageMessages[k]) && blocks == blocks0)
    && (k == 9 ==> outcome == Replaced && blocks == s.host.load(TempPath(s, 9)))
  }

  /** After the nine stages succeeded, the reload and the cleaning finish the run. */
  lemma FinishedAfterSuccess(s: Setup, commands0: seq<Command>, paths0: seq<string>, removed0: seq<string>,
                             blocks0: seq<MachineBasicBlock>, noClean: bool, commands: seq<Command>, ran: seq<string>,
                             paths: seq<string>, removed: seq<string>, created: nat, asmMir: string,
                             blocks: seq<MachineBasicBlock>)
    requires RanWith(s, 9, commands0, paths0, commands, ran, created, asmMir) && Succeeded(s, 9)
    requires noClean ==> paths == ran && removed == removed0
    requires !noClean ==> paths == [] && removed == removed0 + ran
    requires blocks == s.host.load(TempPath(s, 9))
    ensures FinishedWith(s, commands0, paths0, removed0, blocks0, Replaced, noClean, commands, paths, removed, created, asmMir, blocks)
  {
    FirstFailureAt(s, 9);
    if !noClean {
      PathsAfterBehind(ran, paths0, s, 10, removed0);
    }
  }

  /** After stage `k` failed, the cleaning ends the run with the stage's message. */
  lemma FinishedAfterFailure(s: Setup, k: nat, commands0: seq<Command>, paths0: seq<string>, removed0: seq<string>,
                             blocks0: seq<MachineBasicBlock>, noClean: bool, commands: seq<Command>, ran: seq<string>,
                             paths: seq<string>, removed: seq<string>, created: nat, asmMir: string)
    requires k < 9 && RanWith(s, k + 1, commands0, paths0, commands, ran, created, asmMir)
    requires Succeeded(s, k) && !s.host.run(StageCommand(s, k))
    requires noClean ==> paths == ran && removed == removed0
    requires !noClean ==> paths == [] && removed == removed0 + ran
    ensures FinishedWith(s, commands0, paths0, removed0, blocks0, Fatal(StageMessages[k]), noClean,
                         commands, paths, removed, created, asmMir, blocks0)
  {
    FirstFailureAt(s, k);
    if !noClean {
      PathsAfterBehind(ran, paths0, s, k + 2, removed0);
    }
  }

  lemma CommandsAfterNext(xs: seq<Command>, prefix: seq<Command>, s: Setup, n: nat)
    requires n < 9 && CommandsAfter(xs, prefix, s, n)
    ensures CommandsAfter(xs + [StageCommand(s, n)], prefix, s, n + 1)
  {
    var ys := xs + [StageCommand(s, n)];
    assert ys[..|prefix|] == xs[..|prefix|];
    forall j | 0 <= j < n + 1
      ensures ys[|prefix| + j] == StageCommand(s, j)
    {
      if j < n {
        assert ys[|prefix| + j] == xs[|prefix| + j];
      }
    }
  }

  lemma PathsAfterNext(xs: seq<string>, prefix: seq<string>, s: Setup, n: nat)
    requires n < |Suffixes| && PathsAfter(xs, prefix, s, n)
    ensures PathsAfter(xs + [TempPath(s, n)], prefix, s, n + 1)
  {
    var ys := xs + [TempPath(s, n)];
    assert ys[..|prefix|] == xs[..|prefix|];
    forall j | 0 <= j < n + 1
      ensures ys[|prefix| + j] == TempPath(s, j)
    {
      if j < n {
        assert ys[|prefix| + j] == xs[|prefix| + j];
      }
    }
  }

  /** Removing the files appends them, in order, to the files removed before. */
  lemma PathsAfterBehind(xs: seq<string>, prefix: seq<string>, s: Setup, n: nat, before: seq<string>)
    requires n <= |Suffixes| && PathsAfter(xs, prefix, s, n)
    ensures PathsAfter(before + xs, before + prefix, s, n)
  {
    var ys := before + xs;
    assert ys[..|before + prefix|] == before + xs[..|prefix|];
    forall j | 0 <= j < n
      ensures ys[|before + prefix| + j] == TempPath(s, j)
    {
      assert ys[|before + prefix| + j] == xs[|prefix| + j];
    }
  }

  /**
   * The pass: the fields the source keeps (`PreMir`, `AsmMir`, `Target`,
   * the three program paths and `TempPaths`), the options and the host, and
   * a record of the commands it ran, the files it removed and how many
   * temporary files it created.
   */
  class Driver {
    const opts: Options
    const host: Host
    const preMir: string
    var target: string
    var asmMir: string
    var uniPath: string
    var presolverPath: string
    var solverPath: string
    var tempPaths: seq<string>
    var created: nat
    var removed: seq<string>
    var commands: seq<Command>

    /** Unless no-clean is set, no temporary file outlives a run. */
    ghost predicate Valid()
      reads this
    {
      opts.noClean || tempPaths == []
    }

    constructor (opts: Options, host: Host, preMir: string)
      ensures this.opts == opts && this.host == host && this.preMir == preMir
      ensures target == "" && asmMir == "" && tempPaths == [] && created == 0 && removed == [] && commands == []
      ensures Valid()
    {
      this.opts := opts;
      this.host := host;
      this.preMir := preMir;
      target := "";
      asmMir := "";
      uniPath := "";
      presolverPath := "";
      solverPath := "";
      tempPaths := [];
      created := 0;
      removed := [];
      commands := [];
    }

    /** The temporary files after cleaning from `paths`, and the removals. */
    ghost predicate CleanedFrom(paths: seq<string>, removed0: seq<string>)
      reads this
    {
      if opts.noClean then tempPaths == paths && removed == removed0
      else tempPaths == [] && removed == removed0 + paths
    }

    /** `makeTempFile`: a fresh temporary file, remembered for cleaning. */
    method MakeTempFile(suffix: string) returns (path: string)
      modifies this`tempPaths, this`created
      ensures path == host.tempFile(old(created), suffix)
      ensures created == old(created) + 1 && tempPaths == old(tempPaths) + [path]
    {
      path := host.tempFile(created, suffix);
      created := created + 1;
      tempPaths := tempPaths + [path];
    }

    /** `cleanPaths`: removes every remembered file and forgets them, unless no-clean is set. */
    method CleanPaths()
      modifies this`tempPaths, this`removed
      ensures CleanedFrom(old(tempPaths), old(removed))
    {
      if opts.noClean {
        return;
      }
      for i := 0 to |tempPaths|
        invariant tempPaths == old(tempPaths)
        invariant removed == old(removed) + tempPaths[..i]
      {
        removed := removed + [tempPaths[i]];
      }
      assert tempPaths[..|tempPaths|] == tempPaths;
      tempPaths := [];
    }

    /** `Command::run`: runs a program and reports whether it exited with status 0. */
    method Run(cmd: Command) returns (ok: bool)
      modifies this`commands
      ensures commands == old(commands) + [cmd] && ok == host.run(cmd)
    {
      commands := commands + [cmd];
      ok := host.run(cmd);
    }

    /** `runTool`: a `uni` subcommand on the selected target. */
    method RunTool(tool: string, input: string, output: string, extra: seq<string>) returns (ok: bool)
      modifies this`commands
      ensures commands == old(commands) + [(uniPath, ["uni", tool, target, input, "-o", output] + extra)]
      ensures ok == host.run((uniPath, ["uni", tool, target, input, "-o", output] + extra))
    {
      var args := ["uni", tool, target, input, "-o", output];
      for i := 0 to |extra|
        invariant args == ["uni", tool, target, input, "-o", output] + extra[..i]
      {
        args := args + [extra[i]];
      }
      assert extra[..|extra|] == extra;
      ok := Run((uniPath, args));
    }

    /** The setup of a run from the fields as they are now. */
    ghost function SetupFor(name: string, optForSize: bool, first: nat): Setup
      reads this`uniPath, this`presolverPath, this`solverPath, this`target
    {
      Setup(opts, host, preMir, name, optForSize, uniPath, presolverPath, solverPath, target, first)
    }

    /**
     * The state after the nine stages of `s`, where `k` is the first one that
     * fails: stages up to `k` ran and none after; their temporary files were
     * created and then cleaned; the function's blocks were replaced by the
     * export stage's output exactly when no stage failed.
     */
    ghost predicate Finished(s: Setup, commands0: seq<Command>, paths0: seq<string>, removed0: seq<string>,
                             blocks0: seq<MachineBasicBlock>, mf: MachineFunction, outcome: Outcome)
      reads this, mf
    {
      FinishedWith(s, commands0, paths0, removed0, blocks0, outcome, opts.noClean,
                   commands, tempPaths, removed, created, asmMir, mf.blocks)
    }

    /**
     * The first `n` stages of `s` ran: their commands were recorded after
     * `commands0`, and the baseline file and one output file per stage were
     * created after `paths0`.
     */
    ghost predicate Ran(s: Setup, n: nat, commands0: seq<Command>, paths0: seq<string>)
      requires n <= 9
      reads this`commands, this`tempPaths, this`created, this`asmMir
    {
      RanWith(s, n, commands0, paths0, commands, tempPaths, created, asmMir)
    }

    /**
     * One `uni` stage: a temporary file for its output, its flags after the
     * fixed arguments, and the run of `uni <tool>` from `input` to that file.
     */
    method UniStage(ghost s: Setup, ghost k: nat, ghost commands0: seq<Command>, ghost paths0: seq<string>,
                    tool: string, input: string, suffix: string, head: seq<string>, flags: string, lint: bool)
      returns (output: string, ok: bool)
      requires k < 9 && Ran(s, k, commands0, paths0) && Succeeded(s, k)
      requires s.host == host && s.uniPath == uniPath && s.target == target && suffix == Suffixes[k + 1]
      requires StageCommand(s, k) == UniCommand(s, tool, input, TempPath(s, k + 1), FlagsInserted(head, flags, lint))
      modifies this`tempPaths, this`created, this`commands
      ensures Ran(s, k + 1, commands0, paths0)
      ensures output == TempPath(s, k + 1)
      ensures ok ==> Succeeded(s, k + 1)
      ensures !ok ==> !s.host.run(StageCommand(s, k))
    {
      ghost var cmds, paths := commands, tempPaths;
      RanWithNext(s, k, commands0, paths0, cmds, paths, created, asmMir);
      output := MakeTempFile(suffix);
      var argv := InsertFlags(head, flags, lint);
      ok := RunTool(tool, input, output, argv);
      assert commands == cmds + [StageCommand(s, k)] && tempPaths == paths + [TempPath(s, k + 1)];
      if ok {
        SucceededNext(s, k);
      }
    }

    /**
     * The presolver or the solver: a temporary file for its output, the
     * program's name, `-o` and the output, further fixed arguments, its
     * flags and finally its input.
     */
    method GecodeStage(ghost s: Setup, ghost k: nat, ghost commands0: seq<Command>, ghost paths0: seq<string>,
                       program: string, name: string, more: seq<string>, flags: string, input: string, suffix: string)
      returns (output: string, ok: bool)
      requires k < 9 && Ran(s, k, commands0, paths0) && Succeeded(s, k)
      requires s.host == host && suffix == Suffixes[k + 1]
      requires StageCommand(s, k) == (program, FlagsInserted([name, "-o", TempPath(s, k + 1)] + more, flags, false) + [input])
      modifies this`tempPaths, this`created, this`commands
      ensures Ran(s, k + 1, commands0, paths0)
      ensures output == TempPath(s, k + 1)
      ensures ok ==> Succeeded(s, k + 1)
      ensures !ok ==> !s.host.run(StageCommand(s, k))
    {
      ghost var cmds, paths := commands, tempPaths;
      RanWithNext(s, k, commands0, paths0, cmds, paths, created, asmMir);
      output := MakeTempFile(suffix);
      var argv := InsertFlags([name, "-o", output] + more, flags, false);
      argv := argv + [input];
      ok := Run((program, argv));
      assert commands == cmds + [StageCommand(s, k)] && tempPaths == paths + [TempPath(s, k + 1)];
      if ok {
        SucceededNext(s, k);
      }
    }

    /** `ensure` on a failed stage: the temporary files are cleaned and the run ends with the stage's message. */
    method Abort(msg: string, ghost s: Setup, ghost k: nat, ghost commands0: seq<Command>, ghost paths0: seq<string>,
                 ghost removed0: seq<string>, ghost blocks0: seq<MachineBasicBlock>, mf: MachineFunction)
      returns (outcome: Outcome)
      requires k < 9 && Ran(s, k + 1, commands0, paths0) && msg == StageMessages[k]
      requires Succeeded(s, k) && !s.host.run(StageCommand(s, k))
      requires s.host == host && removed == removed0 && mf.blocks == blocks0
      modifies this`tempPaths, this`removed
      ensures Finished(s, commands0, paths0, removed0, blocks0, mf, outcome)
    {
      ghost var ran := tempPaths;
      CleanPaths();
      FinishedAfterFailure(s, k, commands0, paths0, removed0, blocks0, opts.noClean, commands, ran,
                           tempPaths, removed, created, asmMir);
      outcome := Fatal(msg);
    }

    /**
     * The state before stage `k` of `s`: the earlier stages ran and
     * succeeded, the fields hold what `s` was set up with, and nothing was
     * removed and no block replaced since the run began.
     */
    ghost predicate Before(s: Setup, k: nat, c0: seq<Command>, p0: seq<string>, r0: seq<string>,
                           b0: seq<MachineBasicBlock>, mf: MachineFunction)
      reads this, mf
    {
      k <= 9 && Ran(s, k, c0, p0) && Succeeded(s, k)
      && s.host == host && s.opts == opts && s.preMir == preMir && s.name == mf.name
      && s.uniPath == uniPath && s.presolverPath == presolverPath && s.solverPath == solverPath && s.target == target
      && removed == r0 && mf.blocks == b0
    }

    /** Steps 0 to 10 of `runOnMachineFunction`: the baseline file, the nine stages and the reload. */
    method RunStages(mf: MachineFunction, optForSize: bool, ghost s: Setup, ghost c0: seq<Command>, ghost p0: seq<string>,
                     ghost r0: seq<string>, ghost b0: seq<MachineBasicBlock>) returns (outcome: Outcome)
      requires s == SetupFor(mf.name, optForSize, created)
      requires c0 == commands && p0 == tempPaths && r0 == removed && b0 == mf.blocks
      modifies this`asmMir, this`tempPaths, this`created, this`removed, this`commands, mf`blocks
      ensures Finished(s, c0, p0, r0, b0, mf, outcome)
    {
      assert c0[..|c0|] == c0 && p0[..|p0|] == p0;
      PathsAfterNext(p0, p0, s, 0);
      // 0. the baseline MIR file; printing the function into it is I/O
      asmMir := MakeTempFile("asm.mir");
      outcome := Import(mf, optForSize, s, c0, p0, r0, b0);
    }

    /** Step 1, import from the input MIR file, and the steps after it. */
    method Import(mf: MachineFunction, optForSize: bool, ghost s: Setup, ghost c0: seq<Command>, ghost p0: seq<string>,
                  ghost r0: seq<string>, ghost b0: seq<MachineBasicBlock>) returns (outcome: Outcome)
      requires Before(s, 0, c0, p0, r0, b0, mf) && s.optForSize == optForSize
      modifies this`tempPaths, this`created, this`removed, this`commands, mf`blocks
      ensures Finished(s, c0, p0, r0, b0, mf, outcome)
    {
      var head := ["--function=" + mf.name, "--maxblocksize=" + NatToString(opts.maxBlockSize), "--goal=" + Goal(optForSize)];
      var uni, ok := UniStage(s, 0, c0, p0, "import", preMir, "uni", head, opts.importFlags, opts.lint);
      if !ok {
        outcome := Abort("'uni import' failed.", s, 0, c0, p0, r0, b0, mf);
        return;
      }
      outcome := Linearize(mf, s, c0, p0, r0, b0, uni);
    }

    /** Step 2, linearize, and the steps after it. */
    method Linearize(mf: MachineFunction, ghost s: Setup, ghost c0: seq<Command>, ghost p0: seq<string>,
                     ghost r0: seq<string>, ghost b0: seq<MachineBasicBlock>, uni: string) returns (outcome: Outcome)
      requires Before(s, 1, c0, p0, r0, b0, mf) && uni == TempPath(s, 1)
      modifies this`tempPaths, this`created, this`removed, this`commands, mf`blocks
      ensures Finished(s, c0, p0, r0, b0, mf, outcome)
    {
      var lssa, ok := UniStage(s, 1, c0, p0, "linearize", uni, "lssa.uni", [], opts.linearizeFlags, opts.lint);
      if !ok {
        outcome := Abort("'uni linearize' failed.", s, 1, c0, p0, r0, b0, mf);
        return;
      }
      outcome := Extend(mf, s, c0, p0, r0, b0, lssa);
    }

    /** Step 3, extend, and the steps after it. */
    method Extend(mf: MachineFunction, ghost s: Setup, ghost c0: seq<Command>, ghost p0: seq<string>,
                  ghost r0: seq<string>, ghost b0: seq<MachineBasicBlock>, lssa: string) returns (outcome: Outcome)
      requires Before(s, 2, c0, p0, r0, b0, mf) && lssa == TempPath(s, 2)
      modifies this`tempPaths, this`created, this`removed, this`commands, mf`blocks
      ensures Finished(s, c0, p0, r0, b0, mf, outcome)
    {
      var ext, ok := UniStage(s, 2, c0, p0, "extend", lssa, "ext.uni", [], opts.extendFlags, opts.lint);
      if !ok {
        outcome := Abort("'uni extend' failed.", s, 2, c0, p0, r0, b0, mf);
        return;
      }
      outcome := Augment(mf, s, c0, p0, r0, b0, ext);
    }

    /** Step 4, augment, and the steps after it. */
    method Augment(mf: MachineFunction, ghost s: Setup, ghost c0: seq<Command>, ghost p0: seq<string>,
                   ghost r0: seq<string>, ghost b0: seq<MachineBasicBlock>, ext: string) returns (outcome: Outcome)
      requires Before(s, 3, c0, p0, r0, b0, mf) && ext == TempPath(s, 3)
      modifies this`tempPaths, this`created, this`removed, this`commands, mf`blocks
      ensures Finished(s, c0, p0, r0, b0, mf, outcome)
    {
      var alt, ok := UniStage(s, 3, c0, p0, "augment", ext, "alt.uni", [], opts.augmentFlags, opts.lint);
      if !ok {
        outcome := Abort("'uni augment' failed.", s, 3, c0, p0, r0, b0, mf);
        return;
      }
      outcome := Normalize(mf, s, c0, p0, r0, b0, alt);
    }

    /** Step 5, normalize the baseline MIR file, and the steps after it. */
    method Normalize(mf: MachineFunction, ghost s: Setup, ghost c0: seq<Command>, ghost p0: seq<string>,
                     ghost r0: seq<string>, ghost b0: seq<MachineBasicBlock>, alt: string) returns (outcome: Outcome)
      requires Before(s, 4, c0, p0, r0, b0, mf) && alt == TempPath(s, 4)
      modifies this`tempPaths, this`created, this`removed, this`commands, mf`blocks
      ensures Finished(s, c0, p0, r0, b0, mf, outcome)
    {
      var llvmMir, ok := UniStage(s, 4, c0, p0, "normalize", asmMir, "llvm.mir", [], opts.normalizeFlags, false);
      if !ok {
        outcome := Abort("'uni normalize' failed.", s, 4, c0, p0, r0, b0, mf);
        return;
      }
      outcome := Model(mf, s, c0, p0, r0, b0, alt, llvmMir);
    }

    /** Step 6, model, and the steps after it. */
    method Model(mf: MachineFunction, ghost s: Setup, ghost c0: seq<Command>, ghost p0: seq<string>,
                 ghost r0: seq<string>, ghost b0: seq<MachineBasicBlock>, alt: string, llvmMir: string)
      returns (outcome: Outcome)
      requires Before(s, 5, c0, p0, r0, b0, mf) && alt == TempPath(s, 4) && llvmMir == TempPath(s, 5)
      modifies this`tempPaths, this`created, this`removed, this`commands, mf`blocks
      ensures Finished(s, c0, p0, r0, b0, mf, outcome)
    {
      var head := ["--basefile=" + llvmMir, "+RTS", "-K20M", "-RTS"];
      var json, ok := UniStage(s, 5, c0, p0, "model", alt, "json", head, opts.modelFlags, false);
      if !ok {
        outcome := Abort("'uni model' failed.", s, 5, c0, p0, r0, b0, mf);
        return;
      }
      outcome := Presolve(mf, s, c0, p0, r0, b0, alt, llvmMir, json);
    }

    /** Step 7, the presolver, and the steps after it. */
    method Presolve(mf: MachineFunction, ghost s: Setup, ghost c0: seq<Command>, ghost p0: seq<string>,
                    ghost r0: seq<string>, ghost b0: seq<MachineBasicBlock>, alt: string, llvmMir: string, json: string)
      returns (outcome: Outcome)
      requires Before(s, 6, c0, p0, r0, b0, mf)
      requires alt == TempPath(s, 4) && llvmMir == TempPath(s, 5) && json == TempPath(s, 6)
      modifies this`tempPaths, this`created, this`removed, this`commands, mf`blocks
      ensures Finished(s, c0, p0, r0, b0, mf, outcome)
    {
      assert ["gecode-presolver", "-o", TempPath(s, 7)] + [] == ["gecode-presolver", "-o", TempPath(s, 7)];
      var extJson, ok := GecodeStage(s, 6, c0, p0, presolverPath, "gecode-presolver", [], opts.presolverFlags, json, "ext.json");
      if !ok {
        outcome := Abort("'gecode-presolver' failed.", s, 6, c0, p0, r0, b0, mf);
        return;
      }
      outcome := Solve(mf, s, c0, p0, r0, b0, alt, llvmMir, extJson);
    }

    /** Step 8, the solver, and the steps after it. */
    method Solve(mf: MachineFunction, ghost s: Setup, ghost c0: seq<Command>, ghost p0: seq<string>,
                 ghost r0: seq<string>, ghost b0: seq<MachineBasicBlock>, alt: string, llvmMir: string, extJson: string)
      returns (outcome: Outcome)
      requires Before(s, 7, c0, p0, r0, b0, mf)
      requires alt == TempPath(s, 4) && llvmMir == TempPath(s, 5) && extJson == TempPath(s, 7)
      modifies this`tempPaths, this`created, this`removed, this`commands, mf`blocks
      ensures Finished(s, c0, p0, r0, b0, mf, outcome)
    {
      assert ["gecode-solver", "-o", TempPath(s, 8)] + ["--verbose"] == ["gecode-solver", "-o", TempPath(s, 8), "--verbose"];
      var outJson, ok := GecodeStage(s, 7, c0, p0, solverPath, "gecode-solver", ["--verbose"], opts.solverFlags, extJson, "out.json");
      if !ok {
        outcome := Abort("'gecode-solver' failed.", s, 7, c0, p0, r0, b0, mf);
        return;
      }
      outcome := Export(mf, s, c0, p0, r0, b0, alt, llvmMir, outJson);
    }

    /** Step 9, export, and step 10: the function's blocks are replaced by the ones parsed from its output. */
    method Export(mf: MachineFunction, ghost s: Setup, ghost c0: seq<Command>, ghost p0: seq<string>,
                  ghost r0: seq<string>, ghost b0: seq<MachineBasicBlock>, alt: string, llvmMir: string, outJson: string)
      returns (outcome: Outcome)
      requires Before(s, 8, c0, p0, r0, b0, mf)
      requires alt == TempPath(s, 4) && llvmMir == TempPath(s, 5) && outJson == TempPath(s, 8)
      modifies this`tempPaths, this`created, this`removed, this`commands, mf`blocks
      ensures Finished(s, c0, p0, r0, b0, mf, outcome)
    {
      var head := ["--basefile=" + llvmMir, "--solfile=" + outJson];
      var unisonMir, ok := UniStage(s, 8, c0, p0, "export", alt, "unison.mir", head, opts.exportFlags, false);
      if !ok {
        outcome := Abort("'uni export' failed.", s, 8, c0, p0, r0, b0, mf);
        return;
      }
      mf.blocks := host.load(unisonMir);
      ghost var ran := tempPaths;
      CleanPaths();
      FinishedAfterSuccess(s, c0, p0, r0, b0, opts.noClean, commands, ran, tempPaths, removed, created, asmMir, mf.blocks);
      outcome := Replaced;
    }

    /**
     * `runOnMachineFunction`: the activation test, then the programs, the
     * target and the stages; `Fatal` stands for `report_fatal_error`, which
     * ends the process.
     */
    method RunOnMachineFunction(mf: MachineFunction, tm: TargetMachine, annotations: Option<seq<Annotation>>,
                                optForSize: bool) returns (outcome: Outcome)
      requires Valid()
      modifies this`uniPath, this`presolverPath, this`solverPath, this`target
      modifies this`asmMir, this`tempPaths, this`created, this`removed, this`commands, mf`blocks
      ensures Valid()
      ensures !Activated(tm.unison, AnnotatedIn(annotations, Some(mf.name)), opts.singleFunction, mf.name) ==>
        (outcome == NotRun && mf.blocks == old(mf.blocks) && commands == old(commands) && created == old(created)
         && CleanedFrom(old(tempPaths), old(removed)))
      ensures Activated(tm.unison, AnnotatedIn(annotations, Some(mf.name)), opts.singleFunction, mf.name) ==>
        Launched(tm, optForSize, old(created), old(commands), old(tempPaths), old(removed), old(mf.blocks), mf, outcome)
    {
      var annotated := tm.unison;
      if !annotated {
        annotated := HasUnisonAnnotation(annotations, Some(mf.name));
      }
      if !annotated {
        CleanPaths();
        return NotRun;
      }
      if opts.singleFunction != "" && mf.name != opts.singleFunction {
        CleanPaths();
        return NotRun;
      }
      outcome := Launch(mf, tm, optForSize);
    }

    /**
     * After an activated run: a missing program or an unsupported target
     * ends it before anything runs or is created; otherwise the program
     * paths and the target flag are set and the stages ran.
     */
    ghost predicate Launched(tm: TargetMachine, optForSize: bool, created0: nat, c0: seq<Command>, p0: seq<string>,
                             r0: seq<string>, b0: seq<MachineBasicBlock>, mf: MachineFunction, outcome: Outcome)
      reads this, mf
    {
      if Programs(host).Failure? || TargetName(tm).None? then
        outcome == Fatal(if Programs(host).Failure? then Programs(host).error else "Target unavailable in Unison")
        && mf.blocks == b0 && commands == c0 && created == created0 && tempPaths == p0 && removed == r0
      else
        (uniPath, presolverPath, solverPath) == Programs(host).value && target == "--target=" + TargetName(tm).value
        && Finished(SetupFor(mf.name, optForSize, created0), c0, p0, r0, b0, mf, outcome)
    }

    /** Looks up `uni`, `gecode-presolver` and `gecode-solver` in turn, stopping at the first one missing. */
    method LoadPrograms() returns (ok: bool, message: string)
      modifies this`uniPath, this`presolverPath, this`solverPath
      ensures ok <==> Programs(host).Success?
      ensures ok ==> (uniPath, presolverPath, solverPath) == Programs(host).value
      ensures !ok ==> message == Programs(host).error
    {
      var found := host.findProgram("uni");
      if found.None? {
        return false, "Program 'uni' not found";
      }
      uniPath := found.value;
      found := host.findProgram("gecode-presolver");
      if found.None? {
        return false, "Program 'gecode-presolver' not found";
      }
      presolverPath := found.value;
      found := host.findProgram("gecode-solver");
      if found.None? {
        return false, "Program 'gecode-solver' not found";
      }
      solverPath := found.value;
      ok, message := true, "";
    }

    /** The part of `runOnMachineFunction` after the activation test. */
    method Launch(mf: MachineFunction, tm: TargetMachine, optForSize: bool) returns (outcome: Outcome)
      modifies this`uniPath, this`presolverPath, this`solverPath, this`target
      modifies this`asmMir, this`tempPaths, this`created, this`removed, this`commands, mf`blocks
      ensures Launched(tm, optForSize, old(created), old(commands), old(tempPaths), old(removed), old(mf.blocks), mf, outcome)
    {
      var ok, message := LoadPrograms();
      if !ok {
        return Fatal(message);
      }
      var name := TargetName(tm);
      if name.None? {
        return Fatal("Target unavailable in Unison");
      }
      target := "--target=" + name.value;
      outcome := RunStages(mf, optForSize, SetupFor(mf.name, optForSize, created), commands, tempPaths, removed, mf.blocks);
    }

    /**
     * How a run of the stages ends: the blocks are replaced exactly when
     * every stage succeeded, and otherwise the run reports the first failing
     * stage, after which no command ran.
     */
    lemma FinishedOutcome(s: Setup, c0: seq<Command>, p0: seq<string>, r0: seq<string>,
                          b0: seq<MachineBasicBlock>, mf: MachineFunction, outcome: Outcome)
      requires Finished(s, c0, p0, r0, b0, mf, outcome)
      ensures outcome == Replaced <==> Succeeded(s, 9)
      ensures outcome != NotRun
      ensures outcome.Fatal? ==>
        (exists k :: 0 <= k < 9 && outcome.message == StageMessages[k]
           && Succeeded(s, k) && !s.host.run(StageCommand(s, k)) && |commands| == |c0| + k + 1)
      ensures !opts.noClean ==> tempPaths == []
    {
      var k := FirstFailure(s, 0);
      if k < 9 {
        assert Succeeded(s, k);
        assert !Succeeded(s, 9) by {
          assert !s.host.run(StageCommand(s, k));
        }
      }
    }

    /** The destructor: removes the input MIR file and the baseline one, unless no-clean is set. */
    method Destroy()
      modifies this`removed
      ensures removed == old(removed) + (if opts.noClean then [] else [preMir, asmMir])
    {
      if !opts.noClean {
        removed := removed + [preMir, asmMir];
      }
    }
  }
}
