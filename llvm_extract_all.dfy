/**
 * The tool that writes one module per non-empty function of its input, and
 * one more for the globals: the file-name helper that reduces a module
 * identifier to its base name, and the loop that names the output files.
 *
 * Loading the module, extracting and materializing global values, and
 * writing bitcode or assembly are not part of this model; whether an output
 * file can be opened is the parameter `canWrite`, and a module that fails to
 * load is `None`.
 */
module ExtractAll {

  import opened Wrappers
  import opened Strings

  predicate IsSeparator(c: char) {
    c == '/' || c == '\\'
  }

  /** `find_last_of("/\\")`: the position of the last path separator, if any. */
  function FindLastSeparator(s: string): (r: Option<nat>)
    ensures r.Some? ==> r.value < |s| && IsSeparator(s[r.value])
    ensures r.Some? ==> forall j :: r.value < j < |s| ==> !IsSeparator(s[j])
    ensures r.None? ==> forall j :: 0 <= j < |s| ==> !IsSeparator(s[j])
  {
    if s == [] then None
    else if IsSeparator(s[|s| - 1]) then Some(|s| - 1)
    else FindLastSeparator(s[..|s| - 1])
  }

  /** `find(sub, i)`: the first occurrence of `sub` at or after `i`, if any. */
  function FindFrom(s: string, sub: string, i: nat): (r: Option<nat>)
    ensures r.Some? ==> i <= r.value && OccursAt(s, sub, r.value)
    ensures r.Some? ==> forall j :: i <= j < r.value ==> !OccursAt(s, sub, j)
    ensures r.None? ==> forall j :: i <= j ==> !OccursAt(s, sub, j)
    decreases |s| - i
  {
    if i + |sub| > |s| then None
    else if OccursAt(s, sub, i) then Some(i)
    else FindFrom(s, sub, i + 1)
  }

  /** The path component after the last separator; with none, `npos + 1` wraps to 0 and it is all of `s`. */
  function BaseName(s: string): (r: string)
    ensures forall j :: 0 <= j < |r| ==> !IsSeparator(r[j])
    ensures |r| <= |s| && s[|s| - |r|..] == r
    ensures (forall j :: 0 <= j < |s| ==> !IsSeparator(s[j])) ==> r == s
  {
    match FindLastSeparator(s)
    case None => s
    case Some(p) => s[p + 1..]
  }

  /** `fileName`: the base name, cut before its first ".ll" (kept whole when it has none). */
  function FileName(str: string): string {
    var name := BaseName(str);
    match FindFrom(name, ".ll", 0)
    case None => name
    case Some(q) => name[..q]
  }

  /**
   * The file name is a prefix of the base name that holds no separator and
   * no ".ll", and it is the whole base name exactly when that holds no
   * ".ll".
   */
  lemma FileNameFacts(str: string)
    ensures forall j :: 0 <= j < |FileName(str)| ==> !IsSeparator(FileName(str)[j])
    ensures StartsWith(BaseName(str), FileName(str))
    ensures !Contains(FileName(str), ".ll")
    ensures FileName(str) == BaseName(str) <==> !Contains(BaseName(str), ".ll")
  {
    var name := BaseName(str);
    var r := FileName(str);
    match FindFrom(name, ".ll", 0)
    case None =>
      assert r == name;
      forall i: nat | i <= |r|
        ensures !OccursAt(r, ".ll", i)
      {
      }
    case Some(q) =>
      assert r == name[..q];
      forall i: nat | i <= |r|
        ensures !OccursAt(r, ".ll", i)
      {
        OccursInPrefix(name, ".ll", q, i);
      }
      assert OccursAt(name, ".ll", q);
      assert |r| < |name|;
  }

  /** An occurrence inside a prefix is an occurrence in the whole string. */
  lemma OccursInPrefix(s: string, sub: string, q: nat, i: nat)
    requires q <= |s|
    ensures OccursAt(s[..q], sub, i) ==> i + |sub| <= q && OccursAt(s, sub, i)
  {
    if OccursAt(s[..q], sub, i) {
      assert s[..q][i..i + |sub|] == s[i..i + |sub|];
    }
  }

  /** Taking the file name of a file name changes nothing. */
  lemma FileNameIdempotent(str: string)
    ensures FileName(FileName(str)) == FileName(str)
  {
    FileNameFacts(str);
    var r := FileName(str);
    assert BaseName(r) == r;
  }

  predicate NoSeparator(s: string) {
    forall j :: 0 <= j < |s| ==> !IsSeparator(s[j])
  }

  predicate NoDot(s: string) {
    forall j :: 0 <= j < |s| ==> s[j] != '.'
  }

  lemma {:induction false} LastSeparatorBeforeBase(dir: string, b: string)
    requires NoSeparator(b)
    ensures FindLastSeparator(dir + "/" + b) == Some(|dir|)
    decreases |b|
  {
    var s := dir + "/" + b;
    if b != [] {
      assert s[|s| - 1] == b[|b| - 1];
      assert s[..|s| - 1] == dir + "/" + b[..|b| - 1];
      LastSeparatorBeforeBase(dir, b[..|b| - 1]);
    }
  }

  /**
   * The directory goes, and the name is cut at the first ".ll", even when
   * more follows it (`dir/b.llvm.ll` gives `b`).
   */
  lemma FileNameOfPath(dir: string, stem: string, rest: string)
    requires NoSeparator(stem) && NoSeparator(rest) && NoDot(stem)
    ensures FileName(dir + "/" + stem + ".ll" + rest) == stem
  {
    var b := stem + ".ll" + rest;
    assert dir + "/" + stem + ".ll" + rest == dir + "/" + b;
    BaseNameOfPath(dir, b);
    FirstExtension(stem, rest);
    assert b[..|stem|] == stem;
  }

  lemma BaseNameOfPath(dir: string, b: string)
    requires NoSeparator(b)
    ensures BaseName(dir + "/" + b) == b
  {
    LastSeparatorBeforeBase(dir, b);
    assert (dir + "/" + b)[|dir| + 1..] == b;
  }

  lemma FirstExtension(stem: string, rest: string)
    requires NoDot(stem)
    ensures FindFrom(stem + ".ll" + rest, ".ll", 0) == Some(|stem|)
  {
    var b := stem + ".ll" + rest;
    assert b[|stem|..|stem| + 3] == ".ll";
    assert OccursAt(b, ".ll", |stem|);
    forall j | 0 <= j < |stem|
      ensures !OccursAt(b, ".ll", j)
    {
      assert b[j] == stem[j];
    }
    var r := FindFrom(b, ".ll", 0);
  }

  /** A name with neither directory nor dot is its own file name. */
  lemma FileNameOfStem(stem: string)
    requires NoSeparator(stem) && NoDot(stem)
    ensures FileName(stem) == stem
  {
    assert BaseName(stem) == stem;
    forall j: nat
      ensures !OccursAt(stem, ".ll", j)
    {
      if j < |stem| {
        assert stem[j] != '.';
      }
    }
  }

  /** A function of the input module: `empty` when it has no body (a declaration). */
  datatype Function = Function(name: string, empty: bool)

  datatype Module = Module(identifier: string, functions: seq<Function>, globals: nat)

  /** What goes before every output name: the module's file name and a dot, with `-m`. */
  function Prefix(identifier: string, prependModule: bool): string {
    if prependModule then FileName(identifier) + "." else ""
  }

  function OutName(identifier: string, prependModule: bool, stem: string): (r: string)
    ensures StartsWith(r, Prefix(identifier, prependModule))
    ensures |r| >= 3 && r[|r| - 3..] == ".ll"
  {
    Prefix(identifier, prependModule) + stem + ".ll"
  }

  /** The output names of the non-empty functions, in module order. */
  function FunctionOutputs(identifier: string, fs: seq<Function>, prependModule: bool): seq<string> {
    if fs == [] then []
    else
      var f := fs[|fs| - 1];
      FunctionOutputs(identifier, fs[..|fs| - 1], prependModule) + (if f.empty then [] else [OutName(identifier, prependModule, f.name)])
  }

  /** Every output the tool means to write, the globals module last. */
  function Outputs(m: Module, prependModule: bool): seq<string> {
    FunctionOutputs(m.identifier, m.functions, prependModule) +
      (if m.globals > 0 then [OutName(m.identifier, prependModule, "globals")] else [])
  }

  /** One output name, built by successive appends as `main` builds it. */
  method BuildOutName(identifier: string, prependModule: bool, stem: string) returns (outName: string)
    ensures outName == OutName(identifier, prependModule, stem)
  {
    outName := "";
    if prependModule {
      outName := outName + FileName(identifier);
      outName := outName + ".";
    }
    outName := outName + stem;
    outName := outName + ".ll";
  }

  /**
   * The loop over the functions: skips the empty ones and stops at the first
   * file it cannot open. What it writes is a prefix of `FunctionOutputs`.
   */
  method WriteFunctions(identifier: string, fs: seq<Function>, prependModule: bool, canWrite: string -> bool)
    returns (ok: bool, written: seq<string>)
    ensures written <= FunctionOutputs(identifier, fs, prependModule)
    ensures forall k :: 0 <= k < |written| ==> canWrite(written[k])
    ensures ok <==> written == FunctionOutputs(identifier, fs, prependModule)
    ensures !ok ==> (|written| < |FunctionOutputs(identifier, fs, prependModule)| &&
                     !canWrite(FunctionOutputs(identifier, fs, prependModule)[|written|]))
  {
    written := [];
    for i := 0 to |fs|
      invariant written == FunctionOutputs(identifier, fs[..i], prependModule)
      invariant forall k :: 0 <= k < |written| ==> canWrite(written[k])
    {
      FunctionOutputsStep(identifier, fs, i, prependModule);
      if fs[i].empty {
        continue;
      }
      var outName := BuildOutName(identifier, prependModule, fs[i].name);
      if !canWrite(outName) {
        StopsAt(identifier, fs, i, prependModule);
        return false, written;
      }
      written := written + [outName];
    }
    assert fs[..|fs|] == fs;
    ok := true;
  }

  /**
   * `main`: writes the non-empty functions' modules, then the globals
   * module when there are globals; status 1 when the input does not load or
   * an output file cannot be opened, which ends the run.
   */
  method Run(m: Option<Module>, prependModule: bool, canWrite: string -> bool) returns (status: int, written: seq<string>)
    ensures m.None? ==> status == 1 && written == []
    ensures m.Some? ==> written <= Outputs(m.value, prependModule)
    ensures forall k :: 0 <= k < |written| ==> canWrite(written[k])
    ensures status == 0 || status == 1
    ensures m.Some? ==> (status == 0 <==> written == Outputs(m.value, prependModule))
    ensures m.Some? && status == 1 ==>
      |written| < |Outputs(m.value, prependModule)| && !canWrite(Outputs(m.value, prependModule)[|written|])
  {
    if m.None? {
      return 1, [];
    }
    var mod := m.value;
    var ok;
    ok, written := WriteFunctions(mod.identifier, mod.functions, prependModule, canWrite);
    ghost var outs := FunctionOutputs(mod.identifier, mod.functions, prependModule);
    assert Outputs(mod, prependModule)[..|outs|] == outs;
    if !ok {
      return 1, written;
    }
    if mod.globals == 0 {
      assert Outputs(mod, prependModule) == written;
      return 0, written;
    }
    var outName := BuildOutName(mod.identifier, prependModule, "globals");
    if !canWrite(outName) {
      return 1, written;
    }
    written := written + [outName];
    return 0, written;
  }

  /** The outputs before a non-empty function are a proper prefix, followed by that function's name. */
  lemma StopsAt(identifier: string, fs: seq<Function>, i: nat, prependModule: bool)
    requires i < |fs| && !fs[i].empty
    ensures FunctionOutputs(identifier, fs[..i], prependModule) < FunctionOutputs(identifier, fs, prependModule)
    ensures FunctionOutputs(identifier, fs, prependModule)[|FunctionOutputs(identifier, fs[..i], prependModule)|] ==
      OutName(identifier, prependModule, fs[i].name)
  {
    var before := FunctionOutputs(identifier, fs[..i], prependModule);
    var name := OutName(identifier, prependModule, fs[i].name);
    FunctionOutputsStep(identifier, fs, i, prependModule);
    FunctionOutputsPrefix(identifier, fs, i + 1, prependModule);
    assert before + [name] <= FunctionOutputs(identifier, fs, prependModule);
  }

  /** One more function adds its output name unless it is empty. */
  lemma FunctionOutputsStep(identifier: string, fs: seq<Function>, i: nat, prependModule: bool)
    requires i < |fs|
    ensures FunctionOutputs(identifier, fs[..i + 1], prependModule) ==
      FunctionOutputs(identifier, fs[..i], prependModule) + (if fs[i].empty then [] else [OutName(identifier, prependModule, fs[i].name)])
  {
    assert fs[..i + 1][..i] == fs[..i];
  }

  lemma {:induction false} FunctionOutputsPrefix(identifier: string, fs: seq<Function>, i: nat, prependModule: bool)
    requires i <= |fs|
    ensures FunctionOutputs(identifier, fs[..i], prependModule) <= FunctionOutputs(identifier, fs, prependModule)
    decreases |fs|
  {
    if i < |fs| {
      assert fs[..|fs| - 1][..i] == fs[..i];
      FunctionOutputsPrefix(identifier, fs[..|fs| - 1], i, prependModule);
    } else {
      assert fs[..i] == fs;
    }
  }

  /** Different stems give different output names. */
  lemma OutNameInjective(identifier: string, prependModule: bool, a: string, b: string)
    requires OutName(identifier, prependModule, a) == OutName(identifier, prependModule, b)
    ensures a == b
  {
    var p := Prefix(identifier, prependModule);
    var ra, rb := OutName(identifier, prependModule, a), OutName(identifier, prependModule, b);
    assert |a| == |b|;
    assert ra[|p|..|p| + |a|] == a;
    assert rb[|p|..|p| + |b|] == b;
  }

  /** The function output `k` comes from. */
  lemma {:induction false} OutputOrigin(identifier: string, fs: seq<Function>, prependModule: bool, k: nat) returns (j: nat)
    requires k < |FunctionOutputs(identifier, fs, prependModule)|
    ensures j < |fs| && !fs[j].empty && FunctionOutputs(identifier, fs, prependModule)[k] == OutName(identifier, prependModule, fs[j].name)
    decreases |fs|
  {
    var init := fs[..|fs| - 1];
    var initOuts := FunctionOutputs(identifier, init, prependModule);
    assert FunctionOutputs(identifier, fs, prependModule) ==
      initOuts + (if fs[|fs| - 1].empty then [] else [OutName(identifier, prependModule, fs[|fs| - 1].name)]);
    if k < |initOuts| {
      j := OutputOrigin(identifier, init, prependModule, k);
      assert fs[j] == init[j];
    } else {
      j := |fs| - 1;
    }
  }

  /** There is at most one output per function. */
  lemma {:induction false} FunctionOutputsLength(identifier: string, fs: seq<Function>, prependModule: bool)
    ensures |FunctionOutputs(identifier, fs, prependModule)| <= |fs|
    decreases |fs|
  {
    if fs != [] {
      FunctionOutputsLength(identifier, fs[..|fs| - 1], prependModule);
    }
  }

  /** A non-empty function's output name is among the outputs. */
  lemma {:induction false} OutputOfFunction(identifier: string, fs: seq<Function>, prependModule: bool, j: nat)
    requires j < |fs| && !fs[j].empty
    ensures OutName(identifier, prependModule, fs[j].name) in FunctionOutputs(identifier, fs, prependModule)
    decreases |fs|
  {
    var init := fs[..|fs| - 1];
    if j < |init| {
      OutputOfFunction(identifier, init, prependModule, j);
      assert fs[j] == init[j];
    }
  }

  /** An output name belongs to a non-empty function of that stem, and each such function has one. */
  lemma FunctionOutputsMembers(identifier: string, fs: seq<Function>, prependModule: bool)
    ensures |FunctionOutputs(identifier, fs, prependModule)| <= |fs|
    ensures forall k :: 0 <= k < |FunctionOutputs(identifier, fs, prependModule)| ==>
      exists j :: 0 <= j < |fs| && !fs[j].empty && FunctionOutputs(identifier, fs, prependModule)[k] == OutName(identifier, prependModule, fs[j].name)
    ensures forall j :: 0 <= j < |fs| && !fs[j].empty ==> OutName(identifier, prependModule, fs[j].name) in FunctionOutputs(identifier, fs, prependModule)
  {
    FunctionOutputsLength(identifier, fs, prependModule);
    var outs := FunctionOutputs(identifier, fs, prependModule);
    forall k | 0 <= k < |outs|
      ensures exists j :: 0 <= j < |fs| && !fs[j].empty && outs[k] == OutName(identifier, prependModule, fs[j].name)
    {
      var j := OutputOrigin(identifier, fs, prependModule, k);
    }
    forall j | 0 <= j < |fs| && !fs[j].empty
      ensures OutName(identifier, prependModule, fs[j].name) in outs
    {
      OutputOfFunction(identifier, fs, prependModule, j);
    }
  }

  predicate Distinct(xs: seq<string>) {
    forall i, j :: 0 <= i < j < |xs| ==> xs[i] != xs[j]
  }

  predicate NamesDistinct(fs: seq<Function>) {
    forall i, j :: 0 <= i < j < |fs| ==> fs[i].name != fs[j].name
  }

  /** Functions with distinct names get distinct output files. */
  lemma {:induction false} FunctionOutputsDistinct(identifier: string, fs: seq<Function>, prependModule: bool)
    requires NamesDistinct(fs)
    ensures Distinct(FunctionOutputs(identifier, fs, prependModule))
    decreases |fs|
  {
    if fs != [] {
      var init, f := fs[..|fs| - 1], fs[|fs| - 1];
      assert NamesDistinct(init) by {
        forall i, j | 0 <= i < j < |init|
          ensures init[i].name != init[j].name
        {
          assert init[i] == fs[i] && init[j] == fs[j];
        }
      }
      FunctionOutputsDistinct(identifier, init, prependModule);
      if !f.empty {
        var initOuts := FunctionOutputs(identifier, init, prependModule);
        var name := OutName(identifier, prependModule, f.name);
        assert FunctionOutputs(identifier, fs, prependModule) == initOuts + [name];
        forall k | 0 <= k < |initOuts|
          ensures initOuts[k] != name
        {
          var j := OutputOrigin(identifier, init, prependModule, k);
          assert fs[j] == init[j];
          if initOuts[k] == name {
            OutNameInjective(identifier, prependModule, init[j].name, f.name);
          }
        }
      }
    }
  }

  predicate HasGlobalsFunction(fs: seq<Function>) {
    exists j :: 0 <= j < |fs| && !fs[j].empty && fs[j].name == "globals"
  }

  /** A non-empty function called "globals" writes the file the globals module is written to. */
  lemma GlobalsFunctionCollides(m: Module, prependModule: bool)
    requires m.globals > 0 && HasGlobalsFunction(m.functions)
    ensures !Distinct(Outputs(m, prependModule))
  {
    var fs := m.functions;
    var outs := FunctionOutputs(m.identifier, fs, prependModule);
    var g := OutName(m.identifier, prependModule, "globals");
    FunctionOutputsMembers(m.identifier, fs, prependModule);
    var j :| 0 <= j < |fs| && !fs[j].empty && fs[j].name == "globals";
    assert g in outs;
    var k :| 0 <= k < |outs| && outs[k] == g;
    var all := Outputs(m, prependModule);
    assert all == outs + [g];
    assert all[k] == all[|outs|];
  }

  /** Otherwise, functions with distinct names and the globals module all get distinct files. */
  lemma OutputsDistinct(m: Module, prependModule: bool)
    requires NamesDistinct(m.functions) && !HasGlobalsFunction(m.functions)
    ensures Distinct(Outputs(m, prependModule))
  {
    var fs := m.functions;
    var outs := FunctionOutputs(m.identifier, fs, prependModule);
    var g := OutName(m.identifier, prependModule, "globals");
    FunctionOutputsDistinct(m.identifier, fs, prependModule);
    FunctionOutputsMembers(m.identifier, fs, prependModule);
    if m.globals > 0 {
      forall k | 0 <= k < |outs|
        ensures outs[k] != g
      {
        var j :| 0 <= j < |fs| && !fs[j].empty && outs[k] == OutName(m.identifier, prependModule, fs[j].name);
        if outs[k] == g {
          OutNameInjective(m.identifier, prependModule, fs[j].name, "globals");
        }
      }
      var all := Outputs(m, prependModule);
      assert all == outs + [g];
      forall a, b | 0 <= a < b < |all|
        ensures all[a] != all[b]
      {
        if b < |outs| {
          assert all[a] == outs[a] && all[b] == outs[b];
        } else {
          assert all[a] == outs[a];
        }
      }
    } else {
      assert Outputs(m, prependModule) == outs;
    }
  }
}
