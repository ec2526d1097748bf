/**
 * What the toolchain digest does not depend on: stages the toolchain does not need, arguments it does
 * not reference, files it does not copy, and where base images are pulled from.
 */
module Noninterference {
  import opened Common
  import opened Ordering
  import opened Toolchain

  /** `q` has every stage `p`'s toolchain needs, word for word. */
  ghost predicate SameStages(p: Project, q: Project)
    requires WellFormed(p)
  {
    forall n | n in Needed(p) :: n in q.docker.stages && q.docker.stages[n] == p.docker.stages[n]
  }

  /** No stage of `q` takes the name of an image that a stage `p` needs is built on. */
  ghost predicate NoCapture(p: Project, q: Project)
    requires WellFormed(p)
  {
    forall n | n in Needed(p) ::
      var base := BaseOf(p.lexer, p.docker.stages[n][0]);
      base.Ok? && base.value !in p.docker.stages ==> base.value !in q.docker.stages
  }

  ghost predicate SamePath(p: Project, q: Project, source: string) {
    && source in p.tree.expand && source in q.tree.expand
    && q.tree.expand[source] == p.tree.expand[source]
    && forall f | f in p.tree.expand[source] ::
         f in p.tree.files && f in q.tree.files && q.tree.files[f] == p.tree.files[f]
  }

  ghost predicate SameCopies(p: Project, q: Project, line: string) {
    var effect := LineEffect(p, line);
    effect.Ok? && effect.value.Copies? ==> forall s | s in effect.value.paths :: SamePath(p, q, s)
  }

  /** Every path a needed stage copies holds the same files, with the same bytes and modes. */
  ghost predicate SameFiles(p: Project, q: Project)
    requires WellFormed(p)
  {
    forall n, line | n in Needed(p) && line in p.docker.stages[n][1..] :: SameCopies(p, q, line)
  }

  /** Every referenced argument but the registry has the same value; the registry's names no variable. */
  ghost predicate SameArguments(p: Project, q: Project, refs: set<string>) {
    && (forall n | n in refs && n != BASE_REGISTRY ::
          && (n in p.docker.globals <==> n in q.docker.globals)
          && (n in p.docker.globals ==> q.docker.globals[n] == p.docker.globals[n]))
    && (BASE_REGISTRY in refs ==>
          && (BASE_REGISTRY in p.docker.globals ==> p.lexer.vars(p.docker.globals[BASE_REGISTRY]) == {})
          && (BASE_REGISTRY in q.docker.globals ==> p.lexer.vars(q.docker.globals[BASE_REGISTRY]) == {}))
  }

  /** `q` is `p` as far as `p`'s toolchain goes; what else it holds is its own affair. */
  ghost predicate SameInputs(p: Project, q: Project)
    requires WellFormed(p) && WellFormed(q)
  {
    && q.lexer == p.lexer && q.docker.syntax == p.docker.syntax
    && SameStages(p, q) && SameFiles(p, q)
    && forall refs | IsReferenced(p, refs) :: SameArguments(p, q, refs)
  }

  ghost predicate Agree(p: Project, q: Project)
    requires WellFormed(p) && WellFormed(q)
  {
    SameInputs(p, q) && NoCapture(p, q)
  }

  // --- stages -----------------------------------------------------------------------------------

  lemma NeededClosed(p: Project, n: string)
    requires WellFormed(p) && n in Needed(p)
    ensures Deps(p, n) <= Needed(p)
  {
    forall d | d in Deps(p, n) ensures d in Needed(p) {
      var path :| IsPath(p, path) && path[0] == ROOT && path[|path| - 1] == n;
      ExtendPath(p, path, d);
      assert Reaches(p, ROOT, d);
    }
  }

  lemma ExtendPath(p: Project, path: seq<string>, d: string)
    requires WellFormed(p) && IsPath(p, path) && d in Deps(p, path[|path| - 1])
    ensures IsPath(p, path + [d])
  {
    var longer := path + [d];
    forall i | 0 <= i < |longer| - 1 ensures longer[i + 1] in Deps(p, longer[i]) {
      if i < |path| - 1 { assert path[i + 1] in Deps(p, path[i]); }
    }
  }

  lemma SameFirstProblem(p: Project, q: Project, paths: seq<string>)
    requires FirstProblem(p.tree, paths).None? && forall s | s in paths :: SamePath(p, q, s)
    ensures FirstProblem(q.tree, paths).None?
  {
    if paths != [] {
      assert paths[|paths| - 1] in paths;
      SameFirstProblem(p, q, paths[..|paths| - 1]);
    }
  }

  /** Only the stage a line names matters to its shape. */
  lemma SameShape(p: Project, q: Project, line: string)
    requires q.lexer == p.lexer && LineShape(p, line).Ok?
    ensures LineShape(p, line).value.DependsOn? ==> LineShape(p, line).value.stage in p.docker.stages
    ensures (LineShape(p, line).value.DependsOn? ==> LineShape(p, line).value.stage in q.docker.stages) ==>
              LineShape(q, line) == LineShape(p, line)
  {
    hide Upper, Contains, FromFlag, CopiedPaths;
  }

  /** A line of a needed stage means the same in both projects. */
  lemma SameLine(p: Project, q: Project, n: string, line: string)
    requires WellFormed(p) && WellFormed(q) && Agree(p, q) && Sound(p)
    requires n in Needed(p) && line in p.docker.stages[n][1..]
    ensures LineEffect(q, line) == LineEffect(p, line)
  {
    hide LineShape, IsPath, SameArguments, SamePath;
    assert Clean(p, n) && SameCopies(p, q, line);
    NeededClosed(p, n);
    var effect := LineEffect(p, line);
    SameShape(p, q, line);
    match effect.value
    case DependsOn(stage) =>
      DependencyLine(p, n, line, stage);
      assert stage in Needed(p) && stage in q.docker.stages;
    case Copies(paths) => SameFirstProblem(p, q, paths);
    case Nothing =>
  }

  lemma SameStage(p: Project, q: Project, n: string)
    requires WellFormed(p) && WellFormed(q) && Agree(p, q) && Sound(p) && n in Needed(p)
    ensures n in q.docker.stages && Clean(q, n) && Deps(q, n) == Deps(p, n)
    ensures LineFiles(q, q.docker.stages[n][1..]) == LineFiles(p, p.docker.stages[n][1..])
  {
    hide LineEffect, BaseOf, IsPath, SameArguments;
    var lines := p.docker.stages[n][1..];
    assert Clean(p, n);
    NeededClosed(p, n);
    forall line | line in lines ensures LineEffect(q, line) == LineEffect(p, line) && FilesOfLine(q, line) == FilesOfLine(p, line) {
      SameLine(p, q, n, line);
      assert SameCopies(p, q, line);
    }
    SameLineDeps(p, q, n);
    assert BaseDeps(q, p.docker.stages[n][0]) == BaseDeps(p, p.docker.stages[n][0]) by {
      GoodBase(p, n);
      GoodBase(q, n);
    }
  }

  lemma SameLineDeps(p: Project, q: Project, n: string)
    requires WellFormed(p) && WellFormed(q) && Agree(p, q) && Sound(p) && n in Needed(p)
    ensures LineDeps(q, p.docker.stages[n][1..]) == LineDeps(p, p.docker.stages[n][1..])
  {
    hide LineEffect, BaseOf, IsPath, SameArguments, Clean;
    var lines := p.docker.stages[n][1..];
    NeededClosed(p, n);
    forall d ensures d in LineDeps(q, lines) <==> d in LineDeps(p, lines) {
      if d in LineDeps(q, lines) {
        var line :| line in lines && LineEffect(q, line) == Ok(DependsOn(d));
        SameLine(p, q, n, line);
        DependencyKnown(p, line, d);
      }
      if d in LineDeps(p, lines) {
        var line :| line in lines && LineEffect(p, line) == Ok(DependsOn(d));
        SameLine(p, q, n, line);
        assert d in Deps(p, n) && d in Needed(p);
      }
    }
  }

  lemma DependencyKnown(p: Project, line: string, d: string)
    requires LineEffect(p, line) == Ok(DependsOn(d))
    ensures d in p.docker.stages
  {
  }

  lemma SameNeeded(p: Project, q: Project)
    requires WellFormed(p) && WellFormed(q) && Agree(p, q) && Sound(p)
    ensures Needed(q) == Needed(p) && Sound(q)
  {
    hide Clean, Deps, SameArguments, SameStages, SameFiles;
    forall n | n in Needed(p) ensures n in q.docker.stages && Deps(q, n) == Deps(p, n) && Clean(q, n) {
      SameStage(p, q, n);
    }
    RootNeeded(p);
    forall n | n in Needed(q) ensures n in Needed(p) {
      var path :| IsPath(q, path) && path[0] == ROOT && path[|path| - 1] == n;
      forall m | m in Needed(p) ensures Deps(q, m) <= Needed(p) {
        NeededClosed(p, m);
      }
      ReachesEnd(q, path, Needed(p));
    }
    forall n | n in Needed(p) ensures n in Needed(q) {
      var path :| IsPath(p, path) && path[0] == ROOT && path[|path| - 1] == n;
      PathCarries(p, q, path);
    }
  }

  lemma RootNeeded(p: Project)
    requires WellFormed(p) && ROOT in p.docker.stages
    ensures ROOT in Needed(p)
  {
    ReachesSelf(p, ROOT);
  }

  /** A path of needed stages is a path in the other project too. */
  lemma PathCarries(p: Project, q: Project, path: seq<string>)
    requires WellFormed(p) && WellFormed(q) && IsPath(p, path) && path[0] == ROOT
    requires forall n | n in Needed(p) :: n in q.docker.stages && Deps(q, n) == Deps(p, n)
    ensures IsPath(q, path)
  {
    hide Deps;
    forall i | 0 <= i < |path| ensures path[i] in Needed(p) {
      var head := path[..i + 1];
      assert IsPath(p, head) by {
        forall j | 0 <= j < |head| - 1 ensures head[j + 1] in Deps(p, head[j]) {
          assert path[j + 1] in Deps(p, path[j]);
        }
      }
      assert Reaches(p, ROOT, path[i]);
    }
    forall n | n in path ensures n in q.docker.stages {
    }
    forall i | 0 <= i < |path| - 1 ensures path[i + 1] in Deps(q, path[i]) {
    }
  }

  // --- arguments and files ----------------------------------------------------------------------

  /** The worklist finds the same variables when the values it looks at agree. */
  lemma SameReferenced(p: Project, q: Project, refs: set<string>)
    requires WellFormed(p) && WellFormed(q) && q.lexer == p.lexer
    requires NeededRecipes(q) == NeededRecipes(p)
    requires IsReferenced(p, refs) && SameArguments(p, q, refs)
    ensures IsReferenced(q, refs)
  {
    hide NeededRecipes;
    var lx, texts := p.lexer, Lines(NeededRecipes(p));
    var here, there := p.docker.globals, q.docker.globals;
    assert Closed(lx, there, texts, refs);
    forall other: set<string> | Closed(lx, there, texts, other) ensures refs <= other {
      assert Closed(lx, here, texts, refs * other);
      assert refs <= refs * other;
    }
  }

  lemma SameFileSet(p: Project, q: Project)
    requires WellFormed(p) && WellFormed(q) && Agree(p, q) && Sound(p) && Needed(q) == Needed(p)
    ensures Files(q, Needed(q)) == Files(p, Needed(p))
  {
    hide LineFiles, Clean, Deps, Reaches, SameArguments;
    forall n | n in Needed(p) ensures LineFiles(q, q.docker.stages[n][1..]) == LineFiles(p, p.docker.stages[n][1..]) {
      SameStage(p, q, n);
    }
  }

  lemma SameContents(p: Project, q: Project, f: string)
    requires WellFormed(p) && WellFormed(q) && SameFiles(p, q) && f in Files(p, Needed(p))
    ensures f in p.tree.files && f in q.tree.files && q.tree.files[f] == p.tree.files[f]
  {
    hide LineEffect, Reaches;
    var n :| n in Needed(p) && f in LineFiles(p, p.docker.stages[n][1..]);
    var line :| line in p.docker.stages[n][1..] && f in FilesOfLine(p, line);
    assert SameCopies(p, q, line);
  }

  /** Two projects that agree on what the toolchain needs hash the same input, whatever else they hold
      and wherever base images come from. */
  lemma DigestIgnoresTheRest(p: Project, q: Project, out: Output)
    requires WellFormed(p) && WellFormed(q) && Agree(p, q) && IsOutput(p, out)
    ensures IsOutput(q, out)
  {
    hide Reaches, Clean, IsReferenced, Files;
    SameNeeded(p, q);
    assert NeededRecipes(q) == NeededRecipes(p);
    var refs :| IsReferenced(p, refs) && out.args == Arguments(p.docker.globals, refs);
    SameReferenced(p, q, refs);
    assert Arguments(q.docker.globals, refs) == Arguments(p.docker.globals, refs);
    SameFileSet(p, q);
    forall e | e in out.files ensures e.path in q.tree.files && q.tree.files[e.path] == File(e.executable, e.content) {
      ListedPath(p.tree, Files(p, Needed(p)), out.files, e);
      SameContents(p, q, e.path);
    }
  }

  lemma ListedPath(t: Tree, paths: set<string>, files: seq<Entry>, e: Entry)
    requires IsFileList(t, paths, files) && e in files
    ensures e.path in paths
  {
    var listed := seq(|files|, (i: nat) requires i < |files| => files[i].path);
    var i :| 0 <= i < |files| && files[i] == e;
    assert listed[i] == e.path;
  }

  /** A project has only one digest input. */
  lemma OutputUnique(p: Project, a: Output, b: Output)
    requires WellFormed(p) && IsOutput(p, a) && IsOutput(p, b)
    ensures a == b
  {
    var refs :| IsReferenced(p, refs) && a.args == Arguments(p.docker.globals, refs);
    var refs' :| IsReferenced(p, refs') && b.args == Arguments(p.docker.globals, refs');
    LeastUnique(p.lexer, p.docker.globals, Lines(NeededRecipes(p)), refs, refs');
    FileListUnique(p.tree, Files(p, Needed(p)), a.files, b.files);
  }

  lemma FileListUnique(t: Tree, paths: set<string>, a: seq<Entry>, b: seq<Entry>)
    requires IsFileList(t, paths, a) && IsFileList(t, paths, b)
    ensures a == b
  {
    var x, y := seq(|a|, (i: nat) requires i < |a| => a[i].path), seq(|b|, (i: nat) requires i < |b| => b[i].path);
    SortedUnique(paths, x, y);
    assert |a| == |x| == |y| == |b|;
    forall i | 0 <= i < |a| ensures a[i] == b[i] {
      assert x[i] == y[i] && a[i] in a && b[i] in b;
    }
  }

  /** A stage named like the base image of a needed stage is needed itself. */
  lemma NameCapture(p: Project, n: string, base: string)
    requires WellFormed(p) && n in Needed(p)
    requires BaseOf(p.lexer, p.docker.stages[n][0]) == Ok(base) && base in p.docker.stages
    ensures base in Needed(p)
  {
    GoodBase(p, n);
    NeededClosed(p, n);
  }

  /** With the inputs the same, other stages leave the digest's input alone exactly when none of them
      takes the name of a needed stage's base image; one that does changes it or makes the search fail. */
  lemma DigestSameExactly(p: Project, q: Project, out: Output)
    requires WellFormed(p) && WellFormed(q) && SameInputs(p, q) && IsOutput(p, out)
    ensures IsOutput(q, out) <==> NoCapture(p, q)
  {
    hide Reaches, Clean, IsReferenced, Files, Deps, SameFiles, SameArguments, IsFileList;
    if NoCapture(p, q) {
      DigestIgnoresTheRest(p, q, out);
    }
    if IsOutput(q, out) {
      assert NeededRecipes(p).Keys == Needed(p) && NeededRecipes(q).Keys == Needed(q);
      forall n | n in Needed(p)
        ensures var base := BaseOf(p.lexer, p.docker.stages[n][0]);
                base.Ok? && base.value !in p.docker.stages ==> base.value !in q.docker.stages
      {
        var base := BaseOf(p.lexer, p.docker.stages[n][0]);
        if base.Ok? && base.value in q.docker.stages { NameCapture(q, n, base.value); }
      }
    }
  }

  /** So two projects with the same inputs hash the same input exactly when there is no such stage. */
  lemma OutputsEqualExactly(p: Project, q: Project, a: Output, b: Output)
    requires WellFormed(p) && WellFormed(q) && SameInputs(p, q) && IsOutput(p, a) && IsOutput(q, b)
    ensures a == b <==> NoCapture(p, q)
  {
    hide SameInputs, IsOutput, NoCapture;
    DigestSameExactly(p, q, a);
    if IsOutput(q, a) { OutputUnique(q, a, b); }
  }

  // --- an instance ------------------------------------------------------------------------------

  const DEBIAN_TOOLCHAIN := "FROM debian AS toolchain"
  const OWN_DEBIAN := "FROM scratch AS debian"

  function ExampleWords(line: string): Option<seq<string>> {
    if line == DEBIAN_TOOLCHAIN then Some(["FROM", "debian", "AS", "toolchain"])
    else if line == OWN_DEBIAN then Some(["FROM", "scratch", "AS", "debian"])
    else None
  }

  const EXAMPLE_LEXER := Lexer(ExampleWords, (line: string) => None, (line: string) => {})

  function Example(stages: map<string, seq<string>>): Project {
    Project(EXAMPLE_LEXER, Dockerfile(None, map[], stages), Tree(map[], map[]))
  }

  lemma ExampleBases()
    ensures BaseOf(EXAMPLE_LEXER, DEBIAN_TOOLCHAIN) == Ok("debian") && BaseOf(EXAMPLE_LEXER, OWN_DEBIAN) == Ok("scratch")
  {
    assert "debian"[0] != "--"[0] && "scratch"[0] != "--"[0];
    assert !IsFlag("debian") && !IsFlag("scratch");
  }

  /** A toolchain built on an image, and the same Dockerfile with a stage of that image's name: the inputs
      are the same and both are sound, but the stage is captured and the digest's input another one. */
  lemma CaptureExample()
    ensures var p := Example(map["toolchain" := [DEBIAN_TOOLCHAIN]]);
            var q := Example(map["toolchain" := [DEBIAN_TOOLCHAIN], "debian" := [OWN_DEBIAN]]);
            WellFormed(p) && WellFormed(q) && Sound(p) && Sound(q) && SameInputs(p, q) && !NoCapture(p, q)
  {
    hide BaseOf, LineEffect, Reaches, IsReferenced;
    var p := Example(map["toolchain" := [DEBIAN_TOOLCHAIN]]);
    var q := Example(map["toolchain" := [DEBIAN_TOOLCHAIN], "debian" := [OWN_DEBIAN]]);
    ExampleBases();
    RootNeeded(p);
    assert Clean(p, "toolchain") && Clean(q, "toolchain") && Clean(q, "debian");
    assert p.docker.stages["toolchain"] == [DEBIAN_TOOLCHAIN] == q.docker.stages["toolchain"];
    assert [DEBIAN_TOOLCHAIN][1..] == [] && [OWN_DEBIAN][1..] == [];
  }
}
