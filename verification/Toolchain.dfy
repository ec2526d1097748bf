/**
 * ci/toolchain-inputs.py: which stages, build arguments and files decide the toolchain image. A
 * recursive search over Dockerfile stages fills a shared map, a worklist grows the set of referenced
 * variables, and both results go into the digest (Framing.dfy).
 */
module Toolchain {
  import opened Common
  import opened Ordering

  /** What the text of a line says: `shlex.split`, `split(maxsplit=1)` and the variables it names. */
  datatype Lexer = Lexer(
    words: string -> Option<seq<string>>,
    cut: string -> Option<(string, string)>,
    vars: string -> set<string>)

  /** A parsed Dockerfile: the syntax directive, `ARG`s before the first `FROM`, the named stages. */
  datatype Dockerfile = Dockerfile(syntax: Option<string>, globals: map<string, string>, stages: map<string, seq<string>>)

  datatype File = File(executable: bool, content: seq<char>)

  /** The work tree: the files at or below each existing path, and each file. */
  datatype Tree = Tree(expand: map<string, set<string>>, files: map<string, File>)

  datatype Project = Project(lexer: Lexer, docker: Dockerfile, tree: Tree)

  /** A stage's section starts with its `FROM` line; a path expands to files that can be read. */
  ghost predicate WellFormed(p: Project) {
    && (forall n | n in p.docker.stages :: p.docker.stages[n] != [])
    && (forall s, f | s in p.tree.expand && f in p.tree.expand[s] :: f in p.tree.files)
  }

  datatype Problem =
    | UnknownStage(name: string)
    | Unsplittable(line: string)
    | NoBase(line: string)
    | RunMount
    | UnnamedStage(dependency: string)
    | NotLiteral(source: string)
    | MissingInput(source: string)

  const ROOT := "toolchain"
  const BASE_REGISTRY := "BASE_REGISTRY"

  // ---------------------------------------------------------------------------------------------
  // One line
  // ---------------------------------------------------------------------------------------------

  function UpperChar(c: char): char {
    if 'a' <= c <= 'z' then c - 'a' + 'A' else c
  }

  function Upper(s: string): string {
    seq(|s|, (i: nat) requires i < |s| => UpperChar(s[i]))
  }

  predicate Contains(text: string, part: string) {
    exists i | 0 <= i <= |text| :: part <= text[i..]
  }

  predicate IsFlag(word: string) {
    "--" <= word
  }

  function FirstArgument(words: seq<string>): Option<string> {
    if words == [] then None
    else if !IsFlag(words[0]) then Some(words[0])
    else FirstArgument(words[1..])
  }

  /** The image or stage a `FROM` line builds on. */
  function BaseOf(lx: Lexer, line: string): Result<string, Problem> {
    match lx.words(line)
    case None => Err(Unsplittable(line))
    case Some(words) =>
      var base := FirstArgument(if words == [] then [] else words[1..]);
      if base.None? then Err(NoBase(line)) else Ok(base.value)
  }

  function FromFlag(words: seq<string>): Option<string> {
    if words == [] then None
    else if "--from=" <= words[0] then Some(words[0][|"--from="|..])
    else FromFlag(words[1..])
  }

  /** What is copied: every argument but the last, which is the destination. */
  function CopiedPaths(words: seq<string>): seq<string> {
    var args := Filter(words, (w: string) => !IsFlag(w));
    if args == [] then [] else args[..|args| - 1]
  }

  predicate IsLiteral(source: string) {
    (forall c | c in source :: c !in "$*?[<") && !Contains(source, "://")
  }

  function SourceProblem(t: Tree, source: string): Option<Problem> {
    if !IsLiteral(source) then Some(NotLiteral(source))
    else if source !in t.expand then Some(MissingInput(source))
    else None
  }

  function FirstProblem(t: Tree, paths: seq<string>): Option<Problem> {
    if paths == [] then None
    else
      var before := FirstProblem(t, paths[..|paths| - 1]);
      if before.Some? then before else SourceProblem(t, paths[|paths| - 1])
  }

  datatype Effect = Nothing | DependsOn(stage: string) | Copies(paths: seq<string>)

  /** What a line asks for, before its paths are looked up. */
  function LineShape(p: Project, line: string): Result<Effect, Problem> {
    match p.lexer.cut(line)
    case None => Err(Unsplittable(line))
    case Some((command, args)) =>
      if Upper(command) == "RUN" && Contains(args, "--mount=") then Err(RunMount)
      else if Upper(command) !in {"COPY", "ADD"} then Ok(Nothing)
      else
        match p.lexer.words(args)
        case None => Err(Unsplittable(args))
        case Some(words) =>
          match FromFlag(words)
          case Some(stage) => if stage in p.docker.stages then Ok(DependsOn(stage)) else Err(UnnamedStage(stage))
          case None => Ok(Copies(CopiedPaths(words)))
  }

  function LineEffect(p: Project, line: string): Result<Effect, Problem> {
    var shape := LineShape(p, line);
    if shape.Ok? && shape.value.Copies? && FirstProblem(p.tree, shape.value.paths).Some?
    then Err(FirstProblem(p.tree, shape.value.paths).value)
    else shape
  }

  // ---------------------------------------------------------------------------------------------
  // The graph of stages
  // ---------------------------------------------------------------------------------------------

  /** No line of the stage makes the search fail. */
  ghost predicate Clean(p: Project, name: string)
    requires WellFormed(p) && name in p.docker.stages
  {
    var recipe := p.docker.stages[name];
    && BaseOf(p.lexer, recipe[0]).Ok?
    && forall line | line in recipe[1..] :: LineEffect(p, line).Ok?
  }

  ghost function BaseDeps(p: Project, line: string): set<string> {
    var base := BaseOf(p.lexer, line);
    if base.Ok? && base.value in p.docker.stages then {base.value} else {}
  }

  ghost function LineDeps(p: Project, lines: seq<string>): set<string> {
    set line, n | line in lines && n in p.docker.stages && LineEffect(p, line) == Ok(DependsOn(n)) :: n
  }

  /** The stages a stage is built from: its `FROM`, and every `--from` of its `COPY` and `ADD` lines. */
  ghost function Deps(p: Project, name: string): (r: set<string>)
    requires WellFormed(p) && name in p.docker.stages
    ensures r <= p.docker.stages.Keys
  {
    BaseDeps(p, p.docker.stages[name][0]) + LineDeps(p, p.docker.stages[name][1..])
  }

  ghost function PathFiles(t: Tree, paths: seq<string>): set<string> {
    set s, f | s in paths && s in t.expand && f in t.expand[s] :: f
  }

  ghost function FilesOfLine(p: Project, line: string): set<string> {
    var effect := LineEffect(p, line);
    if effect.Ok? && effect.value.Copies? then PathFiles(p.tree, effect.value.paths) else {}
  }

  ghost function LineFiles(p: Project, lines: seq<string>): set<string> {
    set line, f | line in lines && f in FilesOfLine(p, line) :: f
  }

  /** The files a set of stages copies from the work tree. */
  ghost function Files(p: Project, names: set<string>): set<string> {
    set n, f | n in names && n in p.docker.stages && |p.docker.stages[n]| > 0 && f in LineFiles(p, p.docker.stages[n][1..]) :: f
  }

  /** `path` follows dependencies from stage to stage. */
  ghost predicate IsPath(p: Project, path: seq<string>)
    requires WellFormed(p)
  {
    && path != []
    && (forall n | n in path :: n in p.docker.stages)
    && forall i | 0 <= i < |path| - 1 :: path[i + 1] in Deps(p, path[i])
  }

  ghost predicate Reaches(p: Project, from: string, to: string)
    requires WellFormed(p)
  {
    exists path :: IsPath(p, path) && path[0] == from && path[|path| - 1] == to
  }

  lemma ReachesSelf(p: Project, n: string)
    requires WellFormed(p) && n in p.docker.stages
    ensures Reaches(p, n, n)
  {
    assert IsPath(p, [n]);
  }

  lemma ReachesThrough(p: Project, a: string, b: string, c: string)
    requires WellFormed(p) && a in p.docker.stages && b in Deps(p, a) && Reaches(p, b, c)
    ensures Reaches(p, a, c)
  {
    var path :| IsPath(p, path) && path[0] == b && path[|path| - 1] == c;
    assert IsPath(p, [a] + path);
  }

  lemma {:induction false} ReachesEnd(p: Project, path: seq<string>, s: set<string>)
    requires WellFormed(p) && IsPath(p, path) && path[0] in s
    requires forall n | n in s && n in p.docker.stages :: Deps(p, n) <= s
    ensures path[|path| - 1] in s
  {
    if |path| > 1 {
      assert path[1] in Deps(p, path[0]);
      assert IsPath(p, path[1..]) by {
        forall i | 0 <= i < |path[1..]| - 1 ensures path[1..][i + 1] in Deps(p, path[1..][i]) {
          assert path[i + 2] in Deps(p, path[i + 1]);
        }
      }
      ReachesEnd(p, path[1..], s);
    }
  }

  // ---------------------------------------------------------------------------------------------
  // The search
  // ---------------------------------------------------------------------------------------------

  /** Everything selected since `before`, other than `open`, is clean, closed and reached from `from`. */
  ghost predicate Explored(p: Project, before: set<string>, selected: set<string>, from: string, open: set<string>)
    requires WellFormed(p)
  {
    && before <= selected <= p.docker.stages.Keys
    && (forall n | n in selected - before :: Reaches(p, from, n))
    && (forall n | n in selected - before - open :: Clean(p, n) && Deps(p, n) <= selected)
  }

  /** A finished search from `dep` inside an unfinished one from `name`. */
  lemma ExploredThrough(p: Project, before: set<string>, mid: set<string>, after: set<string>, name: string, dep: string)
    requires WellFormed(p) && name in p.docker.stages && dep in Deps(p, name) && name in mid
    requires Explored(p, before, mid, name, {name}) && Explored(p, mid, after, dep, {})
    ensures Explored(p, before, after, name, {name})
    ensures Files(p, after - before - {name}) == Files(p, mid - before - {name}) + Files(p, after - mid)
  {
    forall n | n in after - before ensures Reaches(p, name, n) {
      if n !in mid { ReachesThrough(p, name, dep, n); }
    }
    assert after - before - {name} == (mid - before - {name}) + (after - mid);
  }

  lemma Shrinks(stages: set<string>, before: set<string>, after: set<string>)
    requires before <= after
    ensures |stages - after| <= |stages - before|
  {
    SubsetSize(stages - after, stages - before);
  }

  lemma ShrinksBy(stages: set<string>, before: set<string>, after: set<string>, n: string)
    requires before <= after && n in stages && n in after && n !in before
    ensures |stages - after| < |stages - before|
  {
    SubsetSize(stages - after, (stages - before) - {n});
  }

  lemma {:induction false} SubsetSize(a: set<string>, b: set<string>)
    requires a <= b
    ensures |a| <= |b|
  {
    if a != {} {
      var x :| x in a;
      SubsetSize(a - {x}, b - {x});
    }
  }

  lemma LinesSplit(p: Project, lines: seq<string>, line: string)
    ensures LineDeps(p, lines + [line]) == LineDeps(p, lines) + LineDeps(p, [line])
    ensures LineFiles(p, lines + [line]) == LineFiles(p, lines) + FilesOfLine(p, line)
  {
    hide LineEffect, FilesOfLine;
    assert forall x :: x in lines + [line] <==> x in lines || x == line;
  }

  class Search {
    const project: Project
    var selected: map<string, seq<string>>
    var sources: set<string>

    ghost predicate Valid()
      reads this
    {
      && WellFormed(project)
      && forall n | n in selected :: n in project.docker.stages && selected[n] == project.docker.stages[n]
    }

    constructor (project: Project)
      requires WellFormed(project)
      ensures this.project == project && Valid() && selected == map[] && sources == {}
    {
      this.project := project;
      selected, sources := map[], {};
    }

    /** The files of one `COPY` or `ADD`, path by path. */
    method Gather(paths: seq<string>) returns (problem: Option<Problem>)
      requires Valid()
      modifies this
      ensures Valid() && selected == old(selected)
      ensures problem == FirstProblem(project.tree, paths)
      ensures problem.None? ==> sources == old(sources) + PathFiles(project.tree, paths)
    {
      for i := 0 to |paths|
        invariant Valid() && selected == old(selected)
        invariant FirstProblem(project.tree, paths[..i]).None?
        invariant sources == old(sources) + PathFiles(project.tree, paths[..i])
      {
        var source := paths[i];
        assert paths[..i + 1][..i] == paths[..i];
        assert paths[..i + 1] == paths[..i] + [source];
        if !IsLiteral(source) {
          FirstProblemStays(project.tree, paths, i + 1);
          return Some(NotLiteral(source));
        }
        if source !in project.tree.expand {
          FirstProblemStays(project.tree, paths, i + 1);
          return Some(MissingInput(source));
        }
        sources := sources + project.tree.expand[source];
      }
      assert paths[..|paths|] == paths;
      problem := None;
    }

    /** `visit`: selects every stage `name` needs, and fails only on a line of one of them. */
    method Visit(name: string) returns (r: Result<(), Problem>)
      requires Valid()
      modifies this
      ensures Valid() && old(selected.Keys) <= selected.Keys
      ensures r.Ok? ==>
                && name in selected
                && Explored(project, old(selected.Keys), selected.Keys, name, {})
                && sources == old(sources) + Files(project, selected.Keys - old(selected.Keys))
      ensures r.Err? ==> name !in project.docker.stages || Fails(project, name)
      decreases |project.docker.stages.Keys - selected.Keys|, 0
    {
      hide Explored, LineEffect, BaseOf, Reaches, Clean, Deps, LineDeps, LineFiles, Midway, Fails, BaseDeps, Files;
      if name in selected {
        NothingNew(project, selected.Keys, name);
        return Ok(());
      }
      if name !in project.docker.stages {
        return Err(UnknownStage(name));
      }
      ghost var before, files := selected.Keys, sources;
      var recipe := project.docker.stages[name];
      selected := selected[name := recipe];
      Entered(project, before, files, name);
      assert selected.Keys == before + {name};
      ShrinksBy(project.docker.stages.Keys, before, selected.Keys, name);

      r := VisitBase(name, before, files);
      if r.Err? { return; }
      ShrinksBy(project.docker.stages.Keys, before, selected.Keys, name);
      r := VisitLines(name, before, files);
      if r.Err? { return; }
      Finished(project, before, files, selected.Keys, sources, name);
    }

    /** The `FROM` line. */
    method VisitBase(name: string, ghost before: set<string>, ghost files: set<string>) returns (r: Result<(), Problem>)
      requires Valid() && name in selected && Midway(project, before, files, selected.Keys, sources, name, [])
      modifies this
      ensures Valid() && old(selected.Keys) <= selected.Keys
      ensures r.Ok? ==>
                && Midway(project, before, files, selected.Keys, sources, name, [])
                && BaseOf(project.lexer, project.docker.stages[name][0]).Ok?
                && BaseDeps(project, project.docker.stages[name][0]) <= selected.Keys
      ensures r.Err? ==> Fails(project, name)
      decreases |project.docker.stages.Keys - selected.Keys|, 2
    {
      hide BaseOf, Midway, Fails, BaseDeps, Deps;
      var base := BaseOf(project.lexer, selected[name][0]);
      if base.Err? {
        BadBase(project, name);
        return Err(base.error);
      }
      GoodBase(project, name);
      if base.value in project.docker.stages {
        r := Need(name, base.value, before, files, []);
        if r.Err? { return; }
      }
      r := Ok(());
    }

    /** The lines after `FROM`, in order. */
    method VisitLines(name: string, ghost before: set<string>, ghost files: set<string>) returns (r: Result<(), Problem>)
      requires Valid() && name in selected && Midway(project, before, files, selected.Keys, sources, name, [])
      modifies this
      ensures Valid() && old(selected.Keys) <= selected.Keys
      ensures r.Ok? ==> Midway(project, before, files, selected.Keys, sources, name, project.docker.stages[name][1..])
      ensures r.Err? ==> Fails(project, name)
      decreases |project.docker.stages.Keys - selected.Keys|, 3
    {
      hide Midway, LineEffect, Reaches, Clean, Deps, Fails;
      var recipe := selected[name];
      assert recipe[1..1] == [];
      for i := 1 to |recipe|
        invariant Valid() && old(selected.Keys) <= selected.Keys && name in selected
        invariant Midway(project, before, files, selected.Keys, sources, name, recipe[1..i])
      {
        assert recipe[1..i + 1] == recipe[1..i] + [recipe[i]] && recipe[i] in recipe[1..];
        Shrinks(project.docker.stages.Keys, old(selected.Keys), selected.Keys);
        r := VisitLine(name, recipe[i], before, files, recipe[1..i]);
        if r.Err? { return; }
      }
      assert recipe[1..|recipe|] == recipe[1..];
      r := Ok(());
    }

    method VisitLine(name: string, line: string, ghost before: set<string>, ghost files: set<string>, ghost done: seq<string>)
      returns (r: Result<(), Problem>)
      requires Valid() && name in selected && Midway(project, before, files, selected.Keys, sources, name, done)
      requires line in project.docker.stages[name][1..]
      modifies this
      ensures Valid() && old(selected.Keys) <= selected.Keys
      ensures r.Ok? ==> Midway(project, before, files, selected.Keys, sources, name, done + [line])
      ensures r.Err? ==> Fails(project, name)
      decreases |project.docker.stages.Keys - selected.Keys|, 2
    {
      hide Midway, LineEffect, LineShape, Reaches, Clean, Deps, Fails, FilesOfLine, LineDeps, FirstProblem;
      var shape := LineShape(project, line);
      LineCases(project, line);
      if shape.Err? {
        BadLine(project, name, line);
        return Err(shape.error);
      }
      ghost var had := sources;
      match shape.value {
        case Nothing =>
        case DependsOn(stage) =>
          DependencyLine(project, name, line, stage);
          r := Need(name, stage, before, files, done);
          if r.Err? { return; }
          had := sources;
        case Copies(paths) =>
          var problem := Gather(paths);
          if problem.Some? {
            BadLine(project, name, line);
            return Err(problem.value);
          }
      }
      MidwayLine(project, before, files, selected.Keys, had, name, done, line);
      assert sources == had + FilesOfLine(project, line);
      r := Ok(());
    }

    /** A stage that `name` depends on. */
    method Need(name: string, dep: string, ghost before: set<string>, ghost files: set<string>, ghost done: seq<string>)
      returns (r: Result<(), Problem>)
      requires Valid() && name in selected && Midway(project, before, files, selected.Keys, sources, name, done)
      requires dep in Deps(project, name)
      modifies this
      ensures Valid() && old(selected.Keys) <= selected.Keys
      ensures r.Ok? ==> dep in selected && Midway(project, before, files, selected.Keys, sources, name, done)
      ensures r.Err? ==> Fails(project, name)
      decreases |project.docker.stages.Keys - selected.Keys|, 1
    {
      hide LineEffect, BaseOf, Reaches, Clean, Deps, LineFiles;
      ghost var mid := selected.Keys;
      r := Visit(dep);
      if r.Err? {
        FailsThrough(project, name, dep);
      } else {
        ExploredThrough(project, before, mid, selected.Keys, name, dep);
      }
    }
  }

  /** Some stage `name` needs has a line the search refuses. */
  ghost predicate Fails(p: Project, name: string)
    requires WellFormed(p)
  {
    exists n | n in p.docker.stages :: Reaches(p, name, n) && !Clean(p, n)
  }

  lemma FailsThrough(p: Project, name: string, dep: string)
    requires WellFormed(p) && name in p.docker.stages && dep in Deps(p, name) && Fails(p, dep)
    ensures Fails(p, name)
  {
    hide Clean, Deps, Reaches;
    var n :| n in p.docker.stages && Reaches(p, dep, n) && !Clean(p, n);
    ReachesThrough(p, name, dep, n);
  }

  /** The search from `name` has dealt with the lines `done` and everything they need. */
  ghost predicate Midway(p: Project, before: set<string>, files: set<string>, selected: set<string>, sources: set<string>, name: string, done: seq<string>)
    requires WellFormed(p)
  {
    && name in selected && name !in before
    && Explored(p, before, selected, name, {name})
    && LineDeps(p, done) <= selected
    && (forall line | line in done :: LineEffect(p, line).Ok?)
    && sources == files + Files(p, selected - before - {name}) + LineFiles(p, done)
  }

  lemma NothingNew(p: Project, selected: set<string>, name: string)
    requires WellFormed(p) && selected <= p.docker.stages.Keys
    ensures Explored(p, selected, selected, name, {}) && Files(p, selected - selected) == {}
  {
  }

  lemma Entered(p: Project, before: set<string>, files: set<string>, name: string)
    requires WellFormed(p) && before <= p.docker.stages.Keys && name in p.docker.stages && name !in before
    ensures Midway(p, before, files, before + {name}, files, name, [])
  {
    ReachesSelf(p, name);
  }

  lemma BadBase(p: Project, name: string)
    requires WellFormed(p) && name in p.docker.stages && BaseOf(p.lexer, p.docker.stages[name][0]).Err?
    ensures Fails(p, name)
  {
    ReachesSelf(p, name);
  }

  lemma GoodBase(p: Project, name: string)
    requires WellFormed(p) && name in p.docker.stages && BaseOf(p.lexer, p.docker.stages[name][0]).Ok?
    ensures var base := BaseOf(p.lexer, p.docker.stages[name][0]).value;
            && (base in p.docker.stages ==> base in Deps(p, name))
            && BaseDeps(p, p.docker.stages[name][0]) == if base in p.docker.stages then {base} else {}
  {
  }

  lemma BadLine(p: Project, name: string, line: string)
    requires WellFormed(p) && name in p.docker.stages && line in p.docker.stages[name][1..] && LineEffect(p, line).Err?
    ensures Fails(p, name)
  {
    ReachesSelf(p, name);
  }

  lemma DependencyLine(p: Project, name: string, line: string, stage: string)
    requires WellFormed(p) && name in p.docker.stages && line in p.docker.stages[name][1..] && LineEffect(p, line) == Ok(DependsOn(stage))
    requires stage in p.docker.stages
    ensures stage in Deps(p, name)
  {
  }

  lemma MidwayLine(p: Project, before: set<string>, files: set<string>, selected: set<string>, sources: set<string>, name: string, done: seq<string>, line: string)
    requires WellFormed(p) && Midway(p, before, files, selected, sources, name, done)
    requires LineEffect(p, line).Ok? && LineDeps(p, [line]) <= selected
    ensures Midway(p, before, files, selected, sources + FilesOfLine(p, line), name, done + [line])
  {
    hide LineEffect, Explored, FilesOfLine, LineFiles, LineDeps;
    LinesSplit(p, done, line);
    assert forall x :: x in done + [line] <==> x in done || x == line;
  }

  lemma Finished(p: Project, before: set<string>, files: set<string>, selected: set<string>, sources: set<string>, name: string)
    requires WellFormed(p) && name in p.docker.stages
    requires Midway(p, before, files, selected, sources, name, p.docker.stages[name][1..])
    requires BaseOf(p.lexer, p.docker.stages[name][0]).Ok? && BaseDeps(p, p.docker.stages[name][0]) <= selected
    ensures Explored(p, before, selected, name, {})
    ensures sources == files + Files(p, selected - before)
  {
    hide LineEffect, LineFiles, BaseOf, Reaches, LineDeps, BaseDeps;
    assert Clean(p, name) && Deps(p, name) <= selected;
    assert selected - before == (selected - before - {name}) + {name};
    assert Files(p, selected - before) == Files(p, selected - before - {name}) + LineFiles(p, p.docker.stages[name][1..]);
  }

  lemma {:induction false} FirstProblemStays(t: Tree, paths: seq<string>, k: nat)
    requires k <= |paths| && FirstProblem(t, paths[..k]).Some?
    ensures FirstProblem(t, paths) == FirstProblem(t, paths[..k])
    decreases |paths|
  {
    if k == |paths| {
      assert paths[..k] == paths;
    } else {
      assert paths[..|paths| - 1][..k] == paths[..k];
      FirstProblemStays(t, paths[..|paths| - 1], k);
    }
  }

  lemma LineCases(p: Project, line: string)
    ensures var shape, effect := LineShape(p, line), LineEffect(p, line);
            && (shape.Err? ==> effect == shape)
            && (shape == Ok(Nothing) ==> effect == shape && FilesOfLine(p, line) == {} && LineDeps(p, [line]) == {})
            && (shape.Ok? && shape.value.DependsOn? ==>
                  effect == shape && shape.value.stage in p.docker.stages && FilesOfLine(p, line) == {} && LineDeps(p, [line]) == {shape.value.stage})
            && (shape.Ok? && shape.value.Copies? ==>
                  && (FirstProblem(p.tree, shape.value.paths).Some? ==> effect.Err?)
                  && (FirstProblem(p.tree, shape.value.paths).None? ==> effect == shape)
                  && (FirstProblem(p.tree, shape.value.paths).None? ==>
                        FilesOfLine(p, line) == PathFiles(p.tree, shape.value.paths) && LineDeps(p, [line]) == {}))
  {
  }

  // ---------------------------------------------------------------------------------------------
  // Exactly the stages the toolchain needs
  // ---------------------------------------------------------------------------------------------

  /** The stages reached from `toolchain` by `FROM` and `--from`. */
  ghost function Needed(p: Project): set<string>
    requires WellFormed(p)
  {
    set n | n in p.docker.stages && Reaches(p, ROOT, n)
  }

  /** There is a toolchain stage and nothing it needs is refused. */
  ghost predicate Sound(p: Project)
    requires WellFormed(p)
  {
    ROOT in p.docker.stages && forall n | n in Needed(p) :: Clean(p, n)
  }

  lemma ExploredIsNeeded(p: Project, selected: set<string>)
    requires WellFormed(p) && ROOT in selected && Explored(p, {}, selected, ROOT, {})
    ensures selected == Needed(p) && Sound(p)
  {
    hide Clean, Deps;
    forall n | n in Needed(p) ensures n in selected {
      var path :| IsPath(p, path) && path[0] == ROOT && path[|path| - 1] == n;
      ReachesEnd(p, path, selected);
    }
  }

  /** The search succeeds exactly when it should, and then selects exactly what is needed. */
  method Select(p: Project) returns (r: Result<(map<string, seq<string>>, set<string>), Problem>)
    requires WellFormed(p)
    ensures r.Ok? <==> Sound(p)
    ensures r.Ok? ==> r.value.0 == map n | n in Needed(p) :: p.docker.stages[n]
    ensures r.Ok? ==> r.value.1 == Files(p, Needed(p))
  {
    hide Explored, Clean, Reaches, Files;
    var search := new Search(p);
    assert search.selected.Keys == {};
    var visited := search.Visit(ROOT);
    if visited.Err? {
      return Err(visited.error);
    }
    ExploredIsNeeded(p, search.selected.Keys);
    assert search.selected.Keys - {} == search.selected.Keys && {} + search.sources == search.sources;
    r := Ok((search.selected, search.sources));
  }

  // ---------------------------------------------------------------------------------------------
  // The referenced variables
  // ---------------------------------------------------------------------------------------------

  /** `refs` holds the variables of `texts` and, with every global argument, the variables of its value. */
  ghost predicate Closed(lx: Lexer, globals: map<string, string>, texts: set<string>, refs: set<string>) {
    && (forall text | text in texts :: lx.vars(text) <= refs)
    && (forall n | n in refs && n in globals :: lx.vars(globals[n]) <= refs)
  }

  ghost predicate LeastClosed(lx: Lexer, globals: map<string, string>, texts: set<string>, refs: set<string>) {
    && Closed(lx, globals, texts, refs)
    && forall other: set<string> | Closed(lx, globals, texts, other) :: refs <= other
  }

  lemma LeastUnique(lx: Lexer, globals: map<string, string>, texts: set<string>, a: set<string>, b: set<string>)
    requires LeastClosed(lx, globals, texts, a) && LeastClosed(lx, globals, texts, b)
    ensures a == b
  {
    assert a <= b && b <= a;
  }

  function VarsOf(lx: Lexer, texts: seq<string>): (r: set<string>)
    ensures forall t, v | t in texts && v in lx.vars(t) :: v in r
    ensures forall v | v in r :: exists t | t in texts :: v in lx.vars(t)
  {
    set t, v | t in texts && v in lx.vars(t) :: v
  }

  /** Whether `"\n".join(texts)` is not empty. */
  predicate JoinsToText(texts: seq<string>) {
    |texts| > 1 || (|texts| == 1 && texts[0] != "")
  }

  method ValuesOf(names: set<string>, globals: map<string, string>) returns (values: seq<string>)
    ensures forall v :: v in values <==> exists n | n in names && n in globals :: globals[n] == v
    ensures (forall n | n in names :: n !in globals) ==> values == []
  {
    values := [];
    var left := names;
    while left != {}
      invariant left <= names
      invariant forall v :: v in values <==> exists n | n in names - left && n in globals :: globals[n] == v
      invariant (forall n | n in names :: n !in globals) ==> values == []
      decreases |left|
    {
      var n :| n in left;
      ghost var had := names - left;
      left := left - {n};
      assert names - left == had + {n};
      if n in globals {
        values := values + [globals[n]];
      }
    }
    assert names - left == names;
  }

  /** Midway through the worklist: `refs` is found, the variables `open` are still to be looked at. */
  ghost predicate Growing(lx: Lexer, globals: map<string, string>, texts: set<string>, refs: set<string>, open: set<string>) {
    && (forall text | text in texts :: lx.vars(text) <= refs + open)
    && (forall n | n in refs && n in globals :: lx.vars(globals[n]) <= refs + open)
    && (forall other: set<string> | Closed(lx, globals, texts, other) :: refs <= other && open <= other)
  }

  lemma GrowingStep(lx: Lexer, globals: map<string, string>, texts: set<string>, refs: set<string>, open: set<string>, values: seq<string>)
    requires Growing(lx, globals, texts, refs, open)
    requires forall v :: v in values <==> exists n | n in open - refs && n in globals :: globals[n] == v
    ensures Growing(lx, globals, texts, refs + (open - refs), VarsOf(lx, values))
  {
    var next := refs + (open - refs);
    forall n | n in next && n in globals ensures lx.vars(globals[n]) <= next + VarsOf(lx, values) {
      if n !in refs { assert globals[n] in values; }
    }
    forall other: set<string> | Closed(lx, globals, texts, other) ensures next <= other && VarsOf(lx, values) <= other {
      forall v | v in VarsOf(lx, values) ensures v in other {
        var t :| t in values && v in lx.vars(t);
        var n :| n in open - refs && n in globals && globals[n] == t;
        assert n in other;
      }
    }
  }

  lemma GrowingStart(lx: Lexer, globals: map<string, string>, lines: seq<string>)
    ensures Growing(lx, globals, (set l | l in lines), {}, VarsOf(lx, lines))
  {
  }

  lemma GrowingEnd(lx: Lexer, globals: map<string, string>, texts: set<string>, refs: set<string>)
    requires Growing(lx, globals, texts, refs, {})
    ensures LeastClosed(lx, globals, texts, refs)
  {
    assert refs + {} == refs;
  }

  /** Each round finds a new global argument or leaves nothing to look at. */
  lemma WorkShrinks(globals: set<string>, refs: set<string>, names: set<string>)
    requires names !! refs
    ensures |globals - (refs + names)| <= |globals - refs|
    ensures |globals - (refs + names)| < |globals - refs| || forall n | n in names :: n !in globals
  {
    Shrinks(globals, refs, refs + names);
    if n :| n in names && n in globals {
      ShrinksBy(globals, refs, refs + names, n);
    }
  }

  /** The worklist: ends, cycles or not, with the least closed set. */
  method Referenced(lx: Lexer, globals: map<string, string>, lines: seq<string>) returns (refs: set<string>)
    requires lx.vars("") == {}
    ensures LeastClosed(lx, globals, (set l | l in lines), refs)
  {
    hide Growing, LeastClosed;
    ghost var texts := set l | l in lines;
    refs := {};
    var pending := lines;
    GrowingStart(lx, globals, lines);
    while JoinsToText(pending)
      invariant Growing(lx, globals, texts, refs, VarsOf(lx, pending))
      decreases |globals.Keys - refs|, |pending|
    {
      var names := VarsOf(lx, pending) - refs;
      ghost var before := refs;
      var values := ValuesOf(names, globals);
      GrowingStep(lx, globals, texts, refs, VarsOf(lx, pending), values);
      refs := refs + names;
      pending := values;
      WorkShrinks(globals.Keys, before, names);
    }
    assert VarsOf(lx, pending) == {};
    GrowingEnd(lx, globals, texts, refs);
  }

  // ---------------------------------------------------------------------------------------------
  // The digest's input
  // ---------------------------------------------------------------------------------------------

  datatype Entry = Entry(path: string, executable: bool, content: seq<char>)

  /** What is hashed: the recipe and the copied files in order of path. */
  datatype Output = Output(syntax: Option<string>, args: map<string, string>, stages: map<string, seq<string>>, files: seq<Entry>)

  ghost function Lines(stages: map<string, seq<string>>): set<string> {
    set n, line | n in stages && line in stages[n] :: line
  }

  /** The arguments that go into the recipe: only the registry's location is left out. */
  function Arguments(globals: map<string, string>, refs: set<string>): map<string, string> {
    map n | n in globals && n in refs && n != BASE_REGISTRY :: globals[n]
  }

  ghost predicate IsFileList(t: Tree, paths: set<string>, files: seq<Entry>) {
    && IsSorted(paths, seq(|files|, (i: nat) requires i < |files| => files[i].path))
    && forall e | e in files :: e.path in t.files && t.files[e.path] == File(e.executable, e.content)
  }

  ghost function NeededRecipes(p: Project): map<string, seq<string>>
    requires WellFormed(p)
  {
    map n | n in Needed(p) :: p.docker.stages[n]
  }

  ghost predicate IsReferenced(p: Project, refs: set<string>)
    requires WellFormed(p)
  {
    LeastClosed(p.lexer, p.docker.globals, Lines(NeededRecipes(p)), refs)
  }

  /** `out` is what `toolchain_inputs` hashes for `p`. */
  ghost predicate IsOutput(p: Project, out: Output)
    requires WellFormed(p)
  {
    && Sound(p)
    && out.syntax == p.docker.syntax
    && out.stages == NeededRecipes(p)
    && (exists refs :: IsReferenced(p, refs) && out.args == Arguments(p.docker.globals, refs))
    && IsFileList(p.tree, Files(p, Needed(p)), out.files)
  }

  method AllLines(stages: map<string, seq<string>>) returns (lines: seq<string>)
    ensures (set l | l in lines) == Lines(stages)
  {
    lines := [];
    var left := stages.Keys;
    while left != {}
      invariant left <= stages.Keys
      invariant forall l :: l in lines <==> exists n | n in stages.Keys - left :: l in stages[n]
      decreases |left|
    {
      var n :| n in left;
      ghost var had := stages.Keys - left;
      left := left - {n};
      assert stages.Keys - left == had + {n};
      lines := lines + stages[n];
    }
    assert stages.Keys - left == stages.Keys;
  }

  method ReadAll(t: Tree, paths: seq<string>) returns (files: seq<Entry>)
    requires forall p | p in paths :: p in t.files
    ensures seq(|files|, (i: nat) requires i < |files| => files[i].path) == paths
    ensures forall e | e in files :: e.path in t.files && t.files[e.path] == File(e.executable, e.content)
  {
    files := [];
    for i := 0 to |paths|
      invariant |files| == i && forall j | 0 <= j < i :: files[j].path == paths[j]
      invariant forall e | e in files :: e.path in t.files && t.files[e.path] == File(e.executable, e.content)
    {
      var file := t.files[paths[i]];
      files := files + [Entry(paths[i], file.executable, file.content)];
    }
  }

  lemma FilesReadable(p: Project, names: set<string>)
    requires WellFormed(p)
    ensures forall f | f in Files(p, names) :: f in p.tree.files
  {
    hide LineEffect;
  }

  method ToolchainInputs(p: Project) returns (r: Result<Output, Problem>)
    requires WellFormed(p) && p.lexer.vars("") == {}
    ensures r.Ok? <==> Sound(p)
    ensures r.Ok? ==> IsOutput(p, r.value)
  {
    hide Sound, Needed, Files, LeastClosed;
    var chosen := Select(p);
    if chosen.Err? {
      return Err(chosen.error);
    }
    var (selected, sources) := chosen.value;
    assert selected == NeededRecipes(p);
    var lines := AllLines(selected);
    var refs := Referenced(p.lexer, p.docker.globals, lines);
    var paths := Sort(sources);
    FilesReadable(p, Needed(p));
    var files := ReadAll(p.tree, paths);
    r := Ok(Output(p.docker.syntax, Arguments(p.docker.globals, refs), selected, files));
    assert IsReferenced(p, refs);
  }
}
