/**
 * What the toolchain search finds, said of the words of the Dockerfile's lines alone: which stage a line
 * leads to, which files it copies, and which lines are refused (ci/toolchain-inputs.py).
 */
module ToolchainWords {
  import opened Common
  import opened Ordering
  import opened Toolchain

  // ---------------------------------------------------------------------------------------------
  // Words
  // ---------------------------------------------------------------------------------------------

  /** `a` is the capital letters `b`, in any case. */
  predicate AnyCase(a: string, b: string) {
    |a| == |b| && forall i | 0 <= i < |a| :: a[i] == b[i] || a[i] as int == b[i] as int + 32
  }

  ghost predicate Mentions(text: string, part: string) {
    exists before: string, after: string :: text == before + part + after
  }

  /** No pattern character, variable or heredoc, and no address. */
  ghost predicate PlainPath(s: string) {
    (forall i | 0 <= i < |s| :: s[i] != '$' && s[i] != '*' && s[i] != '?' && s[i] != '[' && s[i] != '<') && !Mentions(s, "://")
  }

  /** The first `--from=` among the words is `--from=d`. */
  predicate NamesStage(words: seq<string>, d: string) {
    exists i | 0 <= i < |words| :: words[i] == "--from=" + d && forall j | 0 <= j < i :: !("--from=" <= words[j])
  }

  predicate NamesNone(words: seq<string>) {
    forall i | 0 <= i < |words| :: !("--from=" <= words[i])
  }

  /** A word that is no flag and has another such word after it: all but the destination. */
  ghost predicate IsSource(words: seq<string>, s: string) {
    exists i, j | 0 <= i < j < |words| :: words[i] == s && !("--" <= words[i]) && !("--" <= words[j])
  }

  /** The line is a COPY or an ADD with these words after the command. */
  predicate Copying(p: Project, line: string, words: seq<string>) {
    p.lexer.cut(line).Some? &&
    var (command, args) := p.lexer.cut(line).value;
    (AnyCase(command, "COPY") || AnyCase(command, "ADD")) && p.lexer.words(args) == Some(words)
  }

  /** The first word after the first that is no flag is `d`. */
  ghost predicate BuildsOn(p: Project, line: string, d: string) {
    p.lexer.words(line).Some? &&
    var words := p.lexer.words(line).value;
    exists i | 1 <= i < |words| :: words[i] == d && !("--" <= words[i]) && forall j | 1 <= j < i :: "--" <= words[j]
  }

  /** A RUN line without mounts, a COPY or ADD from a named stage or of plain paths that exist, or any other
      line with something after its command. */
  ghost predicate Acceptable(p: Project, line: string) {
    p.lexer.cut(line).Some? &&
    var (command, args) := p.lexer.cut(line).value;
    && (AnyCase(command, "RUN") ==> !Mentions(args, "--mount="))
    && (AnyCase(command, "COPY") || AnyCase(command, "ADD") ==>
          p.lexer.words(args).Some? &&
          var words := p.lexer.words(args).value;
          && (forall d | NamesStage(words, d) :: d in p.docker.stages)
          && (NamesNone(words) ==> forall s | IsSource(words, s) :: PlainPath(s) && s in p.tree.expand))
  }

  // ---------------------------------------------------------------------------------------------
  // Stages
  // ---------------------------------------------------------------------------------------------

  /** Stage `n` needs stage `d`: it is built on it, or copies from it. */
  ghost predicate Edge(p: Project, n: string, d: string)
    requires WellFormed(p) && n in p.docker.stages
  {
    && d in p.docker.stages
    && (BuildsOn(p, p.docker.stages[n][0], d) ||
        exists line, words | line in p.docker.stages[n][1..] && Copying(p, line, words) :: NamesStage(words, d))
  }

  ghost predicate CopiesFile(p: Project, n: string, f: string)
    requires WellFormed(p) && n in p.docker.stages
  {
    exists line, words, s | line in p.docker.stages[n][1..] && Copying(p, line, words) && IsSource(words, s) ::
      NamesNone(words) && s in p.tree.expand && f in p.tree.expand[s]
  }

  ghost predicate StageAcceptable(p: Project, n: string)
    requires WellFormed(p) && n in p.docker.stages
  {
    && (exists d :: BuildsOn(p, p.docker.stages[n][0], d))
    && forall line | line in p.docker.stages[n][1..] :: Acceptable(p, line)
  }

  // ---------------------------------------------------------------------------------------------
  // The words decide
  // ---------------------------------------------------------------------------------------------

  lemma UpperExactly(a: string, b: string)
    requires forall i | 0 <= i < |b| :: 'A' <= b[i] <= 'Z'
    ensures Upper(a) == b <==> AnyCase(a, b)
  {
    if Upper(a) == b {
      forall i | 0 <= i < |a| ensures a[i] == b[i] || a[i] as int == b[i] as int + 32 {
        assert Upper(a)[i] == b[i];
      }
    }
  }

  lemma ContainsExactly(text: string, part: string)
    ensures Contains(text, part) <==> Mentions(text, part)
  {
    if Contains(text, part) {
      var i :| 0 <= i <= |text| && part <= text[i..];
      assert text == text[..i] + part + text[i + |part|..];
    }
    if Mentions(text, part) {
      var before: string, after: string :| text == before + part + after;
      assert text[|before|..] == part + after && part <= text[|before|..];
    }
  }

  lemma LiteralExactly(s: string)
    ensures IsLiteral(s) <==> PlainPath(s)
  {
    ContainsExactly(s, "://");
    forall i | 0 <= i < |s| ensures s[i] in s {
    }
    assert forall c :: c in "$*?[<" <==> c == '$' || c == '*' || c == '?' || c == '[' || c == '<';
  }

  lemma {:induction false} FromFlagExactly(words: seq<string>, d: string)
    ensures FromFlag(words) == Some(d) <==> NamesStage(words, d)
    ensures FromFlag(words).None? <==> NamesNone(words)
  {
    if words != [] {
      var w, rest := words[0], words[1..];
      FromFlagExactly(rest, d);
      if "--from=" <= w {
        assert w == "--from=" + w[|"--from="|..];
        assert ("--from=" + d)[|"--from="|..] == d;
      } else {
        assert forall i | 0 <= i < |rest| :: rest[i] == words[i + 1];
        if NamesStage(rest, d) {
          var i :| 0 <= i < |rest| && rest[i] == "--from=" + d && forall j | 0 <= j < i :: !("--from=" <= rest[j]);
          assert words[i + 1] == "--from=" + d;
        }
        if NamesStage(words, d) {
          var i :| 0 <= i < |words| && words[i] == "--from=" + d && forall j | 0 <= j < i :: !("--from=" <= words[j]);
          assert rest[i - 1] == "--from=" + d;
        }
        assert NamesNone(words) ==> NamesNone(rest);
      }
    }
  }

  lemma {:induction false} FirstArgumentExactly(words: seq<string>, d: string)
    ensures FirstArgument(words) == Some(d) <==>
            exists i | 0 <= i < |words| :: words[i] == d && !("--" <= words[i]) && forall j | 0 <= j < i :: "--" <= words[j]
  {
    if words != [] {
      var rest := words[1..];
      FirstArgumentExactly(rest, d);
      assert forall i | 0 <= i < |rest| :: rest[i] == words[i + 1];
      if FirstArgument(words) == Some(d) && IsFlag(words[0]) {
        var i :| 0 <= i < |rest| && rest[i] == d && !("--" <= rest[i]) && forall j | 0 <= j < i :: "--" <= rest[j];
        assert words[i + 1] == d;
      }
      if i :| 0 <= i < |words| && words[i] == d && !("--" <= words[i]) && forall j | 0 <= j < i :: "--" <= words[j] {
        if i > 0 { assert rest[i - 1] == d; }
      }
    }
  }

  lemma BaseExactly(p: Project, line: string, d: string)
    ensures BaseOf(p.lexer, line) == Ok(d) <==> BuildsOn(p, line, d)
  {
    if p.lexer.words(line).Some? && p.lexer.words(line).value != [] {
      var words := p.lexer.words(line).value;
      var rest := words[1..];
      FirstArgumentExactly(rest, d);
      assert forall i | 0 <= i < |rest| :: rest[i] == words[i + 1];
      if BaseOf(p.lexer, line) == Ok(d) {
        var i :| 0 <= i < |rest| && rest[i] == d && !("--" <= rest[i]) && forall j | 0 <= j < i :: "--" <= rest[j];
        assert words[i + 1] == d;
      }
      if BuildsOn(p, line, d) {
        var i :| 1 <= i < |words| && words[i] == d && !("--" <= words[i]) && forall j | 1 <= j < i :: "--" <= words[j];
        assert rest[i - 1] == d;
      }
    }
  }

  ghost predicate IsArgument(words: seq<string>, s: string) {
    exists i | 0 <= i < |words| :: words[i] == s && !("--" <= words[i])
  }

  lemma SourceAtEnd(front: seq<string>, last: string, s: string)
    ensures IsSource(front + [last], s) <==> if "--" <= last then IsSource(front, s) else IsArgument(front, s)
  {
    var words := front + [last];
    assert words[|front|] == last && forall i | 0 <= i < |front| :: words[i] == front[i];
    if IsSource(front, s) {
      var i, j :| 0 <= i < j < |front| && front[i] == s && !("--" <= front[i]) && !("--" <= front[j]);
      assert words[i] == s && words[j] == front[j];
    }
    if IsArgument(front, s) && !("--" <= last) {
      var i :| 0 <= i < |front| && front[i] == s && !("--" <= front[i]);
      assert words[i] == s && words[|front|] == last;
    }
    if IsSource(words, s) {
      var i, j :| 0 <= i < j < |words| && words[i] == s && !("--" <= words[i]) && !("--" <= words[j]);
      assert front[i] == s;
      if "--" <= last { assert front[j] == words[j]; }
    }
  }

  function ArgumentWords(words: seq<string>): seq<string> {
    Filter(words, (w: string) => !IsFlag(w))
  }

  lemma ArgumentsAtEnd(front: seq<string>, last: string)
    ensures ArgumentWords(front + [last]) == if IsFlag(last) then ArgumentWords(front) else ArgumentWords(front) + [last]
    ensures CopiedPaths(front + [last]) == if IsFlag(last) then CopiedPaths(front) else ArgumentWords(front)
  {
    assert (front + [last])[..|front|] == front;
  }

  lemma ArgumentsExactly(words: seq<string>, s: string)
    ensures s in ArgumentWords(words) <==> IsArgument(words, s)
  {
  }

  lemma {:induction false} SourcesExactly(words: seq<string>, s: string)
    ensures s in CopiedPaths(words) <==> IsSource(words, s)
  {
    if words != [] {
      hide IsSource, IsArgument, CopiedPaths, ArgumentWords;
      var front, last := words[..|words| - 1], words[|words| - 1];
      assert words == front + [last];
      SourcesExactly(front, s);
      SourceAtEnd(front, last, s);
      ArgumentsAtEnd(front, last);
      ArgumentsExactly(front, s);
    }
  }

  // ---------------------------------------------------------------------------------------------
  // Lines, stages, and the whole
  // ---------------------------------------------------------------------------------------------

  lemma CommandsDiffer(command: string)
    ensures AnyCase(command, "RUN") ==> !AnyCase(command, "COPY") && !AnyCase(command, "ADD")
  {
    UpperExactly(command, "RUN");
    UpperExactly(command, "ADD");
  }

  lemma FromFlagAll(words: seq<string>)
    ensures forall d :: NamesStage(words, d) <==> FromFlag(words) == Some(d)
    ensures NamesNone(words) <==> FromFlag(words).None?
  {
    forall d ensures NamesStage(words, d) <==> FromFlag(words) == Some(d) {
      FromFlagExactly(words, d);
    }
    FromFlagExactly(words, "");
  }

  lemma {:induction false} FirstProblemExactly(t: Tree, paths: seq<string>)
    ensures FirstProblem(t, paths).None? <==> forall s | s in paths :: PlainPath(s) && s in t.expand
  {
    hide PlainPath, IsLiteral;
    if paths != [] {
      var front, last := paths[..|paths| - 1], paths[|paths| - 1];
      assert paths == front + [last];
      FirstProblemExactly(t, front);
      LiteralExactly(last);
    }
  }

  /** A COPY or ADD leads to the stage it names, or else copies its sources. */
  lemma CopyLine(p: Project, line: string, words: seq<string>)
    requires Copying(p, line, words)
    ensures LineEffect(p, line).Ok? <==> Acceptable(p, line)
    ensures forall d :: LineEffect(p, line) == Ok(DependsOn(d)) <==> d in p.docker.stages && NamesStage(words, d)
    ensures var effect := LineEffect(p, line);
            effect.Ok? ==> (effect.value.Copies? <==> NamesNone(words))
                           && (effect.value.Copies? ==> forall s :: s in effect.value.paths <==> IsSource(words, s))
  {
    hide IsSource, NamesStage, NamesNone, PlainPath, Mentions, AnyCase, FromFlag, CopiedPaths, Upper, Contains, FirstProblem;
    var (command, args) := p.lexer.cut(line).value;
    UpperExactly(command, "RUN");
    UpperExactly(command, "COPY");
    UpperExactly(command, "ADD");
    CommandsDiffer(command);
    FromFlagAll(words);
    FirstProblemExactly(p.tree, CopiedPaths(words));
    forall s ensures s in CopiedPaths(words) <==> IsSource(words, s) {
      SourcesExactly(words, s);
    }
  }

  /** Any other line leads nowhere and copies nothing. */
  lemma OtherLine(p: Project, line: string)
    requires forall words :: !Copying(p, line, words)
    ensures LineEffect(p, line).Ok? <==> Acceptable(p, line)
    ensures LineEffect(p, line).Ok? ==> LineEffect(p, line).value == Nothing
  {
    hide IsSource, NamesStage, NamesNone, PlainPath, Mentions, AnyCase, FromFlag, CopiedPaths, Upper, Contains, FirstProblem;
    if p.lexer.cut(line).Some? {
      var (command, args) := p.lexer.cut(line).value;
      UpperExactly(command, "RUN");
      UpperExactly(command, "COPY");
      UpperExactly(command, "ADD");
      ContainsExactly(args, "--mount=");
      if p.lexer.words(args).Some? {
        assert Copying(p, line, p.lexer.words(args).value) <==> AnyCase(command, "COPY") || AnyCase(command, "ADD");
      }
    }
  }

  lemma OneWords(p: Project, line: string, words: seq<string>, others: seq<string>)
    requires Copying(p, line, words) && Copying(p, line, others)
    ensures words == others
  {
  }

  /** A line leads to a stage, copies a file or is refused exactly as its words say. */
  lemma LineExactly(p: Project, line: string, d: string, f: string)
    ensures LineEffect(p, line).Ok? <==> Acceptable(p, line)
    ensures LineEffect(p, line) == Ok(DependsOn(d)) <==>
              d in p.docker.stages && exists words | Copying(p, line, words) :: NamesStage(words, d)
    ensures LineEffect(p, line).Ok? ==>
              (f in FilesOfLine(p, line) <==>
                 exists words, s | Copying(p, line, words) && IsSource(words, s) :: NamesNone(words) && s in p.tree.expand && f in p.tree.expand[s])
  {
    hide Copying, Acceptable, LineEffect, IsSource, NamesStage, NamesNone;
    if words :| Copying(p, line, words) {
      CopyLine(p, line, words);
      forall others | Copying(p, line, others) ensures others == words {
        OneWords(p, line, words, others);
      }
    } else {
      OtherLine(p, line);
    }
  }

  /** So are the edges of the graph the search follows. */
  lemma DepsExactly(p: Project, n: string, d: string)
    requires WellFormed(p) && n in p.docker.stages
    ensures d in Deps(p, n) <==> Edge(p, n, d)
  {
    hide LineEffect, Copying, NamesStage, BuildsOn, BaseOf;
    var recipe := p.docker.stages[n];
    BaseExactly(p, recipe[0], d);
    forall line | line in recipe[1..]
      ensures LineEffect(p, line) == Ok(DependsOn(d)) <==>
              d in p.docker.stages && exists words | Copying(p, line, words) :: NamesStage(words, d)
    {
      LineExactly(p, line, d, "");
    }
  }

  lemma CleanExactly(p: Project, n: string)
    requires WellFormed(p) && n in p.docker.stages
    ensures Clean(p, n) <==> StageAcceptable(p, n)
  {
    hide LineEffect, Acceptable, BuildsOn, BaseOf;
    var recipe := p.docker.stages[n];
    var base := BaseOf(p.lexer, recipe[0]);
    if base.Ok? { BaseExactly(p, recipe[0], base.value); }
    forall d ensures base == Ok(d) <==> BuildsOn(p, recipe[0], d) {
      BaseExactly(p, recipe[0], d);
    }
    forall line ensures LineEffect(p, line).Ok? <==> Acceptable(p, line) {
      LineExactly(p, line, "", "");
    }
  }

  lemma StageFilesExactly(p: Project, n: string, f: string)
    requires WellFormed(p) && n in p.docker.stages && Clean(p, n)
    ensures f in LineFiles(p, p.docker.stages[n][1..]) <==> CopiesFile(p, n, f)
  {
    hide LineEffect, FilesOfLine, Copying, IsSource, NamesNone, BaseOf;
    var recipe := p.docker.stages[n];
    forall line | line in recipe[1..]
      ensures f in FilesOfLine(p, line) <==>
              exists words, s | Copying(p, line, words) && IsSource(words, s) :: NamesNone(words) && s in p.tree.expand && f in p.tree.expand[s]
    {
      LineExactly(p, line, "", f);
    }
    assert f in LineFiles(p, recipe[1..]) <==> exists line | line in recipe[1..] :: f in FilesOfLine(p, line);
  }

  /** Stage `n` is `toolchain`, or needed by a stage that is reached from it. */
  ghost predicate EdgePath(p: Project, path: seq<string>)
    requires WellFormed(p)
  {
    && path != [] && path[0] == "toolchain"
    && (forall n | n in path :: n in p.docker.stages)
    && forall i | 0 <= i < |path| - 1 :: Edge(p, path[i], path[i + 1])
  }

  ghost predicate Required(p: Project, n: string)
    requires WellFormed(p)
  {
    exists path :: EdgePath(p, path) && path[|path| - 1] == n
  }

  lemma NeededExactly(p: Project, n: string)
    requires WellFormed(p)
    ensures n in Needed(p) <==> Required(p, n)
  {
    hide Deps, Edge;
    forall a, b | a in p.docker.stages ensures b in Deps(p, a) <==> Edge(p, a, b) {
      DepsExactly(p, a, b);
    }
    forall path: seq<string> ensures EdgePath(p, path) <==> IsPath(p, path) && path[0] == ROOT {
    }
    if n in Needed(p) {
      var path :| IsPath(p, path) && path[0] == ROOT && path[|path| - 1] == n;
      assert EdgePath(p, path);
    }
    if Required(p, n) {
      var path :| EdgePath(p, path) && path[|path| - 1] == n;
      assert IsPath(p, path) && n in path;
    }
  }

  /** The arguments among `refs` but the registry, with their values. */
  ghost predicate ArgumentsIn(p: Project, refs: set<string>, args: map<string, string>) {
    && (forall v :: v in args <==> v in refs && v in p.docker.globals && v != "BASE_REGISTRY")
    && forall v | v in args :: args[v] == p.docker.globals[v]
  }

  ghost predicate Listed(files: seq<Entry>, f: string) {
    exists e | e in files :: e.path == f
  }

  /**
   * What is hashed, by the words of the Dockerfile alone. There is an output exactly when there is a
   * `toolchain` stage and every stage it requires is acceptable; and then it holds the syntax line, exactly
   * the required stages word for word, the arguments other than BASE_REGISTRY that those stages or such
   * arguments refer to, and exactly the files that they copy, each with its bytes and mode.
   */
  lemma OutputByWords(p: Project, out: Output)
    requires WellFormed(p) && IsOutput(p, out)
    ensures out.syntax == p.docker.syntax
    ensures forall n :: n in out.stages <==> Required(p, n)
    ensures forall n | n in out.stages :: n in p.docker.stages && out.stages[n] == p.docker.stages[n]
    ensures forall line :: line in Lines(out.stages) <==> exists n | n in out.stages :: line in out.stages[n]
    ensures exists refs :: LeastClosed(p.lexer, p.docker.globals, Lines(out.stages), refs) && ArgumentsIn(p, refs, out.args)
    ensures forall f :: Listed(out.files, f) <==> exists n | n in out.stages && n in p.docker.stages :: CopiesFile(p, n, f)
    ensures forall e | e in out.files :: e.path in p.tree.files && p.tree.files[e.path] == File(e.executable, e.content)
  {
    hide Required, CopiesFile, Clean, Reaches, LineFiles, LeastClosed;
    forall n ensures n in Needed(p) <==> Required(p, n) {
      NeededExactly(p, n);
    }
    var refs :| IsReferenced(p, refs) && out.args == Arguments(p.docker.globals, refs);
    assert ArgumentsIn(p, refs, out.args);
    forall f ensures Listed(out.files, f) <==> exists n | n in out.stages && n in p.docker.stages :: CopiesFile(p, n, f) {
      ListedExactly(p, out.files, f);
      forall n | n in Needed(p) ensures f in LineFiles(p, p.docker.stages[n][1..]) <==> CopiesFile(p, n, f) {
        StageFilesExactly(p, n, f);
      }
    }
  }

  lemma ListedExactly(p: Project, files: seq<Entry>, f: string)
    requires WellFormed(p) && IsFileList(p.tree, Files(p, Needed(p)), files)
    ensures Listed(files, f) <==> f in Files(p, Needed(p))
  {
    hide Needed, LineFiles;
    var listed := seq(|files|, (i: nat) requires i < |files| => files[i].path);
    if e :| e in files && e.path == f {
      var i :| 0 <= i < |files| && files[i] == e;
      assert listed[i] == f;
    }
    if f in Files(p, Needed(p)) {
      assert f in listed;
      var i :| 0 <= i < |listed| && listed[i] == f;
      assert files[i] in files && files[i].path == f;
    }
  }

  /** And when it is that there is one. */
  lemma SoundByWords(p: Project)
    requires WellFormed(p)
    ensures Sound(p) <==> "toolchain" in p.docker.stages && forall n | Required(p, n) :: n in p.docker.stages && StageAcceptable(p, n)
  {
    hide Required, Clean, StageAcceptable, Reaches;
    forall n ensures n in Needed(p) <==> Required(p, n) {
      NeededExactly(p, n);
    }
    forall n | n in p.docker.stages ensures Clean(p, n) <==> StageAcceptable(p, n) {
      CleanExactly(p, n);
    }
  }
}
