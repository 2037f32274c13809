// The template registry of templates.go: a TemplateRenderer keeps a map from
// template name to a compiled Template, fills it from glob patterns over a
// virtual filesystem (Add, AddWithLayout, AddWithLayoutAndIncludes) and
// executes an entry by name (Render).
//
// The filesystem's glob, the template engine's parser and its executor are
// not modelled; they are oracles handed in as function values, so every
// property below holds whatever they answer.

module Templates {
  import opened GoPath

  datatype Option<+T> = None | Some(value: T)

  datatype Result<+T, +E> = Success(value: T) | Failure(error: E)

  /** The names of the functions a template may call; the callables
      themselves belong to the template engine. */
  type FuncMap = set<string>

  /** The default function set: a single clock-formatting "getTime". */
  const DefaultTemplateFuncs: FuncMap := {"getTime"}

  /** Opaque handle to a set of templates compiled by the engine. */
  datatype Handle = Handle(id: nat)

  /** A virtual filesystem as the registry sees it. `glob` is fs.Glob on it
      (matching paths in the order the filesystem returns them, or the
      error it reports); `parseFS` is the engine's ParseFS on it: given the
      function set, the name of the new template and the patterns of the
      files to read, it either fails or compiles them into one handle. */
  datatype FileSystem = FileSystem(
    glob: string -> Result<seq<string>, string>,
    parseFS: (FuncMap, string, seq<string>) -> Result<Handle, string>)

  /** The errors the registry returns. Only the kind and the pattern or file
      involved are kept, not the wording of the messages. ExecFailed is what
      the template engine's executor returns when running a template fails;
      Render passes it back unchanged. */
  datatype Error =
    | GlobFailed(cause: string)
    | NoMatch(pattern: string)
    | ParseFailed(file: string, cause: string)
    | ExecFailed(cause: string)

  /** One registered template: its layout's base name ("" when it has none),
      its own base name and its compiled handle. */
  datatype Template = Template(layout: string, name: string, template: Handle)

  /** Which of the three Add operations is registering. */
  datatype Mode =
    | Plain
    | WithLayout(layout: string)
    | WithLayoutAndIncludes(layout: string, includes: string)

  /** The registry map after an Add, and the error it returned. */
  datatype Outcome = Outcome(templates: map<string, Template>, err: Option<Error>)

  // ---------------------------------------------------------------------
  // readFileNames

  predicate Matched(fsys: FileSystem, pattern: string)
  {
    fsys.glob(pattern).Success? && fsys.glob(pattern).value != []
  }

  /** The error readFileNames reports for a pattern that did not match. */
  function PatternFailure(fsys: FileSystem, pattern: string): Error
    requires !Matched(fsys, pattern)
  {
    match fsys.glob(pattern)
    case Failure(cause) => GlobFailed(cause)
    case Success(_) => NoMatch(pattern)
  }

  /** What readFileNames returns for the patterns: the matches of each
      pattern in turn, or the failure of the first pattern that fails. */
  function FileNames(fsys: FileSystem, patterns: seq<string>): Result<seq<string>, Error>
    decreases |patterns|
  {
    if patterns == [] then Success([])
    else if !Matched(fsys, patterns[0]) then Failure(PatternFailure(fsys, patterns[0]))
    else Prefixed(fsys.glob(patterns[0]).value, FileNames(fsys, patterns[1..]))
  }

  function Prefixed(front: seq<string>, r: Result<seq<string>, Error>): Result<seq<string>, Error>
  {
    match r
    case Success(rest) => Success(front + rest)
    case Failure(e) => Failure(e)
  }

  /** readFileNames (templates.go:165-181). */
  method ReadFileNames(fsys: FileSystem, patterns: seq<string>) returns (r: Result<seq<string>, Error>)
    ensures r == FileNames(fsys, patterns)
  {
    var filenames: seq<string> := [];
    var i := 0;
    assert patterns[0..] == patterns;
    assert Prefixed(filenames, FileNames(fsys, patterns)) == FileNames(fsys, patterns) by {
      match FileNames(fsys, patterns)
      case Success(rest) => assert [] + rest == rest;
      case Failure(_) =>
    }
    while i < |patterns|
      invariant 0 <= i <= |patterns|
      invariant FileNames(fsys, patterns) == Prefixed(filenames, FileNames(fsys, patterns[i..]))
      decreases |patterns| - i
    {
      var pattern := patterns[i];
      assert patterns[i..][0] == pattern && patterns[i..][1..] == patterns[i + 1..];
      var list := fsys.glob(pattern);
      if list.Failure? {
        return Failure(GlobFailed(list.error));
      }
      if |list.value| == 0 {
        return Failure(NoMatch(pattern));
      }
      match FileNames(fsys, patterns[i + 1..]) {
        case Success(rest) => assert filenames + (list.value + rest) == (filenames + list.value) + rest;
        case Failure(_) =>
      }
      filenames := filenames + list.value;
      i := i + 1;
    }
    assert patterns[i..] == [];
    assert filenames + [] == filenames;
    return Success(filenames);
  }

  /** readFileNames succeeds exactly when every pattern globs without error
      to at least one file. */
  lemma {:induction false} FileNamesSucceedsIff(fsys: FileSystem, patterns: seq<string>)
    ensures FileNames(fsys, patterns).Success?
        <==> forall i | 0 <= i < |patterns| :: Matched(fsys, patterns[i])
    decreases |patterns|
  {
    if patterns != [] {
      FileNamesSucceedsIff(fsys, patterns[1..]);
      assert forall i | 1 <= i < |patterns| :: patterns[i] == patterns[1..][i - 1];
    }
  }

  /** readFileNames over two lists of patterns is the first list's files
      followed by the second's, and fails with the first list's failure if
      it has one: files come in pattern order, each pattern's matches in
      the order glob gave them. */
  lemma {:induction false} FileNamesAppend(fsys: FileSystem, ps: seq<string>, qs: seq<string>)
    ensures FileNames(fsys, ps + qs) ==
      match FileNames(fsys, ps)
      case Failure(e) => Failure(e)
      case Success(xs) => Prefixed(xs, FileNames(fsys, qs))
    decreases |ps|
  {
    if ps == [] {
      assert ps + qs == qs;
      match FileNames(fsys, qs)
      case Success(ys) => assert [] + ys == ys;
      case Failure(_) =>
    } else {
      assert (ps + qs)[0] == ps[0] && (ps + qs)[1..] == ps[1..] + qs;
      FileNamesAppend(fsys, ps[1..], qs);
      if Matched(fsys, ps[0]) {
        var front := fsys.glob(ps[0]).value;
        match FileNames(fsys, ps[1..])
        case Failure(_) =>
        case Success(xs) =>
          match FileNames(fsys, qs)
          case Failure(_) =>
          case Success(ys) => assert front + (xs + ys) == (front + xs) + ys;
      }
    }
  }

  /** The first pattern that fails decides the error, and no later pattern
      is looked at: readFileNames gives the same answer on the patterns up
      to and including it. */
  lemma FileNamesFirstFailure(fsys: FileSystem, patterns: seq<string>, i: nat)
    requires i < |patterns| && !Matched(fsys, patterns[i])
    requires forall j | 0 <= j < i :: Matched(fsys, patterns[j])
    ensures FileNames(fsys, patterns) == Failure(PatternFailure(fsys, patterns[i]))
    ensures FileNames(fsys, patterns) == FileNames(fsys, patterns[..i + 1])
  {
    FileNamesFailsAt(fsys, patterns, i);
    FileNamesFailsAt(fsys, patterns[..i + 1], i);
  }

  lemma {:induction false} FileNamesFailsAt(fsys: FileSystem, patterns: seq<string>, i: nat)
    requires i < |patterns| && !Matched(fsys, patterns[i])
    requires forall j | 0 <= j < i :: Matched(fsys, patterns[j])
    ensures FileNames(fsys, patterns) == Failure(PatternFailure(fsys, patterns[i]))
    decreases i
  {
    if i > 0 {
      assert forall j | 0 <= j < i - 1 :: patterns[1..][j] == patterns[j + 1];
      FileNamesFailsAt(fsys, patterns[1..], i - 1);
    }
  }

  /** On success, a path is in the list exactly when some pattern matched it. */
  lemma {:induction false} FileNamesMembers(fsys: FileSystem, patterns: seq<string>, f: string)
    requires FileNames(fsys, patterns).Success?
    ensures f in FileNames(fsys, patterns).value
        <==> exists p | p in patterns && Matched(fsys, p) :: f in fsys.glob(p).value
    decreases |patterns|
  {
    if patterns != [] {
      FileNamesMembers(fsys, patterns[1..], f);
      if f in fsys.glob(patterns[0]).value {
        assert patterns[0] in patterns;
      }
      forall p | p in patterns[1..] ensures p in patterns {
      }
      forall p | p in patterns && p != patterns[0] ensures p in patterns[1..] {
      }
    }
  }

  // ---------------------------------------------------------------------
  // Registration

  /** The patterns ParseFS reads for file f: the file alone, the layout
      then the file, or the layout, the includes pattern, then the file. */
  function Sources(mode: Mode, f: string): (r: seq<string>)
    ensures |r| > 0 && r[|r| - 1] == f
  {
    match mode
    case Plain => [f]
    case WithLayout(layout) => [layout, f]
    case WithLayoutAndIncludes(layout, includes) => [layout, includes, f]
  }

  /** The layout recorded in each registered template: none for Add, the
      layout's base name for the two layout variants. */
  function LayoutName(mode: Mode): (r: string)
    ensures mode.Plain? <==> r == ""
  {
    match mode
    case Plain => ""
    case WithLayout(layout) => Base(layout)
    case WithLayoutAndIncludes(layout, _) => Base(layout)
  }

  /** The template compiled for file f, keyed and named by its base name, or
      the parse error naming f. */
  function Compile(fsys: FileSystem, funcs: FuncMap, mode: Mode, f: string): Result<Template, Error>
  {
    var tname := Base(f);
    match fsys.parseFS(funcs, tname, Sources(mode, f))
    case Success(h) => Success(Template(LayoutName(mode), tname, h))
    case Failure(cause) => Failure(ParseFailed(f, cause))
  }

  /** The loop of an Add operation over resolved file names: each file in
      turn is compiled and stored under its base name; the first failure
      stops the loop and keeps what was stored before it. */
  function AddFiles(m: map<string, Template>, fsys: FileSystem, funcs: FuncMap, mode: Mode,
                    files: seq<string>): Outcome
    decreases |files|
  {
    if files == [] then Outcome(m, None)
    else
      match Compile(fsys, funcs, mode, files[0])
      case Failure(e) => Outcome(m, Some(e))
      case Success(t) => AddFiles(m[t.name := t], fsys, funcs, mode, files[1..])
  }

  /** A whole Add operation: resolve every pattern first, then register. */
  function AddPatterns(m: map<string, Template>, fsys: FileSystem, funcs: FuncMap, mode: Mode,
                       patterns: seq<string>): Outcome
  {
    match FileNames(fsys, patterns)
    case Failure(e) => Outcome(m, Some(e))
    case Success(files) => AddFiles(m, fsys, funcs, mode, files)
  }

  /** The registry's invariant: every template sits under its own name, and
      names and layouts are base names. */
  predicate WellFormed(m: map<string, Template>)
  {
    forall k | k in m ::
      && m[k].name == k
      && IsBaseName(k)
      && (m[k].layout == "" || IsBaseName(m[k].layout))
  }

  /** Registering files in two batches is registering the first batch and,
      unless it failed, then the second. */
  lemma {:induction false} AddFilesSplit(m: map<string, Template>, fsys: FileSystem, funcs: FuncMap,
                                         mode: Mode, a: seq<string>, b: seq<string>)
    ensures AddFiles(m, fsys, funcs, mode, a + b) ==
      var first := AddFiles(m, fsys, funcs, mode, a);
      if first.err.Some? then first else AddFiles(first.templates, fsys, funcs, mode, b)
    decreases |a|
  {
    if a == [] {
      assert a + b == b;
    } else {
      assert (a + b)[0] == a[0] && (a + b)[1..] == a[1..] + b;
      match Compile(fsys, funcs, mode, a[0])
      case Failure(_) =>
      case Success(t) => AddFilesSplit(m[t.name := t], fsys, funcs, mode, a[1..], b);
    }
  }

  /** Registration fails exactly when some file fails to compile. */
  lemma {:induction false} AddFilesSucceedsIff(m: map<string, Template>, fsys: FileSystem,
                                               funcs: FuncMap, mode: Mode, files: seq<string>)
    ensures AddFiles(m, fsys, funcs, mode, files).err.None?
        <==> forall i | 0 <= i < |files| :: Compile(fsys, funcs, mode, files[i]).Success?
    decreases |files|
  {
    if files != [] {
      match Compile(fsys, funcs, mode, files[0])
      case Failure(_) =>
      case Success(t) =>
        AddFilesSucceedsIff(m[t.name := t], fsys, funcs, mode, files[1..]);
        assert forall i | 1 <= i < |files| :: files[i] == files[1..][i - 1];
    }
  }

  /** A key that is not the base name of any file keeps its old entry, or
      stays absent, whether or not registration fails. */
  lemma {:induction false} AddFilesFrame(m: map<string, Template>, fsys: FileSystem, funcs: FuncMap,
                                         mode: Mode, files: seq<string>, k: string)
    requires forall f | f in files :: Base(f) != k
    ensures var r := AddFiles(m, fsys, funcs, mode, files).templates;
      (k in r <==> k in m) && (k in m ==> r[k] == m[k])
    decreases |files|
  {
    if files != [] {
      assert files[0] in files;
      match Compile(fsys, funcs, mode, files[0])
      case Failure(_) =>
      case Success(t) =>
        assert forall f | f in files[1..] :: f in files;
        AddFilesFrame(m[t.name := t], fsys, funcs, mode, files[1..], k);
    }
  }

  /** A parse failure on file i stops registration there: the entries made
      for the files before i stay, nothing is made for file i or later, and
      the error names file i. */
  lemma {:induction false} AddFilesStopsAt(m: map<string, Template>, fsys: FileSystem, funcs: FuncMap,
                                           mode: Mode, files: seq<string>, i: nat)
    requires i < |files| && Compile(fsys, funcs, mode, files[i]).Failure?
    requires forall j | 0 <= j < i :: Compile(fsys, funcs, mode, files[j]).Success?
    ensures AddFiles(m, fsys, funcs, mode, files) ==
      Outcome(AddFiles(m, fsys, funcs, mode, files[..i]).templates, Some(ParseFailed(files[i], fsys.parseFS(funcs, Base(files[i]), Sources(mode, files[i])).error)))
  {
    assert files == files[..i] + files[i..];
    AddFilesSplit(m, fsys, funcs, mode, files[..i], files[i..]);
    AddFilesSucceedsIff(m, fsys, funcs, mode, files[..i]);
    assert files[i..][0] == files[i];
  }

  /** The entry made for the last file of a successful registration is the
      one that file compiled to. */
  lemma {:induction false} AddFilesLast(m: map<string, Template>, fsys: FileSystem, funcs: FuncMap,
                     mode: Mode, files: seq<string>)
    requires files != [] && AddFiles(m, fsys, funcs, mode, files).err.None?
    ensures var last := files[|files| - 1];
      && Compile(fsys, funcs, mode, last).Success?
      && var r := AddFiles(m, fsys, funcs, mode, files).templates;
         Base(last) in r && r[Base(last)] == Compile(fsys, funcs, mode, last).value
  {
    var n := |files|;
    var last := files[n - 1];
    assert files == files[..n - 1] + [last];
    AddFilesSplit(m, fsys, funcs, mode, files[..n - 1], [last]);
    var first := AddFiles(m, fsys, funcs, mode, files[..n - 1]);
    assert first.err.None?;
    AddFilesOne(first.templates, fsys, funcs, mode, last);
  }

  lemma AddFilesOne(m: map<string, Template>, fsys: FileSystem, funcs: FuncMap, mode: Mode, f: string)
    ensures var c := Compile(fsys, funcs, mode, f);
      AddFiles(m, fsys, funcs, mode, [f]) ==
        if c.Failure? then Outcome(m, Some(c.error)) else Outcome(m[c.value.name := c.value], None)
  {
    assert [f][0] == f && [f][1..] == [];
  }

  /** Last write wins: when no later file has the same base name, the entry
      under file i's base name is the template compiled from file i,
      whatever was registered under that name before. */
  lemma {:induction false} AddFilesLastWins(m: map<string, Template>, fsys: FileSystem, funcs: FuncMap,
                         mode: Mode, files: seq<string>, i: nat)
    requires AddFiles(m, fsys, funcs, mode, files).err.None?
    requires i < |files|
    requires forall j | i < j < |files| :: Base(files[j]) != Base(files[i])
    ensures Compile(fsys, funcs, mode, files[i]).Success?
    ensures var r := AddFiles(m, fsys, funcs, mode, files).templates;
      Base(files[i]) in r && r[Base(files[i])] == Compile(fsys, funcs, mode, files[i]).value
  {
    var k := Base(files[i]);
    var front, back := files[..i + 1], files[i + 1..];
    assert files == front + back;
    AddFilesSplit(m, fsys, funcs, mode, front, back);
    var first := AddFiles(m, fsys, funcs, mode, front);
    assert first.err.None?;
    AddFilesLast(m, fsys, funcs, mode, front);
    assert front[|front| - 1] == files[i];
    forall f | f in back ensures Base(f) != k {
      var j :| 0 <= j < |back| && back[j] == f;
      assert files[i + 1 + j] == f;
    }
    AddFilesFrame(first.templates, fsys, funcs, mode, back, k);
  }

  /** After a successful registration every file has an entry under its base
      name, named by that base name and carrying the mode's layout. */
  lemma {:induction false} AddFilesCovers(m: map<string, Template>, fsys: FileSystem, funcs: FuncMap,
                                          mode: Mode, files: seq<string>)
    requires AddFiles(m, fsys, funcs, mode, files).err.None?
    ensures var r := AddFiles(m, fsys, funcs, mode, files).templates;
      forall f | f in files ::
        Base(f) in r && r[Base(f)].name == Base(f) && r[Base(f)].layout == LayoutName(mode)
    decreases |files|
  {
    if files != [] {
      var t := Compile(fsys, funcs, mode, files[0]).value;
      var m' := m[t.name := t];
      AddFilesCovers(m', fsys, funcs, mode, files[1..]);
      if files[0] !in files[1..] && forall f | f in files[1..] :: Base(f) != Base(files[0]) {
        AddFilesFrame(m', fsys, funcs, mode, files[1..], Base(files[0]));
      }
      forall f | f in files ensures f == files[0] || f in files[1..] {
        var j :| 0 <= j < |files| && files[j] == f;
        if j > 0 { assert files[1..][j - 1] == f; }
      }
    }
  }

  /** Storing a template under its own base name, with no layout or a
      base-name layout, keeps the registry well formed. */
  lemma InsertKeepsWellFormed(m: map<string, Template>, t: Template)
    requires WellFormed(m)
    requires IsBaseName(t.name) && (t.layout == "" || IsBaseName(t.layout))
    ensures WellFormed(m[t.name := t])
  {
  }

  /** Registration keeps the registry well formed, even when it fails. */
  lemma {:induction false} AddFilesKeepsWellFormed(m: map<string, Template>, fsys: FileSystem,
                                                   funcs: FuncMap, mode: Mode, files: seq<string>)
    requires WellFormed(m)
    ensures WellFormed(AddFiles(m, fsys, funcs, mode, files).templates)
    decreases |files|
  {
    if files != [] {
      match Compile(fsys, funcs, mode, files[0])
      case Failure(_) =>
      case Success(t) =>
        InsertKeepsWellFormed(m, t);
        AddFilesKeepsWellFormed(m[t.name := t], fsys, funcs, mode, files[1..]);
    }
  }

  /** A pattern that fails leaves the registry exactly as it was: all
      patterns are resolved before the first template is stored. */
  lemma PatternFailureLeavesRegistry(m: map<string, Template>, fsys: FileSystem, funcs: FuncMap,
                                     mode: Mode, patterns: seq<string>, i: nat)
    requires i < |patterns| && !Matched(fsys, patterns[i])
    requires forall j | 0 <= j < i :: Matched(fsys, patterns[j])
    ensures AddPatterns(m, fsys, funcs, mode, patterns) == Outcome(m, Some(PatternFailure(fsys, patterns[i])))
  {
    FileNamesFirstFailure(fsys, patterns, i);
  }

  /** A whole Add operation succeeds exactly when every pattern matches
      and every matched file compiles. */
  lemma AddPatternsSucceedsIff(m: map<string, Template>, fsys: FileSystem, funcs: FuncMap, mode: Mode,
                               patterns: seq<string>)
    ensures AddPatterns(m, fsys, funcs, mode, patterns).err.None?
        <==> && FileNames(fsys, patterns).Success?
             && forall f | f in FileNames(fsys, patterns).value :: Compile(fsys, funcs, mode, f).Success?
  {
    if FileNames(fsys, patterns).Success? {
      var files := FileNames(fsys, patterns).value;
      AddFilesSucceedsIff(m, fsys, funcs, mode, files);
      assert forall i | 0 <= i < |files| :: files[i] in files;
    }
  }

  // ---------------------------------------------------------------------
  // Render

  /** The entry point Render executes for name: nothing when the name is not
      registered, else the layout when there is one, else the template's
      own name. */
  function EntryPoint(m: map<string, Template>, name: string): Option<string>
  {
    if name !in m then None
    else if m[name].layout != "" then Some(m[name].layout)
    else Some(m[name].name)
  }

  /** In a well-formed registry a registered name always has a non-empty
      entry point, and without a layout it is the requested name itself. */
  lemma EntryPointOfRegistered(m: map<string, Template>, name: string)
    requires WellFormed(m) && name in m
    ensures EntryPoint(m, name).Some? && EntryPoint(m, name).value != ""
    ensures m[name].layout == "" ==> EntryPoint(m, name) == Some(name)
  {
  }

  /** After a successful Add every matched file is rendered from its own
      name; after a successful AddWithLayout or AddWithLayoutAndIncludes
      from the layout's base name. Names not derived from matched files
      keep their entries, and so render as before. */
  lemma EntryPointAfterAdd(m: map<string, Template>, fsys: FileSystem, funcs: FuncMap, mode: Mode,
                           patterns: seq<string>)
    requires AddPatterns(m, fsys, funcs, mode, patterns).err.None?
    ensures FileNames(fsys, patterns).Success?
    ensures var r := AddPatterns(m, fsys, funcs, mode, patterns).templates;
      forall f | f in FileNames(fsys, patterns).value ::
        EntryPoint(r, Base(f)) == Some(if mode.Plain? then Base(f) else Base(mode.layout))
    ensures var r := AddPatterns(m, fsys, funcs, mode, patterns).templates;
      forall k | forall f | f in FileNames(fsys, patterns).value :: Base(f) != k ::
        && (k in r <==> k in m)
        && (k in m ==> r[k] == m[k])
        && EntryPoint(r, k) == EntryPoint(m, k)
  {
    var files := FileNames(fsys, patterns).value;
    var r := AddFiles(m, fsys, funcs, mode, files).templates;
    AddFilesCovers(m, fsys, funcs, mode, files);
    forall k | forall f | f in files :: Base(f) != k
      ensures (k in r <==> k in m) && (k in m ==> r[k] == m[k]) && EntryPoint(r, k) == EntryPoint(m, k)
    {
      AddFilesFrame(m, fsys, funcs, mode, files, k);
    }
  }

  // ---------------------------------------------------------------------
  // The registry object

  /** TemplateRenderer (templates.go:30-34). */
  class TemplateRenderer {
    var templates: map<string, Template>
    const templateFuncs: FuncMap

    ghost predicate Valid()
      reads this
    {
      WellFormed(templates)
    }

    /** New (templates.go:37-42): an empty registry with the default functions. */
    constructor ()
      ensures Valid()
      ensures templates == map[] && templateFuncs == DefaultTemplateFuncs
    {
      templates := map[];
      templateFuncs := DefaultTemplateFuncs;
    }

    /** NewWithTemplateFuncs (templates.go:45-50): an empty registry with the
        caller's functions instead of the defaults. */
    constructor WithTemplateFuncs(funcs: FuncMap)
      ensures Valid()
      ensures templates == map[] && templateFuncs == funcs
    {
      templates := map[];
      templateFuncs := funcs;
    }

    /** AddWithLayout (templates.go:53-79). */
    method AddWithLayout(fsys: FileSystem, layout: string, patterns: seq<string>) returns (err: Option<Error>)
      requires Valid()
      modifies this
      ensures Valid()
      ensures Outcome(templates, err) == AddPatterns(old(templates), fsys, templateFuncs, WithLayout(layout), patterns)
    {
      var names := ReadFileNames(fsys, patterns);
      if names.Failure? {
        return Some(names.error);
      }
      var filenames := names.value;
      ghost var mode := WithLayout(layout);
      for i := 0 to |filenames|
        invariant Valid()
        invariant AddFiles(templates, fsys, templateFuncs, mode, filenames[i..])
               == AddFiles(old(templates), fsys, templateFuncs, mode, filenames)
      {
        var f := filenames[i];
        assert filenames[i..][0] == f && filenames[i..][1..] == filenames[i + 1..];
        var tname := Base(f);
        var lname := Base(layout);
        var tmp := fsys.parseFS(templateFuncs, tname, [layout, f]);
        if tmp.Failure? {
          return Some(ParseFailed(f, tmp.error));
        }
        templates := templates[tname := Template(lname, tname, tmp.value)];
      }
      assert filenames[|filenames|..] == [];
      return None;
    }

    /** AddWithLayoutAndIncludes (templates.go:82-108). */
    method AddWithLayoutAndIncludes(fsys: FileSystem, layout: string, includes: string, patterns: seq<string>)
      returns (err: Option<Error>)
      requires Valid()
      modifies this
      ensures Valid()
      ensures Outcome(templates, err)
           == AddPatterns(old(templates), fsys, templateFuncs, WithLayoutAndIncludes(layout, includes), patterns)
    {
      var names := ReadFileNames(fsys, patterns);
      if names.Failure? {
        return Some(names.error);
      }
      var filenames := names.value;
      ghost var mode := WithLayoutAndIncludes(layout, includes);
      for i := 0 to |filenames|
        invariant Valid()
        invariant AddFiles(templates, fsys, templateFuncs, mode, filenames[i..])
               == AddFiles(old(templates), fsys, templateFuncs, mode, filenames)
      {
        var f := filenames[i];
        assert filenames[i..][0] == f && filenames[i..][1..] == filenames[i + 1..];
        var tname := Base(f);
        var lname := Base(layout);
        var tmp := fsys.parseFS(templateFuncs, tname, [layout, includes, f]);
        if tmp.Failure? {
          return Some(ParseFailed(f, tmp.error));
        }
        templates := templates[tname := Template(lname, tname, tmp.value)];
      }
      assert filenames[|filenames|..] == [];
      return None;
    }

    /** Add (templates.go:111-134). */
    method Add(fsys: FileSystem, patterns: seq<string>) returns (err: Option<Error>)
      requires Valid()
      modifies this
      ensures Valid()
      ensures Outcome(templates, err) == AddPatterns(old(templates), fsys, templateFuncs, Plain, patterns)
    {
      var names := ReadFileNames(fsys, patterns);
      if names.Failure? {
        return Some(names.error);
      }
      var filenames := names.value;
      for i := 0 to |filenames|
        invariant Valid()
        invariant AddFiles(templates, fsys, templateFuncs, Plain, filenames[i..])
               == AddFiles(old(templates), fsys, templateFuncs, Plain, filenames)
      {
        var f := filenames[i];
        assert filenames[i..][0] == f && filenames[i..][1..] == filenames[i + 1..];
        var tname := Base(f);
        var tmp := fsys.parseFS(templateFuncs, tname, [f]);
        if tmp.Failure? {
          return Some(ParseFailed(f, tmp.error));
        }
        templates := templates[tname := Template("", tname, tmp.value)];
      }
      assert filenames[|filenames|..] == [];
      return None;
    }

    /** Render (templates.go:137-163). `execute` stands for ExecuteTemplate
        (None on success, an error such as ExecFailed otherwise)
        on the request's writer and data, `noContent` for what the echo
        context's NoContent(500) returns. Go's Render returns only the error:
        `entry`, the entry point that was executed (None when nothing was),
        is not part of Go's result and is returned only so the contract can
        name it. */
    method Render(name: string, execute: (Handle, string) -> Option<Error>, noContent: Option<Error>)
      returns (err: Option<Error>, entry: Option<string>)
      requires Valid()
      ensures entry == EntryPoint(templates, name)
      ensures name !in templates ==> entry == None && err == noContent
      ensures name in templates ==> entry.Some? && entry.value != ""
      ensures name in templates ==> err == execute(templates[name].template, entry.value)
    {
      if name !in templates {
        return noContent, None;
      }
      var tmpl := templates[name];
      var execName := tmpl.name;
      if tmpl.layout != "" {
        execName := tmpl.layout;
      }
      err := execute(tmpl.template, execName);
      entry := Some(execName);
    }
  }
}
