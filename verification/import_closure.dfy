/** The modules that the gateway loads at start-up, scripts/check-gateway-optional-runtime-closure.ts: a worklist over
    the static imports, and the check that nothing optional is among them. */
module ImportClosures {
  import opened JsMaps
  import opened Texts
  import opened TextOrders

  // ---------------------------------------------------------------- sources

  datatype Bindings = NoBindings | Namespace | Named(typeOnly: seq<bool>)

  datatype ImportClause = ImportClause(typeOnly: bool, hasName: bool, bindings: Bindings)

  /** A `specifier` is absent when it is missing or not a string literal. */
  datatype Statement =
    | Import(specifier: Option<string>, clause: Option<ImportClause>)
    | Export(specifier: Option<string>, typeOnly: bool)
    | OtherStatement

  predicate HasRuntimeImport(clause: Option<ImportClause>) {
    match clause
    case None => true
    case Some(c) =>
      if c.typeOnly then false
      else if c.hasName || c.bindings.Namespace? then true
      else c.bindings.Named? && exists i :: 0 <= i < |c.bindings.typeOnly| && !c.bindings.typeOnly[i]
  }

  /** An import loads nothing exactly if it imports types only: as a whole, or because it has neither a default name nor
      a namespace and every name in its braces is a type. */
  lemma ErasedExactly(clause: Option<ImportClause>)
    ensures !HasRuntimeImport(clause) <==>
            match clause
            case None => false
            case Some(ImportClause(typeOnly, hasName, bindings)) =>
              typeOnly || (!hasName && match bindings
                                       case NoBindings => true
                                       case Namespace => false
                                       case Named(types) => forall i :: 0 <= i < |types| ==> types[i])
  {
  }

  predicate LoadsAtRuntime(s: Statement) {
    match s
    case Import(specifier, clause) => specifier.Some? && HasRuntimeImport(clause)
    case Export(specifier, typeOnly) => specifier.Some? && !typeOnly
    case OtherStatement => false
  }

  function RuntimeSpecifiers(source: seq<Statement>): (r: seq<string>)
    ensures forall x :: x in r <==> exists s :: s in source && LoadsAtRuntime(s) && s.specifier == Some(x)
  {
    if source == [] then []
    else
      var init, last := source[..|source| - 1], source[|source| - 1];
      assert forall s :: s in source <==> s in init || s == last;
      RuntimeSpecifiers(init) + if LoadsAtRuntime(last) then [last.specifier.value] else []
  }

  /** The files of the repository by path, and where a relative specifier leads (`None`: to no file). */
  datatype Project = Project(files: map<string, seq<Statement>>, lookup: (string, string) -> Option<string>)

  const ROOTS := ["src/gateway/server.impl.ts", "src/plugins/runtime/index.ts"]

  const FORBIDDEN := ["src/media/audio.ts", "src/media/fetch.ts", "src/media/image-ops.ts", "src/media/store.ts",
                      "src/web/media.ts", "src/tts/tts.ts", "src/signal/send.ts"]

  const FORBIDDEN_PACKAGES := ["@mariozechner/pi-ai/compat"]

  // ---------------------------------------------------------------- the import graph

  predicate Relative(specifier: string) {
    HasPrefix(specifier, ".")
  }

  lemma RelativeExactly(specifier: string)
    ensures Relative(specifier) <==> specifier != "" && specifier[0] == '.'
  {
  }

  /** A file that can be read and whose relative runtime imports all lead to files. */
  predicate Loadable(p: Project, file: string) {
    file in p.files && forall x :: x in RuntimeSpecifiers(p.files[file]) && Relative(x) ==> p.lookup(file, x).Some?
  }

  ghost predicate Imports(p: Project, from: string, to: string) {
    from in p.files && exists x :: x in RuntimeSpecifiers(p.files[from]) && Relative(x) && p.lookup(from, x) == Some(to)
  }

  ghost predicate IsPath(p: Project, path: seq<string>) {
    forall i :: 0 <= i < |path| - 1 ==> Imports(p, path[i], path[i + 1])
  }

  /** `file` is loaded along some chain of imports that starts at one of `roots`. */
  ghost predicate Reachable(p: Project, roots: seq<string>, file: string) {
    exists path :: path != [] && path[0] in roots && path[|path| - 1] == file && IsPath(p, path)
  }

  lemma RootReachable(p: Project, roots: seq<string>, file: string)
    requires file in roots
    ensures Reachable(p, roots, file)
  {
    assert IsPath(p, [file]) && [file][0] == file;
  }

  lemma ImportReachable(p: Project, roots: seq<string>, from: string, to: string)
    requires Reachable(p, roots, from) && Imports(p, from, to)
    ensures Reachable(p, roots, to)
  {
    var path :| path != [] && path[0] in roots && path[|path| - 1] == from && IsPath(p, path);
    var longer := path + [to];
    forall i | 0 <= i < |longer| - 1 ensures Imports(p, longer[i], longer[i + 1]) {
      assert i < |path| - 1 ==> Imports(p, path[i], path[i + 1]);
    }
    assert longer[0] in roots && longer[|longer| - 1] == to;
  }

  /** A set of files that holds the roots and everything its members import. */
  ghost predicate Closed(p: Project, roots: seq<string>, files: set<string>) {
    && (forall f :: f in roots ==> f in files)
    && (forall f, g :: f in files && Imports(p, f, g) ==> g in files)
  }

  lemma {:induction false} PathStaysInside(p: Project, roots: seq<string>, files: set<string>,
                                           path: seq<string>, n: nat)
    requires Closed(p, roots, files) && n < |path| && path[0] in roots && IsPath(p, path)
    ensures path[n] in files
  {
    if n > 0 {
      PathStaysInside(p, roots, files, path, n - 1);
      assert Imports(p, path[n - 1], path[n - 1 + 1]);
    }
  }

  lemma ReachableIsInside(p: Project, roots: seq<string>, files: set<string>, file: string)
    requires Closed(p, roots, files) && Reachable(p, roots, file)
    ensures file in files
  {
    var path :| path != [] && path[0] in roots && path[|path| - 1] == file && IsPath(p, path);
    PathStaysInside(p, roots, files, path, |path| - 1);
  }

  // ---------------------------------------------------------------- the worklist

  datatype Collected = Closure(files: seq<string>) | LoadFailed

  /** What is to be pushed after reading `file`: the targets of its relative imports. */
  function Targets(p: Project, file: string, specifiers: seq<string>): (r: seq<string>)
    requires forall x :: x in specifiers && Relative(x) ==> p.lookup(file, x).Some?
    ensures forall g :: g in r <==> exists x :: x in specifiers && Relative(x) && p.lookup(file, x) == Some(g)
  {
    if specifiers == [] then []
    else
      var init, last := specifiers[..|specifiers| - 1], specifiers[|specifiers| - 1];
      assert forall x :: x in specifiers <==> x in init || x == last;
      Targets(p, file, init) + if Relative(last) then [p.lookup(file, last).value] else []
  }

  /** The worklist between two rounds: everything in it is reachable, and what the visited files import is visited
      or pending. */
  ghost predicate Working(p: Project, roots: seq<string>, pending: seq<string>, visited: set<string>) {
    && (forall f :: f in roots ==> f in visited || f in pending)
    && (forall f :: f in visited || f in pending ==> Reachable(p, roots, f))
    && (forall f :: f in visited ==> Loadable(p, f))
    && (forall f, g :: f in visited && Imports(p, f, g) ==> g in visited || g in pending)
  }

  lemma StartWorking(p: Project, roots: seq<string>)
    ensures Working(p, roots, roots, {})
  {
    forall f | f in roots ensures Reachable(p, roots, f) {
      RootReachable(p, roots, f);
    }
  }

  lemma CurrentIsReachable(p: Project, roots: seq<string>, pending: seq<string>, visited: set<string>, current: string)
    requires Working(p, roots, pending + [current], visited)
    ensures Reachable(p, roots, current)
    ensures current in visited ==> Working(p, roots, pending, visited)
  {
    assert current in pending + [current];
    assert forall f :: f in pending + [current] <==> f in pending || f == current;
  }

  lemma WorkDone(p: Project, roots: seq<string>, visited: set<string>, f: string)
    requires Working(p, roots, [], visited)
    ensures f in visited <==> Reachable(p, roots, f)
    ensures f in visited ==> Loadable(p, f)
  {
    if Reachable(p, roots, f) {
      ReachableIsInside(p, roots, visited, f);
    }
  }

  method CollectStaticClosure(p: Project, roots: seq<string>) returns (r: Collected)
    ensures r.LoadFailed? <==> exists f :: Reachable(p, roots, f) && !Loadable(p, f)
    ensures r.Closure? ==> Ascending(r.files) && forall f :: f in r.files <==> Reachable(p, roots, f)
  {
    hide Working, Reachable, Imports;
    var pending := roots;
    var visited: set<string> := {};
    var order: seq<string> := [];
    StartWorking(p, roots);
    while |pending| > 0
      invariant Working(p, roots, pending, visited)
      invariant visited == Elements(order) && visited <= p.files.Keys
      decreases |p.files.Keys - visited|, |pending|
    {
      var current := pending[|pending| - 1];
      assert pending == pending[..|pending| - 1] + [current];
      pending := pending[..|pending| - 1];
      CurrentIsReachable(p, roots, pending, visited, current);
      if current in visited {
        continue;
      }
      if current !in p.files {
        return LoadFailed;
      }
      var specifiers := RuntimeSpecifiers(p.files[current]);
      if exists x :: x in specifiers && Relative(x) && p.lookup(current, x).None? {
        return LoadFailed;
      }
      var found := PushUnvisited(p, current, specifiers, visited + {current});
      Visit(p, roots, pending, visited, current, specifiers, found);
      assert p.files.Keys - (visited + {current}) == (p.files.Keys - visited) - {current};
      visited := visited + {current};
      order := order + [current];
      pending := pending + found;
    }
    assert pending == [];
    forall f ensures (f in visited <==> Reachable(p, roots, f)) && (f in visited ==> Loadable(p, f)) {
      WorkDone(p, roots, visited, f);
    }
    SortAscending(order);
    assert forall f :: f in Sort(order) <==> f in Elements(Sort(order));
    r := Closure(Sort(order));
  }

  method PushUnvisited(p: Project, current: string, specifiers: seq<string>, visited: set<string>)
    returns (found: seq<string>)
    requires forall x :: x in specifiers && Relative(x) ==> p.lookup(current, x).Some?
    ensures forall g :: g in found <==> g in Targets(p, current, specifiers) && g !in visited
  {
    found := [];
    for i := 0 to |specifiers|
      invariant forall g :: g in found <==> g in Targets(p, current, specifiers[..i]) && g !in visited
    {
      assert specifiers[..i + 1][..i] == specifiers[..i];
      if Relative(specifiers[i]) {
        var resolved := p.lookup(current, specifiers[i]).value;
        if resolved !in visited {
          found := found + [resolved];
        }
      }
    }
    assert specifiers[..|specifiers|] == specifiers;
  }

  lemma Visit(p: Project, roots: seq<string>, pending: seq<string>, visited: set<string>, current: string,
              specifiers: seq<string>, found: seq<string>)
    requires Working(p, roots, pending + [current], visited) && Loadable(p, current)
    requires specifiers == RuntimeSpecifiers(p.files[current])
    requires forall g :: g in found <==> g in Targets(p, current, specifiers) && g !in visited + {current}
    ensures Working(p, roots, pending + found, visited + {current})
  {
    forall g | Imports(p, current, g) ensures g in visited + {current} || g in pending + found {
      assert g in Targets(p, current, specifiers);
    }
    forall g | g in found ensures Reachable(p, roots, g) {
      assert current in pending + [current];
      assert Imports(p, current, g);
      ImportReachable(p, roots, current, g);
    }
  }

  // ---------------------------------------------------------------- the check

  datatype Failure = ForbiddenModule(file: string) | ForbiddenPackage(file: string, specifier: string)

  datatype Checked = Passed(closure: seq<string>) | Rejected(failures: seq<Failure>) | CheckFailed

  function ForbiddenModules(closure: seq<string>): (r: seq<Failure>)
    ensures r == [] <==> forall f :: f in closure ==> f !in FORBIDDEN
  {
    if closure == [] then []
    else
      var init, last := closure[..|closure| - 1], closure[|closure| - 1];
      assert forall f :: f in closure <==> f in init || f == last;
      ForbiddenModules(init) + if last in FORBIDDEN then [ForbiddenModule(last)] else []
  }

  function ForbiddenImports(file: string, specifiers: seq<string>): (r: seq<Failure>)
    ensures r == [] <==> forall x :: x in specifiers ==> x !in FORBIDDEN_PACKAGES
  {
    if specifiers == [] then []
    else
      var init, last := specifiers[..|specifiers| - 1], specifiers[|specifiers| - 1];
      assert forall f :: f in specifiers <==> f in init || f == last;
      ForbiddenImports(file, init) + if last in FORBIDDEN_PACKAGES then [ForbiddenPackage(file, last)] else []
  }

  /** A file that the gateway must not load at start-up, or that statically imports a forbidden package. */
  ghost predicate Optional(p: Project, file: string) {
    || file in FORBIDDEN
    || (file in p.files && exists x :: x in RuntimeSpecifiers(p.files[file]) && x in FORBIDDEN_PACKAGES)
  }

  /** The check passes exactly when everything reachable loads and none of it is optional. */
  method AssertOptionalRuntimeClosure(p: Project) returns (r: Checked)
    ensures r.CheckFailed? <==> exists f :: Reachable(p, ROOTS, f) && !Loadable(p, f)
    ensures r.Passed? <==> forall f :: Reachable(p, ROOTS, f) ==> Loadable(p, f) && !Optional(p, f)
    ensures r.Passed? ==> Ascending(r.closure) && forall f :: f in r.closure <==> Reachable(p, ROOTS, f)
  {
    hide Reachable, Optional;
    var collected := CollectStaticClosure(p, ROOTS);
    if collected.LoadFailed? {
      return CheckFailed;
    }
    var closure := collected.files;
    assert forall f :: f in closure ==> Loadable(p, f);
    var failures := ForbiddenModules(closure);
    for i := 0 to |closure|
      invariant failures == [] <==> NoneOptional(p, closure, i)
    {
      OneMore(p, closure, i);
      failures := failures + ForbiddenImports(closure[i], RuntimeSpecifiers(p.files[closure[i]]));
    }
    NoneIsOptional(p, closure);
    if failures != [] {
      return Rejected(failures);
    }
    return Passed(closure);
  }

  ghost predicate NoneOptional(p: Project, closure: seq<string>, n: nat)
    requires n <= |closure| && forall f :: f in closure ==> f in p.files
  {
    && ForbiddenModules(closure) == []
    && forall i :: 0 <= i < n ==> ForbiddenImports(closure[i], RuntimeSpecifiers(p.files[closure[i]])) == []
  }

  lemma OneMore(p: Project, closure: seq<string>, n: nat)
    requires n < |closure| && forall f :: f in closure ==> f in p.files
    ensures NoneOptional(p, closure, n + 1) <==>
            NoneOptional(p, closure, n)
            && ForbiddenImports(closure[n], RuntimeSpecifiers(p.files[closure[n]])) == []
  {
  }

  lemma NoneIsOptional(p: Project, closure: seq<string>)
    requires forall f :: f in closure ==> f in p.files
    ensures NoneOptional(p, closure, |closure|) <==> forall f :: f in closure ==> !Optional(p, f)
  {
    if NoneOptional(p, closure, |closure|) {
      forall f | f in closure ensures !Optional(p, f) {
        var i :| 0 <= i < |closure| && closure[i] == f;
        assert ForbiddenImports(closure[i], RuntimeSpecifiers(p.files[closure[i]])) == [];
      }
    }
    if forall f :: f in closure ==> !Optional(p, f) {
      forall i | 0 <= i < |closure|
        ensures ForbiddenImports(closure[i], RuntimeSpecifiers(p.files[closure[i]])) == [] {
        assert !Optional(p, closure[i]);
      }
    }
  }
}
