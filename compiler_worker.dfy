/**
 * The compile driver of src/ReactAiStudio/components/Preview/compiler.worker.ts.
 *
 * Babel is a parameter: `parse` turns a file name and its code into the
 * program's pieces (`None` when Babel throws), and `generate` prints the
 * pieces back. Only import declarations matter to the driver: the
 * `customResolver` plugin visits them in order and overwrites the source
 * of each relative one it can resolve with the URL of a new blob. A blob
 * URL is `blob:` plus the blob's index in the worker's registry.
 *
 * The recursion into imported scripts has no cycle guard, so the
 * specification functions carry a depth bound `fuel`; `None` from them
 * means only that the bound was reached.
 */
module CompilerWorker {
  import opened Wrappers
  import opened Strings
  import opened FileCollection
  import opened TemplateFiles
  import opened CompilerText

  /** A piece of a parsed program: an import declaration's source, or any other code. */
  datatype Chunk = Code(text: string) | Import(source: string)

  /**
   * What the compile depends on besides the file being compiled: the
   * collection, the module lookup and the loaders the plugin closes over,
   * the React-import step, and Babel.
   */
  datatype Env = Env(
    files: Files,
    resolve: string -> Option<File>,
    load: File -> Option<string>,
    prepare: (string, string) -> string,
    parse: (string, string) -> Option<seq<Chunk>>,
    generate: seq<Chunk> -> string)

  /**
   * The environment of the worker's own code: the plugin looks modules up
   * with `getModuleFile(files, ·)` and loads them with `css2Js` (reading the
   * clock as `now`) and `json2Js`, and sources go through
   * `beforeTransformCode` before Babel.
   */
  ghost predicate Plugin(env: Env, now: nat)
  {
    && (forall p {:trigger GetModuleFile(env.files, p)} :: env.resolve(p) == GetModuleFile(env.files, p))
    && (forall f {:trigger Loaded(f, now)} :: env.load(f) == Loaded(f, now))
    && (forall name, code {:trigger BeforeTransformCode(name, code)} ::
          env.prepare(name, code) == BeforeTransformCode(name, code))
  }

  /** `customResolver(files)` and the steps around Babel. */
  function PluginEnv(files: Files, parse: (string, string) -> Option<seq<Chunk>>,
                     generate: seq<Chunk> -> string, now: nat): (env: Env)
    ensures env.files == files && env.parse == parse && env.generate == generate
    ensures Plugin(env, now)
  {
    Env(files, p => GetModuleFile(files, p), f => Loaded(f, now),
        (name, code) => BeforeTransformCode(name, code), parse, generate)
  }

  /** The result of `babelTransform`: its code and the blobs it created, in creation order. */
  datatype Out = Out(code: string, blobs: seq<string>)

  /** The result of visiting import declarations: the pieces afterwards and the blobs created. */
  datatype Visited = Visited(chunks: seq<Chunk>, blobs: seq<string>)

  /** The message the worker posts back. */
  datatype WorkerMessage = CompiledCode(data: string) | CompileError

  /** The URL `URL.createObjectURL` returns for the blob with index `id`. */
  function BlobUrl(id: nat): string
  {
    "blob:" + Digits(id)
  }

  /** A blob URL is not a relative specifier, so a rewritten import is never visited again as one. */
  lemma BlobUrlIsNotRelative(id: nat)
    ensures StartsWith(BlobUrl(id), "blob:") && !StartsWith(BlobUrl(id), ".")
  {
    assert BlobUrl(id)[0] == 'b';
  }

  /** Blob URLs of different blobs differ. */
  lemma BlobUrlInjective(a: nat, b: nat)
    requires BlobUrl(a) == BlobUrl(b)
    ensures a == b
  {
    assert BlobUrl(a)[5..] == Digits(a);
    assert BlobUrl(b)[5..] == Digits(b);
    DigitsInjective(a, b);
  }

  lemma {:induction false} DigitsInjective(a: nat, b: nat)
    requires Digits(a) == Digits(b)
    ensures a == b
    decreases a
  {
    var da := Digits(a);
    assert da[|da| - 1] == DigitChar(a % 10);
    assert DigitChar(a % 10) == DigitChar(b % 10);
    assert (a < 10) == (b < 10);
    if a >= 10 {
      assert Digits(a / 10) == da[..|da| - 1] == Digits(b / 10);
      DigitsInjective(a / 10, b / 10);
    }
  }

  /** The import declarations the resolver leaves exactly as they were. */
  predicate Untouched(env: Env, c: Chunk)
  {
    !c.Import? || !StartsWith(c.source, ".") || env.resolve(c.source).None?
  }

  /**
   * `babelTransform(name, code, files)` with the blob registry holding
   * `base` blobs: the code gets the React import when it needs one and is
   * parsed; a parse failure is caught and gives the empty module `''`.
   */
  function Transform(env: Env, fuel: nat, name: string, code: string, base: nat): (r: Option<Out>)
    decreases fuel, 0
  {
    if fuel == 0 then None
    else
      match env.parse(name, env.prepare(name, code))
      case None => Some(Out("", []))
      case Some(chunks) =>
        match ResolveAll(env, fuel - 1, chunks, base)
        case None => None
        case Some(v) => Some(Out(env.generate(v.chunks), v.blobs))
  }

  /** The `ImportDeclaration` visitor applied to each piece in turn. */
  function ResolveAll(env: Env, fuel: nat, cs: seq<Chunk>, base: nat): Option<Visited>
    decreases fuel, 2, |cs|
  {
    if |cs| == 0 then Some(Visited([], []))
    else
      match ResolveAll(env, fuel, cs[..|cs| - 1], base)
      case None => None
      case Some(done) =>
        match ResolveOne(env, fuel, cs[|cs| - 1], base + |done.blobs|)
        case None => None
        case Some(v) => Some(Visited(done.chunks + v.chunks, done.blobs + v.blobs))
  }

  /**
   * The `ImportDeclaration` visitor on one piece. Only an import whose
   * source starts with `.` and resolves to a file is rewritten, to the URL
   * of the blob created last: the loader's text when the file has a loader,
   * and otherwise the file compiled recursively against the same collection.
   */
  function ResolveOne(env: Env, fuel: nat, c: Chunk, base: nat): (r: Option<Visited>)
    ensures r.Some? ==> |r.value.chunks| == 1
    decreases fuel, 1
  {
    if Untouched(env, c) then Some(Visited([c], []))
    else
      var f := env.resolve(c.source).value;
      match env.load(f)
      case Some(text) => Some(Visited([Import(BlobUrl(base))], [text]))
      case None =>
        match Transform(env, fuel, f.name, f.value, base)
        case None => None
        case Some(o) => Some(Visited([Import(BlobUrl(base + |o.blobs|))], o.blobs + [o.code]))
  }

  /**
   * The visitor on one piece never fails on a piece it leaves alone, which
   * it gives back unchanged with no blob; any other piece becomes an import
   * of the blob it created last.
   */
  lemma ResolveOneShape(env: Env, fuel: nat, c: Chunk, base: nat)
    ensures var r := ResolveOne(env, fuel, c, base);
      && (Untouched(env, c) ==> r == Some(Visited([c], [])))
      && (r.Some? && !Untouched(env, c) ==>
            |r.value.blobs| >= 1 && r.value.chunks == [Import(BlobUrl(base + |r.value.blobs| - 1))])
  {
  }

  /** A visit that completes leaves as many pieces as it started with, the untouched ones as they were. */
  lemma {:induction false} ResolveAllKeeps(env: Env, fuel: nat, cs: seq<Chunk>, base: nat)
    ensures var r := ResolveAll(env, fuel, cs, base);
      r.Some? ==>
        && |r.value.chunks| == |cs|
        && (forall i :: 0 <= i < |cs| && Untouched(env, cs[i]) ==> r.value.chunks[i] == cs[i])
    decreases |cs|
  {
    var r := ResolveAll(env, fuel, cs, base);
    if |cs| > 0 && r.Some? {
      var n := |cs| - 1;
      var done := ResolveAll(env, fuel, cs[..n], base).value;
      var v := ResolveOne(env, fuel, cs[n], base + |done.blobs|).value;
      ResolveAllKeeps(env, fuel, cs[..n], base);
      ResolveOneShape(env, fuel, cs[n], base + |done.blobs|);
      assert r.value.chunks == done.chunks + v.chunks;
      forall i | 0 <= i < |cs| && Untouched(env, cs[i])
        ensures r.value.chunks[i] == cs[i]
      {
        if i < n {
          assert cs[i] == cs[..n][i];
        }
      }
    }
  }

  /** In a visit that completes, every piece the visitor does not leave alone imports a blob created during it. */
  lemma {:induction false} ResolveAllRewrites(env: Env, fuel: nat, cs: seq<Chunk>, base: nat, i: nat)
    requires i < |cs| && !Untouched(env, cs[i])
    requires ResolveAll(env, fuel, cs, base).Some?
    ensures var r := ResolveAll(env, fuel, cs, base).value;
      i < |r.chunks| && exists id :: base <= id < base + |r.blobs| && r.chunks[i] == Import(BlobUrl(id))
    decreases |cs|
  {
    var r := ResolveAll(env, fuel, cs, base).value;
    var n := |cs| - 1;
    var done := ResolveAll(env, fuel, cs[..n], base).value;
    var v := ResolveOne(env, fuel, cs[n], base + |done.blobs|).value;
    assert r == Visited(done.chunks + v.chunks, done.blobs + v.blobs);
    ResolveAllKeeps(env, fuel, cs[..n], base);
    if i < n {
      assert cs[i] == cs[..n][i];
      ResolveAllRewrites(env, fuel, cs[..n], base, i);
      var id :| base <= id < base + |done.blobs| && done.chunks[i] == Import(BlobUrl(id));
      assert r.chunks[i] == done.chunks[i];
    } else {
      ResolveOneShape(env, fuel, cs[n], base + |done.blobs|);
      var id := base + |done.blobs| + |v.blobs| - 1;
      assert r.chunks[i] == v.chunks[0] == Import(BlobUrl(id));
    }
  }

  /** `compile(files)`, then the message posted for it. */
  function Reply(env: Env, fuel: nat, base: nat): Option<WorkerMessage>
  {
    if EntryFileName !in env.files.entries then Some(CompileError)
    else
      match Transform(env, fuel, EntryFileName, env.files.entries[EntryFileName].value, base)
      case None => None
      case Some(o) => Some(CompiledCode(o.code))
  }

  /** The worker posts `ERROR` exactly when the entry file is missing, whatever the depth bound. */
  lemma ErrorOnlyWithoutEntry(env: Env, fuel: nat, base: nat)
    ensures Reply(env, fuel, base) == Some(CompileError) <==> EntryFileName !in env.files.entries
  {
  }

  /** A Babel failure gives the empty module and creates no blob. */
  lemma ParseFailureIsEmptyModule(env: Env, fuel: nat, name: string, code: string, base: nat)
    requires fuel > 0
    requires env.parse(name, env.prepare(name, code)).None?
    ensures Transform(env, fuel, name, code, base) == Some(Out("", []))
  {
  }

  /**
   * An import of a script that Babel cannot parse still gets rewritten: to
   * the URL of one new, empty blob.
   */
  lemma FailingImportIsEmptyBlob(env: Env, now: nat, fuel: nat, c: Chunk, base: nat)
    requires Plugin(env, now)
    requires fuel > 0 && !Untouched(env, c)
    requires var f := env.resolve(c.source).value;
      && !EndsWith(f.name, ".css") && !EndsWith(f.name, ".json")
      && env.parse(f.name, BeforeTransformCode(f.name, f.value)).None?
    ensures ResolveOne(env, fuel, c, base) == Some(Visited([Import(BlobUrl(base))], [""]))
  {
    var f := env.resolve(c.source).value;
    assert env.load(f) == Loaded(f, now) == None;
    ParseFailureIsEmptyModule(env, fuel, f.name, f.value, base);
    var o := Transform(env, fuel, f.name, f.value, base).value;
    assert o.blobs + [o.code] == [""];
  }

  /** A JSON import becomes the URL of one blob holding `export default` and the file's text. */
  lemma JsonImportIsOneBlob(env: Env, now: nat, fuel: nat, c: Chunk, base: nat)
    requires Plugin(env, now) && !Untouched(env, c)
    requires var f := env.resolve(c.source).value;
      !EndsWith(f.name, ".css") && EndsWith(f.name, ".json")
    ensures var f := env.resolve(c.source).value;
      ResolveOne(env, fuel, c, base) == Some(Visited([Import(BlobUrl(base))], ["export default " + f.value]))
  {
    var f := env.resolve(c.source).value;
    assert env.load(f) == Loaded(f, now) == Some(JsonModule(f));
  }

  /**
   * A CSS import becomes the URL of one blob holding the module that
   * appends the file's text as a style element, whatever else the name ends with.
   */
  lemma CssImportIsOneBlob(env: Env, now: nat, fuel: nat, c: Chunk, base: nat)
    requires Plugin(env, now) && !Untouched(env, c)
    requires EndsWith(env.resolve(c.source).value.name, ".css")
    ensures var f := env.resolve(c.source).value;
      ResolveOne(env, fuel, c, base) == Some(Visited([Import(BlobUrl(base))], [CssModule(f, now)]))
  {
    var f := env.resolve(c.source).value;
    assert env.load(f) == Loaded(f, now) == Some(CssModule(f, now));
  }

  /**
   * An import of any other file is compiled recursively against the same
   * collection and clock: the blobs that compile creates come first, then
   * one blob holding its code, and the import becomes that last blob's URL.
   * When the compile runs out of depth, so does the visit.
   */
  lemma ScriptImportIsCompiled(env: Env, now: nat, fuel: nat, c: Chunk, base: nat)
    requires Plugin(env, now) && !Untouched(env, c)
    requires var f := env.resolve(c.source).value;
      !EndsWith(f.name, ".css") && !EndsWith(f.name, ".json")
    ensures var f := env.resolve(c.source).value;
      var t := Transform(env, fuel, f.name, f.value, base);
      && (t.None? ==> ResolveOne(env, fuel, c, base).None?)
      && (t.Some? ==>
            ResolveOne(env, fuel, c, base)
              == Some(Visited([Import(BlobUrl(base + |t.value.blobs|))], t.value.blobs + [t.value.code])))
  {
    var f := env.resolve(c.source).value;
    assert env.load(f) == Loaded(f, now) == None;
  }

  /** A bigger depth bound never changes a result reached within a smaller one. */
  lemma {:induction false} TransformFuel(env: Env, fuel: nat, more: nat, name: string, code: string, base: nat)
    requires fuel <= more
    requires Transform(env, fuel, name, code, base).Some?
    ensures Transform(env, more, name, code, base) == Transform(env, fuel, name, code, base)
    decreases fuel, 0
  {
    match env.parse(name, env.prepare(name, code))
    case None =>
    case Some(chunks) =>
      ResolveAllFuel(env, fuel - 1, more - 1, chunks, base);
  }

  lemma {:induction false} ResolveAllFuel(env: Env, fuel: nat, more: nat, cs: seq<Chunk>, base: nat)
    requires fuel <= more
    requires ResolveAll(env, fuel, cs, base).Some?
    ensures ResolveAll(env, more, cs, base) == ResolveAll(env, fuel, cs, base)
    decreases fuel, 2, |cs|
  {
    if |cs| > 0 {
      var done := ResolveAll(env, fuel, cs[..|cs| - 1], base);
      ResolveAllFuel(env, fuel, more, cs[..|cs| - 1], base);
      ResolveOneFuel(env, fuel, more, cs[|cs| - 1], base + |done.value.blobs|);
    }
  }

  lemma {:induction false} ResolveOneFuel(env: Env, fuel: nat, more: nat, c: Chunk, base: nat)
    requires fuel <= more
    requires ResolveOne(env, fuel, c, base).Some?
    ensures ResolveOne(env, more, c, base) == ResolveOne(env, fuel, c, base)
    decreases fuel, 1
  {
    if !Untouched(env, c) {
      var f := env.resolve(c.source).value;
      if env.load(f).None? {
        TransformFuel(env, fuel, more, f.name, f.value, base);
      }
    }
  }

  /** Visiting one more piece extends the visit of the prefix by the visit of that piece. */
  lemma ResolveStep(env: Env, fuel: nat, cs: seq<Chunk>, i: nat, base: nat, done: Visited)
    requires i < |cs| && ResolveAll(env, fuel, cs[..i], base) == Some(done)
    ensures var step := ResolveOne(env, fuel, cs[i], base + |done.blobs|);
      && (step.None? ==> ResolveAll(env, fuel, cs[..i + 1], base).None?)
      && (step.Some? ==>
            ResolveAll(env, fuel, cs[..i + 1], base)
              == Some(Visited(done.chunks + step.value.chunks, done.blobs + step.value.blobs)))
  {
    assert cs[..i + 1][..i] == cs[..i];
    assert cs[..i + 1][i] == cs[i];
  }

  /** Once the visit of a prefix runs out of depth, so does the visit of the whole. */
  lemma {:induction false} ResolvePrefixNone(env: Env, fuel: nat, cs: seq<Chunk>, n: nat, base: nat)
    requires n <= |cs|
    requires ResolveAll(env, fuel, cs[..n], base).None?
    ensures ResolveAll(env, fuel, cs, base).None?
    decreases |cs| - n
  {
    if n < |cs| {
      assert cs[..n + 1][..n] == cs[..n];
      ResolvePrefixNone(env, fuel, cs, n + 1, base);
    } else {
      assert cs[..n] == cs;
    }
  }

  /**
   * One step of the traversal: once the visitor has rewritten piece `i` of
   * the program in place and appended its blobs, the program and the
   * registry hold the visit of the first `i + 1` pieces.
   */
  lemma VisitAdvances(env: Env, fuel: nat, program: seq<Chunk>, i: nat, base: nat, done: Visited,
                      before: seq<Chunk>, after: seq<Chunk>, prefix: seq<string>, registry: seq<string>)
    requires i < |program| == |before| && base == |prefix|
    requires ResolveAll(env, fuel, program[..i], base) == Some(done)
    requires before[..i] == done.chunks && before[i..] == program[i..]
    requires var step := ResolveOne(env, fuel, program[i], base + |done.blobs|);
      && step.Some?
      && after == before[i := step.value.chunks[0]]
      && registry == prefix + done.blobs + step.value.blobs
    ensures var step := ResolveOne(env, fuel, program[i], base + |done.blobs|).value;
      && after[i + 1..] == program[i + 1..]
      && after[..i + 1] == done.chunks + step.chunks
      && registry == prefix + (done.blobs + step.blobs)
      && ResolveAll(env, fuel, program[..i + 1], base) == Some(Visited(done.chunks + step.chunks, done.blobs + step.blobs))
  {
    var step := ResolveOne(env, fuel, program[i], base + |done.blobs|).value;
    ResolveStep(env, fuel, program, i, base, done);
    assert before[i + 1..] == program[i + 1..] by {
      assert before[i..][1..] == program[i..][1..];
    }
    assert step.chunks == [step.chunks[0]];
  }

  /**
   * The worker: its blob registry (the text of blob `i` is `blobs[i]`) and
   * the messages it has posted.
   */
  class Worker {
    var blobs: seq<string>
    var outbox: seq<WorkerMessage>

    constructor()
      ensures blobs == [] && outbox == []
    {
      blobs := [];
      outbox := [];
    }

    /** `URL.createObjectURL(new Blob([text]))`: a new blob, and its URL. */
    method CreateObjectUrl(text: string) returns (url: string)
      modifies this
      ensures blobs == old(blobs) + [text]
      ensures url == BlobUrl(|old(blobs)|)
      ensures outbox == old(outbox)
    {
      url := BlobUrl(|blobs|);
      blobs := blobs + [text];
    }

    /** `babelTransform(name, code, files)`; `None` only when the depth bound is reached. */
    method BabelTransform(env: Env, now: nat, fuel: nat, name: string, code: string) returns (r: Option<string>)
      requires Plugin(env, now)
      modifies this
      ensures var spec := Transform(env, fuel, name, code, |old(blobs)|);
        && (r.Some? <==> spec.Some?)
        && (r.Some? ==> r.value == spec.value.code && blobs == old(blobs) + spec.value.blobs)
      ensures outbox == old(outbox)
      decreases fuel, 0
    {
      if fuel == 0 {
        return None;
      }
      var prepared := Prepare(env, now, name, code);
      var parsed := env.parse(name, prepared);
      if parsed.None? {
        return Some("");
      }
      var ast := NewAst(parsed.value);
      var ok := ResolveImports(env, now, fuel - 1, ast);
      if !ok {
        return None;
      }
      r := Some(env.generate(ast[..]));
    }

    /** The traversal: the visitor on every import declaration, left to right, in place. */
    method ResolveImports(env: Env, now: nat, fuel: nat, ast: array<Chunk>) returns (ok: bool)
      requires Plugin(env, now)
      modifies this, ast
      ensures var spec := ResolveAll(env, fuel, old(ast[..]), |old(blobs)|);
        && (ok <==> spec.Some?)
        && (ok ==> ast[..] == spec.value.chunks && blobs == old(blobs) + spec.value.blobs)
      ensures outbox == old(outbox)
      decreases fuel, 2
    {
      ghost var program := ast[..];
      ghost var base := |blobs|;
      ghost var done := Visited([], []);
      var i := 0;
      while i < ast.Length
        invariant 0 <= i <= ast.Length
        invariant ast[i..] == program[i..]
        invariant ast[..i] == done.chunks
        invariant blobs == old(blobs) + done.blobs
        invariant ResolveAll(env, fuel, program[..i], base) == Some(done)
        invariant outbox == old(outbox)
      {
        ghost var c, at := ast[i], |blobs|;
        assert c == program[i] && at == base + |done.blobs|;
        ghost var step := ResolveOne(env, fuel, c, at);
        ghost var before := ast[..];
        var visited := ImportDeclaration(env, now, fuel, ast, i);
        if !visited {
          ResolveStep(env, fuel, program, i, base, done);
          ResolvePrefixNone(env, fuel, program, i + 1, base);
          return false;
        }
        VisitAdvances(env, fuel, program, i, base, done, before, ast[..], old(blobs), blobs);
        done := Visited(done.chunks + step.value.chunks, done.blobs + step.value.blobs);
        i := i + 1;
      }
      assert program[..i] == program;
      assert ast[..i] == ast[..];
      return true;
    }

    /** The `ImportDeclaration` visitor on `ast[i]`, which it overwrites in place. */
    method ImportDeclaration(env: Env, now: nat, fuel: nat, ast: array<Chunk>, i: nat) returns (ok: bool)
      requires Plugin(env, now)
      requires i < ast.Length
      modifies this, ast
      ensures var spec := ResolveOne(env, fuel, old(ast[i]), |old(blobs)|);
        && (ok <==> spec.Some?)
        && (ok ==> ast[..] == old(ast[..])[i := spec.value.chunks[0]] && blobs == old(blobs) + spec.value.blobs)
      ensures !ok ==> ast[..] == old(ast[..])
      ensures outbox == old(outbox)
      decreases fuel, 1
    {
      var c := ast[i];
      if Untouched(env, c) {
        return true;
      }
      var f := env.resolve(c.source).value;
      assert env.load(f) == Loaded(f, now);
      var url;
      if EndsWith(f.name, ".css") {
        url := CreateObjectUrl(CssModule(f, now));
      } else if EndsWith(f.name, ".json") {
        url := CreateObjectUrl(JsonModule(f));
      } else {
        var code := BabelTransform(env, now, fuel, f.name, f.value);
        if code.None? {
          return false;
        }
        url := CreateObjectUrl(code.value);
      }
      ast[i] := Import(url);
      ok := true;
    }

    /**
     * The message handler: compile the posted collection with the plugin
     * built from it and post exactly one reply.
     */
    method OnMessage(files: Files, parse: (string, string) -> Option<seq<Chunk>>,
                     generate: seq<Chunk> -> string, now: nat, fuel: nat) returns (posted: bool)
      modifies this
      ensures var spec := Reply(PluginEnv(files, parse, generate, now), fuel, |old(blobs)|);
        && (posted <==> spec.Some?)
        && (posted ==> outbox == old(outbox) + [spec.value])
        && (!posted ==> outbox == old(outbox))
    {
      var env := PluginEnv(files, parse, generate, now);
      if EntryFileName !in files.entries {
        outbox := outbox + [CompileError];
        return true;
      }
      var main := files.entries[EntryFileName];
      var code := BabelTransform(env, now, fuel, EntryFileName, main.value);
      if code.None? {
        return false;
      }
      outbox := outbox + [CompiledCode(code.value)];
      posted := true;
    }
  }

  /** `beforeTransformCode(filename, code)`, the text handed to Babel. */
  method Prepare(env: Env, now: nat, name: string, code: string) returns (prepared: string)
    requires Plugin(env, now)
    ensures prepared == env.prepare(name, code)
  {
    prepared := BeforeTransformCode(name, code);
  }

  /** The AST Babel builds, as a fresh array of its top-level pieces. */
  method NewAst(program: seq<Chunk>) returns (ast: array<Chunk>)
    ensures fresh(ast) && ast[..] == program
  {
    ast := new Chunk[|program|](i requires 0 <= i < |program| => program[i]);
  }
}
