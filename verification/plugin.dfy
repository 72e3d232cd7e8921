/** index.ts: the plugin instance Babel creates from the options, with its per-file
    tag identifier, the two visitor hooks, and the registration of external
    dependencies done when the instance is created. */
module Plugin {
  import opened Wrappers
  import opened Host
  import opened Ast
  import opened PluginOptions
  import opened ImportRewrite

  /** The hooks the factory accepts: a reader and a glob expander (`globby.sync`
      by default). */
  datatype CreatePluginOptions = CreatePluginOptions(
    readFile: Reader,
    globFiles: DependencyPatterns -> seq<string>)

  /** The calls made on Babel's API for the files, in glob order: each file is
      added as an external dependency, then its mtime becomes a cache key. */
  function Registrations(files: seq<string>): (r: seq<Registration>)
    ensures |r| == 2 * |files|
  {
    if files == [] then []
    else [ExternalDependency(files[0]), InvalidateOnMtime(files[0])] + Registrations(files[1..])
  }

  lemma {:induction false} RegistrationsAppend(files: seq<string>, file: string)
    ensures Registrations(files + [file]) == Registrations(files) + [ExternalDependency(file), InvalidateOnMtime(file)]
  {
    if files == [] {
      assert files + [file] == [file];
    } else {
      assert (files + [file])[0] == files[0];
      assert (files + [file])[1..] == files[1..] + [file];
      RegistrationsAppend(files[1..], file);
    }
  }

  /** Each globbed file is registered exactly once, at its own position in glob
      order, first as a dependency and then as a cache key. */
  lemma {:induction false} RegistrationsInGlobOrder(files: seq<string>)
    ensures |Registrations(files)| == 2 * |files|
    ensures forall k | 0 <= k < |files| ::
              Registrations(files)[2 * k] == ExternalDependency(files[k]) &&
              Registrations(files)[2 * k + 1] == InvalidateOnMtime(files[k])
  {
    if files != [] {
      RegistrationsInGlobOrder(files[1..]);
      forall k | 1 <= k < |files|
        ensures Registrations(files)[2 * k] == ExternalDependency(files[k])
        ensures Registrations(files)[2 * k + 1] == InvalidateOnMtime(files[k])
      {
        assert files[k] == files[1..][k - 1];
        assert Registrations(files)[2 * k] == Registrations(files[1..])[2 * (k - 1)];
        assert Registrations(files)[2 * k + 1] == Registrations(files[1..])[2 * (k - 1) + 1];
      }
    }
  }

  /** The `if (options.externalDependencies)` block: glob the patterns and register
      every file found; nothing when the option is unset or falsy. */
  method RegisterExternalDependencies(
    api: HostApi, externalDependencies: Option<DependencyPatterns>, globFiles: DependencyPatterns -> seq<string>)
    modifies api
    ensures api.log == old(api.log) +
              if IsTruthyPatterns(externalDependencies) then Registrations(globFiles(externalDependencies.value)) else []
  {
    if IsTruthyPatterns(externalDependencies) {
      var files := globFiles(externalDependencies.value);
      for k := 0 to |files|
        invariant api.log == old(api.log) + Registrations(files[..k])
      {
        api.AddExternalDependency(files[k]);
        api.CacheInvalidate(files[k]);
        RegistrationsAppend(files[..k], files[k]);
        assert files[..k + 1] == files[..k] + [files[k]];
      }
      assert files[..|files|] == files;
    }
  }

  /** The closure returned by `babelPluginPostcss`: merged options, the foreign
      functions, and `localCssImportSpecifier`. */
  class PluginPass {
    const options: Options
    const env: Env
    var localCssImportSpecifier: Option<string>

    constructor (options: Options, env: Env)
      ensures this.options == options && this.env == env
      ensures localCssImportSpecifier == None
    {
      this.options := options;
      this.env := env;
      localCssImportSpecifier := None;
    }

    /** `importDeclarationExit` for the import declaration at index `i` of the
        module body: the body and the tag identifier become what ExitImport says;
        when getCss throws, nothing has been changed. */
    method ImportDeclarationExit(program: Program, i: nat, filename: string, generateUid: string -> string)
      returns (r: Outcome<Exception>)
      requires i < |program.body| && program.body[i].Import?
      modifies this, program
      ensures match ExitImport(FileContext(options, env, filename, generateUid), old(program.body[i].decl), old(localCssImportSpecifier))
              case Success(x) =>
                r == Pass && localCssImportSpecifier == x.tag &&
                program.body == old(program.body[..i]) + x.statements + old(program.body[i + 1..])
              case Failure(e) =>
                r == Fail(e) && localCssImportSpecifier == old(localCssImportSpecifier) &&
                program.body == old(program.body)
    {
      ghost var ctx := FileContext(options, env, filename, generateUid);
      ghost var body0 := program.body;
      var decl := program.body[i].decl;
      var filepath := env.resolve(env.dirname(filename), decl.source);
      if !TestFilepath(options.test, filepath) {
        return Pass;
      }
      var defaultImportName := FindDefaultSpecifier(decl.specifiers);
      if defaultImportName.None? {
        return Pass;
      }
      var cssContent := CssFetch.GetCss(CssFetch.GetCssOptions(filepath, env.readFile, options.postcss), env.client);
      assert cssContent == FetchContent(ctx, decl);
      if cssContent.Failure? {
        return Fail(cssContent.error);
      }
      var variableDeclaratorInit;
      var at := i;
      if options.tagged.Some? {
        var tagged := options.tagged.value;
        if localCssImportSpecifier.None? {
          localCssImportSpecifier := Some(generateUid(tagged.localImport));
        }
        program.InsertBefore(i, TagImport(localCssImportSpecifier.value, tagged));
        assert program.body[..i + 1] == body0[..i] + [TagImport(localCssImportSpecifier.value, tagged)];
        assert program.body[i + 2..] == body0[i + 1..];
        at := i + 1;
        variableDeclaratorInit := TaggedContent(localCssImportSpecifier.value, cssContent.value);
      } else {
        variableDeclaratorInit := StringLiteral(cssContent.value);
      }
      program.ReplaceWith(at, ConstDeclaration(defaultImportName.value, variableDeclaratorInit));
      return Pass;
    }

    /** `programExit`: forget the tag identifier, so the next file generates its own. */
    method ProgramExit()
      modifies this
      ensures localCssImportSpecifier == None
    {
      localCssImportSpecifier := None;
    }

    /** Babel's visit of the statement at index i: the import hook when it is an
        import declaration, nothing otherwise. `next` is the index of the first
        statement after the ones the visit produced. */
    method VisitStatement(program: Program, i: nat, filename: string, generateUid: string -> string)
      returns (r: Outcome<Exception>, next: nat)
      requires i < |program.body|
      modifies this, program
      ensures match Visit(FileContext(options, env, filename, generateUid), old(program.body[i]), old(localCssImportSpecifier))
              case Success(x) =>
                r == Pass && localCssImportSpecifier == x.tag && next == i + |x.statements| &&
                program.body == old(program.body[..i]) + x.statements + old(program.body[i + 1..])
              case Failure(e) =>
                r == Fail(e) && localCssImportSpecifier == old(localCssImportSpecifier) &&
                program.body == old(program.body)
    {
      if !program.body[i].Import? {
        assert program.body == program.body[..i] + [program.body[i]] + program.body[i + 1..];
        return Pass, i + 1;
      }
      var n := |program.body|;
      r := ImportDeclarationExit(program, i, filename, generateUid);
      next := i + 1 + (|program.body| - n);
    }

    /** Babel's traversal of one file: every statement of the body in order, the
        import hook on each import declaration, then the program exit hook. The
        statements a hook inserts are not revisited: TagImportIsLeftAlone shows that
        visiting them would change nothing. An exception ends the traversal before
        the exit hook: the statements before the failing import stay rewritten, the
        rest stay as they were, and the tag identifier generated for this file (if
        any) is kept for the next file. */
    method Traverse(program: Program, filename: string, generateUid: string -> string)
      returns (r: Outcome<Exception>)
      modifies this, program
      ensures match TransformBody(FileContext(options, env, filename, generateUid), old(program.body), old(localCssImportSpecifier))
              case Success(x) => r == Pass && program.body == x.statements && localCssImportSpecifier == None
              case Failure(e) =>
                r == Fail(e) &&
                KeepsTag(FileContext(options, env, filename, generateUid), old(localCssImportSpecifier), localCssImportSpecifier) &&
                StoppedAt(FileContext(options, env, filename, generateUid), old(program.body), old(localCssImportSpecifier),
                          localCssImportSpecifier, e, program.body)
    {
      ghost var ctx := FileContext(options, env, filename, generateUid);
      ghost var body0 := program.body;
      ghost var tag0 := localCssImportSpecifier;
      ghost var k := 0;
      var i := 0;
      assert body0[..k] == [];
      while i < |program.body|
        invariant 0 <= k <= |body0| && 0 <= i <= |program.body|
        invariant program.body[i..] == body0[k..]
        invariant TransformBody(ctx, body0[..k], tag0) == Success(Rewritten(program.body[..i], localCssImportSpecifier))
        invariant KeepsTag(ctx, tag0, localCssImportSpecifier)
        decreases |body0| - k
      {
        ghost var before := program.body;
        ghost var tag := localCssImportSpecifier;
        ghost var j := i;
        assert before[j] == body0[k];
        var outcome;
        outcome, i := VisitStatement(program, i, filename, generateUid);
        if outcome.Fail? {
          StopsAt(ctx, body0, k, tag0, before, j, tag);
          return outcome;
        }
        Advances(ctx, body0, k, tag0, before, j, tag, program.body, i);
        VisitKeepsTag(ctx, body0[k], tag0, tag);
        k := k + 1;
      }
      assert body0[..k] == body0 && program.body[..i] == program.body;
      ProgramExit();
      return Pass;
    }
  }

  /** The tag identifier a traversal that started from `tag0` may hold: the one
      it started with, or else the one generated for this file in tagged mode. */
  predicate KeepsTag(ctx: FileContext, tag0: Option<string>, tag: Option<string>)
  {
    (tag0.Some? ==> tag == tag0) &&
    (tag0.None? && tag.Some? ==>
       ctx.options.tagged.Some? && tag == Some(ctx.generateUid(ctx.options.tagged.value.localImport)))
  }

  /** A traversal of `body` from `tag0` that threw `e` stopped at some statement
      `body[n]`: the prefix before it was rewritten and left the identifier `tag`,
      visiting `body[n]` with `tag` throws `e`, and `current` is the rewritten
      prefix followed by the untouched rest. */
  ghost predicate StoppedAt(ctx: FileContext, body: seq<Statement>, tag0: Option<string>,
                            tag: Option<string>, e: Exception, current: seq<Statement>)
  {
    exists n | 0 <= n < |body| ::
      var done := TransformBody(ctx, body[..n], tag0);
      done.Success? && done.value.tag == tag &&
      Visit(ctx, body[n], tag) == Failure(e) &&
      current == done.value.statements + body[n..]
  }

  /** A successful visit keeps the traversal's tag identifier one it may hold. */
  lemma VisitKeepsTag(ctx: FileContext, stmt: Statement, tag0: Option<string>, tag: Option<string>)
    requires KeepsTag(ctx, tag0, tag) && Visit(ctx, stmt, tag).Success?
    ensures KeepsTag(ctx, tag0, Visit(ctx, stmt, tag).value.tag)
  {
  }

  /** The traversal has rewritten `current[..j]` from `body[..k]` and the visit of
      `body[k]` succeeds: the rewritten prefix grows by that visit's statements. */
  lemma Advances(ctx: FileContext, body: seq<Statement>, k: nat, tag0: Option<string>,
                 current: seq<Statement>, j: nat, tag: Option<string>, after: seq<Statement>, i: nat)
    requires k < |body| && j <= |current|
    requires TransformBody(ctx, body[..k], tag0) == Success(Rewritten(current[..j], tag)) && current[j..] == body[k..]
    requires Visit(ctx, body[k], tag).Success?
    requires after == current[..j] + Visit(ctx, body[k], tag).value.statements + current[j + 1..]
    requires i == j + |Visit(ctx, body[k], tag).value.statements|
    ensures i <= |after| && after[i..] == body[k + 1..]
    ensures TransformBody(ctx, body[..k + 1], tag0) == Success(Rewritten(after[..i], Visit(ctx, body[k], tag).value.tag))
  {
    PrefixStep(ctx, body, k, tag0, current[..j], tag);
    var x := Visit(ctx, body[k], tag).value;
    assert after[..i] == current[..j] + x.statements;
    assert current[j + 1..] == body[k + 1..] by {
      assert current[j + 1..] == current[j..][1..];
    }
  }

  /** The traversal has rewritten `current[..j]` from `body[..k]` and the visit of
      `body[k]` throws: that exception is the whole body's, and the program is left
      with the rewritten prefix followed by the untouched rest. */
  lemma StopsAt(ctx: FileContext, body: seq<Statement>, k: nat, tag0: Option<string>,
                current: seq<Statement>, j: nat, tag: Option<string>)
    requires k < |body| && j <= |current|
    requires TransformBody(ctx, body[..k], tag0) == Success(Rewritten(current[..j], tag)) && current[j..] == body[k..]
    requires Visit(ctx, body[k], tag).Failure?
    ensures TransformBody(ctx, body, tag0) == Failure(Visit(ctx, body[k], tag).error)
    ensures StoppedAt(ctx, body, tag0, tag, Visit(ctx, body[k], tag).error, current)
  {
    PrefixFailure(ctx, body, k, tag0, current[..j], tag);
    SplitAt(current, j, body[k..]);
    StoppedAtWitness(ctx, body, k, tag0, tag, Visit(ctx, body[k], tag).error, current);
  }

  lemma SplitAt(current: seq<Statement>, j: nat, rest: seq<Statement>)
    requires j <= |current| && current[j..] == rest
    ensures current == current[..j] + rest
  {
    assert current == current[..j] + current[j..];
  }

  lemma StoppedAtWitness(ctx: FileContext, body: seq<Statement>, k: nat, tag0: Option<string>,
                         tag: Option<string>, e: Exception, current: seq<Statement>)
    requires k < |body| && TransformBody(ctx, body[..k], tag0).Success?
    requires TransformBody(ctx, body[..k], tag0).value.tag == tag && Visit(ctx, body[k], tag) == Failure(e)
    requires current == TransformBody(ctx, body[..k], tag0).value.statements + body[k..]
    ensures StoppedAt(ctx, body, tag0, tag, e, current)
  {
  }

  /** `babelPluginPostcssFactory(create)` applied by Babel to its API and the user's
      options: merge the options, start with no tag identifier, and register the
      external dependencies. */
  method BabelPluginPostcss(
    create: CreatePluginOptions, api: HostApi, user: UserOptions,
    dirname: string -> string, resolve: (string, string) -> string, client: Processor)
    returns (pass: PluginPass)
    modifies api
    ensures fresh(pass)
    ensures pass.options == MergeOptions(user) && pass.env == Env(dirname, resolve, create.readFile, client)
    ensures pass.localCssImportSpecifier == None
    ensures api.log == old(api.log) +
              if IsTruthyPatterns(user.externalDependencies) then Registrations(create.globFiles(user.externalDependencies.value)) else []
  {
    var options := MergeOptions(user);
    pass := new PluginPass(options, Env(dirname, resolve, create.readFile, client));
    RegisterExternalDependencies(api, options.externalDependencies, create.globFiles);
  }
}
