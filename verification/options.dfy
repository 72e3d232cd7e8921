/** The plugin's options (index.ts): the defaults, how user options override
    them, and the import classifier built from `test`. */
module PluginOptions {
  import opened Wrappers
  import opened CssFetch

  predicate EndsWith(s: string, suffix: string)
  {
    |suffix| <= |s| && s[|s| - |suffix|..] == suffix
  }

  /** A RegExp value. The only pattern the plugin itself writes, `/\.css$/`, is an
      escaped literal anchored at the end of the input; any other pattern is
      represented by its `test` method. */
  datatype RegExp =
    | LiteralAtEnd(literal: string)
    | CompiledRegExp(matches: string -> bool)
  {
    /** `regexp.test(s)` */
    predicate Test(s: string)
    {
      match this
      case LiteralAtEnd(literal) => EndsWith(s, literal)
      case CompiledRegExp(matches) => matches(s)
    }
  }

  /** The `test` option: a RegExp or a function of the resolved path. */
  datatype Test = Pattern(regexp: RegExp) | Predicate(f: string -> bool)

  /** `[taggedLocalImport, taggedImportModule]` */
  datatype TagSpec = TagSpec(localImport: string, importModule: string)

  /** The `externalDependencies` option: `string | string[]`. */
  datatype DependencyPatterns = SinglePattern(pattern: string) | PatternList(patterns: seq<string>)

  /** JavaScript truthiness: an empty string is falsy, every array is truthy. */
  predicate IsTruthyPatterns(deps: Option<DependencyPatterns>)
  {
    match deps
    case None => false
    case Some(SinglePattern(p)) => p != ""
    case Some(PatternList(_)) => true
  }

  datatype Options = Options(
    test: Test,
    postcss: PostcssOption,
    tagged: Option<TagSpec>,
    externalDependencies: Option<DependencyPatterns>)

  /** `defaultOptions` */
  const DefaultOptions := Options(Pattern(LiteralAtEnd(".css")), Undefined, None, None)

  /** The options a user passes; `None` is a key left out. */
  datatype UserOptions = UserOptions(
    test: Option<Test>,
    postcss: Option<PostcssOption>,
    tagged: Option<TagSpec>,
    externalDependencies: Option<DependencyPatterns>)

  /** `{ ...defaultOptions, ...options }`: every key the user gives wins, every
      key left out keeps its default. */
  function MergeOptions(user: UserOptions): (o: Options)
    ensures user.test.None? ==> o.test == DefaultOptions.test
    ensures user.test.Some? ==> o.test == user.test.value
    ensures o.postcss == if user.postcss.Some? then user.postcss.value else Undefined
    ensures o.tagged == user.tagged && o.externalDependencies == user.externalDependencies
  {
    Options(
      if user.test.Some? then user.test.value else DefaultOptions.test,
      if user.postcss.Some? then user.postcss.value else DefaultOptions.postcss,
      user.tagged,
      user.externalDependencies)
  }

  /** `testFilepath(file)`: a function `test` is the classifier itself; a RegExp
      `test` classifies by its `test` method. */
  predicate TestFilepath(test: Test, file: string)
  {
    match test
    case Predicate(f) => f(file)
    case Pattern(regexp) => regexp.Test(file)
  }

  /** The default classifier accepts exactly the paths whose last four characters
      are `.css`. */
  lemma DefaultTestAcceptsExactlyCss(file: string)
    ensures TestFilepath(DefaultOptions.test, file) <==> (4 <= |file| && file[|file| - 4..] == ".css")
  {
  }

  /** A user `test` replaces the default entirely, whichever form it takes. */
  lemma UserTestOverridesDefault(user: UserOptions, file: string)
    requires user.test.Some?
    ensures TestFilepath(MergeOptions(user).test, file) == TestFilepath(user.test.value, file)
  {
  }
}
