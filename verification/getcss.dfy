/** getcss.ts: read a style sheet and, when postcss is enabled, pass its text
    through the postcss worker. */
module CssFetch {
  import opened Wrappers
  import opened Host

  /** The `postcss` option: `undefined | string | boolean`. */
  datatype PostcssOption = Undefined | Flag(enabled: bool) | ConfigName(name: string)

  /** JavaScript truthiness of the option: a string counts only by being non-empty. */
  predicate IsTruthy(postcss: PostcssOption)
  {
    match postcss
    case Undefined => false
    case Flag(b) => b
    case ConfigName(s) => s != ""
  }

  datatype GetCssOptions = GetCssOptions(filepath: string, readFile: Reader, postcss: PostcssOption)

  /** The text bound to a style import: the file read once as utf8, replaced by
      the worker's output for `{ input, from: filepath }` when postcss is truthy.
      Whatever the reader or the worker throws is propagated. */
  function GetCss(options: GetCssOptions, client: Processor): (r: Result<string, Exception>)
    ensures !IsTruthy(options.postcss) ==> r == options.readFile(options.filepath, Utf8)
    ensures options.readFile(options.filepath, Utf8).Failure? ==> r == options.readFile(options.filepath, Utf8)
    ensures options.readFile(options.filepath, Utf8).Success? && IsTruthy(options.postcss) ==>
              r == client(ProcessRequest(options.readFile(options.filepath, Utf8).value, options.filepath))
  {
    match options.readFile(options.filepath, Utf8)
    case Failure(e) => Failure(e)
    case Success(result) =>
      if IsTruthy(options.postcss) then client(ProcessRequest(result, options.filepath)) else Success(result)
  }

  /** The result is determined by the single read of `filepath` as utf8 and, when
      postcss is on, by the single worker call on that text: two readers or two
      workers that agree there give the same content. */
  lemma GetCssDependsOnOneReadAndOneCall(options: GetCssOptions, other: Reader, client: Processor, otherClient: Processor)
    requires other(options.filepath, Utf8) == options.readFile(options.filepath, Utf8)
    requires options.readFile(options.filepath, Utf8).Success? ==>
               var request := ProcessRequest(options.readFile(options.filepath, Utf8).value, options.filepath);
               otherClient(request) == client(request)
    ensures GetCss(options.(readFile := other), otherClient) == GetCss(options, client)
  {
  }

  /** A string value of `postcss` only switches processing on: every non-empty
      name behaves as `true`, the empty name as `false`. */
  lemma ConfigNameOnlyEnables(options: GetCssOptions, name: string, client: Processor)
    ensures name != "" ==> GetCss(options.(postcss := ConfigName(name)), client) == GetCss(options.(postcss := Flag(true)), client)
    ensures name == "" ==> GetCss(options.(postcss := ConfigName(name)), client) == GetCss(options.(postcss := Flag(false)), client)
  {
  }
}
