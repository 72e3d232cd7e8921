/** What the plugin receives from outside: the file reader, the postcss worker
    reached over sync-rpc, and Babel's API object with its dependency and cache hooks.
    None of these is implemented here; the plugin sees them only through these types. */
module Host {
  import opened Wrappers

  /** A JavaScript exception thrown by a collaborator (a missing file, a postcss
      syntax error) and propagated unchanged by the plugin. */
  datatype Exception = Exception(message: string)

  /** The encoding option the plugin passes to the reader: always utf8. */
  datatype Encoding = Utf8

  /** `readFile(path, { encoding })`: the text of the file, or what it throws. */
  type Reader = (string, Encoding) -> Result<string, Exception>

  /** The message sent to the postcss worker: `{ input, from }`. */
  datatype ProcessRequest = ProcessRequest(input: string, from: string)

  /** The synchronous rpc client in front of the postcss worker. */
  type Processor = ProcessRequest -> Result<string, Exception>

  /** One call the plugin makes on Babel's API while it is being set up. The cache
      invalidation closure `() => mtimeFile(file)` is identified by the file it captures. */
  datatype Registration =
    | ExternalDependency(file: string)
    | InvalidateOnMtime(file: string)

  /** Babel's API object, reduced to the record of registrations made on it. */
  class HostApi {
    var log: seq<Registration>

    constructor ()
      ensures log == []
    {
      log := [];
    }

    /** `api.addExternalDependency(file)` */
    method AddExternalDependency(file: string)
      modifies this
      ensures log == old(log) + [ExternalDependency(file)]
    {
      log := log + [ExternalDependency(file)];
    }

    /** `api.cache.invalidate(() => mtimeFile(file))` */
    method CacheInvalidate(file: string)
      modifies this
      ensures log == old(log) + [InvalidateOnMtime(file)]
    {
      log := log + [InvalidateOnMtime(file)];
    }
  }
}
