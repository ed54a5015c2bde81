/**
 * The values the loader and the report builder pass around: header values,
 * the exceptions that can be raised, and the record a parser returns.
 */
module Records {

  /** A header value: text, a number or a tuple (pixel counts, scan range). */
  datatype Value = Str(text: string) | Num(num: real) | Tuple(items: seq<Value>)

  /**
   * The exceptions the model distinguishes. Only `ValueError` is caught by
   * the batch loop; `KeyError` (a missing header key) and every other kind
   * end the run.
   */
  datatype Exception = ValueError(message: string) | KeyError(key: string) | OtherError(kind: string)

  /**
   * What a format parser hands back, reduced to what the report builder
   * reads: the file name, the header mapping and the names of the signal
   * channels.
   */
  datatype LoadedFile = LoadedFile(fname: string, header: map<string, Value>, signals: set<string>)
}
