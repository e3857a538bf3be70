/** Small shared datatypes: optional values, results and the kinds of failure the parser raises. */
module Common {

  datatype Option<+T> = None | Some(value: T)

  /**
   * The failures a parse can end in.
   * LogParseError is the parser's own exception: the caller catches it, logs it and skips that
   * output for that trial. IndexError stands for an out-of-range list access in the parser,
   * ValueError for a list.index lookup of a missing label, KeyError for a dictionary lookup of
   * a missing key and TypeError for the timestamp of a file name that carries none; nothing
   * catches those four, so they end the whole run.
   */
  datatype Fault = LogParseError | IndexError | ValueError | KeyError | TypeError

  datatype Result<+T> = Ok(value: T) | Err(fault: Fault)

  function Min(a: int, b: int): int { if a <= b then a else b }

  function Max(a: int, b: int): int { if a >= b then a else b }

}
