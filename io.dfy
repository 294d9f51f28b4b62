/**
 * The small vocabulary shared by the builder and the printer: the `u8`
 * width the program stores depths in, and the `std::io::Result` that every
 * filesystem read and every write returns.
 */
module Io {

  /** A recursion depth. The program stores it as a `u8`, so it is 0..255. */
  type Depth = d: int | 0 <= d <= 255

  /**
   * `std::io::Error`, abstracted. The two read errors carry the directory
   * being listed so that lemmas can say which directory made a build fail.
   */
  datatype IoError =
    | ReadDirFailed(dir: string)  // `fs::read_dir(dir)` itself failed
    | EntryFailed(dir: string)    // an item of the `read_dir` iterator was an error
    | WriteFailed                 // the writer refused a write

  datatype Result<T> = Ok(value: T) | Err(error: IoError)
}
