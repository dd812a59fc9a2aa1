/** The two files the tool keeps in the system temp directory. */
module TempFiles {
  /** What `path.exists()` and `std::fs::read_to_string` report for one file. */
  datatype FileState = Absent | Unreadable | Contents(text: string)

  /** `env::temp_dir()`: the file `key` (a cached API key) and the file
      `prompt_history` (one submitted prompt per line). */
  class TempDir {
    var key: FileState
    var history: FileState

    constructor (key: FileState, history: FileState)
      ensures this.key == key && this.history == history
    {
      this.key := key;
      this.history := history;
    }
  }
}
