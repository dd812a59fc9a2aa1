/** The ways one run of the tool can fail before the remote call. */
module Errors {
  datatype RunError =
    | MissingArguments    // "Missing arguments": fewer than two argv entries
    | MissingKeyValue     // "Missing API key value": `--key`/`-k` is the last argument
    | MissingPromptValue  // "Missing prompt value": `--prompt`/`-p` is the last argument
    | MissingApiKey       // "Missing API key": no cached, argument or environment key
    | EmptyPrompt         // "Empty prompt": no prompt, or only whitespace
    | StorageError        // an `std::fs::write` of one of the two temp files failed
}
