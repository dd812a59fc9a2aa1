# PromptFlow core, modelled in Dafny

PromptFlow is a command-line tool. It takes a keyword, sends it to a hosted
text-generation API together with a long fixed system instruction, and prints
the generated anime-style image prompt and a fixed negative prompt. It keeps two
files in the system temp directory between runs:

- `key` caches the API key;
- `prompt_history` holds every submitted prompt, one per line.

The five most recent lines of the history are appended to the system
instruction of each request.

This project models everything `main` in `src/main.rs` decides before the
remote call. Files, the environment and argv are treated as plain inputs and
outputs.

- `Args` models the argv loop. `ParseArgs` is the `while` loop with its cursor.
  It is proved equal to the recursive `Scan`. Lemmas about `Scan` pin down how
  each kind of argument changes the two slots (`apiKey`, `prompt`). Each lemma
  extends argv at its end, either by one positional argument or by a flag
  together with its value (two entries). Taken together, they describe the
  parse of any argv, built up from `argv[0]` alone by such extensions.
- `KeyStore` models the priority chain: cached key file, then `--key`, then
  `GENAI_API_KEY`. `ChooseKey` is the decision, including the exact text
  written back to the key file. `ResolveKey` is the imperative block: its
  branches write to the key file of a `TempDir` object.
- `History` models the history file and the recent-prompt window.
  `RecordPrompt` reads the old contents, appends `prompt + "\n"`, writes the
  result back and returns the window. The window is Rust's
  `lines().rev().take(5).rev().join("\n")`.
- `Text` models Rust's `char::is_whitespace` (the Unicode White_Space code
  points, listed out), `trim`, `lines` and `join("\n")`.
- `Compose` models the `format!` that joins the system instruction, a banner
  and the window.
- `App` models prompt validation and `Run`, the whole of `main` up to the
  request it would send.

`main` does its steps in this order, and `Run` follows it:

1. An argument error changes no file.
2. The key is resolved, and any key-file write happens, before the prompt is
   checked. So a blank prompt can still leave a newly written key file behind.
3. The history file is written only after the prompt passes validation.

Some behaviours of the code are easy to miss, and the model keeps each of them:

- **Blank or unreadable key file with `--key`.** The argument key is used but
  not written back (`src/main.rs:139`). Only an environment key is written in
  that branch (line 143). The resolved key therefore does not always end up in
  the cache.
- **Unreadable key file.** A key file that exists but cannot be read (for
  example, one holding invalid UTF-8) does not fail the run. It is treated like
  a blank one and falls through to the argument and the environment
  (lines 136-154).
- **Unreadable history file.** A history file that exists but cannot be read
  is taken as `""` (lines 198-200). It is then overwritten by the new prompt
  line alone (line 208), so the earlier history is lost.
- **Trimming of a written-back key.** The key is used and written verbatim on
  the run that writes it. Later runs read it back trimmed (line 135).
  `WrittenKeyIsReused` states this.
- **Empty lines in the history.** The window follows `str::lines` exactly, with
  no filtering. An empty interior line (for example, from a prompt with a
  blank middle line) is an entry.

A history file that does not end with `'\n'` (because something else edited
it) would make the new prompt join its last line. The lemmas about the window
therefore require `EndsLine` of the old history. `AppendEndsLine` shows that
every history the tool itself writes meets this.

## Model

| member | source | states |
|---|---|---|
| `Args.Scan` | src/main.rs:98-128 | the argv loop from a cursor on, as a recursion: a key or prompt flag takes the next argument as its value (or fails when there is none), and any other argument fills the prompt only while it is empty |
| `Args.Parse` | src/main.rs:83-128 | fewer than two argv entries is `MissingArguments`; otherwise the scan starts at index 1 with both slots empty |
| `Args.ParseArgs` | src/main.rs:83-128 | the argv loop: fewer than two entries is `MissingArguments`; otherwise the result is the left-to-right scan from index 1, where a flag consumes the next argument and everything else advances the cursor by one (the cursor strictly increases, so the loop ends) |
| `Args.ScanAppend` | src/main.rs:98-128 | a scan that succeeds stops exactly at the end of argv, so the scan of a longer argv continues from the slots the shorter one produced |
| `Args.ScanProgramName` | src/main.rs:84-86 | argv[0] is skipped: the program name alone fills neither slot |
| `Args.LastKeyWins` | src/main.rs:100-104 | appending `--key`/`-k` with a value sets the key to that value and leaves the prompt slot alone; the last key flag wins |
| `Args.LastPromptFlagWins` | src/main.rs:110-114 | appending `--prompt`/`-p` with a value sets the prompt to it, overriding an earlier positional or flagged prompt; the value is taken verbatim even if it looks like a flag |
| `Args.PositionalFillsEmptyPrompt` | src/main.rs:120-126 | any other argument (unknown `--flags` included) sets the prompt only when no prompt was set before, and never touches the key |
| `Args.DanglingFlagFails` | src/main.rs:101-118 | a key or prompt flag as the last argument fails with `MissingKeyValue` or `MissingPromptValue` respectively |
| `KeyStore.ChooseKey` | src/main.rs:133-178 | no key exactly when the cache is not a usable hit and neither the argument nor the environment gives one; anything written back is exactly the chosen key; nothing is written on a cache hit; a cache hit never yields an empty key |
| `KeyStore.CacheWins` | src/main.rs:133-135 | a readable, non-blank key file gives its trimmed contents whatever the argument and environment say, and nothing is written |
| `KeyStore.AbsentCacheFallsThrough` | src/main.rs:156-177 | with no key file, the argument is used, else the environment value; the one used is written back verbatim; with neither, the result is "missing key" |
| `KeyStore.BlankCacheFallsThrough` | src/main.rs:136-154 | with a blank or unreadable key file, an argument key is used WITHOUT being written back, an environment key is used and written back, and with neither the result is "missing key" |
| `KeyStore.WrittenKeyIsReused` | src/main.rs:133-167 | after a run that cached a non-blank key (or found one), every later run gets that key, trimmed, whatever its argument and environment, and writes nothing |
| `KeyStore.CacheAfter` | src/main.rs:143-167 | the key file after a successful write: the written-back key when there is one, otherwise the old file |
| `KeyStore.KeyStep` | src/main.rs:132-178 | the key block's outcome: no key gives `MissingApiKey` with the file unchanged; a write-back whose write fails gives `StorageError` (the `?`) with the file unchanged; otherwise the chosen key and `CacheAfter` |
| `KeyStore.ResolveKey` | src/main.rs:132-178 | the imperative key block on the temp directory: its result and the new key file are those of `KeyStep`; a failed write gives `StorageError` and leaves the file as it was; the history file is untouched |
| `KeyStore.WriteKey` | src/main.rs:159-163 | `std::fs::write(&temp_path, &k)?`: on success the key file holds exactly `k` and `k` is returned; on failure the result is `StorageError` |
| `Text.IsWhitespace` | src/main.rs:135 | `char::is_whitespace`, which `trim` uses: exactly the Unicode White_Space code points (tab to carriage return, space, U+0085, U+00A0, U+1680, U+2000-U+200A, U+2028, U+2029, U+202F, U+205F, U+3000) |
| `Text.TrimStart` | src/main.rs:186 | the result is a suffix of the input, everything removed is whitespace, and the result does not start with whitespace |
| `Text.TrimEnd` | src/main.rs:186 | the result is a prefix of the input, everything removed is whitespace, and the result does not end with whitespace |
| `Text.TrimStartEmpty` | src/main.rs:135 | trimming the start leaves nothing exactly when the text is blank |
| `Text.Trim` | src/main.rs:135 | `trim()` is a slice of the text with only whitespace before and after it; it is empty exactly when the text is all whitespace, and otherwise starts and ends with non-whitespace |
| `Text.TrimBothEnds` | src/main.rs:135 | trimming the start and then the end removes a blank prefix and a blank suffix and keeps everything between them |
| `Text.TrimIdempotent` | src/main.rs:135 | trimming an already trimmed text changes nothing |
| `Text.TrimNotBlank` | src/main.rs:135 | the trim of a non-blank text is non-blank |
| `Text.TrimmedEndsNotCR` | src/main.rs:186 | a trimmed non-blank prompt cannot end with `'\r'`, so `lines()` will not strip anything from it |
| `Text.Lines` | src/main.rs:211-212 | `str::lines` yields no lines exactly for the empty text |
| `Text.LinesHaveNoNewline` | src/main.rs:211-212 | no line yielded by `str::lines` contains `'\n'` |
| `Text.LinesAt` | src/main.rs:211-212 | when the first `'\n'` is at position `k`, the first line is the text before it (less a `'\r'` just before the `'\n'`), and the remaining lines are those of the text after it |
| `Text.LinesAppend` | src/main.rs:207-212 | the lines of `a + b` are the lines of `a` followed by those of `b` when `a` is empty or ends with `'\n'` |
| `Text.LinesOfOneLine` | src/main.rs:207-212 | `l + "\n"` reads back as the single line `l` when `l` has no newline and no trailing `'\r'` |
| `Text.LinesUnlines` | src/main.rs:207-212 | writing lines each followed by `'\n'` and reading them back with `lines()` is the identity (round trip) |
| `Text.UnlinesSnoc` | src/main.rs:207 | appending `line + "\n"` to the text of some lines gives the text of those lines plus `line` |
| `Text.Join` | src/main.rs:219 | `join("\n")`: the entries with one `'\n'` between each neighbouring pair, and nothing for no entries |
| `Text.JoinThenNewline` | src/main.rs:219 | a non-empty list joined with `"\n"`, plus one final `'\n'`, is the file text of that list |
| `Text.JoinEndsWithLast` | src/main.rs:219 | the joined text ends with the last entry |
| `History.Loaded` | src/main.rs:197-204 | the history text read at the start: the file's contents, or `""` when the file is missing or unreadable |
| `History.Reverse` | src/main.rs:215-217 | `rev()` keeps the length and puts element `i` at position `n - 1 - i` |
| `History.Take` | src/main.rs:216 | `take(n)` is the first `min(n, len)` elements |
| `History.RecentEntries` | src/main.rs:211-219 | `rev().take(5).rev()` is exactly the last `min(5, n)` lines, in their original order |
| `History.RecentWindow` | src/main.rs:211-219 | the window text is the `Join` of the last `min(5, n)` lines of the history |
| `History.LinesAfterAppend` | src/main.rs:206-212 | after appending a plain prompt line to a history that ends its last line, the lines are the old lines plus the prompt |
| `History.AppendedPromptEndsWindow` | src/main.rs:206-219 | after that append, the window is the last `min(5, n + 1)` of the old lines plus the prompt, and its last entry is the prompt |
| `History.WindowEndsWithPrompt` | src/main.rs:206-219 | after that append, the window text ends with the prompt |
| `History.AppendEndsLine` | src/main.rs:207 | every history text the tool writes ends with `'\n'` |
| `History.WindowReadsBack` | src/main.rs:211-219 | reading the window text back line by line gives exactly the window's entries, so the join neither loses nor merges entries |
| `History.WindowOfPrompts` | src/main.rs:196-219 | a history made of plain prompts, one per run, shows the last five of them joined by `"\n"` |
| `History.FirstRunScenario` | src/main.rs:196-219 | appending "cat girl" to an empty history gives the window "cat girl" |
| `History.SixRunsScenario` | src/main.rs:196-219 | six appends ("cat girl", "robot", "forest", "ocean", "castle", "dragon") to an empty history give the window "robot", "forest", "ocean", "castle", "dragon"; the first prompt has dropped out |
| `History.RecordPrompt` | src/main.rs:196-219 | the history block: a missing or unreadable file counts as empty; the new file is exactly the old text plus `prompt + "\n"`; the result is the window of that text; a failed write gives `StorageError` and leaves the file as it was; the key file is untouched |
| `Compose.ComposeInstruction` | src/main.rs:222-225 | the instruction is the template, then the banner `"\n\n--------------------\n**Previous Generated Prompts:**\n"`, then the window, with nothing else |
| `Compose.ComposeKeepsWindowEnd` | src/main.rs:222-225 | the instruction ends with whatever the window ends with |
| `Compose.ComposeInjective` | src/main.rs:222-225 | with the template fixed, the composed instruction determines the window |
| `App.ValidatePrompt` | src/main.rs:185-192 | the prompt is accepted exactly when it is present and not all whitespace; an accepted prompt is its trimmed form, non-empty, with non-whitespace at both ends; anything else is `EmptyPrompt` |
| `App.ValidatedPromptIsLine` | src/main.rs:185-207 | an accepted prompt with no interior newline is written to the history as exactly one line |
| `App.InstructionEndsWithEntry` | src/main.rs:206-225 | after such a prompt is appended to a history that ends its last line, the composed system instruction ends with that prompt |
| `App.Run` | src/main.rs:83-236 | `main` up to the remote call. Argument errors change no file. The key file becomes what `KeyStep` says before the prompt is checked. A key error or an empty prompt leaves the history file alone. A successful run writes the old history plus the prompt line and returns the request: the chosen key, model `gemini-2.0-flash`, the composed instruction over the new window, and the trimmed prompt. The history changes only on a successful run |

## Left out

- The remote call is not modelled: `gemini_rs::Client`, `.chat(..).system_instruction(..).send_message(..).await`, and its `RemoteCallError` (src/main.rs:181, 231-236). `Run` stops at the `Request` it would send.
- Printing is not modelled: usage lines, "Generating prompt for", and the generated and negative prompts (src/main.rs:90-94, 228, 240-243). This is output only.
- The prose of `SYSTEM_INSTRUCTION` (src/main.rs:13-71) is not modelled. `Run` takes it as the `systemInstruction` parameter. `NEGATIVE_PROMPT` (line 76) is only printed, so it does not appear.
- `credentials::var("GENAI_API_KEY")` and `env::temp_dir()` are external lookups. The environment value is the `envKey` parameter. The two files are the fields of a `TempDir` object. A file is `Absent` when `exists()` is false, `Unreadable` when `read_to_string` fails, and `Contents` otherwise.
- `std::fs::write` failures are boolean parameters (`keyWriteOk`, `historyWriteOk`). A failed write is modelled as leaving the file as it was. A partly written or truncated file is not modelled.
- `env::args()` panics inside `collect()` when an argument is not valid Unicode (src/main.rs:83), before any parsing. The model's argv is a sequence of Unicode strings, so that panic cannot be expressed.
- With an empty argv, the usage message's `args[0]` panics before "Missing arguments" is returned (src/main.rs:89-95). The model returns `MissingArguments` for every argv shorter than two.
- `str::lines` is modelled as current Rust documents it: a bare `'\r'` at the very end with no `'\n'` after it is kept. Older Rust releases stripped it. The difference never shows here, because every history the tool writes ends with `'\n'`.
- Error values are `Box<dyn Error>` strings in the source. Here they are `RunError` constructors, and I/O error details are dropped.
- Concurrent runs racing on the two temp files are out of scope. The tool runs once, sequentially.
