/** One run of the tool, up to the request it sends: parse argv, resolve the
    key, validate the prompt, record it in the history, compose the instruction. */
module App {
  import opened Wrappers
  import opened Errors
  import opened Text
  import opened TempFiles
  import opened Args
  import opened KeyStore
  import opened History
  import opened Compose

  /** The model the request names. */
  const Model: string := "gemini-2.0-flash"

  /** What is handed to the remote client: the key, the model, the composed
      system instruction and the user's prompt as the message. */
  datatype Request = Request(apiKey: string, model: string, systemInstruction: string, message: string)

  /** The prompt slot must hold text that is not blank; what is kept is its
      trimmed form, which starts and ends with a non-whitespace character. */
  function ValidatePrompt(prompt: Option<string>): (r: Result<string, RunError>)
    ensures r.Ok? <==> prompt.Some? && !IsBlank(prompt.value)
    ensures r.Err? ==> r.error == EmptyPrompt
    ensures r.Ok? ==> r.value == Trim(prompt.value)
    ensures r.Ok? ==> r.value != [] && !IsWhitespace(r.value[0]) && !IsWhitespace(r.value[|r.value| - 1])
  {
    if prompt.Some? && !IsBlank(prompt.value) then Ok(Trim(prompt.value)) else Err(EmptyPrompt)
  }

  /** A validated prompt without an interior newline is a plain history line:
      trimming removed any `'\r'` at its end. */
  lemma ValidatedPromptIsLine(raw: string)
    requires ValidatePrompt(Some(raw)).Ok? && NoNewline(Trim(raw))
    ensures IsPlainLine(ValidatePrompt(Some(raw)).value)
  {
  }

  /** A plain line appended to a history that ends its last line is the last
      entry of the window, so the composed instruction ends with it. */
  lemma InstructionEndsWithEntry(template: string, old_history: string, p: string)
    requires EndsLine(old_history) && IsPlainLine(p)
    ensures EndsWith(ComposeInstruction(template, RecentWindow(old_history + p + "\n")), p)
  {
    WindowEndsWithPrompt(old_history, p);
    ComposeKeepsWindowEnd(template, RecentWindow(old_history + p + "\n"), p);
  }

  /** `main` up to the remote call. Argument errors change nothing; the key
      file is settled before the prompt is checked, so a blank prompt can
      still leave a newly written key behind; the history is written only once
      the prompt has passed validation. */
  method Run(dir: TempDir, args: seq<string>, envKey: Option<string>,
             keyWriteOk: bool, historyWriteOk: bool, systemInstruction: string)
    returns (r: Result<Request, RunError>)
    modifies dir
    ensures Parse(args).Err? ==>
      r == Err(Parse(args).error) && dir.key == old(dir.key) && dir.history == old(dir.history)
    ensures Parse(args).Ok? ==>
      var slots := Parse(args).value;
      var step := KeyStep(old(dir.key), slots.apiKey, envKey, keyWriteOk);
      var prompt := ValidatePrompt(slots.prompt);
      dir.key == step.1
      && (step.0.Err? ==> r == Err(step.0.error) && dir.history == old(dir.history))
      && (step.0.Ok? && prompt.Err? ==> r == Err(EmptyPrompt) && dir.history == old(dir.history))
      && (step.0.Ok? && prompt.Ok? && !historyWriteOk ==>
            r == Err(StorageError) && dir.history == old(dir.history))
      && (step.0.Ok? && prompt.Ok? && historyWriteOk ==>
            var updated := Loaded(old(dir.history)) + prompt.value + "\n";
            dir.history == Contents(updated)
            && r == Ok(Request(step.0.value, Model,
                               ComposeInstruction(systemInstruction, RecentWindow(updated)),
                               prompt.value)))
    ensures dir.history != old(dir.history) ==> r.Ok?
  {
    var parsed := ParseArgs(args);
    if parsed.Err? {
      return Err(parsed.error);
    }
    var slots := parsed.value;
    var key := ResolveKey(dir, slots.apiKey, envKey, keyWriteOk);
    if key.Err? {
      return Err(key.error);
    }
    var prompt := ValidatePrompt(slots.prompt);
    if prompt.Err? {
      return Err(prompt.error);
    }
    var window := RecordPrompt(dir, prompt.value, historyWriteOk);
    if window.Err? {
      return Err(window.error);
    }
    var instruction := ComposeInstruction(systemInstruction, window.value);
    r := Ok(Request(key.value, Model, instruction, prompt.value));
  }
}
