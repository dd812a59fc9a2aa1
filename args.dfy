/** The command line: `[--key|-k KEY] [--prompt|-p PROMPT] | "prompt"`. */
module Args {
  import opened Wrappers
  import opened Errors

  /** The two optional slots the argument loop fills. */
  datatype Slots = Slots(apiKey: Option<string>, prompt: Option<string>)

  const NoSlots := Slots(None, None)

  predicate IsKeyFlag(a: string) {
    a == "--key" || a == "-k"
  }

  predicate IsPromptFlag(a: string) {
    a == "--prompt" || a == "-p"
  }

  /** Neither flag: the argument is a positional prompt candidate. */
  predicate IsPositional(a: string) {
    !IsKeyFlag(a) && !IsPromptFlag(a)
  }

  /** The argument loop from cursor `i` on, as a recursion: a flag takes the
      argument after it, anything else fills `prompt` only while it is empty. */
  function Scan(args: seq<string>, i: nat, slots: Slots): Result<Slots, RunError>
    decreases |args| - i
  {
    if i >= |args| then Ok(slots)
    else if IsKeyFlag(args[i]) then
      if i + 1 < |args| then Scan(args, i + 2, slots.(apiKey := Some(args[i + 1])))
      else Err(MissingKeyValue)
    else if IsPromptFlag(args[i]) then
      if i + 1 < |args| then Scan(args, i + 2, slots.(prompt := Some(args[i + 1])))
      else Err(MissingPromptValue)
    else
      Scan(args, i + 1, if slots.prompt.None? then slots.(prompt := Some(args[i])) else slots)
  }

  /** The whole parse: argv[0] is the program name, and at least one more entry is needed. */
  function Parse(args: seq<string>): Result<Slots, RunError> {
    if |args| < 2 then Err(MissingArguments) else Scan(args, 1, NoSlots)
  }

  /** The loop of `main`: cursor `i` and the two slots are updated in place. */
  method ParseArgs(args: seq<string>) returns (r: Result<Slots, RunError>)
    ensures r == Parse(args)
    ensures |args| < 2 ==> r == Err(MissingArguments)
  {
    if |args| < 2 {
      return Err(MissingArguments);
    }
    var i := 1;
    var apiKey: Option<string> := None;
    var prompt: Option<string> := None;
    while i < |args|
      invariant 1 <= i <= |args|
      invariant Scan(args, i, Slots(apiKey, prompt)) == Scan(args, 1, NoSlots)
      decreases |args| - i
    {
      if args[i] == "--key" || args[i] == "-k" {
        if i + 1 < |args| {
          apiKey := Some(args[i + 1]);
          i := i + 2;
        } else {
          return Err(MissingKeyValue);
        }
      } else if args[i] == "--prompt" || args[i] == "-p" {
        if i + 1 < |args| {
          prompt := Some(args[i + 1]);
          i := i + 2;
        } else {
          return Err(MissingPromptValue);
        }
      } else {
        if prompt.None? {
          prompt := Some(args[i]);
        }
        i := i + 1;
      }
    }
    return Ok(Slots(apiKey, prompt));
  }

  /** A successful scan stops exactly at the end, so a longer argv carries on
      from where the shorter one stopped. */
  lemma {:induction false} ScanAppend(a: seq<string>, b: seq<string>, i: nat, slots: Slots)
    requires i <= |a|
    requires Scan(a, i, slots).Ok?
    ensures Scan(a + b, i, slots) == Scan(a + b, |a|, Scan(a, i, slots).value)
    decreases |a| - i
  {
    if i < |a| {
      var ab := a + b;
      assert ab[i] == a[i];
      if IsKeyFlag(a[i]) || IsPromptFlag(a[i]) {
        assert ab[i + 1] == a[i + 1];
        var next := if IsKeyFlag(a[i]) then slots.(apiKey := Some(a[i + 1])) else slots.(prompt := Some(a[i + 1]));
        ScanAppend(a, b, i + 2, next);
      } else {
        ScanAppend(a, b, i + 1, if slots.prompt.None? then slots.(prompt := Some(a[i])) else slots);
      }
    }
  }

  /** The program name alone fills nothing. */
  lemma ScanProgramName(name: string)
    ensures Scan([name], 1, NoSlots) == Ok(NoSlots)
  {
  }

  /** A later `--key`/`-k` overrides whatever key came before. */
  lemma LastKeyWins(args: seq<string>, flag: string, key: string)
    requires |args| >= 1 && IsKeyFlag(flag)
    requires Scan(args, 1, NoSlots).Ok?
    ensures Parse(args + [flag, key]) == Ok(Scan(args, 1, NoSlots).value.(apiKey := Some(key)))
  {
    ScanAppend(args, [flag, key], 1, NoSlots);
    assert (args + [flag, key])[|args|] == flag;
  }

  /** A later `--prompt`/`-p` overrides an earlier positional or flagged prompt,
      and its value is taken verbatim even when it looks like a flag. */
  lemma LastPromptFlagWins(args: seq<string>, flag: string, prompt: string)
    requires |args| >= 1 && IsPromptFlag(flag)
    requires Scan(args, 1, NoSlots).Ok?
    ensures Parse(args + [flag, prompt]) == Ok(Scan(args, 1, NoSlots).value.(prompt := Some(prompt)))
  {
    ScanAppend(args, [flag, prompt], 1, NoSlots);
    assert (args + [flag, prompt])[|args|] == flag;
  }

  /** A positional argument (unknown `--flags` included) fills `prompt` only
      when no prompt was given before it, and never touches the key. */
  lemma PositionalFillsEmptyPrompt(args: seq<string>, arg: string)
    requires |args| >= 1 && IsPositional(arg)
    requires Scan(args, 1, NoSlots).Ok?
    ensures var before := Scan(args, 1, NoSlots).value;
      Parse(args + [arg]) == Ok(if before.prompt.None? then before.(prompt := Some(arg)) else before)
  {
    ScanAppend(args, [arg], 1, NoSlots);
    assert (args + [arg])[|args|] == arg;
  }

  /** A flag with nothing after it is an error naming the missing value. */
  lemma DanglingFlagFails(args: seq<string>, flag: string)
    requires |args| >= 1 && !IsPositional(flag)
    requires Scan(args, 1, NoSlots).Ok?
    ensures Parse(args + [flag]) == Err(if IsKeyFlag(flag) then MissingKeyValue else MissingPromptValue)
  {
    ScanAppend(args, [flag], 1, NoSlots);
    assert (args + [flag])[|args|] == flag;
  }
}
