/** Where the API key comes from: the cached key file, then `--key`, then the
    `GENAI_API_KEY` environment variable, and which of them is written back. */
module KeyStore {
  import opened Wrappers
  import opened Errors
  import opened Text
  import opened TempFiles

  /** The key chosen and, when the branch writes the key file, the exact text written. */
  datatype KeyChoice = Chosen(key: string, writeBack: Option<string>) | NoKey

  /** A key file that exists, can be read and is not blank. */
  predicate CacheHit(cache: FileState) {
    cache.Contents? && !IsBlank(cache.text)
  }

  /** The priority chain of `main`. A usable cache wins and is left alone; a
      missing file takes the argument or else the environment and writes the
      chosen key back; a blank or unreadable file takes the argument WITHOUT
      writing it, or else the environment value, which is written. */
  function ChooseKey(cache: FileState, argKey: Option<string>, envKey: Option<string>): (c: KeyChoice)
    ensures c.NoKey? <==> !CacheHit(cache) && argKey.None? && envKey.None?
    ensures c.Chosen? ==> c.writeBack.None? || c.writeBack == Some(c.key)
    ensures c.Chosen? && c.writeBack.Some? ==> !CacheHit(cache)
    ensures c.Chosen? ==> c.key != [] || !CacheHit(cache)
  {
    if cache != Absent then
      if CacheHit(cache) then Chosen(Trim(cache.text), None)
      else
        match argKey
        case Some(k) => Chosen(k, None)
        case None =>
          match envKey
          case Some(k) => Chosen(k, Some(k))
          case None => NoKey
    else
      match argKey
      case Some(k) => Chosen(k, Some(k))
      case None =>
        match envKey
        case Some(k) => Chosen(k, Some(k))
        case None => NoKey
  }

  /** A readable, non-blank cache decides the key by itself: the argument and
      the environment are ignored and nothing is written. */
  lemma CacheWins(text: string, argKey: Option<string>, envKey: Option<string>)
    requires !IsBlank(text)
    ensures ChooseKey(Contents(text), argKey, envKey) == Chosen(Trim(text), None)
  {
  }

  /** Without a key file, the argument beats the environment and the one used
      is written verbatim. */
  lemma AbsentCacheFallsThrough(argKey: Option<string>, envKey: Option<string>)
    ensures var c := ChooseKey(Absent, argKey, envKey);
      match (argKey, envKey)
      case (Some(k), _) => c == Chosen(k, Some(k))
      case (None, Some(k)) => c == Chosen(k, Some(k))
      case (None, None) => c == NoKey
  {
  }

  /** With a blank or unreadable key file, an argument key is used but not
      cached; only an environment key is written back. */
  lemma BlankCacheFallsThrough(cache: FileState, argKey: Option<string>, envKey: Option<string>)
    requires cache == Unreadable || (cache.Contents? && IsBlank(cache.text))
    ensures var c := ChooseKey(cache, argKey, envKey);
      match (argKey, envKey)
      case (Some(k), _) => c == Chosen(k, None)
      case (None, Some(k)) => c == Chosen(k, Some(k))
      case (None, None) => c == NoKey
  {
  }

  /** The key file after the choice, when its write succeeds. */
  function CacheAfter(cache: FileState, c: KeyChoice): FileState {
    if c.Chosen? && c.writeBack.Some? then Contents(c.writeBack.value) else cache
  }

  /** What the key block yields and what it leaves in the key file; a failed
      write (`?`) ends the run with a storage error. */
  function KeyStep(cache: FileState, argKey: Option<string>, envKey: Option<string>, writeOk: bool)
    : (Result<string, RunError>, FileState)
  {
    var c := ChooseKey(cache, argKey, envKey);
    if c.NoKey? then (Err(MissingApiKey), cache)
    else if c.writeBack.Some? && !writeOk then (Err(StorageError), cache)
    else (Ok(c.key), CacheAfter(cache, c))
  }

  /** Once a non-blank key has been written back it wins every later run,
      whatever the argument and environment then say, as its trimmed form, and
      that later run writes nothing. */
  lemma WrittenKeyIsReused(cache: FileState, argKey: Option<string>, envKey: Option<string>,
                           laterArg: Option<string>, laterEnv: Option<string>)
    requires ChooseKey(cache, argKey, envKey).Chosen?
    requires !IsBlank(ChooseKey(cache, argKey, envKey).key)
    ensures var c := ChooseKey(cache, argKey, envKey);
      var again := ChooseKey(CacheAfter(cache, c), laterArg, laterEnv);
      (c.writeBack.Some? || CacheHit(cache)) ==> again == Chosen(Trim(c.key), None)
  {
  }

  /** What the key-resolution block does to the key file and what it yields:
      each branch that writes calls `std::fs::write`, whose failure (`?`) ends
      the run with a storage error and leaves the file as it was. */
  method ResolveKey(dir: TempDir, argKey: Option<string>, envKey: Option<string>, writeOk: bool)
    returns (r: Result<string, RunError>)
    modifies dir
    ensures dir.history == old(dir.history)
    ensures (r, dir.key) == KeyStep(old(dir.key), argKey, envKey, writeOk)
  {
    if dir.key != Absent {
      if dir.key.Contents? && !IsBlank(dir.key.text) {
        r := Ok(Trim(dir.key.text));
      } else {
        match argKey {
          case Some(k) =>
            r := Ok(k);
          case None =>
            match envKey {
              case Some(k) => r := WriteKey(dir, k, writeOk);
              case None => r := Err(MissingApiKey);
            }
        }
      }
    } else {
      match argKey {
        case Some(k) => r := WriteKey(dir, k, writeOk);
        case None =>
          match envKey {
            case Some(k) => r := WriteKey(dir, k, writeOk);
            case None => r := Err(MissingApiKey);
          }
      }
    }
  }

  /** `std::fs::write(&temp_path, &k)?; k` */
  method WriteKey(dir: TempDir, k: string, writeOk: bool) returns (r: Result<string, RunError>)
    modifies dir
    ensures dir.history == old(dir.history)
    ensures if writeOk then r == Ok(k) && dir.key == Contents(k)
            else r == Err(StorageError) && dir.key == old(dir.key)
  {
    if !writeOk {
      return Err(StorageError);
    }
    dir.key := Contents(k);
    r := Ok(k);
  }
}
