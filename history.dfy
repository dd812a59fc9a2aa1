/** The prompt history file: append one line per run, then show the last five. */
module History {
  import opened Wrappers
  import opened Errors
  import opened Text
  import opened TempFiles

  /** How many recent prompts go into the instruction. */
  const WindowSize: nat := 5

  function Min(a: nat, b: nat): nat {
    if a <= b then a else b
  }

  /** The history text read at the start: a missing or unreadable file counts as empty. */
  function Loaded(f: FileState): string {
    match f
    case Contents(t) => t
    case _ => ""
  }

  /** `Iterator::rev` on a collected vector. */
  function Reverse<T>(s: seq<T>): (r: seq<T>)
    ensures |r| == |s|
    ensures forall i :: 0 <= i < |s| ==> r[i] == s[|s| - 1 - i]
  {
    if s == [] then [] else Reverse(s[1..]) + [s[0]]
  }

  /** `Iterator::take(n)`. */
  function Take<T>(s: seq<T>, n: nat): (r: seq<T>)
    ensures |r| == Min(n, |s|) && r == s[..|r|]
  {
    if |s| <= n then s else s[..n]
  }

  /** `lines.rev().take(5).rev()`: the last `min(5, n)` lines in their own order. */
  function RecentEntries(lines: seq<string>): (r: seq<string>)
    ensures |r| == Min(WindowSize, |lines|)
    ensures r == lines[|lines| - |r|..]
  {
    var r := Reverse(Take(Reverse(lines), WindowSize));
    assert forall i :: 0 <= i < |r| ==> r[i] == lines[|lines| - |r| + i];
    r
  }

  /** The window text that goes into the instruction: the last `min(5, n)`
      lines of the history, joined with `'\n'`. */
  function RecentWindow(history: string): (r: string)
    ensures var ls := Lines(history);
      r == Join(ls[|ls| - Min(WindowSize, |ls|)..])
  {
    Join(RecentEntries(Lines(history)))
  }

  /** After appending `prompt + "\n"` to a history that ends its last line,
      the lines are the old ones plus the prompt, so the window holds the
      last `min(5, n + 1)` of them and ends with the prompt. */
  lemma AppendedPromptEndsWindow(old_history: string, prompt: string)
    requires EndsLine(old_history) && IsPlainLine(prompt)
    ensures var before := Lines(old_history);
      var after := Lines(old_history + prompt + "\n");
      var window := RecentEntries(after);
      after == before + [prompt]
      && window == RecentEntries(before + [prompt])
      && |window| == Min(WindowSize, |before| + 1)
      && window[|window| - 1] == prompt
  {
    LinesAfterAppend(old_history, prompt);
  }

  /** The window text after that append ends with the prompt itself. */
  lemma WindowEndsWithPrompt(old_history: string, prompt: string)
    requires EndsLine(old_history) && IsPlainLine(prompt)
    ensures EndsWith(RecentWindow(old_history + prompt + "\n"), prompt)
  {
    var entries := RecentEntries(Lines(old_history + prompt + "\n"));
    assert entries != [] && entries[|entries| - 1] == prompt by {
      AppendedPromptEndsWindow(old_history, prompt);
    }
    JoinEndsWithLast(entries);
  }

  /** The lines of the new history are the old lines plus the prompt. */
  lemma LinesAfterAppend(old_history: string, prompt: string)
    requires EndsLine(old_history) && IsPlainLine(prompt)
    ensures Lines(old_history + prompt + "\n") == Lines(old_history) + [prompt]
  {
    assert old_history + prompt + "\n" == old_history + (prompt + "\n");
    LinesAppend(old_history, prompt + "\n");
    LinesOfOneLine(prompt);
  }

  /** Every history the tool writes ends its last line. */
  lemma AppendEndsLine(old_history: string, prompt: string)
    ensures EndsLine(old_history + prompt + "\n")
  {
  }

  /** The window text read back line by line gives the window's entries, so no
      entry is lost or merged by the join (given lines without a trailing `'\r'`). */
  lemma WindowReadsBack(history: string)
    requires history != []
    requires forall l <- Lines(history) :: !EndsWithCR(l)
    ensures Lines(RecentWindow(history) + "\n") == RecentEntries(Lines(history))
  {
    var entries := RecentEntries(Lines(history));
    LinesHaveNoNewline(history);
    assert forall l <- entries :: IsPlainLine(l) by {
      forall l <- entries ensures IsPlainLine(l) {
        assert l in Lines(history);
      }
    }
    JoinThenNewline(entries);
    LinesUnlines(entries);
  }

  /** A history built from plain prompts, one per run, shows the last five of them. */
  lemma {:induction false} WindowOfPrompts(prompts: seq<string>)
    requires forall p <- prompts :: IsPlainLine(p)
    ensures RecentWindow(Unlines(prompts)) == Join(prompts[|prompts| - Min(WindowSize, |prompts|)..])
  {
    LinesUnlines(prompts);
  }

  /** One run on an empty history: the window is that prompt alone. */
  lemma FirstRunScenario()
    ensures RecentWindow("" + "cat girl" + "\n") == "cat girl"
  {
    assert IsPlainLine("cat girl");
    AppendedPromptEndsWindow("", "cat girl");
    assert Lines("") == [];
  }

  /** Six runs from an empty history: the first prompt has left the window. */
  lemma SixRunsScenario()
    ensures var h1 := "" + "cat girl" + "\n";
      var h2 := h1 + "robot" + "\n";
      var h3 := h2 + "forest" + "\n";
      var h4 := h3 + "ocean" + "\n";
      var h5 := h4 + "castle" + "\n";
      var h6 := h5 + "dragon" + "\n";
      RecentEntries(Lines(h6)) == ["robot", "forest", "ocean", "castle", "dragon"]
      && RecentWindow(h6) == "robot" + "\n" + "forest" + "\n" + "ocean" + "\n" + "castle" + "\n" + "dragon"
  {
    var ps := ["cat girl", "robot", "forest", "ocean", "castle", "dragon"];
    var h := Unlines(ps);
    SixAppends("cat girl", "robot", "forest", "ocean", "castle", "dragon");
    assert Lines(h) == ps by {
      assert forall p <- ps :: IsPlainLine(p);
      LinesUnlines(ps);
    }
    var last5 := ["robot", "forest", "ocean", "castle", "dragon"];
    assert RecentEntries(ps) == last5 by {
      assert ps[1..] == last5;
    }
    JoinFive("robot", "forest", "ocean", "castle", "dragon");
  }

  /** Six appends to an empty history write the six entries as lines. */
  lemma SixAppends(p0: string, p1: string, p2: string, p3: string, p4: string, p5: string)
    ensures Unlines([p0, p1, p2, p3, p4, p5])
      == "" + p0 + "\n" + p1 + "\n" + p2 + "\n" + p3 + "\n" + p4 + "\n" + p5 + "\n"
  {
    assert Unlines([p0]) == "" + p0 + "\n" by {
      UnlinesSnoc([], p0);
      assert [] + [p0] == [p0];
    }
    assert Unlines([p0, p1]) == Unlines([p0]) + p1 + "\n" by {
      UnlinesSnoc([p0], p1);
      assert [p0] + [p1] == [p0, p1];
    }
    assert Unlines([p0, p1, p2]) == Unlines([p0, p1]) + p2 + "\n" by {
      UnlinesSnoc([p0, p1], p2);
      assert [p0, p1] + [p2] == [p0, p1, p2];
    }
    assert Unlines([p0, p1, p2, p3]) == Unlines([p0, p1, p2]) + p3 + "\n" by {
      UnlinesSnoc([p0, p1, p2], p3);
      assert [p0, p1, p2] + [p3] == [p0, p1, p2, p3];
    }
    assert Unlines([p0, p1, p2, p3, p4]) == Unlines([p0, p1, p2, p3]) + p4 + "\n" by {
      UnlinesSnoc([p0, p1, p2, p3], p4);
      assert [p0, p1, p2, p3] + [p4] == [p0, p1, p2, p3, p4];
    }
    assert Unlines([p0, p1, p2, p3, p4, p5]) == Unlines([p0, p1, p2, p3, p4]) + p5 + "\n" by {
      UnlinesSnoc([p0, p1, p2, p3, p4], p5);
      assert [p0, p1, p2, p3, p4] + [p5] == [p0, p1, p2, p3, p4, p5];
    }
  }

  lemma JoinFive(a: string, b: string, c: string, d: string, e: string)
    ensures Join([a, b, c, d, e]) == a + "\n" + b + "\n" + c + "\n" + d + "\n" + e
  {
    assert [a, b, c, d, e][1..] == [b, c, d, e];
    assert [b, c, d, e][1..] == [c, d, e];
    assert [c, d, e][1..] == [d, e];
    assert [d, e][1..] == [e];
    var nl := "\n";
    assert Join([d, e]) == d + nl + e;
    assert Join([c, d, e]) == c + nl + (d + nl + e);
    assert Join([b, c, d, e]) == b + nl + (c + nl + (d + nl + e));
    assert Join([a, b, c, d, e]) == a + nl + (b + nl + (c + nl + (d + nl + e)));
  }

  /** The history block of `main`: read, `push_str(prompt + "\n")`, write the
      whole text back (`?` on failure), then return the recent window. */
  method RecordPrompt(dir: TempDir, prompt: string, writeOk: bool) returns (r: Result<string, RunError>)
    modifies dir
    ensures dir.key == old(dir.key)
    ensures var updated := Loaded(old(dir.history)) + prompt + "\n";
      if writeOk then dir.history == Contents(updated) && r == Ok(RecentWindow(updated))
      else dir.history == old(dir.history) && r == Err(StorageError)
  {
    var history := Loaded(dir.history);
    history := history + prompt + "\n";
    if !writeOk {
      return Err(StorageError);
    }
    dir.history := Contents(history);
    r := Ok(RecentWindow(history));
  }
}
