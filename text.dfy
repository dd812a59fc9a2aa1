/** Strings as Rust's `str` sees them: `char::is_whitespace`, `str::trim`,
    `str::lines` and joining with a newline. */
module Text {

  /** `char::is_whitespace`: the Unicode White_Space property. */
  predicate IsWhitespace(c: char) {
    ('\t' <= c <= '\r') || c == ' ' || c == '\U{0085}' || c == '\U{00A0}' || c == '\U{1680}'
    || ('\U{2000}' <= c <= '\U{200A}') || c == '\U{2028}' || c == '\U{2029}'
    || c == '\U{202F}' || c == '\U{205F}' || c == '\U{3000}'
  }

  /** Every character is whitespace (so `s.trim().is_empty()`). */
  predicate IsBlank(s: string) {
    forall i :: 0 <= i < |s| ==> IsWhitespace(s[i])
  }

  /** `str::trim_start`: drops the leading whitespace and nothing else. */
  function TrimStart(s: string): (r: string)
    ensures |r| <= |s| && r == s[|s| - |r|..]
    ensures IsBlank(s[..|s| - |r|])
    ensures r != [] ==> !IsWhitespace(r[0])
  {
    if s != [] && IsWhitespace(s[0]) then TrimStart(s[1..]) else s
  }

  /** `str::trim_end`: drops the trailing whitespace and nothing else. */
  function TrimEnd(s: string): (r: string)
    ensures |r| <= |s| && r == s[..|r|]
    ensures IsBlank(s[|r|..])
    ensures r != [] ==> !IsWhitespace(r[|r| - 1])
  {
    if s != [] && IsWhitespace(s[|s| - 1]) then
      var r := TrimEnd(s[..|s| - 1]);
      assert s[|r|..] == s[..|s| - 1][|r|..] + [s[|s| - 1]];
      r
    else s
  }

  lemma TrimStartEmpty(s: string)
    ensures TrimStart(s) == [] <==> IsBlank(s)
  {
    var t := TrimStart(s);
    assert t != [] ==> t[0] == s[|s| - |t|];
    assert s[..|s|] == s;
  }

  /** `str::trim`: empty exactly for a blank string, and otherwise starting
      and ending with a non-whitespace character. */
  function Trim(s: string): (r: string)
    ensures r == [] <==> IsBlank(s)
    ensures r != [] ==> !IsWhitespace(r[0]) && !IsWhitespace(r[|r| - 1])
    ensures BlankAround(s, r)
  {
    var t := TrimStart(s);
    TrimStartEmpty(s);
    var r := TrimEnd(t);
    assert r != [] ==> r[0] == t[0];
    assert r == [] ==> t[|r|..] == t;
    TrimBothEnds(s);
    r
  }

  /** `r` is a slice of `s` with only whitespace before and after it. */
  predicate BlankAround(s: string, r: string) {
    exists i :: 0 <= i <= |s| - |r| && r == s[i..i + |r|] && IsBlank(s[..i]) && IsBlank(s[i + |r|..])
  }

  /** Trimming the start, then the end, removes blank text at both ends and nothing else. */
  lemma TrimBothEnds(s: string)
    ensures BlankAround(s, TrimEnd(TrimStart(s)))
  {
    var t := TrimStart(s);
    BlankAroundParts(s, t, TrimEnd(t));
  }

  /** A blank prefix cut off, then a blank suffix cut off. */
  lemma BlankAroundParts(s: string, t: string, r: string)
    requires |t| <= |s| && t == s[|s| - |t|..] && IsBlank(s[..|s| - |t|])
    requires |r| <= |t| && r == t[..|r|] && IsBlank(t[|r|..])
    ensures BlankAround(s, r)
  {
    var i := |s| - |t|;
    assert r == s[i..i + |r|];
    assert s[i + |r|..] == t[|r|..];
  }

  /** The slice `Trim(s)` keeps is the whole string when it already starts and
      ends with non-whitespace, so trimming twice changes nothing. */
  lemma TrimIdempotent(s: string)
    ensures Trim(Trim(s)) == Trim(s)
  {
  }

  /** A trimmed non-blank text is itself non-blank. */
  lemma TrimNotBlank(s: string)
    requires !IsBlank(s)
    ensures !IsBlank(Trim(s))
  {
  }

  /** A line of `str::lines` loses a `'\r'` only when it stood before the `'\n'`. */
  predicate EndsWithCR(l: string) {
    |l| > 0 && l[|l| - 1] == '\r'
  }

  /** `'\r'` is whitespace, so a trimmed non-blank text cannot end with it. */
  lemma TrimmedEndsNotCR(s: string)
    requires !IsBlank(s)
    ensures !EndsWithCR(Trim(s))
  {
  }

  function StripCR(l: string): string {
    if EndsWithCR(l) then l[..|l| - 1] else l
  }

  /** No `'\n'` in the text. */
  predicate NoNewline(l: string) {
    forall j :: 0 <= j < |l| ==> l[j] != '\n'
  }

  /** Position of the first `'\n'`, or the length when there is none. */
  function NewlineIndex(s: string): (k: nat)
    ensures k <= |s| && (k < |s| ==> s[k] == '\n')
    ensures NoNewline(s[..k])
  {
    if s == [] || s[0] == '\n' then 0
    else
      var k := NewlineIndex(s[1..]) + 1;
      assert s[..k] == [s[0]] + s[1..][..k - 1];
      k
  }

  /** A `'\n'` with none before it is the first one. */
  lemma NewlineIndexAt(s: string, k: nat)
    requires k < |s| && s[k] == '\n' && NoNewline(s[..k])
    ensures NewlineIndex(s) == k
  {
  }

  /** `str::lines`: the pieces between `'\n'`s; a final `'\n'` opens no empty
      line, a `'\r'` just before a `'\n'` is dropped, empty interior lines are
      kept, and a last piece without `'\n'` is kept as it is. */
  function Lines(s: string): (ls: seq<string>)
    ensures ls == [] <==> s == []
    decreases |s|
  {
    if s == [] then []
    else
      var k := NewlineIndex(s);
      if k == |s| then [s]
      else [StripCR(s[..k])] + Lines(s[k + 1..])
  }

  /** No line of `str::lines` contains a `'\n'`. */
  lemma {:induction false} LinesHaveNoNewline(s: string)
    ensures forall l <- Lines(s) :: NoNewline(l)
    decreases |s|
  {
    if s != [] {
      var k := NewlineIndex(s);
      if k < |s| {
        LinesHaveNoNewline(s[k + 1..]);
        var first := s[..k];
        assert NoNewline(StripCR(first)) by {
          assert forall j :: 0 <= j < |StripCR(first)| ==> StripCR(first)[j] == first[j];
        }
      }
    }
  }

  /** The text of a file holding the given lines, each followed by `'\n'`. */
  function Unlines(ls: seq<string>): string {
    if ls == [] then [] else ls[0] + "\n" + Unlines(ls[1..])
  }

  /** A line that `str::lines` gives back unchanged from `l + "\n"`. */
  predicate IsPlainLine(l: string) {
    NoNewline(l) && !EndsWithCR(l)
  }

  /** Text that is empty or ends with `'\n'`: appending to it starts a new line. */
  predicate EndsLine(s: string) {
    s == [] || s[|s| - 1] == '\n'
  }

  /** `str::lines` of a text whose first `'\n'` is at `k`. */
  lemma LinesAt(s: string, k: nat)
    requires k < |s| && s[k] == '\n' && NoNewline(s[..k])
    ensures Lines(s) == [StripCR(s[..k])] + Lines(s[k + 1..])
  {
    NewlineIndexAt(s, k);
  }

  /** One step of `LinesAppend`: the first line of `a` is also the first line
      of `a + b`, and the rest follows from the rest. */
  lemma LinesAppendStep(a: string, b: string, k: nat)
    requires k < |a| && a[k] == '\n' && NoNewline(a[..k])
    requires Lines(a[k + 1..] + b) == Lines(a[k + 1..]) + Lines(b)
    ensures Lines(a + b) == Lines(a) + Lines(b)
  {
    LinesAt(a, k);
    LinesFirstOfAppend(a, b, k);
    ConsAppend(StripCR(a[..k]), Lines(a), Lines(a + b), Lines(a[k + 1..]), Lines(a[k + 1..] + b), Lines(b));
  }

  /** The first line of `a` is still the first line of `a + b`. */
  lemma LinesFirstOfAppend(a: string, b: string, k: nat)
    requires k < |a| && a[k] == '\n' && NoNewline(a[..k])
    ensures Lines(a + b) == [StripCR(a[..k])] + Lines(a[k + 1..] + b)
  {
    assert (a + b)[..k] == a[..k] && (a + b)[k + 1..] == a[k + 1..] + b;
    LinesAt(a + b, k);
  }

  lemma ConsAppend<T>(x: T, xs: seq<T>, xsys: seq<T>, rs: seq<T>, rsys: seq<T>, ys: seq<T>)
    requires xs == [x] + rs && xsys == [x] + rsys && rsys == rs + ys
    ensures xsys == xs + ys
  {
    assert [x] + (rs + ys) == ([x] + rs) + ys;
  }

  /** Lines of a concatenation, when the first part ends its last line. */
  lemma {:induction false} LinesAppend(a: string, b: string)
    requires EndsLine(a)
    ensures Lines(a + b) == Lines(a) + Lines(b)
    decreases |a|
  {
    if a == [] {
      assert a + b == b;
    } else {
      var k := NewlineIndex(a);
      assert k < |a| by { assert a[..|a|][|a| - 1] == '\n'; }
      LinesAppend(a[k + 1..], b);
      LinesAppendStep(a, b, k);
    }
  }

  /** One line followed by `'\n'` reads back as that line. */
  lemma LinesOfOneLine(l: string)
    requires IsPlainLine(l)
    ensures Lines(l + "\n") == [l]
  {
    var s := l + "\n";
    assert s[..|l|] == l && s[|l|] == '\n' && s[|l| + 1..] == [];
    LinesAt(s, |l|);
  }

  /** Writing lines out and reading them back with `str::lines` is the identity. */
  lemma {:induction false} LinesUnlines(ls: seq<string>)
    requires forall l <- ls :: IsPlainLine(l)
    ensures Lines(Unlines(ls)) == ls
  {
    if ls != [] {
      var head := ls[0] + "\n";
      assert Unlines(ls) == head + Unlines(ls[1..]);
      LinesAppend(head, Unlines(ls[1..]));
      LinesOfOneLine(ls[0]);
      assert forall l <- ls[1..] :: IsPlainLine(l) by {
        forall l <- ls[1..] ensures IsPlainLine(l) { assert l in ls; }
      }
      LinesUnlines(ls[1..]);
      assert ls == [ls[0]] + ls[1..];
    }
  }

  /** Appending a line at the end of the text. */
  lemma {:induction false} UnlinesSnoc(ls: seq<string>, l: string)
    ensures Unlines(ls + [l]) == Unlines(ls) + l + "\n"
  {
    if ls == [] {
      assert [] + [l] == [l];
    } else {
      assert (ls + [l])[0] == ls[0] && (ls + [l])[1..] == ls[1..] + [l];
      UnlinesSnoc(ls[1..], l);
    }
  }

  /** `s.ends_with(suffix)`. */
  predicate EndsWith(s: string, suffix: string) {
    |suffix| <= |s| && s[|s| - |suffix|..] == suffix
  }

  /** `slice.join("\n")`. */
  function Join(ls: seq<string>): string {
    if |ls| == 0 then "" else if |ls| == 1 then ls[0] else ls[0] + "\n" + Join(ls[1..])
  }

  /** A joined, non-empty list with one more `'\n'` is the file text of the list. */
  lemma {:induction false} JoinThenNewline(ls: seq<string>)
    requires ls != []
    ensures Join(ls) + "\n" == Unlines(ls)
  {
    if |ls| > 1 {
      JoinThenNewline(ls[1..]);
    }
  }

  /** The joined text ends with the last entry. */
  lemma {:induction false} JoinEndsWithLast(ls: seq<string>)
    requires ls != []
    ensures var j, l := Join(ls), ls[|ls| - 1]; |l| <= |j| && j[|j| - |l|..] == l
  {
    if |ls| > 1 {
      JoinEndsWithLast(ls[1..]);
      var rest := Join(ls[1..]);
      var l := ls[|ls| - 1];
      assert ls[1..][|ls[1..]| - 1] == l;
      assert Join(ls) == (ls[0] + "\n") + rest;
      assert Join(ls)[|Join(ls)| - |l|..] == rest[|rest| - |l|..];
    }
  }
}
