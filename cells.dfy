/** The per-cell text kernels of the ETL helpers: Python's whitespace class,
    `str.strip()`, `re.split(r"\s|,", s)[0]` and `s.split()[0]`. */
module Cells {
  import opened Outcomes

  /** Python's `str.isspace()` set. It is also the set `\s` matches in a
      `str` pattern and the set `str.strip()` and `str.split()` remove. */
  predicate IsSpace(c: char) {
    var n := c as int;
    (0x09 <= n <= 0x0D) || (0x1C <= n <= 0x20) || n == 0x85 || n == 0xA0
    || n == 0x1680 || (0x2000 <= n <= 0x200A) || n == 0x2028 || n == 0x2029
    || n == 0x202F || n == 0x205F || n == 0x3000
  }

  /** A character matched by the pattern `\s|,`. */
  predicate IsDelimiter(c: char) {
    IsSpace(c) || c == ','
  }

  predicate NoDelimiter(s: string) {
    forall i :: 0 <= i < |s| ==> !IsDelimiter(s[i])
  }

  predicate NoSpace(s: string) {
    forall i :: 0 <= i < |s| ==> !IsSpace(s[i])
  }

  predicate AllSpace(s: string) {
    forall i :: 0 <= i < |s| ==> IsSpace(s[i])
  }

  /** Neither end of `s` is whitespace. */
  predicate IsStripped(s: string) {
    s == [] || (!IsSpace(s[0]) && !IsSpace(s[|s| - 1]))
  }

  // ---------------------------------------------------------------------------
  // Sample identifiers: re.split(r"\s|,", s)[0]
  // ---------------------------------------------------------------------------

  /** The first piece of `re.split(r"\s|,", s)`: the longest prefix of `s`
      holding no whitespace and no comma. `re.split` always returns at least
      one piece, so this never fails; it is empty when `s` is empty or starts
      with a delimiter. */
  function SampleIdOf(s: string): (id: string)
    ensures id <= s
    ensures NoDelimiter(id)
    ensures |id| < |s| ==> IsDelimiter(s[|id|])
  {
    if s == [] || IsDelimiter(s[0]) then [] else [s[0]] + SampleIdOf(s[1..])
  }

  /** The three properties of `SampleIdOf` single out one prefix: any prefix
      free of delimiters that stops at a delimiter or at the end is it. */
  lemma SampleIdUnique(s: string, p: string)
    requires p <= s && NoDelimiter(p)
    requires |p| < |s| ==> IsDelimiter(s[|p|])
    ensures p == SampleIdOf(s)
  {
  }

  /** A cell that is already a clean token is returned unchanged. */
  lemma SampleIdOfClean(s: string)
    requires NoDelimiter(s)
    ensures SampleIdOf(s) == s
  {
    SampleIdUnique(s, s);
  }

  /** Extraction is idempotent. */
  lemma SampleIdIdempotent(s: string)
    ensures SampleIdOf(SampleIdOf(s)) == SampleIdOf(s)
  {
    SampleIdOfClean(SampleIdOf(s));
  }

  /** `"<token><delimiter><anything>"` yields `<token>`, for a clean token. */
  lemma SampleIdOfTokenThen(token: string, d: char, rest: string)
    requires NoDelimiter(token) && IsDelimiter(d)
    ensures SampleIdOf(token + [d] + rest) == token
  {
    var s := token + [d] + rest;
    assert s[|token|] == d;
    SampleIdUnique(s, token);
  }

  /** The format the source documents: `"BCB111 / BIS21-027 :: Serum"` gives `"BCB111"`. */
  lemma SampleIdOfSpecimenLabel()
    ensures SampleIdOf("BCB111 / BIS21-027 :: Serum") == "BCB111"
  {
    assert "BCB111 / BIS21-027 :: Serum" == "BCB111" + [' '] + "/ BIS21-027 :: Serum";
    SampleIdOfTokenThen("BCB111", ' ', "/ BIS21-027 :: Serum");
  }

  /** A comma ends the identifier too: `"BCB111, Serum"` gives `"BCB111"`. */
  lemma SampleIdOfCommaLabel()
    ensures SampleIdOf("BCB111, Serum") == "BCB111"
  {
    assert "BCB111, Serum" == "BCB111" + [','] + " Serum";
    SampleIdOfTokenThen("BCB111", ',', " Serum");
  }

  /** A cell that is empty or starts with a delimiter gives the empty string. */
  lemma SampleIdOfLeadingDelimiter(s: string)
    requires s == [] || IsDelimiter(s[0])
    ensures SampleIdOf(s) == []
  {
  }

  // ---------------------------------------------------------------------------
  // str.strip()
  // ---------------------------------------------------------------------------

  /** `s.lstrip()`: `s` without its leading whitespace. */
  function TrimStart(s: string): (r: string)
    ensures |r| <= |s| && r == s[|s| - |r|..]
    ensures forall i :: 0 <= i < |s| - |r| ==> IsSpace(s[i])
    ensures r == [] || !IsSpace(r[0])
  {
    if s != [] && IsSpace(s[0]) then
      var r := TrimStart(s[1..]);
      assert forall i :: 1 <= i < |s| ==> s[i] == s[1..][i - 1];
      assert s[|s| - |r|..] == s[1..][|s| - 1 - |r|..];
      r
    else s
  }

  /** `s.rstrip()`: `s` without its trailing whitespace. */
  function TrimEnd(s: string): (r: string)
    ensures |r| <= |s| && r == s[..|r|]
    ensures forall i :: |r| <= i < |s| ==> IsSpace(s[i])
    ensures r == [] || !IsSpace(r[|r| - 1])
  {
    if s != [] && IsSpace(s[|s| - 1]) then
      var r := TrimEnd(s[..|s| - 1]);
      assert forall i :: 0 <= i < |s| - 1 ==> s[i] == s[..|s| - 1][i];
      assert s[..|r|] == s[..|s| - 1][..|r|];
      r
    else s
  }

  /** `s.strip()`: neither end of the result is whitespace. */
  function Strip(s: string): (r: string)
    ensures IsStripped(r)
  {
    TrimEnd(TrimStart(s))
  }

  /** What `strip()` returns: a slice `s[i..j]` whose two ends are not
      whitespace, everything cut off on either side being whitespace. */
  lemma StripSlice(s: string) returns (i: nat, j: nat)
    ensures i <= j <= |s| && Strip(s) == s[i..j]
    ensures AllSpace(s[..i]) && AllSpace(s[j..])
  {
    var t := TrimStart(s);
    i := |s| - |t|;
    var r := TrimEnd(t);
    j := i + |r|;
    TrimStartSpaces(s);
    TrimEndSpaces(t);
    assert t == s[i..];
    assert s[j..] == t[|r|..];
  }

  /** What `lstrip()` removes is whitespace. */
  lemma TrimStartSpaces(s: string)
    ensures AllSpace(s[..|s| - |TrimStart(s)|])
  {
    var n := |s| - |TrimStart(s)|;
    forall k | 0 <= k < n
      ensures IsSpace(s[..n][k])
    {
      assert s[..n][k] == s[k];
    }
  }

  /** What `rstrip()` removes is whitespace. */
  lemma TrimEndSpaces(s: string)
    ensures AllSpace(s[|TrimEnd(s)|..])
  {
    var n := |TrimEnd(s)|;
    forall k | 0 <= k < |s| - n
      ensures IsSpace(s[n..][k])
    {
      assert s[n..][k] == s[n + k];
    }
  }

  lemma TrimStartNoop(s: string)
    requires s == [] || !IsSpace(s[0])
    ensures TrimStart(s) == s
  {
  }

  lemma TrimEndNoop(s: string)
    requires s == [] || !IsSpace(s[|s| - 1])
    ensures TrimEnd(s) == s
  {
  }

  /** A string whose ends are not whitespace is its own `strip()`. */
  lemma StripNoop(s: string)
    requires IsStripped(s)
    ensures Strip(s) == s
  {
    TrimStartNoop(s);
    TrimEndNoop(s);
  }

  /** Stripping twice is stripping once. */
  lemma StripIdempotent(s: string)
    ensures Strip(Strip(s)) == Strip(s)
  {
    var _, _ := StripSlice(s);
    StripNoop(Strip(s));
  }

  // ---------------------------------------------------------------------------
  // s.split()[0]
  // ---------------------------------------------------------------------------

  /** The longest prefix of `s` holding no whitespace. */
  function Word(s: string): (w: string)
    ensures w <= s
    ensures NoSpace(w)
    ensures |w| < |s| ==> IsSpace(s[|w|])
  {
    if s == [] || IsSpace(s[0]) then [] else [s[0]] + Word(s[1..])
  }

  /** `s.split()[0]`: the first whitespace-delimited run of `s`, or `None`
      where Python raises `IndexError` because `split()` returned no pieces.
      Leading whitespace is skipped, then the run is taken. */
  function FirstWord(s: string): Option<string> {
    if s == [] then None
    else if IsSpace(s[0]) then FirstWord(s[1..])
    else Some(Word(s))
  }

  /** When `split()[0]` succeeds it returns a non-empty run of non-whitespace
      characters, preceded in `s` only by whitespace and followed by
      whitespace or the end. */
  lemma FirstWordSpec(s: string) returns (k: nat)
    ensures FirstWord(s).Some? ==>
      var w := FirstWord(s).value;
      && w != [] && NoSpace(w)
      && k + |w| <= |s| && AllSpace(s[..k]) && s[k..k + |w|] == w
      && (k + |w| == |s| || IsSpace(s[k + |w|]))
  {
    FirstWordTrimmed(s);
    var t := TrimStart(s);
    k := |s| - |t|;
    TrimStartSpaces(s);
    assert t == s[k..];
    if t != [] {
      WordAt(s, k);
    }
  }

  /** The run `Word` takes from position `k` of `s` is the slice of `s` that
      starts there, and it stops at whitespace or at the end. */
  lemma WordAt(s: string, k: nat)
    requires k <= |s|
    ensures var w := Word(s[k..]);
      k + |w| <= |s| && s[k..k + |w|] == w && (k + |w| == |s| || IsSpace(s[k + |w|]))
  {
    var t := s[k..];
    var w := Word(t);
    assert w == t[..|w|];
    assert s[k..k + |w|] == t[..|w|];
    assert k + |w| < |s| ==> s[k + |w|] == t[|w|];
  }

  /** `split()[0]` skips what `lstrip()` removes and takes the run after it. */
  lemma {:induction false} FirstWordTrimmed(s: string)
    ensures FirstWord(s) == if TrimStart(s) == [] then None else Some(Word(TrimStart(s)))
  {
    if s != [] && IsSpace(s[0]) {
      FirstWordTrimmed(s[1..]);
    }
  }

  /** `split()[0]` raises exactly on blank strings. */
  lemma {:induction false} FirstWordBlank(s: string)
    ensures FirstWord(s).None? <==> AllSpace(s)
  {
    if s != [] && IsSpace(s[0]) {
      FirstWordBlank(s[1..]);
      assert forall i :: 1 <= i < |s| ==> s[i] == s[1..][i - 1];
    }
  }

  /** Trimming an already-trimmed result leaves it alone. */
  lemma FirstWordOfWord(w: string)
    requires w != [] && NoSpace(w)
    ensures FirstWord(w) == Some(w)
  {
    WordOfClean(w);
  }

  lemma {:induction false} WordOfClean(w: string)
    requires NoSpace(w)
    ensures Word(w) == w
  {
    if w != [] {
      WordOfClean(w[1..]);
    }
  }

  /** `w` followed by whitespace: its first word is `w`. */
  lemma WordThen(w: string, d: char, rest: string)
    requires NoSpace(w) && IsSpace(d)
    ensures Word(w + [d] + rest) == w
  {
    var s := w + [d] + rest;
    assert s[|w|] == d;
  }

  /** `"Negative @ 1:10"` trims to `"Negative"`. */
  lemma FirstWordOfTiter()
    ensures FirstWord("Negative @ 1:10") == Some("Negative")
  {
    assert "Negative @ 1:10" == "Negative" + [' '] + "@ 1:10";
    WordThen("Negative", ' ', "@ 1:10");
  }
}
