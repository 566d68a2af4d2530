/** The parts of Go's `strings` package the profile code relies on.

    Go strings are byte strings. The model represents them as `seq<char>`
    under an ASCII assumption: one character is one byte, so `len` is `|s|`,
    backspace drops one character, `strings.TrimSpace` trims the six ASCII
    white-space characters and `strings.ToLower` folds only `A`-`Z`. */
module Text {

  // ---------------------------------------------------------------------------
  // White space and trimming
  // ---------------------------------------------------------------------------

  /** ASCII white space as `unicode.IsSpace` sees it. */
  predicate IsSpace(c: char) {
    c == ' ' || c == '\t' || c == '\n' || c == '\U{0B}' || c == '\U{0C}' || c == '\r'
  }

  /** Neither end of `s` is white space. */
  predicate IsTrimmed(s: string) {
    s == [] || (!IsSpace(s[0]) && !IsSpace(s[|s| - 1]))
  }

  /** `strings.TrimSpace`: drops the white space at both ends. */
  function TrimSpace(s: string): (r: string)
    ensures IsTrimmed(r)
    ensures |r| <= |s|
    ensures IsTrimmed(s) ==> r == s
    ensures NoControl(s) ==> NoControl(r)
    decreases |s|
  {
    if s == [] then s
    else if IsSpace(s[0]) then
      NoControlTail(s);
      TrimSpace(s[1..])
    else if IsSpace(s[|s| - 1]) then
      TrimSpace(s[..|s| - 1])
    else s
  }

  lemma NoControlTail(s: string)
    requires s != []
    ensures NoControl(s) ==> NoControl(s[1..])
  {
    if NoControl(s) {
      forall k | 0 <= k < |s| - 1 ensures IsPrintable(s[1..][k]) {
        assert s[1..][k] == s[k + 1];
      }
    }
  }

  /** `strings.Trim(s, string(c))`: drops every leading and trailing `c`. */
  function TrimChar(s: string, c: char): (r: string)
    ensures |r| <= |s|
    ensures r == [] || (r[0] != c && r[|r| - 1] != c)
    ensures (s == [] || (s[0] != c && s[|s| - 1] != c)) ==> r == s
  {
    if s == [] then s
    else if s[0] == c then TrimChar(s[1..], c)
    else if s[|s| - 1] == c then TrimChar(s[..|s| - 1], c)
    else s
  }

  // ---------------------------------------------------------------------------
  // Control characters
  // ---------------------------------------------------------------------------

  /** The rune test `r >= 32 && r != 127` used to keep printable characters. */
  predicate IsPrintable(c: char) {
    c as int >= 32 && c as int != 127
  }

  predicate NoControl(s: string) {
    forall k | 0 <= k < |s| :: IsPrintable(s[k])
  }

  /** Keeps the printable characters of `s`, in order (the rune loop that
      fills a `strings.Builder`). */
  function Printable(s: string): (r: string)
    ensures NoControl(r)
    ensures |r| <= |s|
    ensures r == s <==> NoControl(s)
  {
    if s == [] then []
    else
      var init := Printable(s[..|s| - 1]);
      if IsPrintable(s[|s| - 1]) then init + [s[|s| - 1]] else init
  }

  // ---------------------------------------------------------------------------
  // Case folding, prefixes, substrings
  // ---------------------------------------------------------------------------

  function LowerChar(c: char): char {
    if 'A' <= c <= 'Z' then (c as int + 32) as char else c
  }

  /** `strings.ToLower` restricted to ASCII. */
  function Lower(s: string): (r: string)
    ensures |r| == |s|
    ensures forall k | 0 <= k < |s| :: r[k] == LowerChar(s[k])
  {
    seq(|s|, k requires 0 <= k < |s| => LowerChar(s[k]))
  }

  predicate HasPrefix(s: string, p: string) {
    |p| <= |s| && s[..|p|] == p
  }

  predicate HasSuffix(s: string, p: string) {
    |p| <= |s| && s[|s| - |p|..] == p
  }

  /** `strings.TrimPrefix`. */
  function TrimPrefix(s: string, p: string): (r: string)
    ensures HasPrefix(s, p) ==> p + r == s
    ensures !HasPrefix(s, p) ==> r == s
  {
    if HasPrefix(s, p) then s[|p|..] else s
  }

  /** `sub` occurs in `s` starting at index `k`. */
  predicate OccursAt(s: string, sub: string, k: int) {
    0 <= k && k + |sub| <= |s| && s[k..k + |sub|] == sub
  }

  /** `strings.Contains`. */
  predicate Contains(s: string, sub: string) {
    exists k | 0 <= k <= |s| - |sub| :: OccursAt(s, sub, k)
  }

  /** A string without the character `c` does not contain the one-character
      string `[c]`. */
  lemma AbsentCharNotContained(s: string, c: char)
    requires c !in s
    ensures !Contains(s, [c])
  {
    forall k | 0 <= k <= |s| - 1 ensures !OccursAt(s, [c], k) {
      assert s[k..k + 1] == [s[k]];
    }
  }

  // ---------------------------------------------------------------------------
  // Split and Join
  // ---------------------------------------------------------------------------

  /** `strings.Split` for a non-empty separator: cuts `s` at every occurrence
      of `sep`, scanning from the left. */
  function Split(s: string, sep: string): (parts: seq<string>)
    requires sep != []
    ensures |parts| >= 1
    decreases |s|
  {
    if |s| < |sep| then [s]
    else if s[..|sep|] == sep then [""] + Split(s[|sep|..], sep)
    else
      var rest := Split(s[1..], sep);
      [[s[0]] + rest[0]] + rest[1..]
  }

  /** `strings.Join`. */
  function Join(xs: seq<string>, sep: string): string {
    if |xs| == 0 then ""
    else if |xs| == 1 then xs[0]
    else xs[0] + sep + Join(xs[1..], sep)
  }

  /** No proper suffix of `sep` is also a prefix of it, so two occurrences
      of `sep` never overlap (true of "; ", "|" and "\n"). */
  predicate BorderFree(sep: string) {
    forall k | 0 < k < |sep| :: sep[k..] != sep[..|sep| - k]
  }

  lemma {:induction false} SplitWithoutSeparator(x: string, sep: string)
    requires sep != [] && !Contains(x, sep)
    ensures Split(x, sep) == [x]
    decreases |x|
  {
    if |x| >= |sep| {
      assert !OccursAt(x, sep, 0);
      NoSeparatorInTail(x, sep);
      SplitWithoutSeparator(x[1..], sep);
      assert [x[0]] + x[1..] == x;
    }
  }

  lemma NoSeparatorInTail(x: string, sep: string)
    requires x != [] && !Contains(x, sep)
    ensures !Contains(x[1..], sep)
  {
    forall k | 0 <= k <= |x[1..]| - |sep|
      ensures !OccursAt(x[1..], sep, k)
    {
      assert x[1..][k..k + |sep|] == x[k + 1..k + 1 + |sep|];
      assert !OccursAt(x, sep, k + 1);
    }
  }

  lemma SeparatorNotAtStart(x: string, sep: string, rest: string)
    requires sep != [] && BorderFree(sep) && !Contains(x, sep) && x != []
    ensures (x + sep + rest)[..|sep|] != sep
  {
    var s := x + sep + rest;
    if |x| >= |sep| {
      assert x[..|sep|] == s[..|sep|];
      assert !OccursAt(x, sep, 0);
    } else {
      // a match here would make a prefix of sep a proper suffix of it
      var k := |x|;
      assert s[..|sep|][k..] == sep[..|sep| - k];
      assert sep[k..] != sep[..|sep| - k];
    }
  }

  /** Splitting `x + sep + rest` cuts exactly after `x` when `x` holds no
      separator and the separator cannot overlap itself. */
  lemma {:induction false} SplitAfterField(x: string, sep: string, rest: string)
    requires sep != [] && BorderFree(sep) && !Contains(x, sep)
    ensures Split(x + sep + rest, sep) == [x] + Split(rest, sep)
    decreases |x|
  {
    var s := x + sep + rest;
    if x == [] {
      assert s[..|sep|] == sep;
      assert s[|sep|..] == rest;
    } else {
      SeparatorNotAtStart(x, sep, rest);
      assert s[1..] == x[1..] + sep + rest;
      NoSeparatorInTail(x, sep);
      SplitAfterField(x[1..], sep, rest);
      assert [x[0]] + x[1..] == x;
    }
  }

  /** Round trip: splitting a join gives back the fields, provided there is
      at least one field and none contains the separator. */
  lemma {:induction false} SplitJoin(xs: seq<string>, sep: string)
    requires sep != [] && BorderFree(sep) && |xs| >= 1
    requires forall i | 0 <= i < |xs| :: !Contains(xs[i], sep)
    ensures Split(Join(xs, sep), sep) == xs
    decreases |xs|
  {
    if |xs| == 1 {
      SplitWithoutSeparator(xs[0], sep);
    } else {
      SplitAfterField(xs[0], sep, Join(xs[1..], sep));
      SplitJoin(xs[1..], sep);
    }
  }

  lemma {:induction false} JoinAppend(xs: seq<string>, y: string, sep: string)
    requires |xs| >= 1
    ensures Join(xs + [y], sep) == Join(xs, sep) + sep + y
    decreases |xs|
  {
    if |xs| > 1 {
      assert (xs + [y])[1..] == xs[1..] + [y];
      JoinAppend(xs[1..], y, sep);
    }
  }
}
