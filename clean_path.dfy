/** `get_clean_path`: the three-stage trim applied to every path the user types. */
module CleanPath {

  /** The characters Python's `str.isspace()` accepts, which `str.strip()` with no
      argument removes from both ends. */
  const Whitespace: set<char> := {
    '\U{9}', '\U{A}', '\U{B}', '\U{C}', '\U{D}', '\U{1C}', '\U{1D}', '\U{1E}', '\U{1F}', ' ',
    '\U{85}', '\U{A0}', '\U{1680}', '\U{2000}', '\U{2001}', '\U{2002}', '\U{2003}', '\U{2004}',
    '\U{2005}', '\U{2006}', '\U{2007}', '\U{2008}', '\U{2009}', '\U{200A}', '\U{2028}', '\U{2029}',
    '\U{202F}', '\U{205F}', '\U{3000}'
  }

  const DoubleQuote: set<char> := {'"'}

  const SingleQuote: set<char> := {'\''}

  /** Everything any of the three stages may remove. */
  const PathJunk: set<char> := Whitespace + DoubleQuote + SingleQuote

  /** `r` is the slice of `s` that starts at `i`, and every character of `s` outside
      that slice is in `drop`. */
  predicate TrimAt(r: string, s: string, drop: set<char>, i: int) {
    && 0 <= i <= |s| - |r|
    && (forall j :: 0 <= j < |r| ==> r[j] == s[i + j])
    && (forall k :: 0 <= k < i ==> s[k] in drop)
    && (forall k :: i + |r| <= k < |s| ==> s[k] in drop)
  }

  /** `r` is obtained from `s` by cutting only characters in `drop` off its ends. */
  ghost predicate IsTrimOf(r: string, s: string, drop: set<char>) {
    exists i :: TrimAt(r, s, drop, i)
  }

  /** Neither end of `r` could be removed any further. */
  predicate NothingToDrop(r: string, drop: set<char>) {
    r == [] || (r[0] !in drop && r[|r| - 1] !in drop)
  }

  /** The first index at or after `i` whose character is not in `drop` (or `|s|`):
      the left scan of CPython's strip. */
  function FirstKept(s: string, drop: set<char>, i: nat): (j: nat)
    requires i <= |s|
    ensures i <= j <= |s|
    ensures forall k :: i <= k < j ==> s[k] in drop
    ensures j < |s| ==> s[j] !in drop
    decreases |s| - i
  {
    if i < |s| && s[i] in drop then FirstKept(s, drop, i + 1) else i
  }

  /** The end of the slice that remains once the characters in `drop` are cut from the
      right of `s[lo..hi]`: the right scan of CPython's strip, which stops at `lo`. */
  function LastKept(s: string, drop: set<char>, lo: nat, hi: nat): (j: nat)
    requires lo <= hi <= |s|
    ensures lo <= j <= hi
    ensures forall k :: j <= k < hi ==> s[k] in drop
    ensures j > lo ==> s[j - 1] !in drop
    decreases hi - lo
  {
    if lo < hi && s[hi - 1] in drop then LastKept(s, drop, lo, hi - 1) else hi
  }

  /** Python's `s.strip(chars)` for the characters in `drop`. */
  function Strip(s: string, drop: set<char>): (r: string)
    ensures IsTrimOf(r, s, drop)
    ensures NothingToDrop(r, drop)
  {
    var i := FirstKept(s, drop, 0);
    var j := LastKept(s, drop, i, |s|);
    assert TrimAt(s[i..j], s, drop, i);
    s[i..j]
  }

  /** A trim of a trim is a trim, for the characters either one may remove. */
  lemma TrimOfTrim(r2: string, r1: string, s: string, d1: set<char>, d2: set<char>, d: set<char>)
    requires IsTrimOf(r1, s, d1) && IsTrimOf(r2, r1, d2)
    requires d1 + d2 <= d
    ensures IsTrimOf(r2, s, d)
  {
    var i1 :| TrimAt(r1, s, d1, i1);
    var i2 :| TrimAt(r2, r1, d2, i2);
    var i := i1 + i2;
    forall k | 0 <= k < i ensures s[k] in d {
      if k >= i1 { assert s[k] == r1[k - i1]; }
    }
    forall k | i + |r2| <= k < |s| ensures s[k] in d {
      if k < i1 + |r1| { assert s[k] == r1[k - i1]; }
    }
    assert TrimAt(r2, s, d, i);
  }

  /** `input_path.strip().strip('"').strip("'")`. The result is a slice of the input
      from which only whitespace and quote characters were cut at the two ends, and
      it neither starts nor ends with a single quote. */
  function GetCleanPath(inputPath: string): (r: string)
    ensures IsTrimOf(r, inputPath, PathJunk)
    ensures NothingToDrop(r, SingleQuote)
  {
    var a := Strip(inputPath, Whitespace);
    var b := Strip(a, DoubleQuote);
    var c := Strip(b, SingleQuote);
    TrimOfTrim(b, a, inputPath, Whitespace, DoubleQuote, Whitespace + DoubleQuote);
    TrimOfTrim(c, b, inputPath, Whitespace + DoubleQuote, SingleQuote, PathJunk);
    c
  }

  /** A path with no whitespace or quote at either end is returned as it is. */
  lemma {:induction false} GetCleanPathKeepsCleanPath(p: string)
    requires NothingToDrop(p, PathJunk)
    ensures GetCleanPath(p) == p
  {
    StripKeeps(p, Whitespace);
    StripKeeps(p, DoubleQuote);
    StripKeeps(p, SingleQuote);
  }

  lemma StripKeeps(s: string, drop: set<char>)
    requires NothingToDrop(s, drop)
    ensures Strip(s, drop) == s
  {
    if s != [] {
      assert FirstKept(s, drop, 0) == 0;
      assert LastKept(s, drop, 0, |s|) == |s|;
    }
  }

  lemma {:induction false} FirstKeptAt(s: string, drop: set<char>, lo: nat, i: nat)
    requires lo <= i <= |s|
    requires forall k :: lo <= k < i ==> s[k] in drop
    requires i < |s| ==> s[i] !in drop
    ensures FirstKept(s, drop, lo) == i
    decreases i - lo
  {
    if lo < i {
      FirstKeptAt(s, drop, lo + 1, i);
    }
  }

  lemma {:induction false} LastKeptAt(s: string, drop: set<char>, lo: nat, hi: nat, j: nat)
    requires lo <= j <= hi <= |s|
    requires forall k :: j <= k < hi ==> s[k] in drop
    requires j > lo ==> s[j - 1] !in drop
    ensures LastKept(s, drop, lo, hi) == j
    decreases hi - j
  {
    if j < hi {
      LastKeptAt(s, drop, lo, hi - 1, j);
    }
  }

  /** The two properties `Strip` promises determine its result: any trim of `s` whose
      ends cannot be cut further is `Strip(s, drop)`. */
  lemma StripUnique(r: string, s: string, drop: set<char>, i: nat)
    requires TrimAt(r, s, drop, i)
    requires NothingToDrop(r, drop)
    ensures Strip(s, drop) == r
  {
    if r == [] {
      FirstKeptAt(s, drop, 0, |s|);
      LastKeptAt(s, drop, |s|, |s|, |s|);
    } else {
      assert s[i] == r[0];
      FirstKeptAt(s, drop, 0, i);
      assert s[i + |r| - 1] == r[|r| - 1];
      LastKeptAt(s, drop, i, |s|, i + |r|);
      assert s[i..i + |r|] == r;
    }
  }

  /** A path pasted with surrounding blanks and double quotes comes out bare. */
  lemma CleanQuotedPath(s: string)
    requires s == "  \"C:/data/Si.cif\" "
    ensures GetCleanPath(s) == "C:/data/Si.cif"
  {
    var quoted := "\"C:/data/Si.cif\"";
    var bare := "C:/data/Si.cif";
    StripOuterBlanks(s, quoted);
    StripOuterQuotes(quoted, bare);
    StripKeeps(bare, SingleQuote);
  }

  lemma StripOuterBlanks(s: string, quoted: string)
    requires s == "  \"C:/data/Si.cif\" " && quoted == "\"C:/data/Si.cif\""
    ensures Strip(s, Whitespace) == quoted
  {
    assert ' ' in Whitespace && '"' !in Whitespace;
    assert quoted == s[2..18];
    StripUnique(quoted, s, Whitespace, 2);
  }

  lemma StripOuterQuotes(quoted: string, bare: string)
    requires quoted == "\"C:/data/Si.cif\"" && bare == "C:/data/Si.cif"
    ensures Strip(quoted, DoubleQuote) == bare
  {
    assert bare == quoted[1..15];
    StripUnique(bare, quoted, DoubleQuote, 1);
  }

  /** The stages run in a fixed order, so blanks inside the quotes survive. */
  lemma BlanksInsideQuotesSurvive(s: string)
    requires s == "\" Si.cif \""
    ensures GetCleanPath(s) == " Si.cif "
  {
    var inner := " Si.cif ";
    assert '"' !in Whitespace;
    StripKeeps(s, Whitespace);
    StripQuotedBlanks(s, inner);
    StripKeeps(inner, SingleQuote);
  }

  lemma StripQuotedBlanks(s: string, inner: string)
    requires s == "\" Si.cif \"" && inner == " Si.cif "
    ensures Strip(s, DoubleQuote) == inner
  {
    assert inner == s[1..9];
    StripUnique(inner, s, DoubleQuote, 1);
  }
}
