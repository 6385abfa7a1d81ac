/** Text helpers the rest of the model is written in: Python's `sep.join(ls)`,
    `s.split("\n")` and `str(n)` for a non-negative `int`. */
module Text {

  predicate NoNewline(s: string) {
    '\n' !in s
  }

  predicate AllNoNewline(ls: seq<string>) {
    forall i :: 0 <= i < |ls| ==> NoNewline(ls[i])
  }

  lemma NoNewlineConcat(a: string, b: string)
    ensures NoNewline(a + b) <==> NoNewline(a) && NoNewline(b)
  {
  }

  lemma AllNoNewlineConcat(a: seq<string>, b: seq<string>)
    requires AllNoNewline(a) && AllNoNewline(b)
    ensures AllNoNewline(a + b)
  {
  }

  /** `sep.join(ls)`: the elements with `sep` between neighbours; `""` for no elements. */
  function Join(ls: seq<string>, sep: string): string
  {
    if |ls| == 0 then ""
    else if |ls| == 1 then ls[0]
    else ls[0] + sep + Join(ls[1..], sep)
  }

  /** The index of the first newline at or after `i`, or `|s|` when there is none. */
  function NewlineIndex(s: string, i: nat): (j: nat)
    requires i <= |s|
    ensures i <= j <= |s|
    ensures forall k :: i <= k < j ==> s[k] != '\n'
    ensures j < |s| ==> s[j] == '\n'
    decreases |s| - i
  {
    if i == |s| || s[i] == '\n' then i else NewlineIndex(s, i + 1)
  }

  /** `s.split("\n")`: the pieces of `s` between newlines, always at least one
      (`"".split("\n") == [""]`). */
  function Split(s: string): (r: seq<string>)
    ensures |r| >= 1
    ensures AllNoNewline(r)
    decreases |s|
  {
    var i := NewlineIndex(s, 0);
    assert NoNewline(s[..i]) by {
      forall k | 0 <= k < i ensures s[..i][k] != '\n' {
        assert s[..i][k] == s[k];
      }
    }
    if i == |s| then [s[..i]] else [s[..i]] + Split(s[i + 1..])
  }

  lemma JoinCons(x: string, r: seq<string>)
    requires |r| >= 1
    ensures Join([x] + r, "\n") == x + "\n" + Join(r, "\n")
  {
    assert ([x] + r)[1..] == r;
  }

  /** Joining the pieces of a split gives the text back. */
  lemma {:induction false} JoinSplit(s: string)
    ensures Join(Split(s), "\n") == s
    decreases |s|
  {
    var i := NewlineIndex(s, 0);
    if i == |s| {
      assert s[..i] == s;
    } else {
      var line, rest := s[..i], s[i + 1..];
      assert Split(s) == [line] + Split(rest);
      JoinSplit(rest);
      JoinCons(line, Split(rest));
      assert s == line + "\n" + rest by {
        assert s == s[..i] + [s[i]] + s[i + 1..];
      }
    }
  }

  lemma {:induction false} NewlineIndexAt(s: string, i: nat, j: nat)
    requires i <= j <= |s|
    requires forall k :: i <= k < j ==> s[k] != '\n'
    requires j < |s| ==> s[j] == '\n'
    ensures NewlineIndex(s, i) == j
    decreases j - i
  {
    if i < j {
      NewlineIndexAt(s, i + 1, j);
    }
  }

  lemma SplitNoNewline(s: string)
    requires NoNewline(s)
    ensures Split(s) == [s]
  {
    NewlineIndexAt(s, 0, |s|);
    assert s[..|s|] == s;
  }

  /** A newline ends the line before it. */
  lemma SplitAfterLine(a: string, b: string)
    requires NoNewline(a)
    ensures Split(a + "\n" + b) == [a] + Split(b)
  {
    var s := a + "\n" + b;
    forall k | 0 <= k < |a| ensures s[k] != '\n' {
      assert s[k] == a[k];
    }
    NewlineIndexAt(s, 0, |a|);
    assert s[..|a|] == a;
    assert s[|a| + 1..] == b;
  }

  /** Splitting the join of newline-free lines gives the lines back. */
  lemma {:induction false} SplitJoin(ls: seq<string>)
    requires |ls| >= 1 && AllNoNewline(ls)
    ensures Split(Join(ls, "\n")) == ls
  {
    if |ls| == 1 {
      SplitNoNewline(ls[0]);
    } else {
      SplitJoin(ls[1..]);
      SplitAfterLine(ls[0], Join(ls[1..], "\n"));
      assert ls == [ls[0]] + ls[1..];
    }
  }

  /** `ls` with `t` glued to the end of its last element; `[t]` when `ls` is empty.
      These are the lines of `Join(ls, "\n") + t`. */
  function AppendLast(ls: seq<string>, t: string): (r: seq<string>)
    ensures |r| >= 1
  {
    if ls == [] then [t] else ls[..|ls| - 1] + [ls[|ls| - 1] + t]
  }

  lemma {:induction false} JoinAppendLast(ls: seq<string>, t: string)
    ensures Join(AppendLast(ls, t), "\n") == Join(ls, "\n") + t
  {
    if |ls| == 1 {
      assert AppendLast(ls, t) == [ls[0] + t];
    } else if |ls| > 1 {
      JoinAppendLast(ls[1..], t);
      assert ls[1..][..|ls[1..]| - 1] == ls[1..|ls| - 1];
      assert ls[..|ls| - 1] == [ls[0]] + ls[1..|ls| - 1];
      assert AppendLast(ls, t) == [ls[0]] + AppendLast(ls[1..], t);
      JoinCons(ls[0], AppendLast(ls[1..], t));
    }
  }

  /** Joining a header, the joined block with `t` after it, and more lines. */
  lemma JoinFilled(header: string, block: seq<string>, t: string, rest: seq<string>)
    requires |rest| >= 1
    ensures Join([header, Join(block, "\n") + t] + rest, "\n") == Join([header] + AppendLast(block, t) + rest, "\n")
  {
    var filled := Join(block, "\n") + t;
    var lines := AppendLast(block, t);
    assert [header, filled] + rest == [header] + ([filled] + rest);
    JoinCons(header, [filled] + rest);
    JoinCons(filled, rest);
    assert [header] + lines + rest == [header] + (lines + rest);
    JoinCons(header, lines + rest);
    JoinConcat(lines, rest);
    JoinAppendLast(block, t);
  }

  lemma AppendLastNoNewline(ls: seq<string>, t: string)
    requires AllNoNewline(ls) && NoNewline(t)
    ensures AllNoNewline(AppendLast(ls, t))
  {
    if ls != [] {
      NoNewlineConcat(ls[|ls| - 1], t);
    }
  }

  lemma {:induction false} JoinConcat(a: seq<string>, b: seq<string>)
    requires |a| >= 1 && |b| >= 1
    ensures Join(a + b, "\n") == Join(a, "\n") + "\n" + Join(b, "\n")
  {
    if |a| == 1 {
      JoinCons(a[0], b);
    } else {
      assert (a + b)[1..] == a[1..] + b;
      JoinConcat(a[1..], b);
      JoinCons(a[0], a[1..] + b);
      assert a + b == [a[0]] + (a[1..] + b);
    }
  }

  function DigitChar(d: nat): (c: char)
    requires d < 10
    ensures '0' <= c <= '9'
  {
    ('0' as int + d) as char
  }

  predicate AllDigits(s: string) {
    forall i :: 0 <= i < |s| ==> '0' <= s[i] <= '9'
  }

  /** `str(n)`: the decimal digits of `n`, most significant first, without leading zeros. */
  function NatToString(n: nat): (r: string)
    ensures |r| >= 1 && AllDigits(r)
    ensures |r| > 1 ==> r[0] != '0'
    ensures NoNewline(r)
  {
    if n < 10 then [DigitChar(n)] else NatToString(n / 10) + [DigitChar(n % 10)]
  }

  /** The value of a string of decimal digits. */
  function ParseNat(s: string): nat
    requires AllDigits(s)
  {
    if s == [] then 0 else 10 * ParseNat(s[..|s| - 1]) + (s[|s| - 1] as int - '0' as int)
  }

  /** Reading the digits `str(n)` produces gives `n` back. */
  lemma {:induction false} ParseNatToString(n: nat)
    ensures ParseNat(NatToString(n)) == n
  {
    var s := NatToString(n);
    if n < 10 {
      assert s[..0] == [];
    } else {
      var high := NatToString(n / 10);
      assert s == high + [DigitChar(n % 10)];
      assert s[..|s| - 1] == high;
      ParseNatToString(n / 10);
    }
  }
}
