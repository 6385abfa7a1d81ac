/** `add_zeros_to_coordinates`: the sites are put in order of their fractional z
    coordinate, and the user's 1-based range of lines is marked as fixed. */
module Coordinates {

  /** Three real components: a fractional position (x, y, z) or a lattice row. */
  datatype Vec3 = Vec3(x: real, y: real, z: real)

  /** One site of the structure: its label and its fractional position, the
      `(label, coord)` pair of the source. */
  datatype Atom = Atom(name: string, pos: Vec3)

  /** The text of one position line without the constraint flags, the source's
      `f"{label} {x:.10f} {y:.10f} {z:.10f}"`; the number formatting is not modelled. */
  type LineFormat = (string, Vec3) -> string

  /** The flags appended to a line whose atom is fixed in all three directions. */
  const FixedSuffix := " 0 0 0"

  predicate SortedByZ(s: seq<Atom>) {
    forall i, j :: 0 <= i < j < |s| ==> s[i].pos.z <= s[j].pos.z
  }

  /** The atoms of `s` whose z component is `k`, in their order in `s`. */
  function WithZ(s: seq<Atom>, k: real): seq<Atom>
  {
    if s == [] then [] else Keep(s[0], k) + WithZ(s[1..], k)
  }

  function Keep(a: Atom, k: real): seq<Atom> {
    if a.pos.z == k then [a] else []
  }

  lemma WithZCons(a: Atom, s: seq<Atom>, k: real)
    ensures WithZ([a] + s, k) == Keep(a, k) + WithZ(s, k)
  {
    assert ([a] + s)[1..] == s;
  }

  /** Puts `a` in front of the first atom of `s` whose z is not smaller than its own. */
  function Insert(a: Atom, s: seq<Atom>): (r: seq<Atom>)
    ensures |r| == |s| + 1
    ensures multiset(r) == multiset(s) + multiset{a}
    ensures SortedByZ(s) ==> SortedByZ(r)
  {
    if s == [] || a.pos.z <= s[0].pos.z then
      InsertFrontSorted(a, s);
      [a] + s
    else
      var t := Insert(a, s[1..]);
      assert s == [s[0]] + s[1..];
      InsertSortedStep(a, s, t);
      [s[0]] + t
  }

  lemma InsertFrontSorted(a: Atom, s: seq<Atom>)
    requires s == [] || a.pos.z <= s[0].pos.z
    ensures SortedByZ(s) ==> SortedByZ([a] + s)
  {
    if SortedByZ(s) {
      var r := [a] + s;
      forall i, j | 0 <= i < j < |r| ensures r[i].pos.z <= r[j].pos.z {
        assert r[j] == s[j - 1];
        if i > 0 { assert r[i] == s[i - 1]; }
      }
    }
  }

  lemma InsertSortedStep(a: Atom, s: seq<Atom>, t: seq<Atom>)
    requires s != [] && a.pos.z > s[0].pos.z
    requires multiset(t) == multiset(s[1..]) + multiset{a}
    requires SortedByZ(s) ==> SortedByZ(t)
    ensures SortedByZ(s) ==> SortedByZ([s[0]] + t)
  {
    if SortedByZ(s) {
      var r := [s[0]] + t;
      forall j | 0 <= j < |t| ensures s[0].pos.z <= t[j].pos.z {
        assert t[j] in multiset(t);
        if t[j] != a {
          assert t[j] in multiset(s[1..]);
          var m :| 0 <= m < |s[1..]| && s[1..][m] == t[j];
          assert s[m + 1] == t[j];
        }
      }
      forall i, j | 0 <= i < j < |r| ensures r[i].pos.z <= r[j].pos.z {
        assert r[j] == t[j - 1];
        if i > 0 { assert r[i] == t[i - 1]; }
      }
    }
  }

  /** `sorted(coordinates, key=lambda x: x[1][2])`: insertion sort, stable because an
      atom goes in front of the atoms with an equal z that come after it in the input. */
  function SortByZ(s: seq<Atom>): (r: seq<Atom>)
    ensures |r| == |s|
    ensures multiset(r) == multiset(s)
    ensures SortedByZ(r)
  {
    if s == [] then []
    else
      assert s == [s[0]] + s[1..];
      Insert(s[0], SortByZ(s[1..]))
  }

  lemma {:induction false} WithZConcat(a: seq<Atom>, b: seq<Atom>, k: real)
    ensures WithZ(a + b, k) == WithZ(a, k) + WithZ(b, k)
  {
    if a == [] {
      assert a + b == b;
    } else {
      assert (a + b)[1..] == a[1..] + b;
      WithZConcat(a[1..], b, k);
    }
  }

  lemma SingleWithZ(x: Atom, k: real)
    ensures WithZ([x], k) == if x.pos.z == k then [x] else []
  {
    assert [x][1..] == [];
  }

  lemma {:induction false} InsertKeepsWithZ(a: Atom, s: seq<Atom>, k: real)
    ensures WithZ(Insert(a, s), k) == WithZ([a] + s, k)
  {
    if s != [] && a.pos.z > s[0].pos.z {
      var s0, rest := s[0], s[1..];
      assert s == [s0] + rest;
      var inserted := Insert(a, rest);
      assert Insert(a, s) == [s0] + inserted;
      // a and s0 have different z, so at most one of them is kept
      assert Keep(s0, k) + Keep(a, k) == Keep(a, k) + Keep(s0, k);
      calc {
        WithZ(Insert(a, s), k);
        { WithZCons(s0, inserted, k); }
        Keep(s0, k) + WithZ(inserted, k);
        { InsertKeepsWithZ(a, rest, k); WithZCons(a, rest, k); }
        Keep(s0, k) + (Keep(a, k) + WithZ(rest, k));
        Keep(a, k) + (Keep(s0, k) + WithZ(rest, k));
        { WithZCons(s0, rest, k); }
        Keep(a, k) + WithZ(s, k);
        { WithZCons(a, s, k); }
        WithZ([a] + s, k);
      }
    }
  }

  /** Stability, as Python's `sorted` promises: for every value of z, the atoms with
      that z appear in the same relative order before and after sorting. */
  lemma {:induction false} SortByZStable(s: seq<Atom>, k: real)
    ensures WithZ(SortByZ(s), k) == WithZ(s, k)
  {
    if s != [] {
      var x, rest := s[0], s[1..];
      assert s == [x] + rest;
      var sorted := SortByZ(rest);
      assert SortByZ(s) == Insert(x, sorted);
      calc {
        WithZ(SortByZ(s), k);
        { InsertKeepsWithZ(x, sorted, k); }
        WithZ([x] + sorted, k);
        { WithZConcat([x], sorted, k); }
        WithZ([x], k) + WithZ(sorted, k);
        { SortByZStable(rest, k); }
        WithZ([x], k) + WithZ(rest, k);
        { WithZConcat([x], rest, k); }
        WithZ(s, k);
      }
    }
  }

  lemma {:induction false} InWithZ(s: seq<Atom>, k: real, x: Atom)
    ensures x in WithZ(s, k) <==> x in s && x.pos.z == k
  {
    if s != [] {
      InWithZ(s[1..], k, x);
      assert s == [s[0]] + s[1..];
    }
  }

  /** Two z-sorted sequences with the same atoms of each z, in the same order, are equal. */
  lemma {:induction false} SortedWithSameWithZ(t: seq<Atom>, u: seq<Atom>)
    requires SortedByZ(t) && SortedByZ(u)
    requires forall k :: WithZ(t, k) == WithZ(u, k)
    ensures t == u
    decreases |t| + |u|
  {
    if t == [] && u == [] {
      return;
    }
    if t == [] || u == [] {
      var x := if t == [] then u[0] else t[0];
      var wt, wu := WithZ(t, x.pos.z), WithZ(u, x.pos.z);
      assert false;
    }
    SameFirst(t, u);
    SameRest(t, u);
    SortedWithSameWithZ(t[1..], u[1..]);
    assert t == [t[0]] + t[1..] && u == [u[0]] + u[1..];
  }

  /** The first atom of a z-sorted sequence is the first among those of the least z. */
  lemma SameFirst(t: seq<Atom>, u: seq<Atom>)
    requires t != [] && u != []
    requires SortedByZ(t) && SortedByZ(u)
    requires forall k :: WithZ(t, k) == WithZ(u, k)
    ensures t[0] == u[0]
  {
    var a, b := t[0], u[0];
    InWithZ(t, a.pos.z, a);
    InWithZ(u, a.pos.z, a);
    InWithZ(u, b.pos.z, b);
    InWithZ(t, b.pos.z, b);
    assert a.pos.z == b.pos.z;
    assert WithZ(t, a.pos.z)[0] == a;
    assert WithZ(u, a.pos.z)[0] == b;
  }

  lemma SameRest(t: seq<Atom>, u: seq<Atom>)
    requires t != [] && u != [] && t[0] == u[0]
    requires forall k :: WithZ(t, k) == WithZ(u, k)
    ensures forall k :: WithZ(t[1..], k) == WithZ(u[1..], k)
  {
    var a := t[0];
    forall k ensures WithZ(t[1..], k) == WithZ(u[1..], k) {
      var p := if a.pos.z == k then [a] else [];
      assert WithZ(t, k) == p + WithZ(t[1..], k);
      assert WithZ(u, k) == p + WithZ(u[1..], k);
      assert WithZ(t[1..], k) == WithZ(t, k)[|p|..];
      assert WithZ(u[1..], k) == WithZ(u, k)[|p|..];
    }
  }

  /** Sorting by z is the only stable order: any z-sorted arrangement of `s` that keeps
      the input order among equal z values is `SortByZ(s)`. */
  lemma SortByZUnique(s: seq<Atom>, t: seq<Atom>)
    requires SortedByZ(t)
    requires forall k :: WithZ(t, k) == WithZ(s, k)
    ensures t == SortByZ(s)
  {
    forall k ensures WithZ(t, k) == WithZ(SortByZ(s), k) {
      SortByZStable(s, k);
    }
    SortedWithSameWithZ(t, SortByZ(s));
  }

  /** What `add_zeros_to_coordinates` returns: on an invalid range its argument as it
      came (unsorted `(label, coord)` pairs), otherwise the list of position lines. */
  datatype Selection = Unchanged(atoms: seq<Atom>) | Lines(lines: seq<string>)

  /** The line for one atom, with the flags when the atom is fixed. */
  function PositionLine(a: Atom, fixed: bool, fmt: LineFormat): string
  {
    if fixed then fmt(a.name, a.pos) + FixedSuffix else fmt(a.name, a.pos)
  }

  /** The result `add_zeros_to_coordinates` computes from the two numbers typed in,
      which it takes as 1-based line numbers of the sorted listing. */
  function AddZeros(coordinates: seq<Atom>, startInput: int, endInput: int, fmt: LineFormat): (r: Selection)
    ensures r.Lines? <==> 1 <= startInput <= endInput <= |coordinates|
    ensures r.Unchanged? ==> r.atoms == coordinates
    ensures r.Lines? ==> |r.lines| == |coordinates|
  {
    var sorted := SortByZ(coordinates);
    var startLine, endLine := startInput - 1, endInput - 1;
    if startLine < 0 || endLine >= |sorted| || startLine > endLine then Unchanged(coordinates)
    else
      Lines(seq(|sorted|, i requires 0 <= i < |sorted| =>
        PositionLine(sorted[i], startLine <= i <= endLine, fmt)))
  }

  /** The sorting, the range check and the loop that builds one line per sorted atom;
      the listing printed before the prompt and the prompts themselves are left out. */
  method AddZerosToCoordinates(coordinates: seq<Atom>, startInput: int, endInput: int, fmt: LineFormat)
    returns (r: Selection)
    ensures r == AddZeros(coordinates, startInput, endInput, fmt)
  {
    var sorted := SortByZ(coordinates);
    var startLine := startInput - 1;
    var endLine := endInput - 1;
    if startLine < 0 || endLine >= |sorted| || startLine > endLine {
      return Unchanged(coordinates);
    }
    var modified: seq<string> := [];
    var i := 0;
    while i < |sorted|
      invariant 0 <= i <= |sorted|
      invariant |modified| == i
      invariant forall k :: 0 <= k < i ==> modified[k] == PositionLine(sorted[k], startLine <= k <= endLine, fmt)
    {
      var a := sorted[i];
      var line;
      if startLine <= i <= endLine {
        line := fmt(a.name, a.pos) + FixedSuffix;
      } else {
        line := fmt(a.name, a.pos);
      }
      modified := modified + [line];
      i := i + 1;
    }
    return Lines(modified);
  }

  /** On an accepted range, line `i` is the line of the `i`-th atom in z order, and it
      carries the flags exactly when `i` lies in the 0-based range. */
  lemma AddZerosLines(coordinates: seq<Atom>, startInput: int, endInput: int, fmt: LineFormat, i: int)
    requires 1 <= startInput <= endInput <= |coordinates|
    requires 0 <= i < |coordinates|
    ensures var lines, a := AddZeros(coordinates, startInput, endInput, fmt).lines, SortByZ(coordinates)[i];
      && (lines[i] == fmt(a.name, a.pos) + FixedSuffix <==> startInput - 1 <= i <= endInput - 1)
      && (lines[i] == fmt(a.name, a.pos) <==> !(startInput - 1 <= i <= endInput - 1))
  {
    AddZerosLine(coordinates, startInput, endInput, fmt, i);
    PositionLineFlags(SortByZ(coordinates)[i], startInput - 1 <= i <= endInput - 1, fmt);
  }

  lemma AddZerosLine(coordinates: seq<Atom>, startInput: int, endInput: int, fmt: LineFormat, i: int)
    requires 1 <= startInput <= endInput <= |coordinates|
    requires 0 <= i < |coordinates|
    ensures AddZeros(coordinates, startInput, endInput, fmt).lines[i]
         == PositionLine(SortByZ(coordinates)[i], startInput - 1 <= i <= endInput - 1, fmt)
  {
  }

  lemma PositionLineFlags(a: Atom, fixed: bool, fmt: LineFormat)
    ensures PositionLine(a, fixed, fmt) == fmt(a.name, a.pos) + FixedSuffix <==> fixed
    ensures PositionLine(a, fixed, fmt) == fmt(a.name, a.pos) <==> !fixed
  {
    var base := fmt(a.name, a.pos);
    assert |FixedSuffix| == 6;
    assert |base + FixedSuffix| != |base|;
  }

  predicate EndsWith(s: string, suffix: string) {
    |suffix| <= |s| && s[|s| - |suffix|..] == suffix
  }

  /** The number of lines that end in the flags. */
  function CountFixed(lines: seq<string>): nat
  {
    if lines == [] then 0
    else CountFixed(lines[..|lines| - 1]) + (if EndsWith(lines[|lines| - 1], FixedSuffix) then 1 else 0)
  }

  lemma {:induction false} CountFixedInterval(lines: seq<string>, lo: int, hi: int)
    requires forall i :: 0 <= i < |lines| ==> (EndsWith(lines[i], FixedSuffix) <==> lo <= i <= hi)
    requires 0 <= lo <= hi + 1
    ensures CountFixed(lines) == if |lines| <= lo then 0 else if |lines| <= hi then |lines| - lo else hi + 1 - lo
  {
    if lines != [] {
      var init := lines[..|lines| - 1];
      assert forall i :: 0 <= i < |init| ==> init[i] == lines[i];
      CountFixedInterval(init, lo, hi);
    }
  }

  /** When no formatted line ends in the flags by itself (the source's lines end in a
      digit), the lines that end in `" 0 0 0"` are exactly the selected ones, and there
      are `end - start + 1` of them. */
  lemma MarkedLineCount(coordinates: seq<Atom>, startInput: int, endInput: int, fmt: LineFormat)
    requires 1 <= startInput <= endInput <= |coordinates|
    requires forall name, p :: !EndsWith(fmt(name, p), FixedSuffix)
    ensures var lines := AddZeros(coordinates, startInput, endInput, fmt).lines;
      && (forall i :: 0 <= i < |lines| ==> (EndsWith(lines[i], FixedSuffix) <==> startInput - 1 <= i <= endInput - 1))
      && CountFixed(lines) == endInput - startInput + 1
  {
    var lines := AddZeros(coordinates, startInput, endInput, fmt).lines;
    var sorted := SortByZ(coordinates);
    forall i | 0 <= i < |lines|
      ensures EndsWith(lines[i], FixedSuffix) <==> startInput - 1 <= i <= endInput - 1
    {
      var base := fmt(sorted[i].name, sorted[i].pos);
      if startInput - 1 <= i <= endInput - 1 {
        assert lines[i] == base + FixedSuffix;
        assert lines[i][|lines[i]| - |FixedSuffix|..] == FixedSuffix;
      } else {
        assert lines[i] == base;
      }
    }
    CountFixedInterval(lines, startInput - 1, endInput - 1);
  }

  /** The first scenario: Si at z = 0.1 and O at z = 0.05, range 1..1. The O line
      comes first and is the only one fixed. */
  lemma TwoAtomScenario(fmt: LineFormat)
    ensures var si, o := Atom("Si", Vec3(0.0, 0.0, 0.1)), Atom("O", Vec3(0.0, 0.0, 0.05));
      AddZeros([si, o], 1, 1, fmt) == Lines([fmt("O", o.pos) + FixedSuffix, fmt("Si", si.pos)])
  {
    var si, o := Atom("Si", Vec3(0.0, 0.0, 0.1)), Atom("O", Vec3(0.0, 0.0, 0.05));
    SortTwo(si, o);
    AddZerosLine([si, o], 1, 1, fmt, 0);
    AddZerosLine([si, o], 1, 1, fmt, 1);
  }

  lemma SortTwo(a: Atom, b: Atom)
    requires b.pos.z < a.pos.z
    ensures SortByZ([a, b]) == [b, a]
  {
    assert [a, b][1..] == [b];
    assert [b][1..] == [];
    assert SortByZ([b]) == Insert(b, []);
    assert [a, b][0] == a;
    assert Insert(a, [b]) == [b] + Insert(a, []);
  }

  /** The second scenario: the range 2..1 is rejected and the input comes back unsorted. */
  lemma TwoAtomScenarioRejected(fmt: LineFormat)
    ensures var si, o := Atom("Si", Vec3(0.0, 0.0, 0.1)), Atom("O", Vec3(0.0, 0.0, 0.05));
      AddZeros([si, o], 2, 1, fmt) == Unchanged([si, o])
  {
  }
}
