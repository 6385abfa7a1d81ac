# QE.py in Dafny

`QE.py` turns a crystal structure read from a CIF file into a Quantum ESPRESSO
`relax` input file. The user picks a range of atoms, numbered in order of their
fractional z coordinate, and those atoms are fixed in all three directions: their
position lines end in `0 0 0`. This project models the script's logic and proves
properties about it:

- `text.dfy` (module `Text`): Python's `"\n".join`, `split("\n")` and `str(n)` for a
  natural number, which the rest of the model is written in, with their round trips.
- `clean_path.dfy` (module `CleanPath`): `get_clean_path`, the three-stage
  `strip()` / `strip('"')` / `strip("'")` applied to every path the user types.
- `coordinates.dfy` (module `Coordinates`): `add_zeros_to_coordinates`. It holds
  the stable sort by z as a function, the 1-based range check, and the loop that
  builds one line per sorted atom, as a method with loop invariants proved equal
  to a specification function.
- `qe_input.dfy` (module `QeInput`): the pure part of `main`. It computes `nat`
  and `ntyp`, builds the ATOMIC_SPECIES and CELL_PARAMETERS lines, joins the
  position lines, and fills the input-file template. It ends in `Convert`, which
  goes from the parsed structure and the two typed numbers to the file's text or
  to the error that stops the script.

The template is kept line by line, trailing blanks included. Its line ends are
LF, as Python reads them from the source. The number formatting (`:.10f`, `:.6f`,
`:.3f`) and the atomic-mass lookup are function parameters. The structure parser
is replaced by a `Structure` value: the lattice rows, the sites in the parser's
order, and the element symbols of the composition.

Three points where the script does something easy to misread, and which the
model follows as written:

- ATOMIC_SPECIES lists `structure.composition.elements` (QE.py:45-46), not the
  distinct site labels, and `ntyp` counts those elements.
- On a rejected range the function does not fall back to unflagged lines. It
  returns its argument, the unsorted `(label, coord)` pairs (QE.py:19). Joining
  them at QE.py:120 fails for a non-empty structure. The model reports this as
  `Err(PositionsNotText)`; an empty structure joins to the empty text.
- The sort is Python's stable `sorted` with non-decreasing z keys (QE.py:9).

## Model

| member | source | states |
|---|---|---|
| CleanPath.Strip | QE.py:5 | The result is a slice of the input with only characters of the given set cut from its two ends, and neither end could be cut further. |
| CleanPath.StripUnique | QE.py:5 | Those two properties determine the strip: any such slice is the result. |
| CleanPath.GetCleanPath | QE.py:3-5 | The cleaned path is a contiguous slice of the input, obtained by cutting only whitespace, `"` and `'` off its ends, and it neither starts nor ends with `'`. |
| CleanPath.GetCleanPathKeepsCleanPath | QE.py:5 | A path with no whitespace or quote at either end comes back unchanged. |
| CleanPath.CleanQuotedPath | QE.py:3-5 | `  "C:/data/Si.cif" ` is cleaned to `C:/data/Si.cif`. |
| CleanPath.BlanksInsideQuotesSurvive | QE.py:5 | The stages run in order: `" Si.cif "` with quotes becomes ` Si.cif `, and the blanks inside the quotes survive. |
| Coordinates.SortByZ | QE.py:9 | The sorted sites are a permutation of the input (same length, same multiset) with non-decreasing z. |
| Coordinates.SortByZStable | QE.py:9 | Stability: for every z value, the sites with that z keep their input order. |
| Coordinates.SortByZUnique | QE.py:9 | Any z-sorted arrangement that keeps the input order among equal z is the sort's result, so the order of the lines is fully determined. |
| Coordinates.AddZeros | QE.py:13-19 | Lines are produced iff `1 <= start <= end <= n` for the typed 1-based numbers. Otherwise the argument comes back exactly as given, unsorted. An accepted range gives exactly `n` lines. |
| Coordinates.AddZerosToCoordinates | QE.py:9-30 | The method (sort, range check, and the loop appending one line per sorted atom) returns exactly what `AddZeros` specifies. |
| Coordinates.AddZerosLines | QE.py:22-28 | On an accepted range, line `i` is the formatted `i`-th atom in z order plus ` 0 0 0` iff `start-1 <= i <= end-1`, and that line without the flags otherwise. |
| Coordinates.MarkedLineCount | QE.py:24-27 | When no formatted line ends in the flags by itself, the lines ending in ` 0 0 0` are exactly the selected ones, and there are `end - start + 1` of them. |
| Coordinates.TwoAtomScenario | QE.py:9-30 | Si at z = 0.1 and O at z = 0.05 with range 1..1 give the flagged O line first, then the unflagged Si line. |
| Coordinates.TwoAtomScenarioRejected | QE.py:17-19 | The range 2..1 is rejected and the two sites come back in input order. |
| QeInput.SpeciesLines | QE.py:112-114 | The ATOMIC_SPECIES lines exist iff every element has a mass. There is then one line `sym mass sym.UPF` per element, in order. Otherwise the error names the first element without a mass. |
| QeInput.ConvertOutcome | QE.py:108-129 | The conversion succeeds iff every element has a mass and the structure is empty or the range is accepted. An unknown element is reported first; after it, a rejected range over a non-empty structure makes the position join fail. |
| QeInput.RenderedLines | QE.py:69-106 | Read back line by line, the filled template is the namelists followed by the ATOMIC_SPECIES, CELL_PARAMETERS and ATOMIC_POSITIONS headers, each followed by its block's lines, and then `K_POINTS {gamma}`. |
| QeInput.ConvertedFile | QE.py:108-129 | When the element symbols, the sites' formatted lines and the formatted numbers hold no newline, the lines of a successful conversion are the template's lines, with these blocks in place: one species line per element, one cell line per lattice row, and exactly `nat` position lines in z order, just before `K_POINTS {gamma}`. |
| QeInput.CountsReadBack | QE.py:80-81 | In the file, the `nat=` and `ntyp=` lines carry the two counts in decimal, and those digits read back as the counts. |
| Text.JoinSplit | QE.py:120 | Splitting a text at its newlines and joining the pieces with `"\n"` gives the text back. |
| Text.SplitJoin | QE.py:120 | Joining newline-free lines with `"\n"` and splitting the result gives the lines back. |
| Text.ParseNatToString | QE.py:123-125 | The decimal digits that `str` makes of a count read back as that count. |

## Left out

- Prompts and console output are left out (QE.py:8, 10-11, 13-14, 18, 34, 41, 132, 137, 139). This includes the numbered listing shown before the prompts. The two range numbers and the paths are parameters.
- `int(...)` rejecting text that is not a number (QE.py:13-14) is not modelled: the range numbers arrive as integers.
- Reading the CIF file with pymatgen and its error path (QE.py:38-42, 45-54) come from a foreign library. Their results are the `Structure` parameter.
- `Element(element).atomic_mass` (QE.py:113) is a library lookup. It is a parameter from symbol to an optional mass, and a symbol without a mass becomes `Err(UnknownElement)` rather than a Python exception.
- The fixed-decimal float formatting (QE.py:25, 27, 113, 117) is float numerics. It is modelled by the uninterpreted parameters of `Formats`. Coordinates are `real`, with no IEEE rounding.
- QeInput.PositionLines: the failure of `"\n".join` on the pairs returned for a rejected range (QE.py:120) is an uncaught `TypeError` in Python. It is modelled as the value `Err(PositionsNotText)`, not as an exception that ends the program.
- Writing the file and its error handling (QE.py:134-139) are I/O.
- `coordinates_str` (QE.py:60-63) is computed and never used, so it is not modelled.
- The CRLF line ends of the source file are normalised to LF, as Python does for string literals.
