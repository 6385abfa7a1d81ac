/** The pure part of `main`: the atom and species counts, the ATOMIC_SPECIES,
    CELL_PARAMETERS and ATOMIC_POSITIONS blocks, and the Quantum ESPRESSO input
    template they are spliced into. */
module QeInput {
  import opened Text
  import opened Coordinates

  datatype Option<T> = None | Some(value: T)

  /** What the structure parser supplies: the lattice rows (`lattice.matrix`), the
      sites in the parser's order (`species_string` with `frac_coords`), and the
      element symbols of the composition (`composition.elements`). */
  datatype Structure = Structure(lattice: seq<Vec3>, sites: seq<Atom>, elements: seq<string>)

  /** The fixed-decimal formatting, left uninterpreted: a position line without flags
      (`:.10f`), an atomic mass (`:.3f`) and a lattice component (`:.6f`). */
  datatype Formats = Formats(position: LineFormat, mass: real -> string, cell: real -> string)

  datatype ConvertError =
    | UnknownElement(symbol: string)  // `Element(symbol)` rejects the symbol
    | PositionsNotText                // `"\n".join` is given `(label, coord)` pairs

  datatype Result<T> = Ok(value: T) | Err(error: ConvertError)

  /** One ATOMIC_SPECIES line: `f"{element} {mass:.3f} {element}.UPF"`. */
  function SpeciesLine(symbol: string, mass: string): string {
    symbol + " " + mass + " " + symbol + ".UPF"
  }

  predicate AllKnown(elements: seq<string>, atomicMass: string -> Option<real>) {
    forall i :: 0 <= i < |elements| ==> atomicMass(elements[i]).Some?
  }

  /** The position of the first symbol the mass lookup rejects. */
  ghost function FirstUnknown(elements: seq<string>, atomicMass: string -> Option<real>): (j: nat)
    requires !AllKnown(elements, atomicMass)
    ensures j < |elements| && atomicMass(elements[j]).None?
    ensures AllKnown(elements[..j], atomicMass)
  {
    if atomicMass(elements[0]).None? then 0
    else
      assert !AllKnown(elements[1..], atomicMass) by {
        var i :| 0 <= i < |elements| && atomicMass(elements[i]).None?;
        assert elements[1..][i - 1] == elements[i];
      }
      var j := FirstUnknown(elements[1..], atomicMass);
      assert AllKnown(elements[..j + 1], atomicMass) by {
        var known, rest := elements[..j + 1], elements[1..][..j];
        forall i | 0 <= i < |known| ensures atomicMass(known[i]).Some? {
          if i > 0 { assert known[i] == rest[i - 1]; }
        }
      }
      j + 1
  }

  /** The list comprehension at the ATOMIC_SPECIES block: one line per element, in the
      composition's order; the first symbol without a mass stops the conversion. */
  function SpeciesLines(elements: seq<string>, atomicMass: string -> Option<real>, massFormat: real -> string)
    : (r: Result<seq<string>>)
    ensures r.Ok? <==> AllKnown(elements, atomicMass)
    ensures r.Ok? ==> |r.value| == |elements|
    ensures r.Ok? ==> forall i :: 0 <= i < |elements| ==>
      r.value[i] == SpeciesLine(elements[i], massFormat(atomicMass(elements[i]).value))
    ensures r.Err? ==> r.error == UnknownElement(elements[FirstUnknown(elements, atomicMass)])
  {
    if elements == [] then Ok([])
    else
      match atomicMass(elements[0])
      case None => Err(UnknownElement(elements[0]))
      case Some(m) =>
        var rest := SpeciesLines(elements[1..], atomicMass, massFormat);
        assert AllKnown(elements, atomicMass) <==> AllKnown(elements[1..], atomicMass) by {
          if AllKnown(elements[1..], atomicMass) {
            forall i | 1 <= i < |elements| ensures atomicMass(elements[i]).Some? {
              assert elements[i] == elements[1..][i - 1];
            }
          }
        }
        match rest
        case Err(e) => Err(e)
        case Ok(lines) => Ok([SpeciesLine(elements[0], massFormat(m))] + lines)
  }

  /** One CELL_PARAMETERS line: `"{:.6f} {:.6f} {:.6f}".format(*row)`. */
  function CellLine(row: Vec3, cellFormat: real -> string): string {
    cellFormat(row.x) + " " + cellFormat(row.y) + " " + cellFormat(row.z)
  }

  function CellLines(lattice: seq<Vec3>, cellFormat: real -> string): (r: seq<string>)
    ensures |r| == |lattice|
  {
    seq(|lattice|, i requires 0 <= i < |lattice| => CellLine(lattice[i], cellFormat))
  }

  /** What `"\n".join(modified_coordinates)` can join: the lines of an accepted range,
      or the argument handed back on a rejected one, which joins only when it is empty. */
  function PositionLines(modified: Selection): Result<seq<string>> {
    match modified
    case Lines(lines) => Ok(lines)
    case Unchanged(atoms) => if atoms == [] then Ok([]) else Err(PositionsNotText)
  }

  /** The lines of the template from `&CONTROL` to the end of `&CELL`, with the two
      counts filled in; the trailing blanks are those of the template. */
  function ControlBlock(): seq<string> {
    [ "&CONTROL  ",
      "  title='ZT',   ",
      "  calculation='relax',   ",
      "  pseudo_dir='./',   ",
      "  outdir='./tmp',   ",
      "  verbosity='high',  ",
      "  forc_conv_thr=1.0d-4,   ",
      "  nstep=100,  ",
      "/  " ]
  }

  function SystemBlock(atomCount: nat, typeCount: nat): seq<string> {
    [ "&SYSTEM  ",
      "  ibrav= 0,   ",
      "  nat= " + NatToString(atomCount) + ",   ",
      "  ntyp= " + NatToString(typeCount) + ",   ",
      "  occupations = 'smearing',   ",
      "  smearing = 'gauss',   ",
      "  degauss = 1.0d-2,  ",
      "  ecutwfc = 30,   ",
      "  ecutrho = 360,  ",
      "  vdw_corr = 'DFT-D3',",
      "  dftd3_version = 6 ",
      "/  " ]
  }

  function ElectronsBlock(): seq<string> {
    [ "&ELECTRONS  ",
      "  conv_thr = 1.0d-6  ",
      "  mixing_beta = 0.5d0  ",
      "/" ]
  }

  function IonsBlock(): seq<string> {
    [ "&IONS",
      "/" ]
  }

  function CellBlock(): seq<string> {
    [ "&CELL",
      "  press_conv_thr=0.1",
      "/  " ]
  }

  function NamelistLines(atomCount: nat, typeCount: nat): seq<string> {
    ControlBlock() + SystemBlock(atomCount, typeCount) + ElectronsBlock() + IonsBlock() + CellBlock()
  }

  const SpeciesHeader := "ATOMIC_SPECIES  "
  const CellHeader := "CELL_PARAMETERS (angstrom)  "
  const PositionsHeader := "ATOMIC_POSITIONS (crystal)  "
  const KPointsLine := "K_POINTS {gamma} "

  /** A section header and the placeholder line after it, filled with `text`. */
  function Placeholder(header: string, text: string): seq<string> {
    [header, text + "  "]
  }

  /** The template, line by line, after `str.format` has put the three blocks in place
      of their placeholders; the last, empty, line follows the template's final newline. */
  function TemplateLines(atomCount: nat, typeCount: nat, atomicSpecies: string, cellParameters: string,
                         atomicPositions: string): seq<string>
  {
    NamelistLines(atomCount, typeCount)
    + (Placeholder(SpeciesHeader, atomicSpecies)
    + (Placeholder(CellHeader, cellParameters)
    + (Placeholder(PositionsHeader, atomicPositions)
    + [KPointsLine, ""])))
  }

  /** `qe_input_template.format(nat=..., ntyp=..., ...)`. */
  function QeInputText(atomCount: nat, typeCount: nat, atomicSpecies: string, cellParameters: string,
                       atomicPositions: string): string
  {
    Join(TemplateLines(atomCount, typeCount, atomicSpecies, cellParameters, atomicPositions), "\n")
  }

  /** A section header and the lines of its block; the last one carries the two blanks
      of the placeholder line (an empty block leaves just those blanks). */
  function HeadedBlock(header: string, block: seq<string>): seq<string> {
    [header] + AppendLast(block, "  ")
  }

  /** The lines of the written file, block after block in the template's order. */
  function InputFileLines(atomCount: nat, typeCount: nat, species: seq<string>, cell: seq<string>,
                          positions: seq<string>): seq<string>
  {
    NamelistLines(atomCount, typeCount)
    + (HeadedBlock(SpeciesHeader, species)
    + (HeadedBlock(CellHeader, cell)
    + (HeadedBlock(PositionsHeader, positions)
    + [KPointsLine, ""])))
  }

  /** The whole of `main` between reading the structure and writing the file. */
  function Convert(st: Structure, startInput: int, endInput: int, formats: Formats,
                   atomicMass: string -> Option<real>): Result<string>
  {
    var modified := AddZeros(st.sites, startInput, endInput, formats.position);
    var atomCount, typeCount := |st.sites|, |st.elements|;
    match SpeciesLines(st.elements, atomicMass, formats.mass)
    case Err(e) => Err(e)
    case Ok(species) =>
      var cell := CellLines(st.lattice, formats.cell);
      match PositionLines(modified)
      case Err(e) => Err(e)
      case Ok(positions) =>
        Ok(QeInputText(atomCount, typeCount, Join(species, "\n"), Join(cell, "\n"), Join(positions, "\n")))
  }

  /** When the conversion fails: a symbol without a mass comes first (the species block
      is built before the positions are joined), then a rejected range over a non-empty
      structure, whose unsorted pairs cannot be joined as text. */
  lemma ConvertOutcome(st: Structure, startInput: int, endInput: int, formats: Formats,
                       atomicMass: string -> Option<real>)
    ensures var r := Convert(st, startInput, endInput, formats, atomicMass);
      && (r.Ok? <==> AllKnown(st.elements, atomicMass)
                     && (st.sites == [] || 1 <= startInput <= endInput <= |st.sites|))
      && (!AllKnown(st.elements, atomicMass) ==>
            r == Err(UnknownElement(st.elements[FirstUnknown(st.elements, atomicMass)])))
      && (AllKnown(st.elements, atomicMass) && st.sites != [] && !(1 <= startInput <= endInput <= |st.sites|) ==>
            r == Err(PositionsNotText))
  {
  }

  // Checking a literal line for newlines is costly for the solver, so the namelist
  // lines are checked a few at a time.

  lemma ControlLinesOneLine()
    ensures forall i :: 0 <= i < 5 ==> NoNewline(ControlBlock()[i])
  {
  }

  lemma ControlBlockOneLine()
    ensures AllNoNewline(ControlBlock())
  {
    ControlLinesOneLine();
  }

  lemma SystemLinesOneLine(atomCount: nat, typeCount: nat)
    ensures forall i :: 0 <= i < 4 ==> NoNewline(SystemBlock(atomCount, typeCount)[i])
  {
    NoNewlineConcat("  nat= " + NatToString(atomCount), ",   ");
    NoNewlineConcat("  nat= ", NatToString(atomCount));
    NoNewlineConcat("  ntyp= " + NatToString(typeCount), ",   ");
    NoNewlineConcat("  ntyp= ", NatToString(typeCount));
  }

  lemma SystemSettingsOneLine(atomCount: nat, typeCount: nat)
    ensures forall i :: 4 <= i < 8 ==> NoNewline(SystemBlock(atomCount, typeCount)[i])
  {
  }

  lemma SystemBlockOneLine(atomCount: nat, typeCount: nat)
    ensures AllNoNewline(SystemBlock(atomCount, typeCount))
  {
    SystemLinesOneLine(atomCount, typeCount);
    SystemSettingsOneLine(atomCount, typeCount);
  }

  lemma ElectronsBlockOneLine()
    ensures AllNoNewline(ElectronsBlock())
  {
  }

  lemma IonsAndCellOneLine()
    ensures AllNoNewline(IonsBlock()) && AllNoNewline(CellBlock())
  {
  }

  lemma NamelistLinesOneLine(atomCount: nat, typeCount: nat)
    ensures AllNoNewline(NamelistLines(atomCount, typeCount))
  {
    ControlBlockOneLine();
    SystemBlockOneLine(atomCount, typeCount);
    ElectronsBlockOneLine();
    IonsAndCellOneLine();
    AllNoNewlineConcat(ControlBlock(), SystemBlock(atomCount, typeCount));
    AllNoNewlineConcat(ControlBlock() + SystemBlock(atomCount, typeCount), ElectronsBlock());
    AllNoNewlineConcat(ControlBlock() + SystemBlock(atomCount, typeCount) + ElectronsBlock(), IonsBlock());
    AllNoNewlineConcat(ControlBlock() + SystemBlock(atomCount, typeCount) + ElectronsBlock() + IonsBlock(), CellBlock());
  }

  /** Filling a placeholder with a joined block gives the text of the block's lines. */
  lemma JoinPlaceholder(header: string, block: seq<string>, rest: seq<string>)
    requires |rest| >= 1
    ensures Join(Placeholder(header, Join(block, "\n")) + rest, "\n") == Join(HeadedBlock(header, block) + rest, "\n")
  {
    JoinFilled(header, block, "  ", rest);
  }

  lemma JoinSameTail(a: seq<string>, x: seq<string>, y: seq<string>)
    requires |a| >= 1 && |x| >= 1 && |y| >= 1
    requires Join(x, "\n") == Join(y, "\n")
    ensures Join(a + x, "\n") == Join(a + y, "\n")
  {
    JoinConcat(a, x);
    JoinConcat(a, y);
  }

  /** The filled template and the file's lines are the same text, for any namelist
      part, headers and closing lines. */
  lemma JoinTemplate(head: seq<string>, h1: string, h2: string, h3: string, last: seq<string>,
                     species: seq<string>, cell: seq<string>, positions: seq<string>)
    requires |head| >= 1 && |last| >= 1
    ensures Join(head
              + (Placeholder(h1, Join(species, "\n"))
              + (Placeholder(h2, Join(cell, "\n"))
              + (Placeholder(h3, Join(positions, "\n"))
              + last))), "\n")
         == Join(head + (HeadedBlock(h1, species) + (HeadedBlock(h2, cell) + (HeadedBlock(h3, positions) + last))), "\n")
  {
    var b1, b2, b3 := HeadedBlock(h1, species), HeadedBlock(h2, cell), HeadedBlock(h3, positions);
    var p1, p2, p3 := Placeholder(h1, Join(species, "\n")), Placeholder(h2, Join(cell, "\n")),
                      Placeholder(h3, Join(positions, "\n"));
    JoinPlaceholder(h3, positions, last);
    JoinPlaceholder(h2, cell, p3 + last);
    JoinSameTail(b2, p3 + last, b3 + last);
    JoinPlaceholder(h1, species, p2 + (p3 + last));
    JoinSameTail(b1, p2 + (p3 + last), b2 + (b3 + last));
    JoinSameTail(head, p1 + (p2 + (p3 + last)), b1 + (b2 + (b3 + last)));
  }

  lemma HeadedBlockOneLine(header: string, block: seq<string>)
    requires NoNewline(header) && AllNoNewline(block)
    ensures AllNoNewline(HeadedBlock(header, block))
  {
    assert NoNewline("  ");
    AppendLastNoNewline(block, "  ");
    AllNoNewlineConcat([header], AppendLast(block, "  "));
  }

  /** The template's lines after the namelists, for any newline-free headers. */
  lemma TailOneLine(h1: string, h2: string, h3: string, last: seq<string>,
                    species: seq<string>, cell: seq<string>, positions: seq<string>)
    requires NoNewline(h1) && NoNewline(h2) && NoNewline(h3) && AllNoNewline(last)
    requires AllNoNewline(species) && AllNoNewline(cell) && AllNoNewline(positions)
    ensures AllNoNewline(HeadedBlock(h1, species) + (HeadedBlock(h2, cell) + (HeadedBlock(h3, positions) + last)))
  {
    HeadedBlockOneLine(h1, species);
    HeadedBlockOneLine(h2, cell);
    HeadedBlockOneLine(h3, positions);
    AllNoNewlineConcat(HeadedBlock(h3, positions), last);
    AllNoNewlineConcat(HeadedBlock(h2, cell), HeadedBlock(h3, positions) + last);
    AllNoNewlineConcat(HeadedBlock(h1, species), HeadedBlock(h2, cell) + (HeadedBlock(h3, positions) + last));
  }

  /** Reading the rendered text back line by line gives the template's lines with the
      three blocks expanded in place: the ATOMIC_SPECIES lines, then the CELL_PARAMETERS
      lines, then the position lines just before `K_POINTS {gamma}`. */
  lemma RenderedLines(atomCount: nat, typeCount: nat, species: seq<string>,
                      cell: seq<string>, positions: seq<string>)
    requires AllNoNewline(species) && AllNoNewline(cell) && AllNoNewline(positions)
    ensures Split(QeInputText(atomCount, typeCount, Join(species, "\n"), Join(cell, "\n"), Join(positions, "\n")))
         == InputFileLines(atomCount, typeCount, species, cell, positions)
  {
    NamelistLinesOneLine(atomCount, typeCount);
    HeadersOneLine();
    SplitTemplate(NamelistLines(atomCount, typeCount), SpeciesHeader, CellHeader, PositionsHeader,
                  [KPointsLine, ""], species, cell, positions);
  }

  lemma HeadersOneLine()
    ensures NoNewline(SpeciesHeader) && NoNewline(CellHeader) && NoNewline(PositionsHeader)
    ensures AllNoNewline([KPointsLine, ""])
  {
    BlockHeadersOneLine();
    KPointsOneLine();
  }

  lemma BlockHeadersOneLine()
    ensures NoNewline(SpeciesHeader) && NoNewline(CellHeader) && NoNewline(PositionsHeader)
  {
  }

  lemma KPointsOneLine()
    ensures AllNoNewline([KPointsLine, ""])
  {
  }

  /** `RenderedLines` for any newline-free namelist part, headers and closing lines. */
  lemma SplitTemplate(head: seq<string>, h1: string, h2: string, h3: string, last: seq<string>,
                      species: seq<string>, cell: seq<string>, positions: seq<string>)
    requires |head| >= 1 && |last| >= 1
    requires AllNoNewline(head) && AllNoNewline(last)
    requires NoNewline(h1) && NoNewline(h2) && NoNewline(h3)
    requires AllNoNewline(species) && AllNoNewline(cell) && AllNoNewline(positions)
    ensures Split(Join(head
              + (Placeholder(h1, Join(species, "\n"))
              + (Placeholder(h2, Join(cell, "\n"))
              + (Placeholder(h3, Join(positions, "\n"))
              + last))), "\n"))
         == head + (HeadedBlock(h1, species) + (HeadedBlock(h2, cell) + (HeadedBlock(h3, positions) + last)))
  {
    var tail := HeadedBlock(h1, species) + (HeadedBlock(h2, cell) + (HeadedBlock(h3, positions) + last));
    JoinTemplate(head, h1, h2, h3, last, species, cell, positions);
    TailOneLine(h1, h2, h3, last, species, cell, positions);
    AllNoNewlineConcat(head, tail);
    SplitJoin(head + tail);
  }

  /** The number formats never produce a newline. */
  ghost predicate OneLineFormats(formats: Formats) {
    && (forall x :: NoNewline(formats.mass(x)))
    && (forall x :: NoNewline(formats.cell(x)))
  }

  /** The rendered file, read line by line: `nat` is the number of sites and `ntyp`
      the number of elements; there is one ATOMIC_SPECIES line `sym mass sym.UPF` per
      element, one CELL_PARAMETERS line per lattice row, and the position lines of
      `add_zeros_to_coordinates` in z order (none for an empty structure). */
  lemma ConvertedFile(st: Structure, startInput: int, endInput: int, formats: Formats,
                      atomicMass: string -> Option<real>)
    requires AllKnown(st.elements, atomicMass)
    requires st.sites == [] || 1 <= startInput <= endInput <= |st.sites|
    requires OneLineFormats(formats)
    requires forall i :: 0 <= i < |st.elements| ==> NoNewline(st.elements[i])
    requires forall i :: 0 <= i < |st.sites| ==> NoNewline(formats.position(st.sites[i].name, st.sites[i].pos))
    ensures var r := Convert(st, startInput, endInput, formats, atomicMass);
      var species := SpeciesLines(st.elements, atomicMass, formats.mass).value;
      var positions := if st.sites == [] then [] else AddZeros(st.sites, startInput, endInput, formats.position).lines;
      && r.Ok?
      && Split(r.value) == InputFileLines(|st.sites|, |st.elements|, species, CellLines(st.lattice, formats.cell), positions)
      && |positions| == |st.sites|
  {
    var species := SpeciesLines(st.elements, atomicMass, formats.mass).value;
    var cell := CellLines(st.lattice, formats.cell);
    var positions := if st.sites == [] then [] else AddZeros(st.sites, startInput, endInput, formats.position).lines;
    ConvertText(st, startInput, endInput, formats, atomicMass);
    SpeciesLinesOneLine(st.elements, atomicMass, formats.mass);
    CellLinesOneLine(st.lattice, formats.cell);
    if st.sites != [] {
      PositionLinesOneLine(st.sites, startInput, endInput, formats.position);
    }
    RenderedLines(|st.sites|, |st.elements|, species, cell, positions);
  }

  /** An accepted conversion is the template filled with the three joined blocks. */
  lemma ConvertText(st: Structure, startInput: int, endInput: int, formats: Formats,
                    atomicMass: string -> Option<real>)
    requires AllKnown(st.elements, atomicMass)
    requires st.sites == [] || 1 <= startInput <= endInput <= |st.sites|
    ensures var species := SpeciesLines(st.elements, atomicMass, formats.mass).value;
      var positions := if st.sites == [] then [] else AddZeros(st.sites, startInput, endInput, formats.position).lines;
      Convert(st, startInput, endInput, formats, atomicMass)
        == Ok(QeInputText(|st.sites|, |st.elements|, Join(species, "\n"),
                          Join(CellLines(st.lattice, formats.cell), "\n"), Join(positions, "\n")))
  {
  }

  lemma FormatOneLine(format: real -> string, x: real)
    requires forall y :: NoNewline(format(y))
    ensures NoNewline(format(x))
  {
  }

  lemma SpeciesLinesOneLine(elements: seq<string>, atomicMass: string -> Option<real>, massFormat: real -> string)
    requires AllKnown(elements, atomicMass)
    requires forall x :: NoNewline(massFormat(x))
    requires forall i :: 0 <= i < |elements| ==> NoNewline(elements[i])
    ensures AllNoNewline(SpeciesLines(elements, atomicMass, massFormat).value)
  {
    var species := SpeciesLines(elements, atomicMass, massFormat).value;
    forall i | 0 <= i < |species| ensures NoNewline(species[i]) {
      var e := elements[i];
      FormatOneLine(massFormat, atomicMass(e).value);
      SpeciesLineOneLine(e, massFormat(atomicMass(e).value));
    }
  }

  lemma SpeciesLineOneLine(symbol: string, mass: string)
    requires NoNewline(symbol) && NoNewline(mass)
    ensures NoNewline(SpeciesLine(symbol, mass))
  {
    assert NoNewline(" ") && NoNewline(".UPF");
    NoNewlineConcat(symbol, " ");
    NoNewlineConcat(symbol + " ", mass);
    NoNewlineConcat(symbol + " " + mass, " ");
    NoNewlineConcat(symbol + " " + mass + " ", symbol);
    NoNewlineConcat(symbol + " " + mass + " " + symbol, ".UPF");
  }

  lemma CellLinesOneLine(lattice: seq<Vec3>, cellFormat: real -> string)
    requires forall x :: NoNewline(cellFormat(x))
    ensures AllNoNewline(CellLines(lattice, cellFormat))
  {
    var cell := CellLines(lattice, cellFormat);
    forall i | 0 <= i < |cell| ensures NoNewline(cell[i]) {
      var row := lattice[i];
      var x, y, z := cellFormat(row.x), cellFormat(row.y), cellFormat(row.z);
      assert cell[i] == x + " " + y + " " + z;
      assert NoNewline(" ");
      NoNewlineConcat(x, " ");
      NoNewlineConcat(x + " ", y);
      NoNewlineConcat(x + " " + y, " ");
      NoNewlineConcat(x + " " + y + " ", z);
    }
  }

  lemma PositionLinesOneLine(coordinates: seq<Atom>, startInput: int, endInput: int, fmt: LineFormat)
    requires 1 <= startInput <= endInput <= |coordinates|
    requires forall i :: 0 <= i < |coordinates| ==> NoNewline(fmt(coordinates[i].name, coordinates[i].pos))
    ensures AllNoNewline(AddZeros(coordinates, startInput, endInput, fmt).lines)
  {
    var lines := AddZeros(coordinates, startInput, endInput, fmt).lines;
    var sorted := SortByZ(coordinates);
    forall i | 0 <= i < |lines| ensures NoNewline(lines[i]) {
      var a := sorted[i];
      assert a in multiset(coordinates) by {
        assert a in multiset(sorted);
      }
      var j :| 0 <= j < |coordinates| && coordinates[j] == a;
      AddZerosLine(coordinates, startInput, endInput, fmt, i);
      assert NoNewline(FixedSuffix);
      NoNewlineConcat(fmt(a.name, a.pos), FixedSuffix);
    }
  }

  /** A line of the source's shape, the label and then three formatted numbers, has no
      newline when the label and the numbers have none. */
  lemma LabelledLineOneLine(num: real -> string, name: string, p: Vec3)
    requires NoNewline(name) && forall x :: NoNewline(num(x))
    ensures NoNewline(name + " " + num(p.x) + " " + num(p.y) + " " + num(p.z))
  {
    var x, y, z := num(p.x), num(p.y), num(p.z);
    FormatOneLine(num, p.x);
    FormatOneLine(num, p.y);
    FormatOneLine(num, p.z);
    assert NoNewline(" ");
    NoNewlineConcat(name, " ");
    NoNewlineConcat(name + " ", x);
    NoNewlineConcat(name + " " + x, " ");
    NoNewlineConcat(name + " " + x + " ", y);
    NoNewlineConcat(name + " " + x + " " + y, " ");
    NoNewlineConcat(name + " " + x + " " + y + " ", z);
  }

  /** In the file's lines, the `nat` and `ntyp` lines of `&SYSTEM` (lines 12 and 13)
      carry the two counts in decimal, and those digits read back as the counts. */
  lemma CountsReadBack(atomCount: nat, typeCount: nat, species: seq<string>, cell: seq<string>,
                       positions: seq<string>)
    ensures var lines := InputFileLines(atomCount, typeCount, species, cell, positions);
      && |lines| > 12
      && lines[11] == "  nat= " + NatToString(atomCount) + ",   "
      && lines[12] == "  ntyp= " + NatToString(typeCount) + ",   "
      && ParseNat(NatToString(atomCount)) == atomCount
      && ParseNat(NatToString(typeCount)) == typeCount
  {
    var head := ControlBlock() + SystemBlock(atomCount, typeCount);
    assert |ControlBlock()| == 9;
    assert NamelistLines(atomCount, typeCount)[..21] == head;
    ParseNatToString(atomCount);
    ParseNatToString(typeCount);
  }
}
