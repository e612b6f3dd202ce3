# Structure-file converters, modelled in Dafny

This project models the three converters of the data-conversion scripts.
Each converter reads a structure file of one computational-chemistry format
and writes another format:

- **Trajectory merger** (`outcar.py`). It reads a structure archive and a
  force archive. The structure archive holds frames, each an energy and the
  positions read from the lines whose stripped text starts with `H` or
  `Pd` (which includes `He`, `Hf` or `Hg` lines). The force archive holds frames of force
  vectors. The merger checks that the two frame counts agree, then writes a
  report with one block per frame pair. Each block is a constant stress
  text, a table pairing position k with force k, and the frame's free
  energy.
- **Archive reformatter** (`car_converter.py`). It copies the first
  periodic `PBC ... P1` line of a structure file. It collects the atom lines
  and sorts the atoms by element, in order of atomic number, then by
  height. It writes them numbered from 1, between a fixed four-line header
  and two `end` lines.
- **Cell-to-POSCAR converter** (`POSCAR.py`). It walks a cursor over a cell
  file. It reads the three lattice vectors after each `%BLOCK LATTICE_CART`
  marker. It reads the atoms of each `%BLOCK POSITIONS_FRAC` block into three
  parallel lists: species, positions and selective-dynamics flags. It
  tallies the species in sorted order and sorts the atoms by height. It then
  writes the POSCAR layout.

Modules:

| module | file | contents |
|---|---|---|
| `Wrappers` | `wrappers.dfy` | `Option` and `Result`. The Python exceptions that escape the converters are values: `ValueError`, `IndexError` and `FrameCountMismatch`. |
| `Text` | `text.dfy` | Python's `strip`, `split`, `startswith`, `in`, `capitalize`, string `<`, `join`, `str(int)` and format-specification padding, over ASCII. |
| `StableSort` | `stable_sort.dfy` | `list.sort(key=...)` as a stable sort on a pair key. |
| `Floats` | `floats.dfy` | `float(token)` and `%f` rendering, both as parameters, and the row parsers built on them. |
| `Trajectory` | `trajectory.dfy` | `outcar.py` |
| `ArchiveReformatter` | `archive.dfy` | `car_converter.py` |
| `CellToPoscar` | `poscar.dfy` | `POSCAR.py` |

Each parsing or writing loop of the source is a `method` with the source's
cursor and accumulating lists. Its `ensures` ties the result to a recursive
specification function. The properties of the converters are lemmas about
those functions. `float(token)` is the parameter `parse`, where `None` is the
`ValueError` that `float` raises. The `%19.15f` and `15.9f` renderings are the
parameter `fixed`.

## Model

| member | source | states |
|---|---|---|
| Text.StripTrims | POSCAR.py:18 | `strip()` equals removing the leading whitespace, then the trailing whitespace. |
| Text.TrimLeftSpec | POSCAR.py:18 | The left trim drops exactly the leading run of whitespace. What it keeps is a suffix that does not start with whitespace. |
| Text.TrimRightSpec | POSCAR.py:18 | The right trim drops exactly the trailing run of whitespace. |
| Text.StripSpec | outcar.py:36 | A stripped line is empty exactly when the line is all whitespace. Otherwise it neither starts nor ends with whitespace. |
| Text.WordSpec | POSCAR.py:30 | A word is the leading run of non-whitespace, and it stops at whitespace. |
| Text.SplitSpec | POSCAR.py:30 | `split()` yields only non-empty tokens without whitespace. It yields none exactly when the line is all whitespace. |
| Text.SplitAppend | POSCAR.py:30 | Splitting a string whose second part starts with whitespace (or is empty) splits each part on its own and concatenates the tokens. |
| Text.SplitAtSpace | POSCAR.py:30 | Every whitespace character is a cut: splitting `a + [c] + b` with `c` whitespace gives the tokens of `a` followed by those of `b`. |
| Text.SplitToken | POSCAR.py:30 | A non-empty string without whitespace splits into exactly itself. With SplitAtSpace and SplitSpec this fixes `split()` completely. |
| Text.Slice | outcar.py:18 | `parts[1:4]` has Python's length for a slice that runs past the end. It holds the elements from index 1 on. |
| Text.RemoveDigits | car_converter.py:56 | A character survives exactly when it occurs in the input and is not a digit. The result is no longer than the input. |
| Text.RemoveDigitsCounts | car_converter.py:56 | Every digit is dropped. Every other character is kept as often as it occurs. |
| Text.RemoveDigitsAppend | car_converter.py:56 | The filter goes character by character: filtering a concatenation concatenates the filtered parts, so the kept characters stay in input order. |
| Text.Capitalize | car_converter.py:57 | `capitalize()`: the first character is upper-cased, every other character is lower-cased, and the length is kept. |
| Text.CapitalizeIdempotent | car_converter.py:23 | Capitalizing twice equals capitalizing once. So the rank lookup's own `capitalize` leaves an already-capitalized label alone. |
| Text.CapitalizeKeepsNonDigits | car_converter.py:56-57 | A digit-free label stays digit-free after capitalizing. |
| Text.CapitalizeKeepsNonSpaces | car_converter.py:57 | A label without whitespace stays without whitespace after capitalizing. |
| Text.LessIrreflexive | POSCAR.py:40 | Python's string `<` is irreflexive. |
| Text.LessTransitive | POSCAR.py:40 | String `<` is transitive. |
| Text.LessTotal | POSCAR.py:40 | String `<` is total: of two different strings, one is below the other. |
| Text.LessAsymmetric | POSCAR.py:40 | String `<` is asymmetric. |
| Text.JoinSplitOnRoundTrip | car_converter.py:93 | Splitting `'\n'.join(lines)` at newlines gives back the lines, when no line holds a newline. |
| Text.NatToString | car_converter.py:81 | `str(n)` is a non-empty string of digits. |
| Text.NatToStringRoundTrip | POSCAR.py:62 | `str(n)` reads back as `n` and has no leading zero. |
| Text.Spaces | car_converter.py:78 | The fill is `n` characters, each of them a space `' '`. |
| Text.PadLeft | car_converter.py:81 | The `>w` specification right-aligns in a field of `w` characters and never truncates. Every padding character is a space `' '`. |
| Text.PadRight | car_converter.py:78 | The `w` specification left-aligns in a field of `w` characters and never truncates. Every padding character is a space `' '`. |
| Text.StripPadded | car_converter.py:81 | A right-aligned token strips back to itself. |
| Text.ConcatFirst | car_converter.py:77-85 | A concatenated line starts with its first field. |
| Text.ConcatLast | car_converter.py:77-85 | A concatenated line ends with its last field. |
| Text.StripNoNewline | car_converter.py:43 | Stripping a line from `readlines` removes its newline. |
| StableSort.Sort | car_converter.py:69 | The sorted list is a permutation of the input and is ordered by the key. |
| StableSort.SortStable | POSCAR.py:46 | For every key, the elements with that key leave the sort in the order they entered it. |
| StableSort.SortIdempotent | car_converter.py:69 | Sorting a sorted list changes nothing. |
| StableSort.SortUnique | car_converter.py:69 | Any ordered, stable rearrangement of the input equals `Sort`'s result. So `Sort` is Python's `list.sort` for this key. |
| Floats.ParseNumbers | outcar.py:41 | `list(map(float, parts))` yields one number per token, or a ValueError. |
| Floats.ParseNumbersSpec | outcar.py:41 | The numbers are the tokens' numbers, one for one. ValueError comes exactly when some token is rejected. |
| Floats.ParseRowsAppend | outcar.py:39-42 | The rows of two adjacent stretches of lines are the rows of the first, then those of the second. An error in the first is the error of both. |
| Floats.ReadRow | outcar.py:39-42 | One pass of a row loop adds the line's row, skips the line, or fails, as the row specification says. |
| Trajectory.ForceTokens | outcar.py:39-40 | A force line is kept only when it has exactly three tokens. |
| Trajectory.ForceBlockEnd | outcar.py:36-38 | A force block stops at a blank line, at the end of input, or at the next "For" line, and does not consume that line. |
| Trajectory.ForceBlockEndFirst | outcar.py:36-38 | No line inside a force block stops it. |
| Trajectory.ForceBlock | outcar.py:35-43 | A block yields ValueError or its frame, together with the index where the block stopped. |
| Trajectory.ForceBlockVectors | outcar.py:40-41 | Every vector of a force frame has three components. |
| Trajectory.ForcesHaveThreeComponents | outcar.py:39-41 | Every row parsed from force lines has three components. |
| Trajectory.ForceBlockFails | outcar.py:41 | A rejected token inside the block fails the whole block with ValueError. |
| Trajectory.ReadForceBlock | outcar.py:36-42 | The inner loop returns the block's frame and stop index, as `ForceBlock` states. |
| Trajectory.ForceFrames | outcar.py:32-45 | The definition of the force frames: from cursor `i`, a line starting with "For" yields the block read from two lines later (`ForceBlock`), and the walk resumes where that block stopped. Any other line is skipped. The only error is ValueError. There is at most one frame per line from `i` on. |
| Trajectory.ParseForceArchive | outcar.py:26-46 | `parse_allfor_arc`'s cursor walk returns exactly `ForceFrames(lines, 0)`. |
| Trajectory.FrameOpenings | outcar.py:33 | Lists, in ascending order, the lines at which the outer loop meets a "For" line. |
| Trajectory.OpeningsSkip | outcar.py:44-45 | Lines that open no frame leave the following openings unchanged. |
| Trajectory.BlockOpensNothing | outcar.py:34-38 | The header line, the skipped line after it, and the block's lines open no frame. |
| Trajectory.ForceFramesFrom | outcar.py:32-45 | From any resumable cursor position, the frames are the blocks after the frame openings. |
| Trajectory.ForceFramesByOpenings | outcar.py:32-45 | Exactly one frame, possibly empty, per "For" line the outer loop reaches. Each frame is read from two lines after that "For" line. |
| Trajectory.FindLine | outcar.py:11-12 | The scan finds a line with the marker at or after the cursor, or fails with IndexError. |
| Trajectory.FindLineFirst | outcar.py:11-12 | The line found is the first with the marker. IndexError means no line from the cursor on has it. |
| Trajectory.FindLineUnique | outcar.py:11-15 | A first line with the marker is the line the scan finds. |
| Trajectory.PositionBlock | outcar.py:14-20 | The block ends at the first "end" line from the cursor on; no earlier line is an "end" line. The positions are the rows of the lines before it whose stripped text starts with `H` or `Pd`. The errors are ValueError and IndexError. |
| Trajectory.ReadFrame | outcar.py:8-21 | A frame's energy is the number of the last token of its "Energy" line. A rejected energy token is a ValueError. |
| Trajectory.ScanFor | outcar.py:11-12 | The scan loop returns what `FindLine` states. |
| Trajectory.ReadPositions | outcar.py:15-20 | The atom loop returns what `PositionBlock` states. |
| Trajectory.ReadFrameAt | outcar.py:8-21 | One pass of the outer loop at an "Energy" line returns what `ReadFrame` states. |
| Trajectory.StructureFrames | outcar.py:6-22 | The definition of the structure frames: from cursor `i`, an "Energy" line yields the frame `ReadFrame` reads there, and the walk resumes after that frame's "end" line. Any other line is skipped. The errors are ValueError and IndexError. |
| Trajectory.ParseStructureArchive | outcar.py:1-23 | `parse_allstr_arc`'s cursor walk returns exactly `StructureFrames(lines, 0)`. |
| Trajectory.FramesFromEnergyLines | outcar.py:7-22 | Every frame the structure parser returns is the frame `ReadFrame` reads at some "Energy" line from the cursor on, so `FrameContents` describes each of them. |
| Trajectory.MissingPbcFails | outcar.py:11 | An "Energy" line with no "PBC" line after it is an IndexError. |
| Trajectory.MissingEndFails | outcar.py:15 | A frame with no "end" line after its "PBC" line is an IndexError. |
| Trajectory.FrameContents | outcar.py:8-21 | A frame holds the energy of its line's last token. Its positions are the rows of the lines whose stripped text starts with `H` or `Pd`, between the first following "PBC" line and the next "end" line. |
| Trajectory.TableRows | outcar.py:90-93 | The table has one row per pair of `zip(positions, forces)`, or an IndexError. |
| Trajectory.TableRowsSpec | outcar.py:90-93 | The table succeeds exactly when every paired position and force has three components. Row k pairs position k with force k. |
| Trajectory.FrameReport | outcar.py:87-94 | A frame's block has six lines plus one per atom pair. Lines 0 to 2 are the stress text, the table header and the rule. Line 3 + k pairs the first three components of position k and force k. The block ends with a blank line, the free-energy line for the frame's energy and a blank line. It fails with IndexError exactly when some paired position or force has fewer than three components. |
| Trajectory.Report | outcar.py:86-94 | The only error the report can raise is an IndexError. |
| Trajectory.ReportBlocks | outcar.py:86 | The report holds as many blocks as the shorter of the two frame lists. It succeeds exactly when every paired table does. |
| Trajectory.ReportOne | outcar.py:86-94 | The report of a single frame pair is that pair's block. |
| Trajectory.ReportAppend | outcar.py:86 | For lists laid end to end, with the first parts of equal length, the report is the first parts' report followed by the rest's. It succeeds exactly when both do. With ReportOne, block k is `FrameReport(frames[k], forces[k])`. |
| Trajectory.FrameReportOneBlock | outcar.py:87-94 | One frame's report holds exactly one block. |
| Trajectory.WriteTable | outcar.py:90-93 | The table loop returns what `TableRows` states. |
| Trajectory.WriteReport | outcar.py:86-94 | `write_outcar`'s frame loop returns what `Report` states. |
| Trajectory.Merge | outcar.py:98-101 | The report is written only when both archives parse and their frame counts agree, and it is then the report of the two frame lists. Unequal counts are a `FrameCountMismatch`. |
| ArchiveReformatter.IndexOf | car_converter.py:24-26 | The first index of `x`, or the length when `x` is absent. |
| ArchiveReformatter.ElementOrder | car_converter.py:21-26 | The rank is the table position of the capitalized label. A label absent from the 118-entry table ranks 118. |
| ArchiveReformatter.HeaderNoNewline | car_converter.py:32-37 | No header line holds a newline. |
| ArchiveReformatter.PeriodicSearch | car_converter.py:41-45 | The first line whose stripped text starts with "PBC" and that contains "P1". |
| ArchiveReformatter.PeriodicLinesSpec | car_converter.py:40-45 | At most one line is copied. None is copied exactly when no line is periodic. Otherwise the first periodic line is copied, stripped. |
| ArchiveReformatter.AtomElement | car_converter.py:54-57 | An atom's element has no digits and is capitalized. Its rank is its plain table position. |
| ArchiveReformatter.Collect | car_converter.py:48-66 | A line-by-line pick yields at most one item per line. |
| ArchiveReformatter.CollectSpec | car_converter.py:48-66 | An item is collected exactly when the pick selects it from some line. |
| ArchiveReformatter.CollectAtoms | car_converter.py:48-66 | At most one atom per line. |
| ArchiveReformatter.CollectAtomsAppend | car_converter.py:49 | Collecting is line by line: the atoms of two stretches of lines are the atoms of the first, then those of the second. |
| ArchiveReformatter.AtomOf | car_converter.py:49-66 | A line yields an atom exactly when it has at least four tokens, tokens 2-4 parse as numbers, and token 1 does not start with "PBC". The atom's element is `Capitalize(RemoveDigits(token 1))`, its coordinates are those numbers, and it keeps the line. |
| ArchiveReformatter.CollectAtomsSpec | car_converter.py:49-66 | An atom is collected exactly when some line yields it. |
| ArchiveReformatter.SortedAtoms | car_converter.py:69 | `atoms.sort(key=...)`: a permutation of the collected atoms, ordered by the key (element rank, z). |
| ArchiveReformatter.SortedAtomsSpec | car_converter.py:69 | The sorted atoms are a permutation of the collected atoms. They are ordered by (element rank, z). Atoms with equal keys keep their input order. |
| ArchiveReformatter.AtomFields | car_converter.py:77-85 | An atom line has the ten fixed-width fields of the format. |
| ArchiveReformatter.AtomLineIndexFields | car_converter.py:81-84 | Both index fields hold the atom's 1-based index in decimal. |
| ArchiveReformatter.AtomLineIndexAligned | car_converter.py:81-84 | The index is right-aligned in a column 6 (resp. 8) wide, and the rest of the column is spaces. |
| ArchiveReformatter.AtomLineEnds | car_converter.py:78-84 | An atom line starts with the element and ends with the index. |
| ArchiveReformatter.Numbered | car_converter.py:72-87 | Numbering writes one line per item. |
| ArchiveReformatter.NumberedAt | car_converter.py:72-87 | Line k of a numbering (from 0) renders item k with index k + 1. |
| ArchiveReformatter.NumberedLinesAt | car_converter.py:72-87 | The k-th sorted atom (from 0) is written with index k + 1. |
| ArchiveReformatter.ArchiveLines | car_converter.py:32-90 | The `output_lines` list: the four header lines first, then the periodic lines and one line per sorted atom, then "end" twice. |
| ArchiveReformatter.ArchiveLayout | car_converter.py:32-90 | The output is the four header lines, at most one periodic line, one numbered line per sorted atom, and two "end" lines. |
| ArchiveReformatter.ElementHasNoSpace | car_converter.py:50-57 | An element read from a token holds no whitespace. |
| ArchiveReformatter.SortedAtomFromLine | car_converter.py:49-69 | Every sorted atom was read from some input line. |
| ArchiveReformatter.AtomLineNoNewline | car_converter.py:77-85 | An atom line holds no newline when its element and its rendered numbers hold none. |
| ArchiveReformatter.ArchiveLinesNoNewline | car_converter.py:32-90 | No output line holds a newline. |
| ArchiveReformatter.ArchiveTextLines | car_converter.py:92-93 | The written text splits at its newlines back into the output lines. |
| ArchiveReformatter.PeriodicLineIsNoAtom | car_converter.py:54 | The periodic line is never read as an atom. |
| ArchiveReformatter.CopyPeriodicLine | car_converter.py:40-45 | The flagged scan with `break` appends exactly the lines that `PeriodicLines` gives. |
| ArchiveReformatter.ReadAtoms | car_converter.py:48-66 | The collecting loop returns what `CollectAtoms` states. |
| ArchiveReformatter.AppendAtomLines | car_converter.py:72-87 | The counter loop appends the numbered atom lines. |
| ArchiveReformatter.Convert | car_converter.py:28-93 | `convert_type1_to_type2` writes the archive lines joined by newlines. |
| CellToPoscar.Append | POSCAR.py:10-13 | Appending two cells whose parallel lists are in step keeps them in step. |
| CellToPoscar.LatticeRows | POSCAR.py:23-25 | Yields `n` vectors from `n` consecutive lines. Running out of input is an IndexError and a rejected token is a ValueError. |
| CellToPoscar.LatticeRowsValues | POSCAR.py:24 | Each lattice vector holds the numbers of all the tokens of its line, in order. |
| CellToPoscar.LatticeRowsFail | POSCAR.py:23-25 | Reading the vectors fails exactly when the input ends too soon or one of their lines has a non-number. |
| CellToPoscar.PositionsBlock | POSCAR.py:29-36 | A positions block adds no lattice vectors. It keeps the three lists in step with every atom free, and it fails only with a ValueError. |
| CellToPoscar.PositionsStep | POSCAR.py:30-35 | One line of the positions block. A failure so far passes through, and the only new error is ValueError. The lattice is kept. The cell is either unchanged or gains exactly one species entry. |
| CellToPoscar.PositionsStepSpec | POSCAR.py:30-35 | A line of at least four tokens appends its first token, the position `float` gives for its second to fourth tokens, and "T T T" to the three lists. A shorter line changes nothing. A rejected coordinate is fatal. |
| CellToPoscar.PositionsStepTake | POSCAR.py:30-35 | A line of at least four tokens whose coordinates parse extends the cell by exactly that species, that position and the free flags, and keeps its lattice. |
| CellToPoscar.PositionsBlockSpec | POSCAR.py:29-36 | A block yields one atom per atom line, named by that line's first token. It fails exactly when one atom line has a non-numeric coordinate. |
| CellToPoscar.PositionsFailOnward | POSCAR.py:33 | Once one line of a block fails, the whole block fails. |
| CellToPoscar.PositionsEnd | POSCAR.py:29 | A positions block ends at the first line that strips to "%ENDBLOCK POSITIONS_FRAC", or at the end of the input. |
| CellToPoscar.CellFrom | POSCAR.py:16-37 | The parsed cell's three parallel lists are in step. Every atom is free. The lattice list holds a multiple of three vectors. |
| CellToPoscar.LatticeMarkerSpec | POSCAR.py:20-25 | A lattice marker gives the cell exactly the three vectors of the three lines after it, and requires those lines to exist. |
| CellToPoscar.PositionsMarkerSpec | POSCAR.py:27-37 | At a positions marker, the species of the block's atom lines, in order, begin the species the cursor walk collects from there. |
| CellToPoscar.ReadLattice | POSCAR.py:21-25 | The three-row loop appends what `LatticeRows` states. |
| CellToPoscar.ReadSite | POSCAR.py:30-35 | One line of the block is handled as the block specification states. |
| CellToPoscar.ReadPositions | POSCAR.py:28-36 | The block loop appends the block's atoms and stops at the block's end. |
| CellToPoscar.LatticeLoopStep | POSCAR.py:23-25 | One line of the lattice loop appends that line's vector, or ends the read with its ValueError. |
| CellToPoscar.PositionsLoopStep | POSCAR.py:28-36 | One line inside a positions block adds that line's atom. A failing line fails the whole block. |
| CellToPoscar.LatticeFails | POSCAR.py:20-25 | A lattice row that `float` rejects ends the whole parse with that ValueError. |
| CellToPoscar.PositionsFails | POSCAR.py:27-36 | A positions line whose coordinate `float` rejects ends the whole parse with that ValueError. |
| CellToPoscar.ReadLatticeBlock | POSCAR.py:20-25 | The lattice branch of one loop pass: the three vectors after the marker are appended, and the cursor moves past them, as `CellFrom` states. A rejected or missing row ends the parse with its error. |
| CellToPoscar.ReadPositionsBlock | POSCAR.py:27-37 | The positions branch of one loop pass: the block's atoms are added, and the cursor moves past the block's end, as `CellFrom` states. A rejected coordinate ends the parse with ValueError. |
| CellToPoscar.ParseStep | POSCAR.py:17-36 | One pass of the cursor loop reads a lattice block, a positions block or another line. The cursor then moves past what it read, as `CellFrom` states. |
| CellToPoscar.ParseCell | POSCAR.py:9-37 | The cursor walk returns what `CellFrom` states. |
| CellToPoscar.InsertUnique | POSCAR.py:40 | Inserting into an ascending list keeps it ascending and adds exactly the new string. |
| CellToPoscar.UniqueSorted | POSCAR.py:40 | `sorted(set(species))` is strictly ascending and lists exactly the species read. |
| CellToPoscar.AscendingUnique | POSCAR.py:40 | Two strictly ascending lists of the same strings are equal. |
| CellToPoscar.UniqueSortedSpec | POSCAR.py:40 | Each species occurs exactly once in the list. The list is the only strictly ascending listing of the species. |
| CellToPoscar.Count | POSCAR.py:41 | `species.count(s)` is the number of occurrences of `s`. |
| CellToPoscar.Counts | POSCAR.py:62 | The counts line takes, for each species in the header's order, that species' count. |
| CellToPoscar.SumCountsAll | POSCAR.py:41 | The counts over a repeat-free list that names every species add up to the number of atoms. |
| CellToPoscar.SpeciesCountsSpec | POSCAR.py:40-41 | No species count is zero, and the counts add up to the number of atoms. |
| CellToPoscar.Zip | POSCAR.py:44 | `zip` pairs the k-th entries of the three lists and is as long as the shortest list. |
| CellToPoscar.Combined | POSCAR.py:44-46 | `combined` after its sort: a permutation of the zipped (species, position, flags) triples, ordered by z. |
| CellToPoscar.CombinedSpec | POSCAR.py:44-46 | The sorted atoms are a permutation of the zipped atoms and are non-decreasing in z. Atoms at equal z keep their input order. All of them carry "T T T". |
| CellToPoscar.LayoutLines | POSCAR.py:51-72 | The file is the header line, the scale line, one line per lattice vector, the species line repeating the header's species, the counts line, "Selective Dynamics", "Direct", then one line per atom. |
| CellToPoscar.PoscarLines | POSCAR.py:49-72 | The lines written: six fixed lines plus one per lattice vector and one per atom. The second line is the scale, and the species line after the lattice repeats the first line indented by three spaces. |
| CellToPoscar.PoscarLayout | POSCAR.py:40-72 | A cell's file has six lines plus one per lattice vector and one per atom. Its counts line follows the header's species order, and its atom lines are the sorted atoms. |
| CellToPoscar.SiteLineFree | POSCAR.py:72 | Every atom line ends in "   T T T". |
| CellToPoscar.TerminatedAppend | POSCAR.py:51-72 | Writing two runs of lines writes the text of the first, then the text of the second. |
| CellToPoscar.PoscarText | POSCAR.py:4-72 | The file is written exactly when parsing succeeds, and parsing errors escape unchanged. |
| CellToPoscar.WriteLattice | POSCAR.py:57-58 | The lattice loop writes one terminated line per vector. |
| CellToPoscar.WriteSites | POSCAR.py:69-72 | The atom loop writes one terminated line per sorted atom. |
| CellToPoscar.WriteHead | POSCAR.py:51-54 | Writes the header line and the scale line. |
| CellToPoscar.WriteSpecies | POSCAR.py:61-66 | Writes the species line, the counts line and the two mode lines. |
| CellToPoscar.WriteLayout | POSCAR.py:49-72 | The write block writes the text of the layout's lines. |
| CellToPoscar.WritePoscar | POSCAR.py:40-72 | The tally, the sort and the writes produce the text of `PoscarLines`. |
| CellToPoscar.ConvertCell | POSCAR.py:4-72 | `convert_all_to_poscar` returns what `PoscarText` states. |

## Left out

- File I/O. `open`, `readlines` and `write` are not modelled. The input is a
  sequence of lines. The output is a value: report lines for the trajectory
  merger, and the written text for the other two converters.
- The directory drivers and `__main__` blocks. These are
  `process_directory` (`car_converter.py:95-112`) and
  `find_and_convert_files` (`POSCAR.py:74-99`), plus the console printing.
  Of `outcar.py:97-101`, only the frame-count assertion is kept, in
  `Trajectory.Merge`.
- Floating point. `float(token)` is the parameter `parse`, which is a partial
  function to `real`. The `%19.15f`, `15.9f`, `12.5f`, `12.6f` and ` .6f`
  renderings are not computed. NaN ordering in the sorts is not modelled.
- Trajectory.WriteReport: the report is a list of line records (`ReportLine`).
  The column formatting of the table rows and the energy line is not
  rendered. The constant stress and lattice text (`outcar.py:50-84`) is the
  single record `StressBlock`.
- The sorts are values. `list.sort` reorders in place with Timsort. The
  model's `StableSort.Sort` is an insertion sort. `SortUnique` shows it
  gives the same order as any stable sort. The in-place update itself is not
  modelled.
- The rules of Python's `strip()` and `split()` cover Unicode whitespace.
  The model covers six ASCII characters only: space, tab, newline, carriage
  return, vertical tab and form feed. Python also drops the ASCII separators
  `\x1c` to `\x1f` and the non-ASCII spaces, which the model keeps. `capitalize()` and `isdigit()` are
  likewise limited to ASCII.
- In `parse_allfor_arc`, the `break` on a "For" line inside a block
  (`outcar.py:37-38`) is part of the loop condition of
  `Trajectory.ReadForceBlock`. The loop stops at the same line.
- Output written before an exception is not modelled. An error result stands
  for the exception. The converters do not catch it, except that
  `car_converter.py:52-66` skips atom lines that `float` rejects, as
  modelled.
- `POSCAR.py` writes every line with a trailing `"\n"`, and
  `CellToPoscar.Terminated` models this. `car_converter.py` joins its lines
  with `"\n"` and writes no final newline, and `ArchiveReformatter.Convert`
  models this.
- The comments in `POSCAR.py` mention four- and eight-space indents. The code
  writes three spaces, and the model follows the code.
