/** The cell-to-POSCAR converter (POSCAR.py): a cursor walk over a cell file
    that reads the lattice block and the fractional-positions block into
    parallel lists, a tally of the species, a reordering of the atoms by
    height and the fixed POSCAR layout. */
module CellToPoscar {
  import opened Wrappers
  import opened Text
  import opened Floats
  import opened StableSort

  // ---------------------------------------------------------------------
  // Reading the cell file

  const LatticeMarker: string := "%BLOCK LATTICE_CART"
  const PositionsMarker: string := "%BLOCK POSITIONS_FRAC"
  const PositionsEndMarker: string := "%ENDBLOCK POSITIONS_FRAC"

  /** The selective-dynamics flags every atom gets: free in all directions. */
  const Free: seq<string> := ["T", "T", "T"]

  /** A fractional position. */
  datatype Vec3 = Vec3(x: real, y: real, z: real)

  /** What the parser collects: the lattice vectors and the three parallel
      lists of species, positions and selective-dynamics flags. */
  datatype Cell = Cell(lattice: seq<seq<real>>, species: seq<string>, positions: seq<Vec3>, flags: seq<seq<string>>)

  const EmptyCell := Cell([], [], [], [])

  /** The parallel lists are in step, and every atom is free. */
  predicate InStep(c: Cell) {
    && |c.species| == |c.positions| == |c.flags|
    && forall k :: 0 <= k < |c.flags| ==> c.flags[k] == Free
  }

  /** Each list of `a` followed by the same list of `b`. */
  function Append(a: Cell, b: Cell): (c: Cell)
    ensures InStep(a) && InStep(b) ==> InStep(c)
  {
    Cell(a.lattice + b.lattice, a.species + b.species, a.positions + b.positions, a.flags + b.flags)
  }

  /** The lists of `c` followed by those of a successful `r`. */
  function Extend(c: Cell, r: Result<Cell>): (e: Result<Cell>)
    ensures e.Ok? <==> r.Ok?
    ensures e.Err? ==> e.error == r.error
  {
    if r.Err? then r else Ok(Append(c, r.value))
  }

  lemma {:induction false} ExtendNothing(c: Cell)
    ensures Extend(c, Ok(EmptyCell)) == Ok(c)
  {
    assert c.lattice + [] == c.lattice && c.species + [] == c.species;
    assert c.positions + [] == c.positions && c.flags + [] == c.flags;
  }

  lemma {:induction false} ExtendEmpty(r: Result<Cell>)
    ensures Extend(EmptyCell, r) == r
  {
    if r.Ok? {
      var v := r.value;
      assert [] + v.lattice == v.lattice && [] + v.species == v.species;
      assert [] + v.positions == v.positions && [] + v.flags == v.flags;
    }
  }

  lemma {:induction false} ExtendTwice(a: Cell, b: Cell, r: Result<Cell>)
    ensures Extend(a, Extend(b, r)) == Extend(Append(a, b), r)
  {
    if r.Ok? {
      var v := r.value;
      assert a.lattice + (b.lattice + v.lattice) == (a.lattice + b.lattice) + v.lattice;
      assert a.species + (b.species + v.species) == (a.species + b.species) + v.species;
      assert a.positions + (b.positions + v.positions) == (a.positions + b.positions) + v.positions;
      assert a.flags + (b.flags + v.flags) == (a.flags + b.flags) + v.flags;
    }
  }

  /** `n` lattice vectors from line `j` on, one per line, each the numbers of
      all the line's tokens; IndexError when the input ends first. */
  function LatticeRows(lines: seq<string>, j: nat, n: nat, parse: FloatParser): (r: Result<seq<seq<real>>>)
    requires j <= |lines|
    ensures r.Ok? ==> |r.value| == n && j + n <= |lines|
    ensures r.Err? ==> r.error == ValueError || (r.error == IndexError && j + n > |lines|)
    decreases n
  {
    if n == 0 then Ok([])
    else if j == |lines| then Err(IndexError)
    else
      match ParseNumbers(Split(Strip(lines[j])), parse)
      case Err(e) => Err(e)
      case Ok(v) => Prepend([v], LatticeRows(lines, j + 1, n - 1, parse))
  }

  /** The atoms read so far, extended by one line of the positions block: a
      line of at least four tokens adds its first token to the species, its
      second to fourth as a position, and the free flags; shorter lines add
      nothing, and a coordinate `float` rejects is a ValueError. */
  function PositionsStep(prior: Result<Cell>, line: string, parse: FloatParser): (r: Result<Cell>)
    ensures prior.Err? ==> r == prior
    ensures prior.Ok? && r.Err? ==> r.error == ValueError
    ensures r.Ok? ==> && prior.Ok? && r.value.lattice == prior.value.lattice
                      && (r.value == prior.value || |r.value.species| == |prior.value.species| + 1)
  {
    var parts := Split(Strip(line));
    if prior.Err? || |parts| < 4 then prior
    else
      var coords := ParseNumbers(parts[1..4], parse);
      if coords.Err? then Err(ValueError)
      else
        var c := prior.value;
        var p := Vec3(coords.value[0], coords.value[1], coords.value[2]);
        Ok(Cell(c.lattice, c.species + [parts[0]], c.positions + [p], c.flags + [Free]))
  }

  /** The atoms of a stretch of the positions block, line by line. */
  function PositionsBlock(block: seq<string>, parse: FloatParser): (r: Result<Cell>)
    ensures r.Err? ==> r.error == ValueError
    ensures r.Ok? ==> r.value.lattice == [] && InStep(r.value)
  {
    if block == [] then Ok(EmptyCell)
    else PositionsStep(PositionsBlock(block[..|block| - 1], parse), block[|block| - 1], parse)
  }

  /** A positions-block line of at least four tokens adds exactly one entry
      to each of the three lists, with the line's first token as its species,
      the numbers its second to fourth tokens denote as its position, and
      "T T T" as its flags; a shorter line adds nothing. */
  lemma {:induction false} PositionsStepSpec(c: Cell, line: string, parse: FloatParser)
    ensures var parts := Split(Strip(line));
            var r := PositionsStep(Ok(c), line, parse);
            && (|parts| < 4 ==> r == Ok(c))
            && (|parts| >= 4 && r.Ok? ==>
                  && r.value.lattice == c.lattice
                  && r.value.species == c.species + [parts[0]]
                  && |r.value.positions| == |c.positions| + 1
                  && r.value.positions[..|c.positions|] == c.positions
                  && r.value.flags == c.flags + [Free])
            && (r.Err? <==> |parts| >= 4 && ParseNumbers(parts[1..4], parse).Err?)
    ensures var parts := Split(Strip(line));
            var r := PositionsStep(Ok(c), line, parse);
            |parts| >= 4 && r.Ok? ==>
              && parse(parts[1]).Some? && parse(parts[2]).Some? && parse(parts[3]).Some?
              && r.value.positions[|c.positions|]
                 == Vec3(parse(parts[1]).value, parse(parts[2]).value, parse(parts[3]).value)
  {
    var parts := Split(Strip(line));
    if |parts| >= 4 {
      ParseNumbersSpec(parts[1..4], parse);
    }
  }

  /** The step of a line that adds an atom, and of a line that adds none. */
  lemma {:induction false} PositionsStepTake(c: Cell, line: string, parse: FloatParser, parts: seq<string>, coords: seq<real>)
    requires parts == Split(Strip(line)) && |parts| >= 4
    requires ParseNumbers(parts[1..4], parse) == Ok(coords)
    ensures PositionsStep(Ok(c), line, parse) ==
            Ok(Cell(c.lattice, c.species + [parts[0]], c.positions + [Vec3(coords[0], coords[1], coords[2])], c.flags + [Free]))
  {
  }

  lemma {:induction false} PositionsStepSkip(c: Cell, line: string, parse: FloatParser)
    requires |Split(Strip(line))| < 4
    ensures PositionsStep(Ok(c), line, parse) == Ok(c)
  {
  }

  /** Growing the block by the line at `i`. */
  lemma {:induction false} PositionsSnoc(lines: seq<string>, start: nat, i: nat, parse: FloatParser)
    requires start <= i < |lines|
    ensures PositionsBlock(lines[start..i + 1], parse) == PositionsStep(PositionsBlock(lines[start..i], parse), lines[i], parse)
  {
    assert lines[start..i + 1][..i - start] == lines[start..i];
  }

  /** Putting earlier lists in front commutes with reading one more line. */
  lemma {:induction false} ExtendStep(acc: Cell, prior: Result<Cell>, line: string, parse: FloatParser)
    ensures Extend(acc, PositionsStep(prior, line, parse)) == PositionsStep(Extend(acc, prior), line, parse)
  {
    var parts := Split(Strip(line));
    if prior.Ok? && |parts| >= 4 && ParseNumbers(parts[1..4], parse).Ok? {
      var c := prior.value;
      var coords := ParseNumbers(parts[1..4], parse).value;
      var p := Vec3(coords[0], coords[1], coords[2]);
      assert acc.species + (c.species + [parts[0]]) == (acc.species + c.species) + [parts[0]];
      assert acc.positions + (c.positions + [p]) == (acc.positions + c.positions) + [p];
      assert acc.flags + (c.flags + [Free]) == (acc.flags + c.flags) + [Free];
    }
  }

  /** One pass of the positions loop, seen from the lists built so far. */
  lemma {:induction false} PositionsAdvance(lines: seq<string>, start: nat, i: nat, parse: FloatParser, acc: Cell, cur: Cell)
    requires start <= i < |lines|
    requires Extend(acc, PositionsBlock(lines[start..i], parse)) == Ok(cur)
    ensures Extend(acc, PositionsBlock(lines[start..i + 1], parse)) == PositionsStep(Ok(cur), lines[i], parse)
  {
    PositionsSnoc(lines, start, i, parse);
    ExtendStep(acc, PositionsBlock(lines[start..i], parse), lines[i], parse);
  }

  /** Once a line of the block fails, the whole block fails. */
  lemma {:induction false} PositionsFailOnward(lines: seq<string>, start: nat, i: nat, e: nat, parse: FloatParser)
    requires start <= i <= e <= |lines|
    requires PositionsBlock(lines[start..i], parse).Err?
    ensures PositionsBlock(lines[start..e], parse).Err?
    decreases e - i
  {
    if i < e {
      PositionsSnoc(lines, start, i, parse);
      PositionsFailOnward(lines, start, i + 1, e, parse);
    }
  }

  /** The end of the positions block that starts at `i`: the first line from
      `i` on that strips to the end marker, or the end of the input. */
  function PositionsEnd(lines: seq<string>, i: nat): (e: nat)
    requires i <= |lines|
    ensures i <= e <= |lines|
    ensures e < |lines| ==> Strip(lines[e]) == PositionsEndMarker
    ensures forall j :: i <= j < e ==> Strip(lines[j]) != PositionsEndMarker
    decreases |lines| - i
  {
    if i == |lines| || Strip(lines[i]) == PositionsEndMarker then i else PositionsEnd(lines, i + 1)
  }

  /** A line inside the block that is not the end marker is not its end. */
  lemma {:induction false} PositionsEndAhead(lines: seq<string>, start: nat, i: nat)
    requires start <= i < |lines| && i <= PositionsEnd(lines, start)
    requires Strip(lines[i]) != PositionsEndMarker
    ensures i < PositionsEnd(lines, start)
  {
  }

  /** One pass of the positions loop at line `i`, inside the block: the
      lists grow by the step of that line, and a failing step fails the
      block. */
  lemma {:induction false} PositionsLoopStep(lines: seq<string>, start: nat, i: nat, parse: FloatParser, acc: Cell, cur: Cell)
    requires start <= i < |lines| && i <= PositionsEnd(lines, start)
    requires Strip(lines[i]) != PositionsEndMarker
    requires Extend(acc, PositionsBlock(lines[start..i], parse)) == Ok(cur)
    ensures i < PositionsEnd(lines, start)
    ensures Extend(acc, PositionsBlock(lines[start..i + 1], parse)) == PositionsStep(Ok(cur), lines[i], parse)
    ensures PositionsStep(Ok(cur), lines[i], parse).Err? ==>
              Extend(acc, PositionsBlock(lines[start..PositionsEnd(lines, start)], parse)) == Err(ValueError)
  {
    PositionsEndAhead(lines, start, i);
    PositionsAdvance(lines, start, i, parse, acc, cur);
    if PositionsStep(Ok(cur), lines[i], parse).Err? {
      PositionsFailOnward(lines, start, i + 1, PositionsEnd(lines, start), parse);
    }
  }

  /** The positions loop stops at the end of the block. */
  lemma {:induction false} PositionsEndReached(lines: seq<string>, start: nat, i: nat)
    requires start <= |lines| && start <= i <= PositionsEnd(lines, start)
    requires i == |lines| || Strip(lines[i]) == PositionsEndMarker
    ensures i == PositionsEnd(lines, start)
  {
  }

  /** What the parser collects when its cursor stands at line `i`: a lattice
      marker contributes the three lines after it and moves the cursor past
      the line that follows them; a positions marker contributes its block
      and moves the cursor past the block's end marker; any other line is
      passed over. */
  function CellFrom(lines: seq<string>, i: nat, parse: FloatParser): (r: Result<Cell>)
    ensures r.Ok? ==> InStep(r.value) && |r.value.lattice| % 3 == 0
    decreases |lines| - i
  {
    if i >= |lines| then Ok(EmptyCell)
    else if Strip(lines[i]) == LatticeMarker then
      var rows := LatticeRows(lines, i + 1, 3, parse);
      if rows.Err? then Err(rows.error)
      else Extend(Cell(rows.value, [], [], []), CellFrom(lines, i + 5, parse))
    else if Strip(lines[i]) == PositionsMarker then
      var e := PositionsEnd(lines, i + 1);
      var sites := PositionsBlock(lines[i + 1..e], parse);
      if sites.Err? then sites
      else Extend(sites.value, CellFrom(lines, e + 1, parse))
    else CellFrom(lines, i + 1, parse)
  }

  /** The lattice vectors are the numbers of the lines they are read from,
      in order, ... */
  lemma {:induction false} LatticeRowsValues(lines: seq<string>, j: nat, n: nat, parse: FloatParser)
    requires j <= |lines|
    requires LatticeRows(lines, j, n, parse).Ok?
    ensures forall m :: j <= m < j + n ==> ParseNumbers(Split(Strip(lines[m])), parse) == Ok(LatticeRows(lines, j, n, parse).value[m - j])
    decreases n
  {
    if n > 0 {
      var rest := LatticeRows(lines, j + 1, n - 1, parse);
      LatticeRowsValues(lines, j + 1, n - 1, parse);
      var rows := LatticeRows(lines, j, n, parse).value;
      assert rows[1..] == rest.value;
    }
  }

  /** A line with a token `float` rejects. */
  predicate HasNonNumber(line: string, parse: FloatParser) {
    ParseNumbers(Split(Strip(line)), parse).Err?
  }

  /** ... and reading them fails exactly when the input ends too soon or a
      line they are read from has a token that is not a number. */
  lemma {:induction false} LatticeRowsFail(lines: seq<string>, j: nat, n: nat, parse: FloatParser)
    requires j <= |lines|
    ensures LatticeRows(lines, j, n, parse).Err? <==>
              j + n > |lines| || exists m :: j <= m < j + n && m < |lines| && HasNonNumber(lines[m], parse)
    decreases n
  {
    if n > 0 && j < |lines| {
      LatticeRowsFail(lines, j + 1, n - 1, parse);
      if HasNonNumber(lines[j], parse) {
        assert LatticeRows(lines, j, n, parse).Err?;
      } else {
        assert LatticeRows(lines, j, n, parse).Err? <==> LatticeRows(lines, j + 1, n - 1, parse).Err?;
        if exists m :: j <= m < j + n && m < |lines| && HasNonNumber(lines[m], parse) {
          var m :| j <= m < j + n && m < |lines| && HasNonNumber(lines[m], parse);
          assert j + 1 <= m;
        }
      }
    }
  }

  /** A line of the positions block that describes an atom. */
  predicate IsSiteLine(line: string) {
    |Split(Strip(line))| >= 4
  }

  /** The first tokens of the atom lines of a block, in order. */
  function SpeciesOf(block: seq<string>): (r: seq<string>)
    ensures |r| <= |block|
  {
    if block == [] then []
    else
      var last := block[|block| - 1];
      SpeciesOf(block[..|block| - 1]) + (if IsSiteLine(last) then [Split(Strip(last))[0]] else [])
  }

  /** A positions block yields one atom per atom line, named by the line's
      first token, and fails exactly when the coordinates of one of its atom
      lines are not numbers. */
  lemma {:induction false} PositionsBlockSpec(block: seq<string>, parse: FloatParser)
    ensures PositionsBlock(block, parse).Err? <==>
              exists k :: 0 <= k < |block| && IsSiteLine(block[k]) && ParseNumbers(Split(Strip(block[k]))[1..4], parse).Err?
    ensures PositionsBlock(block, parse).Ok? ==> PositionsBlock(block, parse).value.species == SpeciesOf(block)
  {
    if block != [] {
      var init, last := block[..|block| - 1], block[|block| - 1];
      PositionsBlockSpec(init, parse);
      assert forall k :: 0 <= k < |init| ==> init[k] == block[k];
      if PositionsBlock(init, parse).Err? {
        var k :| 0 <= k < |init| && IsSiteLine(init[k]) && ParseNumbers(Split(Strip(init[k]))[1..4], parse).Err?;
        assert block[k] == init[k];
      } else if IsSiteLine(last) && ParseNumbers(Split(Strip(last))[1..4], parse).Err? {
        assert block[|block| - 1] == last;
      } else {
        forall k | 0 <= k < |block| && IsSiteLine(block[k])
          ensures ParseNumbers(Split(Strip(block[k]))[1..4], parse).Ok?
        {
          if k < |init| {
            assert block[k] == init[k];
          }
        }
      }
    }
  }

  /** A lattice marker gives the cell the three vectors of the three lines
      after it. */
  lemma {:induction false} LatticeMarkerSpec(lines: seq<string>, i: nat, parse: FloatParser)
    requires i < |lines| && Strip(lines[i]) == LatticeMarker
    requires CellFrom(lines, i, parse).Ok?
    ensures i + 4 <= |lines|
    ensures forall m :: i + 1 <= m <= i + 3 ==>
              ParseNumbers(Split(Strip(lines[m])), parse) == Ok(CellFrom(lines, i, parse).value.lattice[m - i - 1])
  {
    LatticeRowsValues(lines, i + 1, 3, parse);
  }

  /** A positions marker gives the cell, first, the atoms of the atom lines
      up to the end marker or the end of the input. */
  lemma {:induction false} PositionsMarkerSpec(lines: seq<string>, i: nat, parse: FloatParser)
    requires i < |lines| && Strip(lines[i]) == PositionsMarker
    requires CellFrom(lines, i, parse).Ok?
    ensures SpeciesOf(lines[i + 1..PositionsEnd(lines, i + 1)]) <= CellFrom(lines, i, parse).value.species
  {
    var e := PositionsEnd(lines, i + 1);
    assert Strip(lines[i]) != LatticeMarker;
    PositionsBlockSpec(lines[i + 1..e], parse);
  }

  /** The parser's cursor passing a lattice block. */
  lemma {:induction false} LatticeAdvance(lines: seq<string>, i: nat, parse: FloatParser, cur: Cell, lattice: seq<seq<real>>)
    requires i < |lines| && Strip(lines[i]) == LatticeMarker
    requires Prepend(cur.lattice, LatticeRows(lines, i + 1, 3, parse)) == Ok(lattice)
    ensures Extend(cur, CellFrom(lines, i, parse)) ==
            Extend(Cell(lattice, cur.species, cur.positions, cur.flags), CellFrom(lines, i + 5, parse))
  {
    var rows := LatticeRows(lines, i + 1, 3, parse).value;
    ExtendTwice(cur, Cell(rows, [], [], []), CellFrom(lines, i + 5, parse));
    assert cur.species + [] == cur.species && cur.positions + [] == cur.positions && cur.flags + [] == cur.flags;
  }

  /** The parser's cursor passing a positions block. */
  lemma {:induction false} PositionsBlockAdvance(lines: seq<string>, i: nat, parse: FloatParser, cur: Cell, next: Cell)
    requires i < |lines| && Strip(lines[i]) == PositionsMarker
    requires Extend(cur, PositionsBlock(lines[i + 1..PositionsEnd(lines, i + 1)], parse)) == Ok(next)
    ensures Extend(cur, CellFrom(lines, i, parse)) == Extend(next, CellFrom(lines, PositionsEnd(lines, i + 1) + 1, parse))
  {
    var e := PositionsEnd(lines, i + 1);
    var sites := PositionsBlock(lines[i + 1..e], parse);
    CellFromPositions(lines, i, parse);
    assert sites.Ok? && next == Append(cur, sites.value);
    assert CellFrom(lines, i, parse) == Extend(sites.value, CellFrom(lines, e + 1, parse));
    ExtendTwice(cur, sites.value, CellFrom(lines, e + 1, parse));
  }

  /** `CellFrom` at a positions marker, unfolded once. */
  lemma {:induction false} CellFromPositions(lines: seq<string>, i: nat, parse: FloatParser)
    requires i < |lines| && Strip(lines[i]) == PositionsMarker
    ensures var e := PositionsEnd(lines, i + 1);
            var sites := PositionsBlock(lines[i + 1..e], parse);
            CellFrom(lines, i, parse) == if sites.Err? then sites else Extend(sites.value, CellFrom(lines, e + 1, parse))
  {
    assert Strip(lines[i]) != LatticeMarker;
  }

  /** The parser's cursor passing any other line. */
  lemma {:induction false} OtherAdvance(lines: seq<string>, i: nat, parse: FloatParser)
    requires i < |lines| && Strip(lines[i]) != LatticeMarker && Strip(lines[i]) != PositionsMarker
    ensures CellFrom(lines, i, parse) == CellFrom(lines, i + 1, parse)
  {
  }

  /** A lattice block whose rows `float` rejects ends the parse with that error. */
  lemma {:induction false} LatticeFails(lines: seq<string>, i: nat, parse: FloatParser, cur: Cell, rows: Result<seq<seq<real>>>)
    requires i < |lines| && Strip(lines[i]) == LatticeMarker
    requires rows == Prepend(cur.lattice, LatticeRows(lines, i + 1, 3, parse)) && rows.Err?
    ensures Extend(cur, CellFrom(lines, i, parse)) == Err(rows.error)
  {
  }

  /** A positions block with a rejected coordinate ends the parse with that error. */
  lemma {:induction false} PositionsFails(lines: seq<string>, i: nat, parse: FloatParser, cur: Cell, sites: Result<Cell>)
    requires i < |lines| && Strip(lines[i]) == PositionsMarker
    requires sites == Extend(cur, PositionsBlock(lines[i + 1..PositionsEnd(lines, i + 1)], parse)) && sites.Err?
    ensures Extend(cur, CellFrom(lines, i, parse)) == sites
  {
    CellFromPositions(lines, i, parse);
  }

  /** One pass of the lattice loop at line `i`: the line's vector is
      appended, or the line's ValueError ends the read. */
  lemma {:induction false} LatticeLoopStep(lines: seq<string>, i: nat, n: nat, parse: FloatParser, acc: seq<seq<real>>)
    requires i < |lines| && n > 0
    ensures var row := ParseNumbers(Split(Strip(lines[i])), parse);
            Prepend(acc, LatticeRows(lines, i, n, parse))
            == if row.Err? then Err(ValueError) else Prepend(acc + [row.value], LatticeRows(lines, i + 1, n - 1, parse))
  {
    var row := ParseNumbers(Split(Strip(lines[i])), parse);
    if row.Ok? {
      PrependTwice(acc, [row.value], LatticeRows(lines, i + 1, n - 1, parse));
    }
  }

  /** Reads the three lattice vectors from line `start` on, appending them
      to `acc`. */
  method ReadLattice(lines: seq<string>, start: nat, parse: FloatParser, acc: seq<seq<real>>)
    returns (r: Result<seq<seq<real>>>)
    requires start <= |lines|
    ensures r == Prepend(acc, LatticeRows(lines, start, 3, parse))
  {
    var lattice := acc;
    var i := start;
    for k := 0 to 3
      invariant i == start + k <= |lines|
      invariant Prepend(acc, LatticeRows(lines, start, 3, parse)) == Prepend(lattice, LatticeRows(lines, i, 3 - k, parse))
    {
      if i == |lines| {
        return Err(IndexError);
      }
      var row := ParseNumbers(Split(Strip(lines[i])), parse);
      LatticeLoopStep(lines, i, 3 - k, parse, lattice);
      if row.Err? {
        return Err(ValueError);
      }
      lattice := lattice + [row.value];
      i := i + 1;
      assert Prepend(acc, LatticeRows(lines, start, 3, parse)) == Prepend(lattice, LatticeRows(lines, i, 3 - k - 1, parse));
    }
    assert lattice + [] == lattice;
    r := Ok(lattice);
  }

  /** One line of the positions block: an atom is appended to the lists of
      `cur` when the line has at least four tokens. */
  method ReadSite(line: string, parse: FloatParser, cur: Cell) returns (r: Result<Cell>)
    ensures r == PositionsStep(Ok(cur), line, parse)
    ensures r.Ok? ==> r.value.lattice == cur.lattice
    ensures r.Err? ==> r.error == ValueError
  {
    var species, positions, flags := cur.species, cur.positions, cur.flags;
    var parts := Split(Strip(line));
    if |parts| >= 4 {
      var coords := ParseNumbers(parts[1..4], parse);
      if coords.Err? {
        return Err(ValueError);
      }
      PositionsStepTake(cur, line, parse, parts, coords.value);
      species := species + [parts[0]];
      positions := positions + [Vec3(coords.value[0], coords.value[1], coords.value[2])];
      flags := flags + [Free];
    }
    r := Ok(Cell(cur.lattice, species, positions, flags));
  }

  /** Reads the positions block from line `start` up to its end marker,
      appending its atoms to the lists of `acc`. */
  method ReadPositions(lines: seq<string>, start: nat, parse: FloatParser, acc: Cell)
    returns (r: Result<Cell>, end: nat)
    requires start <= |lines|
    ensures r.Ok? ==> end == PositionsEnd(lines, start)
    ensures r == Extend(acc, PositionsBlock(lines[start..PositionsEnd(lines, start)], parse))
  {
    var species, positions, flags := acc.species, acc.positions, acc.flags;
    var i := start;
    ExtendNothing(acc);
    assert lines[start..start] == [];
    while i < |lines| && Strip(lines[i]) != PositionsEndMarker
      invariant start <= i <= PositionsEnd(lines, start)
      invariant Extend(acc, PositionsBlock(lines[start..i], parse)) == Ok(Cell(acc.lattice, species, positions, flags))
      decreases |lines| - i
    {
      PositionsLoopStep(lines, start, i, parse, acc, Cell(acc.lattice, species, positions, flags));
      var next := ReadSite(lines[i], parse, Cell(acc.lattice, species, positions, flags));
      if next.Err? {
        return Err(ValueError), i;
      }
      species, positions, flags := next.value.species, next.value.positions, next.value.flags;
      i := i + 1;
    }
    PositionsEndReached(lines, start, i);
    r, end := Ok(Cell(acc.lattice, species, positions, flags)), i;
  }

  /** The lattice branch of the parser's loop: the three vectors after the
      marker at line `i` are appended to the lattice of `cur`. */
  method ReadLatticeBlock(lines: seq<string>, i: nat, parse: FloatParser, cur: Cell) returns (r: Result<Cell>, next: nat)
    requires i < |lines| && Strip(lines[i]) == LatticeMarker
    ensures r.Ok? ==> i < next <= |lines| + 1
    ensures r.Err? ==> Extend(cur, CellFrom(lines, i, parse)) == r
    ensures r.Ok? ==> Extend(cur, CellFrom(lines, i, parse)) == Extend(r.value, CellFrom(lines, next, parse))
  {
    var rows := ReadLattice(lines, i + 1, parse, cur.lattice);
    if rows.Err? {
      LatticeFails(lines, i, parse, cur, rows);
      return Err(rows.error), i;
    }
    LatticeAdvance(lines, i, parse, cur, rows.value);
    return Ok(Cell(rows.value, cur.species, cur.positions, cur.flags)), i + 5;
  }

  /** The positions branch of the parser's loop: the atoms of the block
      after the marker at line `i` are added to `cur`, and the cursor moves
      past the block's end. */
  method ReadPositionsBlock(lines: seq<string>, i: nat, parse: FloatParser, cur: Cell) returns (r: Result<Cell>, next: nat)
    requires i < |lines| && Strip(lines[i]) == PositionsMarker
    ensures r.Ok? ==> i < next <= |lines| + 1
    ensures r.Err? ==> Extend(cur, CellFrom(lines, i, parse)) == r
    ensures r.Ok? ==> Extend(cur, CellFrom(lines, i, parse)) == Extend(r.value, CellFrom(lines, next, parse))
  {
    var sites, end := ReadPositions(lines, i + 1, parse, cur);
    if sites.Err? {
      PositionsFails(lines, i, parse, cur, sites);
      return sites, i;
    }
    PositionsBlockAdvance(lines, i, parse, cur, sites.value);
    return sites, end + 1;
  }

  /** One pass of the parser's loop at line `i`: a lattice block, a
      positions block or any other line is read into the lists of `cur`, and
      the cursor moves past it. */
  method ParseStep(lines: seq<string>, i: nat, parse: FloatParser, cur: Cell) returns (r: Result<Cell>, next: nat)
    requires i < |lines|
    ensures r.Ok? ==> i < next <= |lines| + 1
    ensures r.Err? ==> Extend(cur, CellFrom(lines, i, parse)) == r
    ensures r.Ok? ==> Extend(cur, CellFrom(lines, i, parse)) == Extend(r.value, CellFrom(lines, next, parse))
  {
    var line := Strip(lines[i]);
    if line == LatticeMarker {
      r, next := ReadLatticeBlock(lines, i, parse, cur);
    } else if line == PositionsMarker {
      r, next := ReadPositionsBlock(lines, i, parse, cur);
    } else {
      OtherAdvance(lines, i, parse);
      return Ok(cur), i + 1;
    }
  }

  /** The parser: walks a cursor over the lines of the cell file, collecting
      the lattice vectors and the atoms of every marked block. */
  method ParseCell(lines: seq<string>, parse: FloatParser) returns (r: Result<Cell>)
    ensures r == CellFrom(lines, 0, parse)
  {
    var lattice: seq<seq<real>>, species: seq<string>, positions: seq<Vec3>, flags: seq<seq<string>> := [], [], [], [];
    var i := 0;
    ExtendEmpty(CellFrom(lines, 0, parse));
    while i < |lines|
      invariant CellFrom(lines, 0, parse) == Extend(Cell(lattice, species, positions, flags), CellFrom(lines, i, parse))
      decreases |lines| - i
    {
      var step, next := ParseStep(lines, i, parse, Cell(lattice, species, positions, flags));
      if step.Err? {
        return step;
      }
      lattice, species, positions, flags := step.value.lattice, step.value.species, step.value.positions, step.value.flags;
      i := next;
    }
    ExtendNothing(Cell(lattice, species, positions, flags));
    r := Ok(Cell(lattice, species, positions, flags));
  }

  // ---------------------------------------------------------------------
  // The species tally

  /** Strictly ascending in Python's string order, hence without repeats. */
  predicate Ascending(s: seq<string>) {
    forall i, j :: 0 <= i < j < |s| ==> Less(s[i], s[j])
  }

  /** `x` put into its place in an ascending list, unless already there. */
  function InsertUnique(x: string, s: seq<string>): (r: seq<string>)
    requires Ascending(s)
    ensures Ascending(r)
    ensures forall y :: y in r <==> y == x || y in s
  {
    if s == [] then [x]
    else if x == s[0] then s
    else if Less(x, s[0]) then
      assert forall j :: 0 <= j < |s| ==> Less(x, s[j]) by {
        forall j | 0 <= j < |s|
          ensures Less(x, s[j])
        {
          if j > 0 {
            LessTransitive(x, s[0], s[j]);
          }
        }
      }
      [x] + s
    else
      var tail := InsertUnique(x, s[1..]);
      assert Less(s[0], x) by {
        LessTotal(x, s[0]);
      }
      assert forall j :: 0 <= j < |tail| ==> Less(s[0], tail[j]) by {
        forall j | 0 <= j < |tail|
          ensures Less(s[0], tail[j])
        {
          assert tail[j] in tail;
          if tail[j] != x {
            var k :| 1 <= k < |s| && s[k] == tail[j];
          }
        }
      }
      [s[0]] + tail
  }

  /** `sorted(set(species))`: the distinct species in ascending order. */
  function UniqueSorted(species: seq<string>): (r: seq<string>)
    ensures Ascending(r)
    ensures forall x :: x in r <==> x in species
  {
    if species == [] then []
    else InsertUnique(species[|species| - 1], UniqueSorted(species[..|species| - 1]))
  }

  /** An ascending list holds each of its elements once. */
  lemma {:induction false} AscendingOnce(s: seq<string>, x: string)
    requires Ascending(s)
    ensures multiset(s)[x] == if x in s then 1 else 0
  {
    if s != [] {
      assert s == [s[0]] + s[1..];
      AscendingOnce(s[1..], x);
      if x == s[0] && x in s[1..] {
        var k :| 1 <= k < |s| && s[k] == x;
        LessIrreflexive(x);
      }
    }
  }

  /** In an ascending list, the elements after the head are the elements
      other than the head. */
  lemma {:induction false} OnlyHeadIsHead(s: seq<string>, x: string)
    requires Ascending(s) && s != []
    ensures x in s[1..] <==> x in s && x != s[0]
  {
    if x in s[1..] {
      var i :| 0 <= i < |s| - 1 && s[1..][i] == x;
      assert Less(s[0], s[i + 1]);
      LessIrreflexive(x);
    }
    if x in s && x != s[0] {
      var i :| 0 <= i < |s| && s[i] == x;
      assert s[1..][i - 1] == x;
    }
  }

  /** Two ascending lists of the same strings are the same list, so
      `UniqueSorted` is the only ascending listing of the species. */
  lemma {:induction false} AscendingUnique(a: seq<string>, b: seq<string>)
    requires Ascending(a) && Ascending(b)
    requires forall x :: x in a <==> x in b
    ensures a == b
    decreases |a|
  {
    assert a == [] <==> b == [] by {
      if a != [] {
        assert a[0] in a;
      }
      if b != [] {
        assert b[0] in b;
      }
    }
    if a != [] {
      assert a[0] == b[0] by {
        assert a[0] in b && b[0] in a;
        if a[0] != b[0] {
          var i :| 0 < i < |a| && a[i] == b[0];
          var j :| 0 < j < |b| && b[j] == a[0];
          LessAsymmetric(a[0], a[i]);
        }
      }
      forall x
        ensures x in a[1..] <==> x in b[1..]
      {
        if x in a[1..] {
          OnlyHeadIsHead(a, x);
          OnlyHeadIsHead(b, x);
        }
        if x in b[1..] {
          OnlyHeadIsHead(b, x);
          OnlyHeadIsHead(a, x);
        }
      }
      AscendingUnique(a[1..], b[1..]);
      assert a == [a[0]] + a[1..] && b == [b[0]] + b[1..];
    }
  }

  /** The species list of the POSCAR file is `sorted(set(species))`: strictly
      ascending, without repeats, listing exactly the species read. */
  lemma {:induction false} UniqueSortedSpec(species: seq<string>, order: seq<string>)
    ensures Ascending(UniqueSorted(species))
    ensures forall x :: multiset(UniqueSorted(species))[x] == if x in species then 1 else 0
    ensures Ascending(order) && (forall x :: x in order <==> x in species) ==> order == UniqueSorted(species)
  {
    forall x {
      AscendingOnce(UniqueSorted(species), x);
    }
    if Ascending(order) && (forall x :: x in order <==> x in species) {
      AscendingUnique(order, UniqueSorted(species));
    }
  }

  /** Python's `s.count(x)` on a list. */
  function Count(s: seq<string>, x: string): (n: nat)
    ensures n == multiset(s)[x]
  {
    if s == [] then 0
    else
      assert s == [s[0]] + s[1..];
      (if s[0] == x then 1 else 0) + Count(s[1..], x)
  }

  /** The counts line's numbers: the count of each species of `order`. */
  function Counts(order: seq<string>, species: seq<string>): (r: seq<nat>)
    ensures |r| == |order|
    ensures forall k :: 0 <= k < |order| ==> r[k] == Count(species, order[k])
  {
    if order == [] then [] else [Count(species, order[0])] + Counts(order[1..], species)
  }

  function Sum(ns: seq<nat>): nat {
    if ns == [] then 0 else ns[0] + Sum(ns[1..])
  }

  lemma {:induction false} SumCountsNothing(order: seq<string>)
    ensures Sum(Counts(order, [])) == 0
  {
    if order != [] {
      SumCountsNothing(order[1..]);
    }
  }

  /** One more atom adds one to the count of each place its species holds. */
  lemma {:induction false} SumCountsSnoc(order: seq<string>, species: seq<string>, x: string)
    ensures Sum(Counts(order, species + [x])) == Sum(Counts(order, species)) + Count(order, x)
  {
    if order != [] {
      SumCountsSnoc(order[1..], species, x);
      assert multiset(species + [x]) == multiset(species) + multiset{x};
    }
  }

  /** The counts over a repeat-free list naming every species total the
      number of atoms: every atom is counted, and once. */
  lemma {:induction false} SumCountsAll(order: seq<string>, species: seq<string>)
    requires Ascending(order)
    requires forall x :: x in species ==> x in order
    ensures Sum(Counts(order, species)) == |species|
  {
    if species == [] {
      SumCountsNothing(order);
    } else {
      var init, x := species[..|species| - 1], species[|species| - 1];
      assert species == init + [x];
      SumCountsAll(order, init);
      SumCountsSnoc(order, init, x);
      AscendingOnce(order, x);
    }
  }

  /** `species_counts`: each species' count is its number of atoms, none is
      zero, and together they count every atom. */
  lemma {:induction false} SpeciesCountsSpec(species: seq<string>)
    ensures forall k :: 0 <= k < |UniqueSorted(species)| ==>
              Counts(UniqueSorted(species), species)[k] == multiset(species)[UniqueSorted(species)[k]] > 0
    ensures Sum(Counts(UniqueSorted(species), species)) == |species|
  {
    var order := UniqueSorted(species);
    forall k | 0 <= k < |order|
      ensures multiset(species)[order[k]] > 0
    {
      assert order[k] in species;
    }
    SumCountsAll(order, species);
  }

  // ---------------------------------------------------------------------
  // The atoms reordered by height

  /** One entry of `combined`: an atom's species, position and flags. */
  datatype Site = Site(species: string, position: Vec3, flags: seq<string>)

  /** `list(zip(species, positions, flags))`: as long as the shortest list. */
  function Zip(species: seq<string>, positions: seq<Vec3>, flags: seq<seq<string>>): (r: seq<Site>)
    ensures |r| <= |species| && |r| <= |positions| && |r| <= |flags|
    ensures |r| == |species| || |r| == |positions| || |r| == |flags|
    ensures forall k :: 0 <= k < |r| ==> r[k] == Site(species[k], positions[k], flags[k])
  {
    if species == [] || positions == [] || flags == [] then []
    else [Site(species[0], positions[0], flags[0])] + Zip(species[1..], positions[1..], flags[1..])
  }

  /** The sort key `lambda x: x[1][2]`, the height of the atom. */
  function SiteKey(s: Site): SortKey {
    SortKey(0, s.position.z)
  }

  /** `combined` after `combined.sort(key=...)`. */
  function Combined(c: Cell): (r: seq<Site>)
    ensures multiset(r) == multiset(Zip(c.species, c.positions, c.flags))
    ensures SortedBy(r, SiteKey)
  {
    Sort(Zip(c.species, c.positions, c.flags), SiteKey)
  }

  /** The atoms of the POSCAR file are the atoms read, each exactly once,
      from the lowest to the highest, atoms at the same height in the order
      they were read, and all of them free. */
  lemma {:induction false} CombinedSpec(c: Cell)
    requires InStep(c)
    ensures |Combined(c)| == |c.species|
    ensures multiset(Combined(c)) == multiset(Zip(c.species, c.positions, c.flags))
    ensures forall i, j :: 0 <= i < j < |Combined(c)| ==> Combined(c)[i].position.z <= Combined(c)[j].position.z
    ensures forall z :: WithKey(Combined(c), SiteKey, SortKey(0, z)) == WithKey(Zip(c.species, c.positions, c.flags), SiteKey, SortKey(0, z))
    ensures forall k :: 0 <= k < |Combined(c)| ==> Combined(c)[k].flags == Free
  {
    var zipped := Zip(c.species, c.positions, c.flags);
    var sorted := Combined(c);
    assert |sorted| == |multiset(sorted)| == |multiset(zipped)| == |zipped|;
    forall z {
      SortStable(zipped, SiteKey, SortKey(0, z));
    }
    forall k | 0 <= k < |sorted|
      ensures sorted[k].flags == Free
    {
      assert sorted[k] in multiset(zipped);
    }
  }

  // ---------------------------------------------------------------------
  // The POSCAR layout

  const Scale: string := "   1.00000000"
  const SelectiveDynamics: string := "Selective Dynamics"
  const Direct: string := "Direct"

  /** Numbers rendered with `fixed` and joined by single spaces. */
  function FormatRow(v: seq<real>, fixed: Formatter): string {
    Join(seq(|v|, k requires 0 <= k < |v| => fixed(v[k])), " ")
  }

  /** The line of one lattice vector. */
  function LatticeLine(v: seq<real>, fixed: Formatter): string {
    "   " + FormatRow(v, fixed)
  }

  /** The line of one atom: its coordinates, three spaces, its flags. */
  function SiteLine(s: Site, fixed: Formatter): string {
    "   " + FormatRow([s.position.x, s.position.y, s.position.z], fixed) + "   " + Join(s.flags, " ")
  }

  function LatticeLines(lattice: seq<seq<real>>, fixed: Formatter): (r: seq<string>)
    ensures |r| == |lattice|
  {
    seq(|lattice|, k requires 0 <= k < |lattice| => LatticeLine(lattice[k], fixed))
  }

  function SiteLines(sites: seq<Site>, fixed: Formatter): (r: seq<string>)
    ensures |r| == |sites|
  {
    seq(|sites|, k requires 0 <= k < |sites| => SiteLine(sites[k], fixed))
  }

  /** The numbers of the counts line, written with `str`. */
  function CountsText(counts: seq<nat>): string {
    Join(seq(|counts|, k requires 0 <= k < |counts| => NatToString(counts[k])), " ")
  }

  /** The lines of a POSCAR file: the species `order` heads the file and
      names the columns of the counts line; the atoms come in the order of
      `sites`. */
  function Layout(order: seq<string>, counts: seq<nat>, lattice: seq<seq<real>>, sites: seq<Site>, fixed: Formatter): seq<string> {
    [Join(order, " "), Scale]
    + LatticeLines(lattice, fixed)
    + ["   " + Join(order, " "), "   " + CountsText(counts), SelectiveDynamics, Direct]
    + SiteLines(sites, fixed)
  }

  /** Where each line of the layout sits: the header line naming the
      species, the scale line, one line per lattice vector, the species line
      and the counts line in the header's order, the two mode lines, then one
      line per atom. */
  lemma {:induction false} LayoutLines(order: seq<string>, counts: seq<nat>, lattice: seq<seq<real>>, sites: seq<Site>, fixed: Formatter)
    ensures var r := Layout(order, counts, lattice, sites, fixed);
            var n := |lattice|;
            && |r| == 6 + n + |sites|
            && r[0] == Join(order, " ") && r[1] == Scale
            && (forall k :: 0 <= k < n ==> r[2 + k] == LatticeLine(lattice[k], fixed))
            && r[2 + n] == "   " + r[0]
            && r[3 + n] == "   " + CountsText(counts)
            && r[4 + n] == SelectiveDynamics && r[5 + n] == Direct
            && (forall k :: 0 <= k < |sites| ==> r[6 + n + k] == SiteLine(sites[k], fixed))
  {
  }

  /** The lines of the POSCAR file for the cell read. */
  function PoscarLines(c: Cell, fixed: Formatter): (r: seq<string>)
    ensures |r| == 6 + |c.lattice| + |Combined(c)|
    ensures r[1] == Scale && r[2 + |c.lattice|] == "   " + r[0]
  {
    var order := UniqueSorted(c.species);
    Layout(order, Counts(order, c.species), c.lattice, Combined(c), fixed)
  }

  /** The POSCAR file of a cell has one line per lattice vector and one per
      atom besides its six fixed lines; its counts line counts the atoms of
      each species in the order its header names them, and its atom lines
      are the atoms read, from the lowest up. */
  lemma {:induction false} PoscarLayout(c: Cell, fixed: Formatter)
    requires InStep(c)
    ensures var r := PoscarLines(c, fixed);
            var order := UniqueSorted(c.species);
            && |r| == 6 + |c.lattice| + |c.species|
            && r[0] == Join(order, " ")
            && r[3 + |c.lattice|] == "   " + CountsText(Counts(order, c.species))
            && (forall k :: 0 <= k < |c.species| ==> r[6 + |c.lattice| + k] == SiteLine(Combined(c)[k], fixed))
  {
    var order := UniqueSorted(c.species);
    CombinedSpec(c);
    LayoutLines(order, Counts(order, c.species), c.lattice, Combined(c), fixed);
  }

  /** Every atom line ends in the flags "T T T". */
  lemma {:induction false} SiteLineFree(s: Site, fixed: Formatter)
    requires s.flags == Free
    ensures var line := SiteLine(s, fixed);
            |line| >= 8 && line[|line| - 8..] == "   T T T"
  {
    assert Join(Free, " ") == "T T T";
  }

  /** The text of lines written one `write(line + "\n")` at a time. */
  function Terminated(lines: seq<string>): (t: string)
    ensures |t| >= |lines|
  {
    if lines == [] then "" else Terminated(lines[..|lines| - 1]) + lines[|lines| - 1] + "\n"
  }

  lemma {:induction false} TerminatedSnoc(lines: seq<string>, line: string)
    ensures Terminated(lines + [line]) == Terminated(lines) + line + "\n"
  {
    assert (lines + [line])[..|lines|] == lines;
  }

  /** One more line written after the text of the lines written so far. */
  lemma {:induction false} TerminatedWrite(text: string, out: string, written: seq<string>, line: string)
    requires out == text + Terminated(written)
    ensures out + line + "\n" == text + Terminated(written + [line])
  {
    TerminatedSnoc(written, line);
  }

  /** One pass of a write loop: after the text of the first `k` lines comes
      line `k` and its newline. */
  lemma {:induction false} TerminatedStep(text: string, out: string, lines: seq<string>, k: nat)
    requires k < |lines|
    requires out == text + Terminated(lines[..k])
    ensures out + lines[k] + "\n" == text + Terminated(lines[..k + 1])
  {
    assert lines[..k + 1][..k] == lines[..k];
  }

  lemma {:induction false} TerminatedAppend(a: seq<string>, b: seq<string>)
    ensures Terminated(a + b) == Terminated(a) + Terminated(b)
    decreases |b|
  {
    if b == [] {
      assert a + b == a;
    } else {
      var init := b[..|b| - 1];
      assert (a + b)[..|a + b| - 1] == a + init;
      TerminatedAppend(a, init);
    }
  }

  /** The text of the POSCAR file, or the exception that stops the
      conversion before anything is written. */
  function PoscarText(lines: seq<string>, parse: FloatParser, fixed: Formatter): (r: Result<string>)
    ensures r.Ok? <==> CellFrom(lines, 0, parse).Ok?
    ensures r.Err? ==> r.error == CellFrom(lines, 0, parse).error
  {
    var c := CellFrom(lines, 0, parse);
    if c.Err? then Err(c.error) else Ok(Terminated(PoscarLines(c.value, fixed)))
  }

  /** Writes the lines of the lattice vectors. */
  method WriteLattice(text: string, lattice: seq<seq<real>>, fixed: Formatter) returns (out: string)
    ensures out == text + Terminated(LatticeLines(lattice, fixed))
  {
    out := text;
    for k := 0 to |lattice|
      invariant out == text + Terminated(LatticeLines(lattice, fixed)[..k])
    {
      TerminatedStep(text, out, LatticeLines(lattice, fixed), k);
      out := out + LatticeLine(lattice[k], fixed) + "\n";
    }
    assert LatticeLines(lattice, fixed)[..|lattice|] == LatticeLines(lattice, fixed);
  }

  /** Writes the lines of the atoms. */
  method WriteSites(text: string, combined: seq<Site>, fixed: Formatter) returns (out: string)
    ensures out == text + Terminated(SiteLines(combined, fixed))
  {
    out := text;
    for k := 0 to |combined|
      invariant out == text + Terminated(SiteLines(combined, fixed)[..k])
    {
      TerminatedStep(text, out, SiteLines(combined, fixed), k);
      out := out + SiteLine(combined[k], fixed) + "\n";
    }
    assert SiteLines(combined, fixed)[..|combined|] == SiteLines(combined, fixed);
  }

  /** The header line and the scale line. */
  function HeadLines(order: seq<string>): seq<string> {
    [Join(order, " "), Scale]
  }

  /** The species line, the counts line and the two mode lines. */
  function SpeciesLines(order: seq<string>, counts: seq<nat>): seq<string> {
    ["   " + Join(order, " "), "   " + CountsText(counts), SelectiveDynamics, Direct]
  }

  /** Writes the header line and the scale line. */
  method WriteHead(order: seq<string>) returns (text: string)
    ensures text == Terminated(HeadLines(order))
  {
    text := Join(order, " ") + "\n";
    TerminatedSnoc([], Join(order, " "));
    text := text + Scale + "\n";
    TerminatedSnoc([Join(order, " ")], Scale);
  }

  /** Writes the species line, the counts line and the two mode lines. */
  method WriteSpecies(text: string, order: seq<string>, counts: seq<nat>) returns (out: string)
    ensures out == text + Terminated(SpeciesLines(order, counts))
  {
    var speciesLine, countsLine := "   " + Join(order, " "), "   " + CountsText(counts);
    ghost var written: seq<string> := [];
    out := text;
    assert out == text + Terminated(written);
    TerminatedWrite(text, out, written, speciesLine);
    out, written := out + speciesLine + "\n", written + [speciesLine];
    TerminatedWrite(text, out, written, countsLine);
    out, written := out + countsLine + "\n", written + [countsLine];
    TerminatedWrite(text, out, written, SelectiveDynamics);
    out, written := out + SelectiveDynamics + "\n", written + [SelectiveDynamics];
    TerminatedWrite(text, out, written, Direct);
    out, written := out + Direct + "\n", written + [Direct];
    assert written == SpeciesLines(order, counts);
  }

  /** Writes the lines of `Layout`, one `write` at a time. */
  method WriteLayout(order: seq<string>, counts: seq<nat>, lattice: seq<seq<real>>, sites: seq<Site>, fixed: Formatter)
    returns (text: string)
    ensures text == Terminated(Layout(order, counts, lattice, sites, fixed))
  {
    var head, middle := HeadLines(order), SpeciesLines(order, counts);
    var latticeLines, siteLines := LatticeLines(lattice, fixed), SiteLines(sites, fixed);
    text := WriteHead(order);
    text := WriteLattice(text, lattice, fixed);
    TerminatedAppend(head, latticeLines);
    text := WriteSpecies(text, order, counts);
    TerminatedAppend(head + latticeLines, middle);
    text := WriteSites(text, sites, fixed);
    TerminatedAppend(head + latticeLines + middle, siteLines);
    assert Layout(order, counts, lattice, sites, fixed) == head + latticeLines + middle + siteLines;
  }

  /** Writes the POSCAR file for the cell read: tallies the species, sorts
      the atoms by height and writes the layout. */
  method WritePoscar(c: Cell, fixed: Formatter) returns (text: string)
    ensures text == Terminated(PoscarLines(c, fixed))
  {
    var uniqueSpecies := UniqueSorted(c.species);
    var speciesCounts := Counts(uniqueSpecies, c.species);
    var combined := Sort(Zip(c.species, c.positions, c.flags), SiteKey);
    text := WriteLayout(uniqueSpecies, speciesCounts, c.lattice, combined, fixed);
  }

  /** `convert_all_to_poscar`: parses the cell file and, when that
      succeeds, writes the POSCAR file. */
  method ConvertCell(lines: seq<string>, parse: FloatParser, fixed: Formatter) returns (r: Result<string>)
    ensures r == PoscarText(lines, parse, fixed)
  {
    var c := ParseCell(lines, parse);
    if c.Err? {
      return Err(c.error);
    }
    var text := WritePoscar(c.value, fixed);
    r := Ok(text);
  }
}
