/** The trajectory merger (outcar.py): a parser for the structure archive
    (frames of an energy and atom positions), a parser for the force archive
    (frames of force vectors), and the writer that pairs them frame by frame
    into a report. Each parser walks its lines with a forward cursor; the
    recursive functions below state what the walk produces, and the methods
    are the walks themselves, proved to produce it. */
module Trajectory {
  import opened Wrappers
  import opened Text
  import opened Floats

  function Min(a: nat, b: nat): nat {
    if a <= b then a else b
  }

  // ---------------------------------------------------------------------
  // The force archive

  /** A force frame: one vector per force line of the block. */
  type ForceFrame = seq<seq<real>>

  /** A line that opens a force frame (and, inside a block, ends it). */
  predicate IsForceHeader(line: string) {
    StartsWith(Strip(line), "For")
  }

  predicate IsBlank(line: string) {
    Strip(line) == ""
  }

  /** A force line is kept when it has exactly three tokens. */
  function ForceTokens(line: string): (r: Option<seq<string>>)
    ensures r.Some? ==> |r.value| == 3
  {
    var parts := Split(Strip(line));
    if |parts| == 3 then Some(parts) else None
  }

  /** Line `j` ends a force block: it is blank or opens the next frame. */
  predicate StopsBlock(line: string) {
    IsBlank(line) || IsForceHeader(line)
  }

  /** The index at which the force block starting at `i` stops: `i` itself
      when it is past the input, else the first line from `i` on that is
      blank or a header, or the end of the input. That line is not consumed
      by the block. */
  function ForceBlockEnd(lines: seq<string>, i: nat): (e: nat)
    ensures i <= e && (e == i || e <= |lines|)
    ensures e < |lines| ==> StopsBlock(lines[e])
    decreases |lines| - i
  {
    if i >= |lines| || StopsBlock(lines[i]) then i
    else ForceBlockEnd(lines, i + 1)
  }

  /** A line that does not stop the block leaves its end where it was. */
  lemma {:induction false} BlockEndStep(lines: seq<string>, i: nat)
    requires i < |lines| && !IsBlank(lines[i]) && !IsForceHeader(lines[i])
    ensures ForceBlockEnd(lines, i) == ForceBlockEnd(lines, i + 1)
  {
  }

  /** No line inside a block stops it. */
  lemma {:induction false} ForceBlockEndFirst(lines: seq<string>, i: nat)
    ensures forall j :: i <= j < ForceBlockEnd(lines, i) ==> !StopsBlock(lines[j])
    decreases |lines| - i
  {
    if i < |lines| && !StopsBlock(lines[i]) {
      ForceBlockEndFirst(lines, i + 1);
    }
  }

  /** The force frame that starts at line `i`, and where it stops. A block
      that starts past the input is empty. */
  function ForceBlock(lines: seq<string>, i: nat, parse: FloatParser): (r: Result<(ForceFrame, nat)>)
    ensures r.Err? ==> r.error == ValueError
    ensures r.Ok? ==> r.value.1 == ForceBlockEnd(lines, i)
  {
    var e := ForceBlockEnd(lines, i);
    if i > |lines| then Ok(([], e))
    else
      match ParseRows(lines[i..e], ForceTokens, parse)
      case Err(err) => Err(err)
      case Ok(forces) => Ok((forces, e))
  }

  /** A force frame holds three-component vectors only. */
  lemma {:induction false} ForceBlockVectors(lines: seq<string>, i: nat, parse: FloatParser)
    ensures ForceBlock(lines, i, parse).Ok? ==> forall v :: v in ForceBlock(lines, i, parse).value.0 ==> |v| == 3
  {
    if i <= |lines| {
      ForcesHaveThreeComponents(lines[i..ForceBlockEnd(lines, i)], parse);
    }
  }

  /** Every vector a force block yields has three components; lines with any
      other number of tokens yield nothing. */
  lemma {:induction false} ForcesHaveThreeComponents(block: seq<string>, parse: FloatParser)
    ensures ParseRows(block, ForceTokens, parse).Ok? ==>
              forall v :: v in ParseRows(block, ForceTokens, parse).value ==> |v| == 3
  {
    if block != [] {
      ForcesHaveThreeComponents(block[1..], parse);
    }
  }

  /** What the force parser returns when its cursor stands at line `i`. */
  function ForceFrames(lines: seq<string>, i: nat, parse: FloatParser): (r: Result<seq<ForceFrame>>)
    ensures r.Err? ==> r.error == ValueError
    ensures r.Ok? && r.value != [] ==> i + |r.value| <= |lines|
    decreases |lines| - i
  {
    if i >= |lines| then Ok([])
    else if IsForceHeader(lines[i]) then
      match ForceBlock(lines, i + 2, parse)
      case Err(err) => Err(err)
      case Ok((forces, e)) => Prepend([forces], ForceFrames(lines, e, parse))
    else ForceFrames(lines, i + 1, parse)
  }

  /** Once the force lines from `start` up to `k`, all inside the block,
      fail to parse, the whole block fails. */
  lemma {:induction false} ForceBlockFails(lines: seq<string>, start: nat, k: nat, parse: FloatParser)
    requires start <= k <= |lines|
    requires ForceBlockEnd(lines, start) == ForceBlockEnd(lines, k)
    requires ParseRows(lines[start..k], ForceTokens, parse).Err?
    ensures ForceBlock(lines, start, parse) == Err(ValueError)
  {
    var e := ForceBlockEnd(lines, start);
    assert lines[start..e] == lines[start..k] + lines[k..e];
    ParseRowsAppend(lines[start..k], lines[k..e], ForceTokens, parse);
  }

  /** The inner loop of parse_allfor_arc: the force lines of one block, read
      from line `start` up to the blank line, the next header or the end. */
  method ReadForceBlock(lines: seq<string>, start: nat, parse: FloatParser) returns (r: Result<(ForceFrame, nat)>)
    ensures r == ForceBlock(lines, start, parse)
  {
    if start > |lines| {
      // the loop below would not run
      return Ok(([], start));
    }
    var i := start;
    var forces: ForceFrame := [];
    // the `break` at a header line is folded into the loop guard
    while i < |lines| && !IsBlank(lines[i]) && !IsForceHeader(lines[i])
      invariant start <= i <= |lines|
      invariant ForceBlockEnd(lines, start) == ForceBlockEnd(lines, i)
      invariant ParseRows(lines[start..i], ForceTokens, parse) == Ok(forces)
    {
      BlockEndStep(lines, i);
      var next := ReadRow(lines, start, i, ForceTokens, parse, forces);
      if next.Err? {
        ForceBlockFails(lines, start, i + 1, parse);
        return Err(ValueError);
      }
      forces := next.value;
      i := i + 1;
    }
    r := Ok((forces, i));
  }

  /** parse_allfor_arc: the cursor walk over the force archive. */
  method ParseForceArchive(lines: seq<string>, parse: FloatParser) returns (r: Result<seq<ForceFrame>>)
    ensures r == ForceFrames(lines, 0, parse)
  {
    var frames: seq<ForceFrame> := [];
    var i: nat := 0;
    PrependNothing(ForceFrames(lines, 0, parse));
    while i < |lines|
      invariant ForceFrames(lines, 0, parse) == Prepend(frames, ForceFrames(lines, i, parse))
      decreases |lines| - i
    {
      if IsForceHeader(lines[i]) {
        var block := ReadForceBlock(lines, i + 2, parse);
        if block.Err? {
          assert ForceFrames(lines, i, parse) == Err(block.error);
          return Err(block.error);
        }
        var (forces, e) := block.value;
        assert ForceFrames(lines, i, parse) == Prepend([forces], ForceFrames(lines, e, parse));
        PrependTwice(frames, [forces], ForceFrames(lines, e, parse));
        frames := frames + [forces];
        i := e;
      } else {
        assert ForceFrames(lines, i, parse) == ForceFrames(lines, i + 1, parse);
        i := i + 1;
      }
    }
    assert frames + [] == frames;
    r := Ok(frames);
  }

  /** Line `j` opens a force frame exactly when the parser's outer loop
      reaches it and it starts with "For": every "For" line does, except the
      line right after an opening line, which the parser skips unread. */
  predicate OpensForceFrame(lines: seq<string>, j: nat)
    requires j < |lines|
  {
    IsForceHeader(lines[j]) && (j == 0 || !OpensForceFrame(lines, j - 1))
  }

  /** The frame-opening lines at or after line `i`, in ascending order. */
  function FrameOpenings(lines: seq<string>, i: nat): (hs: seq<nat>)
    ensures forall k :: 0 <= k < |hs| ==> i <= hs[k] < |lines| && OpensForceFrame(lines, hs[k])
    decreases |lines| - i
  {
    if i >= |lines| then []
    else (if OpensForceFrame(lines, i) then [i] else []) + FrameOpenings(lines, i + 1)
  }

  /** The frames read from the blocks two lines after the given opening lines,
      one frame per opening line. */
  function BlocksAfter(lines: seq<string>, hs: seq<nat>, parse: FloatParser): (r: Result<seq<ForceFrame>>)
    ensures r.Ok? ==> |r.value| == |hs|
  {
    if hs == [] then Ok([])
    else
      match ForceBlock(lines, hs[0] + 2, parse)
      case Err(err) => Err(err)
      case Ok((forces, _)) => Prepend([forces], BlocksAfter(lines, hs[1..], parse))
  }

  lemma {:induction false} BlocksAfterCons(lines: seq<string>, h: nat, hs: seq<nat>, parse: FloatParser)
    ensures var b := ForceBlock(lines, h + 2, parse);
            BlocksAfter(lines, [h] + hs, parse) ==
              if b.Err? then Err(b.error) else Prepend([b.value.0], BlocksAfter(lines, hs, parse))
  {
    assert ([h] + hs)[0] == h && ([h] + hs)[1..] == hs;
  }

  /** Lines that open no frame do not change the openings that follow. */
  lemma {:induction false} OpeningsSkip(lines: seq<string>, a: nat, b: nat)
    requires a <= b
    requires forall j :: a <= j < b && j < |lines| ==> !OpensForceFrame(lines, j)
    ensures FrameOpenings(lines, a) == FrameOpenings(lines, b)
    decreases b - a
  {
    if a < b && a < |lines| {
      OpeningsSkip(lines, a + 1, b);
    }
  }

  /** Where the cursor may stand between frames: not on the line right after
      an opening line. */
  predicate Resumable(lines: seq<string>, i: nat) {
    i == 0 || i > |lines| || !OpensForceFrame(lines, i - 1)
  }

  /** No line from the one after an opening line `i` up to the end of the
      block that follows opens a frame, and the cursor may resume at that end. */
  lemma {:induction false} BlockOpensNothing(lines: seq<string>, i: nat)
    requires i < |lines| && OpensForceFrame(lines, i)
    ensures var e := ForceBlockEnd(lines, i + 2);
            && (forall j :: i + 1 <= j < e && j < |lines| ==> !OpensForceFrame(lines, j))
            && Resumable(lines, e)
  {
    var e := ForceBlockEnd(lines, i + 2);
    ForceBlockEndFirst(lines, i + 2);
    forall j | i + 1 <= j < e && j < |lines|
      ensures !OpensForceFrame(lines, j)
    {
      if j > i + 1 {
        assert !IsForceHeader(lines[j]);
      }
    }
  }

  /** An opening line at `i` is the first of the openings from `i` on; the
      rest start where its block ends. */
  lemma {:induction false} OpeningsAtHeader(lines: seq<string>, i: nat)
    requires i < |lines| && IsForceHeader(lines[i]) && Resumable(lines, i)
    ensures var e := ForceBlockEnd(lines, i + 2);
            FrameOpenings(lines, i) == [i] + FrameOpenings(lines, e) && Resumable(lines, e)
  {
    assert OpensForceFrame(lines, i);
    var e := ForceBlockEnd(lines, i + 2);
    BlockOpensNothing(lines, i);
    OpeningsSkip(lines, i + 1, e);
  }

  /** The parser at an opening line reads the block after it and resumes
      where the block ends. */
  lemma {:induction false} FramesAtHeader(lines: seq<string>, i: nat, parse: FloatParser)
    requires i < |lines| && IsForceHeader(lines[i]) && Resumable(lines, i)
    requires var e := ForceBlockEnd(lines, i + 2);
             ForceFrames(lines, e, parse) == BlocksAfter(lines, FrameOpenings(lines, e), parse)
    ensures ForceFrames(lines, i, parse) == BlocksAfter(lines, FrameOpenings(lines, i), parse)
  {
    var e := ForceBlockEnd(lines, i + 2);
    OpeningsAtHeader(lines, i);
    BlocksAfterCons(lines, i, FrameOpenings(lines, e), parse);
  }

  /** The parser passes over a line that does not start with "For". */
  lemma {:induction false} FramesAtOther(lines: seq<string>, i: nat, parse: FloatParser)
    requires i < |lines| && !IsForceHeader(lines[i])
    ensures ForceFrames(lines, i, parse) == ForceFrames(lines, i + 1, parse)
    ensures FrameOpenings(lines, i) == FrameOpenings(lines, i + 1)
    ensures Resumable(lines, i + 1)
  {
    assert !OpensForceFrame(lines, i);
    assert FrameOpenings(lines, i) == [] + FrameOpenings(lines, i + 1);
  }

  lemma {:induction false} ForceFramesFrom(lines: seq<string>, i: nat, parse: FloatParser)
    requires Resumable(lines, i)
    ensures ForceFrames(lines, i, parse) == BlocksAfter(lines, FrameOpenings(lines, i), parse)
    decreases |lines| - i
  {
    if i < |lines| {
      if IsForceHeader(lines[i]) {
        OpeningsAtHeader(lines, i);
        ForceFramesFrom(lines, ForceBlockEnd(lines, i + 2), parse);
        FramesAtHeader(lines, i, parse);
      } else {
        FramesAtOther(lines, i, parse);
        ForceFramesFrom(lines, i + 1, parse);
      }
    }
  }

  /** The force parser yields exactly one frame, possibly empty, per
      frame-opening line, in order: the force block that starts two lines
      after it. */
  lemma {:induction false} ForceFramesByOpenings(lines: seq<string>, parse: FloatParser)
    ensures ForceFrames(lines, 0, parse) == BlocksAfter(lines, FrameOpenings(lines, 0), parse)
    ensures ForceFrames(lines, 0, parse).Ok? ==>
              |ForceFrames(lines, 0, parse).value| == |FrameOpenings(lines, 0)|
  {
    ForceFramesFrom(lines, 0, parse);
  }

  // ---------------------------------------------------------------------
  // The structure archive

  /** One frame of the structure archive. A position is
      `list(map(float, parts[1:4]))`, so it has at most three components. */
  datatype StructureFrame = StructureFrame(energy: real, positions: seq<seq<real>>)

  /** The stripped line starts with `marker`. */
  predicate HasMarker(line: string, marker: string) {
    StartsWith(Strip(line), marker)
  }

  predicate IsEnergyLine(line: string) {
    HasMarker(line, "Energy")
  }

  predicate IsPbcLine(line: string) {
    HasMarker(line, "PBC")
  }

  predicate IsEndLine(line: string) {
    HasMarker(line, "end")
  }

  /** Only lines whose stripped text starts with `H` or `Pd` are read as
      atoms (so `He`, `Hf` or `Hg` lines are read too). */
  predicate IsAtomLine(line: string) {
    StartsWith(Strip(line), "H") || StartsWith(Strip(line), "Pd")
  }

  /** The tokens an atom line contributes: its second to fourth. */
  function AtomTokens(line: string): (r: Option<seq<string>>)
    ensures r.Some? ==> |r.value| <= 3
  {
    if IsAtomLine(line) then Some(Slice(Split(line), 1, 4)) else None
  }

  /** The last token of an energy line, the one its energy is read from. */
  function EnergyToken(line: string): string
    requires IsEnergyLine(line)
  {
    var stripped := Strip(line);
    var tokens := Split(stripped);
    assert tokens != [] by {
      SplitSpec(stripped);
      assert !IsSpace(stripped[0]);
    }
    tokens[|tokens| - 1]
  }

  /** The first line at or after `i` that starts with `marker`; IndexError
      when the input runs out first. */
  function FindLine(lines: seq<string>, i: nat, marker: string): (r: Result<nat>)
    ensures r.Ok? ==> i <= r.value < |lines| && HasMarker(lines[r.value], marker)
    ensures r.Err? ==> r.error == IndexError
    decreases |lines| - i
  {
    if i >= |lines| then Err(IndexError)
    else if HasMarker(lines[i], marker) then Ok(i)
    else FindLine(lines, i + 1, marker)
  }

  /** The line found is the first with the marker, and IndexError means that
      no line from `i` on has it. */
  lemma {:induction false} FindLineFirst(lines: seq<string>, i: nat, marker: string)
    ensures FindLine(lines, i, marker).Ok? ==>
              forall j :: i <= j < FindLine(lines, i, marker).value ==> !HasMarker(lines[j], marker)
    ensures FindLine(lines, i, marker).Err? ==>
              forall j :: i <= j < |lines| ==> !HasMarker(lines[j], marker)
    decreases |lines| - i
  {
    if i < |lines| && !HasMarker(lines[i], marker) {
      FindLineFirst(lines, i + 1, marker);
    }
  }

  /** The first line with the marker is the one `FindLine` finds. */
  lemma {:induction false} FindLineUnique(lines: seq<string>, i: nat, p: nat, marker: string)
    requires i <= p < |lines| && HasMarker(lines[p], marker)
    requires forall j :: i <= j < p ==> !HasMarker(lines[j], marker)
    ensures FindLine(lines, i, marker) == Ok(p)
    decreases p - i
  {
    if i < p {
      FindLineUnique(lines, i + 1, p, marker);
    }
  }

  /** The positions read from line `i` up to the next "end" line, and the
      index of that line. With no "end" line the parser indexes past the
      input (IndexError), unless an atom line before that is rejected by
      `float` first (ValueError). */
  function PositionBlock(lines: seq<string>, i: nat, parse: FloatParser): (r: Result<(seq<seq<real>>, nat)>)
    requires i <= |lines|
    ensures r.Ok? ==> i <= r.value.1 < |lines| && IsEndLine(lines[r.value.1])
    ensures r.Ok? ==> forall j :: i <= j < r.value.1 ==> !IsEndLine(lines[j])
    ensures r.Ok? ==> ParseRows(lines[i..r.value.1], AtomTokens, parse) == Ok(r.value.0)
    ensures r.Err? ==> r.error == ValueError || r.error == IndexError
  {
    FindLineFirst(lines, i, "end");
    match FindLine(lines, i, "end")
    case Err(_) =>
      if ParseRows(lines[i..], AtomTokens, parse).Err? then Err(ValueError) else Err(IndexError)
    case Ok(e) =>
      match ParseRows(lines[i..e], AtomTokens, parse)
      case Err(err) => Err(err)
      case Ok(positions) => Ok((positions, e))
  }

  /** The frame whose energy line is line `i`, and the index of its "end"
      line. */
  function ReadFrame(lines: seq<string>, i: nat, parse: FloatParser): (r: Result<(StructureFrame, nat)>)
    requires i < |lines| && IsEnergyLine(lines[i])
    ensures r.Ok? ==> i < r.value.1 < |lines| && IsEndLine(lines[r.value.1])
    ensures r.Ok? ==> parse(EnergyToken(lines[i])) == Some(r.value.0.energy)
    ensures parse(EnergyToken(lines[i])).None? ==> r == Err(ValueError)
    ensures r.Err? ==> r.error == ValueError || r.error == IndexError
  {
    match parse(EnergyToken(lines[i]))
    case None => Err(ValueError)
    case Some(energy) =>
      match FindLine(lines, i + 1, "PBC")
      case Err(err) => Err(err)
      case Ok(p) =>
        match PositionBlock(lines, p + 1, parse)
        case Err(err) => Err(err)
        case Ok((positions, e)) => Ok((StructureFrame(energy, positions), e))
  }

  /** What the structure parser returns when its cursor stands at line `i`. */
  function StructureFrames(lines: seq<string>, i: nat, parse: FloatParser): (r: Result<seq<StructureFrame>>)
    ensures r.Err? ==> r.error == ValueError || r.error == IndexError
    decreases |lines| - i
  {
    if i >= |lines| then Ok([])
    else if IsEnergyLine(lines[i]) then
      match ReadFrame(lines, i, parse)
      case Err(err) => Err(err)
      case Ok((frame, e)) => Prepend([frame], StructureFrames(lines, e + 1, parse))
    else StructureFrames(lines, i + 1, parse)
  }

  /** A scan of parse_allstr_arc for the next line with `marker`. */
  method ScanFor(lines: seq<string>, i: nat, marker: string) returns (r: Result<nat>)
    ensures r == FindLine(lines, i, marker)
  {
    var k := i;
    while k < |lines| && !HasMarker(lines[k], marker)
      invariant i <= k && (k == i || k <= |lines|)
      invariant FindLine(lines, i, marker) == FindLine(lines, k, marker)
      decreases |lines| - k
    {
      k := k + 1;
    }
    if k >= |lines| {
      return Err(IndexError);
    }
    r := Ok(k);
  }

  /** The atom loop of parse_allstr_arc: the positions from line `start` up
      to the "end" line. */
  method ReadPositions(lines: seq<string>, start: nat, parse: FloatParser) returns (r: Result<(seq<seq<real>>, nat)>)
    requires start <= |lines|
    ensures r == PositionBlock(lines, start, parse)
  {
    var i := start;
    var positions: seq<seq<real>> := [];
    while i < |lines| && !IsEndLine(lines[i])
      invariant start <= i <= |lines|
      invariant FindLine(lines, start, "end") == FindLine(lines, i, "end")
      invariant ParseRows(lines[start..i], AtomTokens, parse) == Ok(positions)
    {
      var next := ReadRow(lines, start, i, AtomTokens, parse, positions);
      if next.Err? {
        RowsFailOnward(lines, start, i + 1, parse);
        return Err(ValueError);
      }
      positions := next.value;
      i := i + 1;
    }
    if i == |lines| {
      assert lines[start..] == lines[start..i];
      return Err(IndexError);
    }
    r := Ok((positions, i));
  }

  /** One pass of parse_allstr_arc's outer loop at an energy line. */
  method ReadFrameAt(lines: seq<string>, i: nat, parse: FloatParser) returns (r: Result<(StructureFrame, nat)>)
    requires i < |lines| && IsEnergyLine(lines[i])
    ensures r == ReadFrame(lines, i, parse)
  {
    var energy := parse(EnergyToken(lines[i]));
    if energy.None? {
      return Err(ValueError);
    }
    var pbc := ScanFor(lines, i + 1, "PBC");
    if pbc.Err? {
      return Err(pbc.error);
    }
    var block := ReadPositions(lines, pbc.value + 1, parse);
    if block.Err? {
      return Err(block.error);
    }
    var (positions, e) := block.value;
    r := Ok((StructureFrame(energy.value, positions), e));
  }

  /** A frame read at line `i` moves the cursor past its "end" line. */
  lemma {:induction false} StructureFramesStep(lines: seq<string>, i: nat, parse: FloatParser,
                            frames: seq<StructureFrame>, frame: StructureFrame, e: nat)
    requires i < |lines| && IsEnergyLine(lines[i])
    requires ReadFrame(lines, i, parse) == Ok((frame, e))
    requires StructureFrames(lines, 0, parse) == Prepend(frames, StructureFrames(lines, i, parse))
    ensures StructureFrames(lines, 0, parse) == Prepend(frames + [frame], StructureFrames(lines, e + 1, parse))
  {
    assert StructureFrames(lines, i, parse) == Prepend([frame], StructureFrames(lines, e + 1, parse));
    PrependTwice(frames, [frame], StructureFrames(lines, e + 1, parse));
  }

  /** parse_allstr_arc: the cursor walk over the structure archive. */
  method ParseStructureArchive(lines: seq<string>, parse: FloatParser) returns (r: Result<seq<StructureFrame>>)
    ensures r == StructureFrames(lines, 0, parse)
  {
    var frames: seq<StructureFrame> := [];
    var i: nat := 0;
    PrependNothing(StructureFrames(lines, 0, parse));
    while i < |lines|
      invariant StructureFrames(lines, 0, parse) == Prepend(frames, StructureFrames(lines, i, parse))
      decreases |lines| - i
    {
      if IsEnergyLine(lines[i]) {
        var read := ReadFrameAt(lines, i, parse);
        if read.Err? {
          assert StructureFrames(lines, i, parse) == Err(read.error);
          return Err(read.error);
        }
        var (frame, e) := read.value;
        StructureFramesStep(lines, i, parse, frames, frame, e);
        frames := frames + [frame];
        i := e;
      } else {
        assert StructureFrames(lines, i, parse) == StructureFrames(lines, i + 1, parse);
      }
      i := i + 1;
    }
    assert frames + [] == frames;
    r := Ok(frames);
  }

  /** Once the atom lines from `start` up to `k`, none of them an "end" line,
      fail to parse, the block fails, wherever it ends. */
  lemma {:induction false} RowsFailOnward(lines: seq<string>, start: nat, k: nat, parse: FloatParser)
    requires start <= k <= |lines|
    requires FindLine(lines, start, "end") == FindLine(lines, k, "end")
    requires ParseRows(lines[start..k], AtomTokens, parse).Err?
    ensures PositionBlock(lines, start, parse) == Err(ValueError)
  {
    match FindLine(lines, start, "end") {
      case Err(_) =>
        RowsFailExtend(lines, start, k, |lines|, AtomTokens, parse);
        assert lines[start..|lines|] == lines[start..];
      case Ok(e) =>
        RowsFailExtend(lines, start, k, e, AtomTokens, parse);
    }
  }

  /** An energy line must be followed by a "PBC" line: when none follows, the
      parser runs past the input. */
  lemma {:induction false} MissingPbcFails(lines: seq<string>, i: nat, parse: FloatParser)
    requires i < |lines| && IsEnergyLine(lines[i])
    requires parse(EnergyToken(lines[i])).Some?
    requires forall j :: i < j < |lines| ==> !IsPbcLine(lines[j])
    ensures StructureFrames(lines, i, parse) == Err(IndexError)
  {
    var r := FindLine(lines, i + 1, "PBC");
    assert r.Err?;
  }

  /** A position block with no "end" line after it, whose atom lines all
      parse, runs past the input. */
  lemma {:induction false} PositionsRunOut(lines: seq<string>, s: nat, parse: FloatParser)
    requires s <= |lines|
    requires forall j :: s <= j < |lines| ==> !IsEndLine(lines[j])
    requires ParseRows(lines[s..], AtomTokens, parse).Ok?
    ensures PositionBlock(lines, s, parse) == Err(IndexError)
  {
    assert FindLine(lines, s, "end").Err?;
  }

  /** After its "PBC" line a frame must reach an "end" line: when none
      follows and its atom lines all parse, the parser runs past the input. */
  lemma {:induction false} MissingEndFails(lines: seq<string>, i: nat, p: nat, parse: FloatParser)
    requires i < p < |lines| && IsEnergyLine(lines[i]) && IsPbcLine(lines[p])
    requires forall j :: i < j < p ==> !IsPbcLine(lines[j])
    requires parse(EnergyToken(lines[i])).Some?
    requires forall j :: p < j < |lines| ==> !IsEndLine(lines[j])
    requires ParseRows(lines[p + 1..], AtomTokens, parse).Ok?
    ensures StructureFrames(lines, i, parse) == Err(IndexError)
  {
    FindLineUnique(lines, i + 1, p, "PBC");
    PositionsRunOut(lines, p + 1, parse);
    ReadFrameFails(lines, i, p, parse);
  }

  /** A frame whose positions fail fails with the same error. */
  lemma {:induction false} ReadFrameFails(lines: seq<string>, i: nat, p: nat, parse: FloatParser)
    requires i < p < |lines| && IsEnergyLine(lines[i])
    requires parse(EnergyToken(lines[i])).Some?
    requires FindLine(lines, i + 1, "PBC") == Ok(p)
    requires PositionBlock(lines, p + 1, parse).Err?
    ensures ReadFrame(lines, i, parse) == Err(PositionBlock(lines, p + 1, parse).error)
  {
  }

  /** A frame read from an energy line carries the energy of that line's last
      token and, in input order, the lines whose stripped text starts with
      `H` or `Pd` between the first "PBC" line after it and the first "end" line after that, each
      giving its second to fourth tokens. */
  lemma {:induction false} FrameContents(lines: seq<string>, i: nat, parse: FloatParser)
    requires i < |lines| && IsEnergyLine(lines[i])
    requires ReadFrame(lines, i, parse).Ok?
    ensures var (frame, e) := ReadFrame(lines, i, parse).value;
            && parse(EnergyToken(lines[i])) == Some(frame.energy)
            && exists p :: && i < p < e
                           && IsPbcLine(lines[p])
                           && (forall j :: i < j < p ==> !IsPbcLine(lines[j]))
                           && (forall j :: p < j < e ==> !IsEndLine(lines[j]))
                           && IsEndLine(lines[e])
                           && ParseRows(lines[p + 1..e], AtomTokens, parse) == Ok(frame.positions)
  {
    ReadFrameOk(lines, i, parse);
    var p := FindLine(lines, i + 1, "PBC").value;
    PositionBlockOk(lines, p + 1, parse);
    FindLineFirst(lines, i + 1, "PBC");
    FindLineFirst(lines, p + 1, "end");
  }

  /** A frame that reads finds its "PBC" line and a position block after it. */
  lemma {:induction false} ReadFrameOk(lines: seq<string>, i: nat, parse: FloatParser)
    requires i < |lines| && IsEnergyLine(lines[i])
    requires ReadFrame(lines, i, parse).Ok?
    ensures FindLine(lines, i + 1, "PBC").Ok?
    ensures var p := FindLine(lines, i + 1, "PBC").value;
            var (frame, e) := ReadFrame(lines, i, parse).value;
            PositionBlock(lines, p + 1, parse) == Ok((frame.positions, e))
  {
  }

  /** A position block that reads ends at the first "end" line. */
  lemma {:induction false} PositionBlockOk(lines: seq<string>, s: nat, parse: FloatParser)
    requires s <= |lines| && PositionBlock(lines, s, parse).Ok?
    ensures FindLine(lines, s, "end") == Ok(PositionBlock(lines, s, parse).value.1)
  {
  }

  /** Every frame the structure parser returns is the frame read at one of
      the energy lines from the cursor on, so `FrameContents` describes it. */
  lemma {:induction false} FramesFromEnergyLines(lines: seq<string>, i: nat, parse: FloatParser)
    requires StructureFrames(lines, i, parse).Ok?
    ensures forall f :: f in StructureFrames(lines, i, parse).value ==>
              exists j :: i <= j < |lines| && IsEnergyLine(lines[j]) &&
                          ReadFrame(lines, j, parse).Ok? && ReadFrame(lines, j, parse).value.0 == f
    decreases |lines| - i
  {
    if i < |lines| {
      if IsEnergyLine(lines[i]) {
        var (frame, e) := ReadFrame(lines, i, parse).value;
        FramesFromEnergyLines(lines, e + 1, parse);
      } else {
        FramesFromEnergyLines(lines, i + 1, parse);
      }
    }
  }

  // ---------------------------------------------------------------------
  // The report

  /** The lines of the merged report. */
  datatype ReportLine =
    | StressBlock                                  // the constant stress and lattice text
    | TableHeader                                  // "POSITION ... TOTAL-FORCE (eV/Angst)"
    | TableRule                                    // the dashed rule under it
    | Row(position: seq<real>, force: seq<real>)   // one atom: three coordinates, three force components
    | Blank
    | FreeEnergy(energy: real)                     // "free  energy   TOTEN  = ... eV"

  const FrameHead: seq<ReportLine> := [StressBlock, TableHeader, TableRule]

  function FrameTail(energy: real): seq<ReportLine> {
    [Blank, FreeEnergy(energy), Blank]
  }

  /** The table of one frame: position k beside force k, for as many atoms as
      both lists have; a position or force with fewer than three components
      is an IndexError. */
  function TableRows(positions: seq<seq<real>>, forces: seq<seq<real>>): (r: Result<seq<ReportLine>>)
    ensures r.Err? ==> r.error == IndexError
    ensures r.Ok? ==> |r.value| == Min(|positions|, |forces|)
  {
    if positions == [] || forces == [] then Ok([])
    else if |positions[0]| < 3 || |forces[0]| < 3 then Err(IndexError)
    else Prepend([Row(positions[0][..3], forces[0][..3])], TableRows(positions[1..], forces[1..]))
  }

  /** The table succeeds exactly when every paired position and force has
      three components, and then its row k pairs position k with force k. */
  lemma {:induction false} TableRowsSpec(positions: seq<seq<real>>, forces: seq<seq<real>>)
    ensures TableRows(positions, forces).Ok? <==>
              forall k :: 0 <= k < Min(|positions|, |forces|) ==> |positions[k]| >= 3 && |forces[k]| >= 3
    ensures TableRows(positions, forces).Ok? ==>
              forall k :: 0 <= k < Min(|positions|, |forces|) ==>
                TableRows(positions, forces).value[k] == Row(positions[k][..3], forces[k][..3])
  {
    if positions != [] && forces != [] {
      TableRowsSpec(positions[1..], forces[1..]);
      assert forall k :: 1 <= k < Min(|positions|, |forces|) ==>
               positions[1..][k - 1] == positions[k] && forces[1..][k - 1] == forces[k];
    }
  }

  /** Row `j` of the table, when both sides have three components. */
  lemma {:induction false} TableRowsStep(positions: seq<seq<real>>, forces: seq<seq<real>>, j: nat)
    requires j < |positions| && j < |forces|
    ensures TableRows(positions[j..], forces[j..])
         == if |positions[j]| < 3 || |forces[j]| < 3 then Err(IndexError)
            else Prepend([Row(positions[j][..3], forces[j][..3])], TableRows(positions[j + 1..], forces[j + 1..]))
  {
    assert positions[j..][0] == positions[j] && forces[j..][0] == forces[j];
    assert positions[j..][1..] == positions[j + 1..] && forces[j..][1..] == forces[j + 1..];
  }

  /** The report block of one frame: the stress block, the table header and
      its rule, one row per atom pair, then the energy between two blank
      lines. A short position or force is an IndexError. */
  function FrameReport(frame: StructureFrame, forces: ForceFrame): (r: Result<seq<ReportLine>>)
    ensures r.Ok? <==>
              forall k :: 0 <= k < Min(|frame.positions|, |forces|) ==> |frame.positions[k]| >= 3 && |forces[k]| >= 3
    ensures r.Err? ==> r.error == IndexError
    ensures r.Ok? ==> |r.value| == 6 + Min(|frame.positions|, |forces|)
    ensures r.Ok? ==> r.value[0] == StressBlock && r.value[1] == TableHeader && r.value[2] == TableRule
    ensures r.Ok? ==> forall k :: 0 <= k < Min(|frame.positions|, |forces|) ==>
                        r.value[3 + k] == Row(frame.positions[k][..3], forces[k][..3])
    ensures r.Ok? ==> var n := |r.value|;
                      r.value[n - 3] == Blank && r.value[n - 2] == FreeEnergy(frame.energy) && r.value[n - 1] == Blank
  {
    var table := TableRows(frame.positions, forces);
    TableRowsSpec(frame.positions, forces);
    if table.Err? then Err(table.error)
    else
      var block := FrameHead + table.value + FrameTail(frame.energy);
      assert forall k :: 0 <= k < |table.value| ==> block[3 + k] == table.value[k];
      Ok(block)
  }

  /** The report: one block per frame pair of `zip(frames, forces)`. */
  function Report(frames: seq<StructureFrame>, forces: seq<ForceFrame>): (r: Result<seq<ReportLine>>)
    ensures r.Err? ==> r.error == IndexError
  {
    if frames == [] || forces == [] then Ok([])
    else
      var block := FrameReport(frames[0], forces[0]);
      if block.Err? then Err(block.error) else Prepend(block.value, Report(frames[1..], forces[1..]))
  }

  /** The number of report blocks in a list of report lines. */
  function CountBlocks(lines: seq<ReportLine>): nat {
    if lines == [] then 0 else (if lines[0] == StressBlock then 1 else 0) + CountBlocks(lines[1..])
  }

  lemma {:induction false} BlockCount(a: seq<ReportLine>, b: seq<ReportLine>)
    ensures CountBlocks(a + b) == CountBlocks(a) + CountBlocks(b)
  {
    if a == [] {
      assert a + b == b;
    } else {
      assert (a + b)[0] == a[0] && (a + b)[1..] == a[1..] + b;
      BlockCount(a[1..], b);
    }
  }

  lemma {:induction false} RowsHaveNoBlock(positions: seq<seq<real>>, forces: seq<seq<real>>)
    requires TableRows(positions, forces).Ok?
    ensures CountBlocks(TableRows(positions, forces).value) == 0
  {
    if positions != [] && forces != [] {
      RowsHaveNoBlock(positions[1..], forces[1..]);
    }
  }

  /** One frame's report holds one block. */
  lemma {:induction false} FrameReportOneBlock(frame: StructureFrame, forces: ForceFrame)
    requires FrameReport(frame, forces).Ok?
    ensures CountBlocks(FrameReport(frame, forces).value) == 1
  {
    var rows := TableRows(frame.positions, forces).value;
    RowsHaveNoBlock(frame.positions, forces);
    BlockCount(FrameHead, rows);
    BlockCount(FrameHead + rows, FrameTail(frame.energy));
    var tail := FrameTail(frame.energy);
    assert CountBlocks(tail[2..]) == 0;
    assert CountBlocks(tail[1..]) == 0;
    assert CountBlocks(FrameHead[1..]) == 0;
  }

  /** The report holds one block per frame pair, as many as the shorter of
      the two frame lists, and it succeeds exactly when every paired frame's
      table does. */
  lemma {:induction false} ReportBlocks(frames: seq<StructureFrame>, forces: seq<ForceFrame>)
    ensures Report(frames, forces).Ok? ==> CountBlocks(Report(frames, forces).value) == Min(|frames|, |forces|)
    ensures Report(frames, forces).Ok? <==>
              forall k :: 0 <= k < Min(|frames|, |forces|) ==> TableRows(frames[k].positions, forces[k]).Ok?
  {
    if frames != [] && forces != [] {
      ReportBlocks(frames[1..], forces[1..]);
      assert forall k :: 1 <= k < Min(|frames|, |forces|) ==>
               frames[1..][k - 1] == frames[k] && forces[1..][k - 1] == forces[k];
      var block := FrameReport(frames[0], forces[0]);
      var rest := Report(frames[1..], forces[1..]);
      if block.Ok? && rest.Ok? {
        BlockCount(block.value, rest.value);
        FrameReportOneBlock(frames[0], forces[0]);
      }
    }
  }

  /** Report block `k`, of the frames from `k` on. */
  lemma {:induction false} ReportStep(frames: seq<StructureFrame>, forces: seq<ForceFrame>, k: nat)
    requires k < |frames| && k < |forces|
    ensures var block := FrameReport(frames[k], forces[k]);
            Report(frames[k..], forces[k..]) ==
              if block.Err? then Err(block.error) else Prepend(block.value, Report(frames[k + 1..], forces[k + 1..]))
  {
    assert frames[k..][0] == frames[k] && forces[k..][0] == forces[k];
    assert frames[k..][1..] == frames[k + 1..] && forces[k..][1..] == forces[k + 1..];
  }

  /** The report of one frame pair is that pair's block. */
  lemma {:induction false} ReportOne(frame: StructureFrame, forces: ForceFrame)
    ensures Report([frame], [forces]) == FrameReport(frame, forces)
  {
    var block := FrameReport(frame, forces);
    assert [frame][1..] == [] && [forces][1..] == [];
    if block.Ok? {
      assert block.value + [] == block.value;
    }
  }

  /** The report of paired lists laid end to end is the report of the first
      pairs followed by the report of the rest: block k is always
      `FrameReport(frames[k], forces[k])`. */
  lemma {:induction false} ReportAppend(a: seq<StructureFrame>, b: seq<StructureFrame>, c: seq<ForceFrame>, d: seq<ForceFrame>)
    requires |a| == |c|
    ensures Report(a + b, c + d).Ok? <==> Report(a, c).Ok? && Report(b, d).Ok?
    ensures Report(a + b, c + d).Ok? ==> Report(a + b, c + d).value == Report(a, c).value + Report(b, d).value
    decreases |a|
  {
    if a == [] {
      assert a + b == b && c + d == d;
    } else {
      assert (a + b)[0] == a[0] && (a + b)[1..] == a[1..] + b;
      assert (c + d)[0] == c[0] && (c + d)[1..] == c[1..] + d;
      ReportAppend(a[1..], b, c[1..], d);
      var block := FrameReport(a[0], c[0]);
      if block.Ok? && Report(a[1..], c[1..]).Ok? && Report(b, d).Ok? {
        assert block.value + (Report(a[1..], c[1..]).value + Report(b, d).value)
            == (block.value + Report(a[1..], c[1..]).value) + Report(b, d).value;
      }
    }
  }

  /** The inner loop of write_outcar: one table line per atom pair of
      `zip(positions, forces)`. */
  method WriteTable(positions: seq<seq<real>>, forces: seq<seq<real>>) returns (r: Result<seq<ReportLine>>)
    ensures r == TableRows(positions, forces)
  {
    var rows: seq<ReportLine> := [];
    var j := 0;
    var atoms := Min(|positions|, |forces|);
    assert positions[0..] == positions && forces[0..] == forces;
    PrependNothing(TableRows(positions, forces));
    while j < atoms
      invariant j <= atoms
      invariant TableRows(positions, forces) == Prepend(rows, TableRows(positions[j..], forces[j..]))
    {
      TableRowsStep(positions, forces, j);
      if |positions[j]| < 3 || |forces[j]| < 3 {
        return Err(IndexError);
      }
      var row := Row(positions[j][..3], forces[j][..3]);
      PrependTwice(rows, [row], TableRows(positions[j + 1..], forces[j + 1..]));
      rows := rows + [row];
      j := j + 1;
    }
    assert TableRows(positions[j..], forces[j..]) == Ok([]);
    assert rows + [] == rows;
    r := Ok(rows);
  }

  /** write_outcar: the loop over the frame pairs of `zip(frames, forces)`,
      each written as the stress block, the table and the energy. */
  method WriteReport(frames: seq<StructureFrame>, forces: seq<ForceFrame>) returns (r: Result<seq<ReportLine>>)
    ensures r == Report(frames, forces)
  {
    var out: seq<ReportLine> := [];
    var k := 0;
    var blocks := Min(|frames|, |forces|);
    assert frames[0..] == frames && forces[0..] == forces;
    PrependNothing(Report(frames, forces));
    while k < blocks
      invariant k <= blocks
      invariant Report(frames, forces) == Prepend(out, Report(frames[k..], forces[k..]))
    {
      ReportStep(frames, forces, k);
      var table := WriteTable(frames[k].positions, forces[k]);
      if table.Err? {
        return Err(table.error);
      }
      var block := FrameHead + table.value + FrameTail(frames[k].energy);
      PrependTwice(out, block, Report(frames[k + 1..], forces[k + 1..]));
      out := out + block;
      k := k + 1;
    }
    assert Report(frames[k..], forces[k..]) == Ok([]);
    assert out + [] == out;
    r := Ok(out);
  }

  // ---------------------------------------------------------------------
  // The driver

  /** The script's main block without the files: parse both archives, insist
      that their frame counts agree, and write the report. */
  function Merge(structureLines: seq<string>, forceLines: seq<string>, parse: FloatParser): (r: Result<seq<ReportLine>>)
    ensures r.Ok? ==> && StructureFrames(structureLines, 0, parse).Ok?
                      && ForceFrames(forceLines, 0, parse).Ok?
                      && |StructureFrames(structureLines, 0, parse).value| == |ForceFrames(forceLines, 0, parse).value|
    ensures StructureFrames(structureLines, 0, parse).Ok? && ForceFrames(forceLines, 0, parse).Ok?
            && |StructureFrames(structureLines, 0, parse).value| != |ForceFrames(forceLines, 0, parse).value|
            ==> r == Err(FrameCountMismatch)
    ensures StructureFrames(structureLines, 0, parse).Ok? && ForceFrames(forceLines, 0, parse).Ok?
            && |StructureFrames(structureLines, 0, parse).value| == |ForceFrames(forceLines, 0, parse).value|
            ==> r == Report(StructureFrames(structureLines, 0, parse).value, ForceFrames(forceLines, 0, parse).value)
  {
    match StructureFrames(structureLines, 0, parse)
    case Err(err) => Err(err)
    case Ok(frames) =>
      match ForceFrames(forceLines, 0, parse)
      case Err(err) => Err(err)
      case Ok(forces) =>
        if |frames| != |forces| then Err(FrameCountMismatch) else Report(frames, forces)
  }
}
