/** Python's `float(token)` and the two ways the converters apply it to a
    line's tokens. The text-to-number conversion itself is not modelled: it
    is a parameter, `None` standing for the `ValueError` that `float` raises.
    So is the reverse, the fixed-point rendering of a number. */
module Floats {
  import opened Wrappers

  /** Python's `float(token)`, supplied by the caller. */
  type FloatParser = string -> Option<real>

  /** A fixed-point rendering of a number (a format such as `%19.15f`),
      supplied by the caller. */
  type Formatter = real -> string

  /** `list(map(float, tokens))`, or `[float(x) for x in tokens]`: the
      numbers, or ValueError when any token is rejected. */
  function ParseNumbers(tokens: seq<string>, parse: FloatParser): (r: Result<seq<real>>)
    ensures r.Ok? ==> |r.value| == |tokens|
    ensures r.Err? ==> r.error == ValueError
  {
    if tokens == [] then Ok([])
    else
      match parse(tokens[0])
      case None => Err(ValueError)
      case Some(x) => Prepend([x], ParseNumbers(tokens[1..], parse))
  }

  /** The numbers are those of the tokens, one for one, and ValueError comes
      exactly when some token is rejected. */
  lemma {:induction false} ParseNumbersSpec(tokens: seq<string>, parse: FloatParser)
    ensures ParseNumbers(tokens, parse).Ok? <==> forall k :: 0 <= k < |tokens| ==> parse(tokens[k]).Some?
    ensures ParseNumbers(tokens, parse).Ok? ==>
              forall k :: 0 <= k < |tokens| ==> parse(tokens[k]) == Some(ParseNumbers(tokens, parse).value[k])
  {
    if tokens != [] {
      ParseNumbersSpec(tokens[1..], parse);
      assert forall k :: 1 <= k < |tokens| ==> tokens[k] == tokens[1..][k - 1];
    }
  }

  /** The rows a block of lines yields: for each line, in order, that `pick`
      selects tokens from, the numbers those tokens denote. The first line
      whose tokens `float` rejects aborts with ValueError. */
  function ParseRows(block: seq<string>, pick: string -> Option<seq<string>>, parse: FloatParser)
    : (r: Result<seq<seq<real>>>)
    ensures r.Err? ==> r.error == ValueError
    ensures r.Ok? ==> |r.value| <= |block|
  {
    if block == [] then Ok([])
    else
      match pick(block[0])
      case None => ParseRows(block[1..], pick, parse)
      case Some(tokens) =>
        match ParseNumbers(tokens, parse)
        case Err(e) => Err(e)
        case Ok(row) => Prepend([row], ParseRows(block[1..], pick, parse))
  }

  /** The rows of two adjacent blocks are the rows of the first followed by
      those of the second; an error in the first is the error of both. */
  lemma {:induction false} ParseRowsAppend(a: seq<string>, b: seq<string>, pick: string -> Option<seq<string>>, parse: FloatParser)
    ensures ParseRows(a + b, pick, parse)
         == match ParseRows(a, pick, parse)
            case Ok(rows) => Prepend(rows, ParseRows(b, pick, parse))
            case Err(e) => Err(e)
  {
    if a == [] {
      assert a + b == b;
      match ParseRows(b, pick, parse)
      case Ok(rows) => assert [] + rows == rows;
      case Err(_) =>
    } else {
      assert (a + b)[0] == a[0] && (a + b)[1..] == a[1..] + b;
      ParseRowsAppend(a[1..], b, pick, parse);
      match pick(a[0])
      case None =>
      case Some(tokens) =>
        match ParseNumbers(tokens, parse)
        case Err(_) =>
        case Ok(row) =>
          match ParseRows(a[1..], pick, parse)
          case Err(_) =>
          case Ok(rest) =>
            match ParseRows(b, pick, parse)
            case Err(_) =>
            case Ok(more) => assert [row] + (rest + more) == ([row] + rest) + more;
    }
  }

  /** Extending a block by one line: the rows of the block so far, then that
      line's row if it is picked. */
  lemma {:induction false} ParseRowsSnoc(block: seq<string>, line: string, pick: string -> Option<seq<string>>, parse: FloatParser)
    ensures ParseRows(block + [line], pick, parse)
         == match ParseRows(block, pick, parse)
            case Err(e) => Err(e)
            case Ok(rows) =>
              match pick(line)
              case None => Ok(rows)
              case Some(tokens) =>
                match ParseNumbers(tokens, parse)
                case Err(e) => Err(e)
                case Ok(row) => Ok(rows + [row])
  {
    ParseRowsAppend(block, [line], pick, parse);
    assert [line][1..] == [];
    assert ParseRows([line][1..], pick, parse) == Ok([]);
    match pick(line) {
      case None =>
        assert ParseRows([line], pick, parse) == Ok([]);
        match ParseRows(block, pick, parse) {
          case Err(_) =>
          case Ok(rows) => assert rows + [] == rows;
        }
      case Some(tokens) =>
        match ParseNumbers(tokens, parse) {
          case Err(_) =>
          case Ok(row) =>
            assert [row] + [] == [row];
            assert ParseRows([line], pick, parse) == Ok([row]);
        }
    }
  }

  /** Growing a window `lines[a..b]` of lines by the line at `b`: a line
      `pick` does not select adds nothing, ... */
  lemma {:induction false} RowsStepSkip(lines: seq<string>, a: nat, b: nat, pick: string -> Option<seq<string>>,
                     parse: FloatParser, rows: seq<seq<real>>)
    requires a <= b < |lines|
    requires ParseRows(lines[a..b], pick, parse) == Ok(rows)
    requires pick(lines[b]).None?
    ensures ParseRows(lines[a..b + 1], pick, parse) == Ok(rows)
  {
    assert lines[a..b + 1] == lines[a..b] + [lines[b]];
    ParseRowsSnoc(lines[a..b], lines[b], pick, parse);
  }

  /** ... a selected line whose tokens parse adds their row, ... */
  lemma {:induction false} RowsStepTake(lines: seq<string>, a: nat, b: nat, pick: string -> Option<seq<string>>,
                     parse: FloatParser, rows: seq<seq<real>>, row: seq<real>)
    requires a <= b < |lines|
    requires ParseRows(lines[a..b], pick, parse) == Ok(rows)
    requires pick(lines[b]).Some? && ParseNumbers(pick(lines[b]).value, parse) == Ok(row)
    ensures ParseRows(lines[a..b + 1], pick, parse) == Ok(rows + [row])
  {
    assert lines[a..b + 1] == lines[a..b] + [lines[b]];
    ParseRowsSnoc(lines[a..b], lines[b], pick, parse);
  }

  /** ... and a selected line whose tokens do not parse fails the window. */
  lemma {:induction false} RowsStepFail(lines: seq<string>, a: nat, b: nat, pick: string -> Option<seq<string>>, parse: FloatParser)
    requires a <= b < |lines|
    requires pick(lines[b]).Some? && ParseNumbers(pick(lines[b]).value, parse).Err?
    ensures ParseRows(lines[a..b + 1], pick, parse).Err?
  {
    assert lines[a..b + 1] == lines[a..b] + [lines[b]];
    ParseRowsSnoc(lines[a..b], lines[b], pick, parse);
  }

  /** A window whose first part fails fails as a whole. */
  lemma {:induction false} RowsFailExtend(lines: seq<string>, a: nat, k: nat, b: nat,
                       pick: string -> Option<seq<string>>, parse: FloatParser)
    requires a <= k <= b <= |lines|
    requires ParseRows(lines[a..k], pick, parse).Err?
    ensures ParseRows(lines[a..b], pick, parse).Err?
  {
    assert lines[a..b] == lines[a..k] + lines[k..b];
    ParseRowsAppend(lines[a..k], lines[k..b], pick, parse);
  }

  /** One pass of a row loop: the line at `b` is added to the rows read
      from `lines[a..b]`. */
  method ReadRow(lines: seq<string>, a: nat, b: nat, pick: string -> Option<seq<string>>,
                 parse: FloatParser, rows: seq<seq<real>>) returns (r: Result<seq<seq<real>>>)
    requires a <= b < |lines|
    requires ParseRows(lines[a..b], pick, parse) == Ok(rows)
    ensures r == ParseRows(lines[a..b + 1], pick, parse)
  {
    var tokens := pick(lines[b]);
    if tokens.None? {
      RowsStepSkip(lines, a, b, pick, parse, rows);
      return Ok(rows);
    }
    var row := ParseNumbers(tokens.value, parse);
    if row.Err? {
      RowsStepFail(lines, a, b, pick, parse);
      return Err(ValueError);
    }
    RowsStepTake(lines, a, b, pick, parse, rows, row.value);
    r := Ok(rows + [row.value]);
  }
}
