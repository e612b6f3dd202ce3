/** The archive reformatter (car_converter.py): it copies the first periodic
    "PBC ... P1" line of a structure file, collects its atom lines, sorts the
    atoms by element (in order of atomic number) and then by height, and
    writes them numbered from 1 between a fixed header and two "end" lines. */
module ArchiveReformatter {
  import opened Wrappers
  import opened Text
  import opened Floats
  import opened StableSort

  // ---------------------------------------------------------------------
  // Element ranks

  /** The elements in order of atomic number. */
  const PeriodicTableOrder: seq<string> := [
    "H", "He",
    "Li", "Be", "B", "C", "N", "O", "F", "Ne",
    "Na", "Mg", "Al", "Si", "P", "S", "Cl", "Ar",
    "K", "Ca", "Sc", "Ti", "V", "Cr", "Mn", "Fe", "Co", "Ni", "Cu", "Zn",
    "Ga", "Ge", "As", "Se", "Br", "Kr",
    "Rb", "Sr", "Y", "Zr", "Nb", "Mo", "Tc", "Ru", "Rh", "Pd", "Ag", "Cd",
    "In", "Sn", "Sb", "Te", "I", "Xe",
    "Cs", "Ba", "La", "Ce", "Pr", "Nd", "Pm", "Sm", "Eu", "Gd", "Tb", "Dy", "Ho", "Er", "Tm", "Yb",
    "Lu", "Hf", "Ta", "W", "Re", "Os", "Ir", "Pt", "Au", "Hg",
    "Tl", "Pb", "Bi", "Po", "At", "Rn",
    "Fr", "Ra", "Ac", "Th", "Pa", "U", "Np", "Pu", "Am", "Cm", "Bk", "Cf", "Es", "Fm", "Md", "No",
    "Lr", "Rf", "Db", "Sg", "Bh", "Hs", "Mt", "Ds", "Rg", "Cn",
    "Nh", "Fl", "Mc", "Lv", "Ts", "Og"
  ]

  /** Python's `s.index(x)` guarded by `x in s`: the first position of `x`,
      or `|s|` when `x` does not occur. */
  function IndexOf<T(==)>(s: seq<T>, x: T): (r: nat)
    ensures r <= |s|
    ensures r < |s| <==> x in s
    ensures r < |s| ==> s[r] == x
    ensures forall j :: 0 <= j < r ==> s[j] != x
  {
    if s == [] then 0
    else if s[0] == x then 0
    else
      var rest := IndexOf(s[1..], x);
      assert x in s ==> x in s[1..] by {
        if x in s {
          var j :| 0 <= j < |s| && s[j] == x;
          assert s[1..][j - 1] == x;
        }
      }
      1 + rest
  }

  /** get_element_order: the position of the capitalized element in the
      table; an element not in the table ranks 118, after every element
      that is. */
  function ElementOrder(element: string): (r: nat)
    ensures r <= |PeriodicTableOrder| == 118
    ensures r < 118 <==> Capitalize(element) in PeriodicTableOrder
    ensures r < 118 ==> PeriodicTableOrder[r] == Capitalize(element)
    ensures forall j :: 0 <= j < r ==> PeriodicTableOrder[j] != Capitalize(element)
  {
    var e := Capitalize(element);
    if e in PeriodicTableOrder then IndexOf(PeriodicTableOrder, e) else |PeriodicTableOrder|
  }

  // ---------------------------------------------------------------------
  // The lines of the input

  /** The energy line of the header, column by column. */
  const EnergyLine: string :=
    "                      " + "Energy         0" + "          0.0301" + "         -6.768682" + "        C1"

  /** The fixed first lines of the archive. */
  const Header: seq<string> := ["!BIOSYM archive 2", "PBC=ON", EnergyLine, "!DATE"]

  /** The header lines hold no newline. */
  lemma {:induction false} HeaderNoNewline()
    ensures |Header| == 4
    ensures forall k :: 0 <= k < |Header| ==> '\n' !in Header[k]
  {
    var a, b, c, d, e := "                      ", "Energy         0", "          0.0301", "         -6.768682", "        C1";
    assert forall i :: 0 <= i < |a| ==> a[i] != '\n';
    assert forall i :: 0 <= i < |b| ==> b[i] != '\n';
    assert forall i :: 0 <= i < |c| ==> c[i] != '\n';
    assert forall i :: 0 <= i < |d| ==> d[i] != '\n';
    assert forall i :: 0 <= i < |e| ==> e[i] != '\n';
    assert EnergyLine == a + b + c + d + e;
    var h0, h3 := "!BIOSYM archive 2", "!DATE";
    assert forall i :: 0 <= i < |h0| ==> h0[i] != '\n';
    assert forall i :: 0 <= i < |h3| ==> h3[i] != '\n';
  }

  /** A line whose stripped text starts with "PBC" and that contains "P1". */
  predicate IsPeriodicLine(line: string) {
    StartsWith(Strip(line), "PBC") && Contains(line, "P1")
  }

  /** The first periodic line at or after `i`, or `|lines|` when there is none. */
  function PeriodicSearch(lines: seq<string>, i: nat): (r: nat)
    requires i <= |lines|
    ensures i <= r <= |lines|
    ensures r < |lines| ==> IsPeriodicLine(lines[r])
    ensures forall j :: i <= j < r ==> !IsPeriodicLine(lines[j])
    decreases |lines| - i
  {
    if i == |lines| || IsPeriodicLine(lines[i]) then i else PeriodicSearch(lines, i + 1)
  }

  /** The lines the scan copies: the first periodic line, stripped, if any. */
  function PeriodicLines(lines: seq<string>): seq<string> {
    var k := PeriodicSearch(lines, 0);
    if k < |lines| then [Strip(lines[k])] else []
  }

  lemma {:induction false} PeriodicAtMostOne(lines: seq<string>)
    ensures |PeriodicLines(lines)| <= 1
  {
  }

  /** At most one line is copied: none when no line is periodic, and
      otherwise the first periodic line, stripped. */
  lemma {:induction false} PeriodicLinesSpec(lines: seq<string>)
    ensures |PeriodicLines(lines)| <= 1
    ensures PeriodicLines(lines) == [] <==> forall j :: 0 <= j < |lines| ==> !IsPeriodicLine(lines[j])
    ensures PeriodicLines(lines) != [] ==>
              exists k :: && 0 <= k < |lines|
                          && IsPeriodicLine(lines[k])
                          && (forall j :: 0 <= j < k ==> !IsPeriodicLine(lines[j]))
                          && PeriodicLines(lines) == [Strip(lines[k])]
  {
    var k := PeriodicSearch(lines, 0);
    if k < |lines| {
      assert IsPeriodicLine(lines[k]);
    }
  }

  /** An atom read from the input, with the line it came from. */
  datatype Atom = Atom(element: string, x: real, y: real, z: real, originalLine: string)

  /** The atom a line yields: a line of at least four tokens whose second to
      fourth tokens are numbers and whose first token does not start with
      "PBC"; the element is the first token without its digits, capitalized.
      A token `float` rejects makes the line yield nothing. */
  function AtomOf(line: string, parse: FloatParser): (r: Option<Atom>)
    ensures var parts := Split(Strip(line));
            r.Some? <==> && |parts| >= 4 && !StartsWith(parts[0], "PBC")
                         && parse(parts[1]).Some? && parse(parts[2]).Some? && parse(parts[3]).Some?
    ensures var parts := Split(Strip(line));
            r.Some? ==> && |parts| >= 4 && r.value.originalLine == line
                        && r.value.element == Capitalize(RemoveDigits(parts[0]))
                        && parse(parts[1]) == Some(r.value.x)
                        && parse(parts[2]) == Some(r.value.y)
                        && parse(parts[3]) == Some(r.value.z)
  {
    var parts := Split(Strip(line));
    if |parts| < 4 then None
    else
      var x, y, z := parse(parts[1]), parse(parts[2]), parse(parts[3]);
      if x.None? || y.None? || z.None? || StartsWith(parts[0], "PBC") then None
      else Some(Atom(Capitalize(RemoveDigits(parts[0])), x.value, y.value, z.value, line))
  }

  /** The element of an atom has no digits and is already capitalized, so
      its rank is its own position in the table. */
  lemma {:induction false} AtomElement(line: string, parse: FloatParser)
    requires AtomOf(line, parse).Some?
    ensures var e := AtomOf(line, parse).value.element;
            && (forall c :: c in e ==> !IsDigit(c))
            && Capitalize(e) == e
            && ElementOrder(e) == IndexOf(PeriodicTableOrder, e)
  {
    var parts := Split(Strip(line));
    CapitalizeKeepsNonDigits(RemoveDigits(parts[0]));
    CapitalizeIdempotent(RemoveDigits(parts[0]));
  }

  /** The items `pick` reads from the lines, in line order; a line it
      rejects contributes nothing. */
  function Collect<T>(lines: seq<string>, pick: string -> Option<T>): (r: seq<T>)
    ensures |r| <= |lines|
  {
    if lines == [] then []
    else
      var item := pick(lines[|lines| - 1]);
      Collect(lines[..|lines| - 1], pick) + (if item.Some? then [item.value] else [])
  }

  /** Collecting is line by line: two stretches of lines give the items of
      the first, then those of the second. */
  lemma {:induction false} CollectAppend<T>(a: seq<string>, b: seq<string>, pick: string -> Option<T>)
    ensures Collect(a + b, pick) == Collect(a, pick) + Collect(b, pick)
    decreases |b|
  {
    if b == [] {
      assert a + b == a;
    } else {
      var ab := a + b;
      assert ab[..|ab| - 1] == a + b[..|b| - 1];
      assert ab[|ab| - 1] == b[|b| - 1];
      CollectAppend(a, b[..|b| - 1], pick);
    }
  }

  /** An item is collected exactly when some line yields it. */
  lemma {:induction false} CollectSpec<T>(lines: seq<string>, pick: string -> Option<T>)
    ensures forall x :: x in Collect(lines, pick) <==> exists j :: 0 <= j < |lines| && pick(lines[j]) == Some(x)
  {
    if lines != [] {
      var init := lines[..|lines| - 1];
      CollectSpec(init, pick);
      assert forall j :: 0 <= j < |init| ==> init[j] == lines[j];
    }
  }

  /** Reading one more line adds what that line yields. */
  lemma {:induction false} CollectStep<T>(lines: seq<string>, j: nat, pick: string -> Option<T>)
    requires j < |lines|
    ensures var item := pick(lines[j]);
            Collect(lines[..j + 1], pick) == Collect(lines[..j], pick) + (if item.Some? then [item.value] else [])
  {
    assert lines[..j + 1][..j] == lines[..j];
  }

  /** The atom reader of the collecting loop. */
  function AtomReader(parse: FloatParser): string -> Option<Atom> {
    line => AtomOf(line, parse)
  }

  /** The atoms of the lines, in input order. */
  function CollectAtoms(lines: seq<string>, parse: FloatParser): (r: seq<Atom>)
    ensures |r| <= |lines|
  {
    Collect(lines, AtomReader(parse))
  }

  /** Collecting is line by line: the atoms of two stretches of lines are
      those of the first followed by those of the second. */
  lemma {:induction false} CollectAtomsAppend(a: seq<string>, b: seq<string>, parse: FloatParser)
    ensures CollectAtoms(a + b, parse) == CollectAtoms(a, parse) + CollectAtoms(b, parse)
  {
    CollectAppend(a, b, AtomReader(parse));
  }

  /** An atom is collected exactly when some line yields it. */
  lemma {:induction false} CollectAtomsSpec(lines: seq<string>, parse: FloatParser)
    ensures forall a :: a in CollectAtoms(lines, parse) <==>
                          exists j :: 0 <= j < |lines| && AtomOf(lines[j], parse) == Some(a)
  {
    CollectSpec(lines, AtomReader(parse));
    assert forall j :: 0 <= j < |lines| ==> AtomReader(parse)(lines[j]) == AtomOf(lines[j], parse);
  }

  // ---------------------------------------------------------------------
  // The order of the atoms

  /** The sort key `(get_element_order(element), z)`. */
  function AtomKey(atom: Atom): SortKey {
    SortKey(ElementOrder(atom.element), atom.z)
  }

  /** The collected atoms after `atoms.sort(key=...)`. */
  function SortedAtoms(lines: seq<string>, parse: FloatParser): (r: seq<Atom>)
    ensures multiset(r) == multiset(CollectAtoms(lines, parse))
    ensures SortedBy(r, AtomKey)
  {
    Sort(CollectAtoms(lines, parse), AtomKey)
  }

  /** The sorted atoms are the collected ones, ordered by element rank and
      then by height, with atoms of equal key in input order. */
  lemma {:induction false} SortedAtomsSpec(lines: seq<string>, parse: FloatParser)
    ensures multiset(SortedAtoms(lines, parse)) == multiset(CollectAtoms(lines, parse))
    ensures forall i, j :: 0 <= i < j < |SortedAtoms(lines, parse)| ==>
              var a, b := SortedAtoms(lines, parse)[i], SortedAtoms(lines, parse)[j];
              ElementOrder(a.element) < ElementOrder(b.element) ||
              (ElementOrder(a.element) == ElementOrder(b.element) && a.z <= b.z)
    ensures forall k :: WithKey(SortedAtoms(lines, parse), AtomKey, k) == WithKey(CollectAtoms(lines, parse), AtomKey, k)
  {
    var atoms := CollectAtoms(lines, parse);
    var sorted := SortedAtoms(lines, parse);
    assert SortedBy(sorted, AtomKey);
    forall k
      ensures WithKey(sorted, AtomKey, k) == WithKey(atoms, AtomKey, k)
    {
      SortStable(atoms, AtomKey, k);
    }
  }

  // ---------------------------------------------------------------------
  // The output

  /** The fields of the line of the atom numbered `index` (`fixed` is the
      `15.9f` rendering): the element left
      in four columns, the three coordinates, "CORE" right in six, the index
      right in six, the element right in four, twice, the charge
      `0.0000` right in ten and the index again right in eight. */
  function AtomFields(atom: Atom, index: nat, fixed: Formatter): (r: seq<string>)
    ensures |r| == 10
  {
    [PadRight(atom.element, 4),
     fixed(atom.x), fixed(atom.y), fixed(atom.z),
     PadLeft(" CORE", 6),
     PadLeft(NatToString(index), 6),
     PadLeft(atom.element, 4), PadLeft(atom.element, 4),
     PadLeft("0.0000", 10),
     PadLeft(NatToString(index), 8)]
  }

  /** The line of the atom numbered `index`. */
  function AtomLine(atom: Atom, index: nat, fixed: Formatter): string {
    Concat(AtomFields(atom, index, fixed))
  }

  /** Both index fields of an atom line hold the index, written in decimal
      with no leading zero. */
  lemma {:induction false} AtomLineIndexFields(atom: Atom, index: nat, fixed: Formatter)
    ensures var fields := AtomFields(atom, index, fixed);
            && Strip(fields[5]) == NatToString(index)
            && Strip(fields[9]) == NatToString(index)
  {
    StripPadded(NatToString(index), 6);
    StripPadded(NatToString(index), 8);
  }

  /** The index fields right-align the index in columns 6 and 8 wide,
      padded on the left with spaces. */
  lemma {:induction false} AtomLineIndexAligned(atom: Atom, index: nat, fixed: Formatter)
    ensures RightAligned(AtomFields(atom, index, fixed)[5], NatToString(index), 6)
    ensures RightAligned(AtomFields(atom, index, fixed)[9], NatToString(index), 8)
  {
    AtomFieldsIndex(atom, index, fixed);
    PadLeftAligned(NatToString(index), 6);
    PadLeftAligned(NatToString(index), 8);
  }

  lemma {:induction false} AtomFieldsIndex(atom: Atom, index: nat, fixed: Formatter)
    ensures AtomFields(atom, index, fixed)[5] == PadLeft(NatToString(index), 6)
    ensures AtomFields(atom, index, fixed)[9] == PadLeft(NatToString(index), 8)
  {
  }

  /** An atom line starts with the element and ends with the index. */
  lemma {:induction false} AtomLineEnds(atom: Atom, index: nat, fixed: Formatter)
    ensures StartsWith(AtomLine(atom, index, fixed), atom.element)
    ensures var line, n := AtomLine(atom, index, fixed), NatToString(index);
            |n| <= |line| && line[|line| - |n|..] == n
  {
    var fields := AtomFields(atom, index, fixed);
    var line := Concat(fields);
    ConcatFirst(fields);
    ConcatLast(fields);
    PrefixOfPrefix(line, fields[0], atom.element);
    SuffixOfSuffix(line, fields[9], NatToString(index));
  }

  /** Lines numbered from 1: `render(items[k], k + 1)` for each item, in order. */
  function Numbered<T>(items: seq<T>, render: (T, nat) -> string): (r: seq<string>)
    ensures |r| == |items|
    decreases |items|
  {
    if items == [] then []
    else Numbered(items[..|items| - 1], render) + [render(items[|items| - 1], |items|)]
  }

  /** The k-th numbered line (from 0) renders item k with number k + 1. */
  lemma {:induction false} NumberedAt<T>(items: seq<T>, k: nat, render: (T, nat) -> string)
    requires k < |items|
    ensures Numbered(items, render)[k] == render(items[k], k + 1)
    decreases |items|
  {
    var n := |items| - 1;
    if k < n {
      NumberedAt(items[..n], k, render);
      assert items[..n][k] == items[k];
    }
  }

  /** Numbering one more item appends one line. */
  lemma {:induction false} NumberedStep<T>(items: seq<T>, k: nat, render: (T, nat) -> string)
    requires k < |items|
    ensures Numbered(items[..k + 1], render) == Numbered(items[..k], render) + [render(items[k], k + 1)]
  {
    assert items[..k + 1][..k] == items[..k];
  }

  /** The atom line for an atom and its index. */
  function Render(fixed: Formatter): (Atom, nat) -> string {
    (atom: Atom, index: nat) => AtomLine(atom, index, fixed)
  }

  /** The numbered atom lines: the atoms in order, the first carrying index 1. */
  function NumberedLines(atoms: seq<Atom>, fixed: Formatter): seq<string> {
    Numbered(atoms, Render(fixed))
  }

  /** The k-th atom (from 0) is written with index k + 1. */
  lemma {:induction false} NumberedLinesAt(atoms: seq<Atom>, k: nat, fixed: Formatter)
    requires k < |atoms|
    ensures NumberedLines(atoms, fixed)[k] == AtomLine(atoms[k], k + 1, fixed)
  {
    NumberedAt(atoms, k, Render(fixed));
  }

  /** The lines of the converted archive, given the header, the copied
      periodic lines and the sorted atoms. */
  function LinesOf(header: seq<string>, p: seq<string>, atoms: seq<Atom>, fixed: Formatter): seq<string> {
    header + p + NumberedLines(atoms, fixed) + ["end", "end"]
  }

  /** The lines of the converted archive. */
  function ArchiveLines(lines: seq<string>, parse: FloatParser, fixed: Formatter): (r: seq<string>)
    ensures |r| == |Header| + |PeriodicLines(lines)| + |SortedAtoms(lines, parse)| + 2
    ensures r[..|Header|] == Header && r[|r| - 2..] == ["end", "end"]
  {
    var atoms := SortedAtoms(lines, parse);
    LinesOfLayout(Header, PeriodicLines(lines), atoms, fixed);
    LinesOf(Header, PeriodicLines(lines), atoms, fixed)
  }

  /** Where the parts sit in the lines of the converted archive. */
  lemma {:induction false} LinesOfLayout(header: seq<string>, p: seq<string>, atoms: seq<Atom>, fixed: Formatter)
    ensures var out, h := LinesOf(header, p, atoms, fixed), |header|;
            && |out| == h + |p| + |atoms| + 2
            && out[..h] == header
            && out[h..h + |p|] == p
            && (forall k :: 0 <= k < |atoms| ==> out[h + |p| + k] == AtomLine(atoms[k], k + 1, fixed))
            && out[|out| - 2..] == ["end", "end"]
  {
    var numbered := NumberedLines(atoms, fixed);
    FourParts(header, p, numbered, ["end", "end"]);
    forall k | 0 <= k < |atoms|
      ensures numbered[k] == AtomLine(atoms[k], k + 1, fixed)
    {
      NumberedLinesAt(atoms, k, fixed);
    }
  }

  /** The converted archive: four header lines, at most one periodic line,
      one line per atom with consecutive indices from 1, and two "end" lines. */
  lemma {:induction false} ArchiveLayout(lines: seq<string>, parse: FloatParser, fixed: Formatter)
    ensures var out, h, p, atoms := ArchiveLines(lines, parse, fixed), |Header|, PeriodicLines(lines), SortedAtoms(lines, parse);
            && |out| == h + |p| + |atoms| + 2
            && |p| <= 1
            && out[..h] == Header
            && out[h..h + |p|] == p
            && (forall k :: 0 <= k < |atoms| ==> out[h + |p| + k] == AtomLine(atoms[k], k + 1, fixed))
            && out[|out| - 2..] == ["end", "end"]
  {
    PeriodicAtMostOne(lines);
    LinesOfLayout(Header, PeriodicLines(lines), SortedAtoms(lines, parse), fixed);
  }

  /** Where each of four concatenated parts sits in the whole. */
  lemma {:induction false} FourParts<T>(a: seq<T>, b: seq<T>, c: seq<T>, d: seq<T>)
    ensures var out := a + b + c + d;
            && |out| == |a| + |b| + |c| + |d|
            && out[..|a|] == a
            && out[|a|..|a| + |b|] == b
            && (forall k :: 0 <= k < |c| ==> out[|a| + |b| + k] == c[k])
            && out[|out| - |d|..] == d
  {
  }

  /** An element read from a token has no whitespace in it. */
  lemma {:induction false} ElementHasNoSpace(line: string, parse: FloatParser)
    requires AtomOf(line, parse).Some?
    ensures forall c :: c in AtomOf(line, parse).value.element ==> !IsSpace(c)
  {
    var parts := Split(Strip(line));
    SplitSpec(Strip(line));
    assert IsToken(parts[0]);
    CapitalizeKeepsNonSpaces(RemoveDigits(parts[0]));
  }

  /** Every sorted atom was read from some line. */
  lemma {:induction false} SortedAtomFromLine(lines: seq<string>, parse: FloatParser, k: nat)
    requires k < |SortedAtoms(lines, parse)|
    ensures exists j :: 0 <= j < |lines| && AtomOf(lines[j], parse) == Some(SortedAtoms(lines, parse)[k])
  {
    var a := SortedAtoms(lines, parse)[k];
    assert a in multiset(SortedAtoms(lines, parse));
    assert a in CollectAtoms(lines, parse);
    CollectAtomsSpec(lines, parse);
  }

  /** An atom line has no newline when neither its element nor the
      renderings of its coordinates have one. */
  lemma {:induction false} AtomLineNoNewline(atom: Atom, index: nat, fixed: Formatter)
    requires '\n' !in atom.element
    requires '\n' !in fixed(atom.x) && '\n' !in fixed(atom.y) && '\n' !in fixed(atom.z)
    ensures '\n' !in AtomLine(atom, index, fixed)
  {
    AtomFieldsNoNewline(atom, index, fixed);
    ConcatNoNewline(AtomFields(atom, index, fixed));
  }

  lemma {:induction false} AtomFieldsNoNewline(atom: Atom, index: nat, fixed: Formatter)
    requires '\n' !in atom.element
    requires '\n' !in fixed(atom.x) && '\n' !in fixed(atom.y) && '\n' !in fixed(atom.z)
    ensures NoNewlines(AtomFields(atom, index, fixed))
  {
    PadNoNewline(atom.element, 4);
    PadNoNewline(" CORE", 6);
    PadNoNewline(NatToString(index), 6);
    PadNoNewline("0.0000", 10);
    PadNoNewline(NatToString(index), 8);
  }

  /** No line of the list holds a newline. */
  predicate NoNewlines(ls: seq<string>) {
    forall k :: 0 <= k < |ls| ==> '\n' !in ls[k]
  }

  lemma {:induction false} NoNewlinesAppend(a: seq<string>, b: seq<string>)
    requires NoNewlines(a) && NoNewlines(b)
    ensures NoNewlines(a + b)
  {
    assert forall k :: |a| <= k < |a + b| ==> (a + b)[k] == b[k - |a|];
  }

  /** The line of the k-th sorted atom has no newline. */
  lemma {:induction false} SortedAtomLineNoNewline(lines: seq<string>, parse: FloatParser, fixed: Formatter, k: nat)
    requires forall x :: '\n' !in fixed(x)
    requires k < |SortedAtoms(lines, parse)|
    ensures '\n' !in AtomLine(SortedAtoms(lines, parse)[k], k + 1, fixed)
  {
    var atom := SortedAtoms(lines, parse)[k];
    SortedAtomFromLine(lines, parse, k);
    var j :| 0 <= j < |lines| && AtomOf(lines[j], parse) == Some(atom);
    ElementHasNoSpace(lines[j], parse);
    assert '\n' !in atom.element;
    AtomLineNoNewline(atom, k + 1, fixed);
  }

  /** The atom lines have no newline. */
  lemma {:induction false} NumberedLinesNoNewline(lines: seq<string>, parse: FloatParser, fixed: Formatter)
    requires forall x :: '\n' !in fixed(x)
    ensures NoNewlines(NumberedLines(SortedAtoms(lines, parse), fixed))
  {
    var atoms := SortedAtoms(lines, parse);
    forall k | 0 <= k < |atoms|
      ensures '\n' !in NumberedLines(atoms, fixed)[k]
    {
      SortedAtomLineNoNewline(lines, parse, fixed, k);
      NumberedLinesAt(atoms, k, fixed);
    }
  }

  /** No line of the converted archive holds a newline, given input lines as
      `readlines` yields them and a number rendering without newlines. */
  lemma {:induction false} ArchiveLinesNoNewline(lines: seq<string>, parse: FloatParser, fixed: Formatter)
    requires forall j :: 0 <= j < |lines| ==> IsFileLine(lines[j])
    requires forall x :: '\n' !in fixed(x)
    ensures NoNewlines(ArchiveLines(lines, parse, fixed))
  {
    HeaderNoNewline();
    PeriodicNoNewline(lines);
    NumberedLinesNoNewline(lines, parse, fixed);
    LinesOfNoNewline(Header, PeriodicLines(lines), SortedAtoms(lines, parse), fixed);
  }

  /** The copied periodic line holds no newline. */
  lemma {:induction false} PeriodicNoNewline(lines: seq<string>)
    requires forall j :: 0 <= j < |lines| ==> IsFileLine(lines[j])
    ensures NoNewlines(PeriodicLines(lines))
  {
    var k := PeriodicSearch(lines, 0);
    if k < |lines| {
      StripNoNewline(lines[k]);
    }
  }

  /** The output lines hold no newline when none of their parts does. */
  lemma {:induction false} LinesOfNoNewline(header: seq<string>, p: seq<string>, atoms: seq<Atom>, fixed: Formatter)
    requires NoNewlines(header) && NoNewlines(p) && NoNewlines(NumberedLines(atoms, fixed))
    ensures NoNewlines(LinesOf(header, p, atoms, fixed))
  {
    NoNewlinesFour(header, p, NumberedLines(atoms, fixed), ["end", "end"]);
  }

  lemma {:induction false} NoNewlinesFour(a: seq<string>, b: seq<string>, c: seq<string>, d: seq<string>)
    requires NoNewlines(a) && NoNewlines(b) && NoNewlines(c) && NoNewlines(d)
    ensures NoNewlines(a + b + c + d)
  {
    NoNewlinesAppend(a, b);
    NoNewlinesAppend(a + b, c);
    NoNewlinesAppend(a + b + c, d);
  }

  /** The written text splits at its newlines back into the output lines:
      they are joined with "\n" and no newline follows the last. */
  lemma {:induction false} ArchiveTextLines(lines: seq<string>, parse: FloatParser, fixed: Formatter)
    requires forall j :: 0 <= j < |lines| ==> IsFileLine(lines[j])
    requires forall x :: '\n' !in fixed(x)
    ensures SplitOn(Join(ArchiveLines(lines, parse, fixed), "\n"), '\n') == ArchiveLines(lines, parse, fixed)
  {
    ArchiveLinesNoNewline(lines, parse, fixed);
    JoinSplitOnRoundTrip(ArchiveLines(lines, parse, fixed), '\n');
  }

  /** The periodic line is never read as an atom. */
  lemma {:induction false} PeriodicLineIsNoAtom(line: string, parse: FloatParser)
    requires IsPeriodicLine(line)
    ensures AtomOf(line, parse).None?
  {
    var s := Strip(line);
    StripSpec(line);
    assert !IsSpace(s[0]);
    var parts := Split(s);
    TrimLeftSpec(s);
    assert TrimLeft(s) == s;
    var w := Word(s);
    WordSpec(s);
    assert parts[0] == w;
    assert forall k :: 0 <= k < 3 ==> !IsSpace(s[k]) by {
      assert s[..3] == "PBC";
    }
    assert |w| >= 3;
    assert w[..3] == s[..3];
  }

  /** One pass of a numbering loop appends the next numbered line. */
  lemma {:induction false} AppendNumbered<T>(output: seq<string>, out: seq<string>, items: seq<T>, k: nat, render: (T, nat) -> string)
    requires k < |items|
    requires out == output + Numbered(items[..k], render)
    ensures out + [render(items[k], k + 1)] == output + Numbered(items[..k + 1], render)
  {
    NumberedStep(items, k, render);
  }

  /** The scan of convert_type1_to_type2 for the periodic line: the first
      one found is appended, stripped, and the scan stops. */
  method CopyPeriodicLine(output: seq<string>, lines: seq<string>) returns (out: seq<string>)
    ensures out == output + PeriodicLines(lines)
  {
    out := output;
    var added := false;
    for j := 0 to |lines|
      invariant !added && out == output
      invariant PeriodicSearch(lines, 0) == PeriodicSearch(lines, j)
    {
      if IsPeriodicLine(lines[j]) && !added {
        assert PeriodicLines(lines) == [Strip(lines[j])];
        out := out + [Strip(lines[j])];
        added := true;
        break;
      }
    }
    if !added {
      assert PeriodicLines(lines) == [];
      assert out + [] == out;
    }
  }

  /** The collecting loop of convert_type1_to_type2. */
  method ReadAtoms(lines: seq<string>, parse: FloatParser) returns (atoms: seq<Atom>)
    ensures atoms == CollectAtoms(lines, parse)
  {
    atoms := [];
    for j := 0 to |lines|
      invariant atoms == CollectAtoms(lines[..j], parse)
    {
      CollectStep(lines, j, AtomReader(parse));
      var atom := AtomOf(lines[j], parse);
      if atom.Some? {
        atoms := atoms + [atom.value];
      }
    }
    assert lines[..|lines|] == lines;
  }

  /** The writing loop of convert_type1_to_type2: one line per atom, the
      counter starting at 1. */
  method AppendAtomLines(output: seq<string>, atoms: seq<Atom>, fixed: Formatter) returns (out: seq<string>)
    ensures out == output + NumberedLines(atoms, fixed)
  {
    out := output;
    var atomIndex := 1;
    for k := 0 to |atoms|
      invariant atomIndex == k + 1
      invariant out == output + NumberedLines(atoms[..k], fixed)
    {
      AppendNumbered(output, out, atoms, k, Render(fixed));
      out := out + [AtomLine(atoms[k], atomIndex, fixed)];
      atomIndex := atomIndex + 1;
    }
    assert atoms[..|atoms|] == atoms;
  }

  /** convert_type1_to_type2 without the files: the text it writes for the
      lines it reads. */
  method Convert(lines: seq<string>, parse: FloatParser, fixed: Formatter) returns (text: string)
    ensures text == Join(ArchiveLines(lines, parse, fixed), "\n")
  {
    var output := Header;
    output := CopyPeriodicLine(output, lines);
    var atoms := ReadAtoms(lines, parse);
    atoms := Sort(atoms, AtomKey);
    output := AppendAtomLines(output, atoms, fixed);
    output := output + ["end"];
    output := output + ["end"];
    assert output == ArchiveLines(lines, parse, fixed);
    text := Join(output, "\n");
  }
}
