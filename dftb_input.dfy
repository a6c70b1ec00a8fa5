/** The DFTB+ input document `run_dftb` writes to `dftb_in.hsd`: the geometry block
    naming the coordinate file, one `MaxAngularMomentum` line per supported element
    that is present, and a fixed Slater-Koster / Options / Analysis block. */
module DftbInput {
  import opened Sequences

  /** Symbol and angular momentum of the supported elements, in the order of the
      six `if ... in elements` tests. */
  const MaxAngularMomenta: seq<(string, string)> :=
    [("C", "p"), ("H", "s"), ("N", "p"), ("O", "p"), ("S", "p"), ("Si", "d")]

  /** The opening geometry block, which reads the coordinates from `path`. */
  function GeometryBlock(path: string): string
  {
    "Geometry = xyzFormat{\n" + "  <<< \"" + path + "\"\n" + "}\n"
  }

  /** The Hamiltonian settings up to the opening of the `MaxAngularMomentum` block. */
  const HamiltonianHead: string :=
    "\nHamiltonian = DFTB {\n    SCC = Yes\n    SCCTolerance = 1.0e-5\n    Charge = 0.0\n    \n    MaxSCCIterations = 500\n    \n    MaxAngularMomentum = {\n"

  /** Everything after the angular-momentum lines. */
  const DftbTail: string :=
    "    }\n    \n    SlaterKosterFiles = Type2FileNames {\n            Prefix = \"/home/wxie/test-parameters/MIO/Compressed/\"\n            Separator = \"\"\n            Suffix = \"-c.spl\"\n            LowerCaseTypeName = Yes\n            }\n            \n}\n\nOptions = {\n    WriteDetailedXML = Yes\n}\n\nAnalysis = {\n    WriteEigenvectors = Yes\n}"

  /** The line selecting the angular momentum of one element. */
  function AngularMomentumLine(entry: (string, string)): string
  {
    "          " + entry.0 + " = '" + entry.1 + "'\n"
  }

  /** The entries of `table` whose symbol occurs in `elements`, in table order:
      the six consecutive `if` statements, read as one filter. */
  function SelectPresent(table: seq<(string, string)>, elements: seq<string>): seq<(string, string)>
  {
    Filter(table, (entry: (string, string)) => entry.0 in elements)
  }

  /** The angular-momentum lines for the supported elements present. */
  function AngularMomentumLines(elements: seq<string>): (lines: seq<string>)
    ensures |lines| == |SelectPresent(MaxAngularMomenta, elements)|
  {
    var selected := SelectPresent(MaxAngularMomenta, elements);
    seq(|selected|, i requires 0 <= i < |selected| => AngularMomentumLine(selected[i]))
  }

  function Concat(lines: seq<string>): string
  {
    if lines == [] then "" else lines[0] + Concat(lines[1..])
  }

  predicate IsSuffix(tail: string, s: string)
  {
    |tail| <= |s| && s[|s| - |tail|..] == tail
  }

  /** The text `run_dftb` builds for the coordinate file `path`. */
  function DftbDocument(path: string, elements: seq<string>): (doc: string)
    ensures GeometryBlock(path) + HamiltonianHead <= doc
    ensures IsSuffix(DftbTail, doc)
  {
    GeometryBlock(path) + HamiltonianHead + Concat(AngularMomentumLines(elements)) + DftbTail
  }

  lemma SelectPresentMembers(table: seq<(string, string)>, elements: seq<string>, entry: (string, string))
    ensures entry in SelectPresent(table, elements) <==> entry in table && entry.0 in elements
  {
    FilterMembers(table, (entry: (string, string)) => entry.0 in elements, entry);
  }

  /** The six supported elements have six different angular-momentum lines. */
  lemma SupportedLinesDistinct()
    ensures NoDuplicates(MaxAngularMomenta)
    ensures forall i, j :: 0 <= i < j < |MaxAngularMomenta| ==>
      AngularMomentumLine(MaxAngularMomenta[i]) != AngularMomentumLine(MaxAngularMomenta[j])
  {
    forall i, j | 0 <= i < j < |MaxAngularMomenta|
      ensures AngularMomentumLine(MaxAngularMomenta[i]) != AngularMomentumLine(MaxAngularMomenta[j])
    {
      var li, lj := AngularMomentumLine(MaxAngularMomenta[i]), AngularMomentumLine(MaxAngularMomenta[j]);
      assert li[10] != lj[10] || li[11] != lj[11];
    }
  }

  /** For each supported element the angular-momentum block has its line exactly
      when the element is present; the values are H 's', Si 'd' and 'p' otherwise. */
  lemma AngularMomentumLinePresent(elements: seq<string>, k: nat)
    requires k < |MaxAngularMomenta|
    ensures AngularMomentumLine(MaxAngularMomenta[k]) in AngularMomentumLines(elements)
            <==> MaxAngularMomenta[k].0 in elements
  {
    var entry := MaxAngularMomenta[k];
    var selected := SelectPresent(MaxAngularMomenta, elements);
    var lines := AngularMomentumLines(elements);
    SupportedLinesDistinct();
    if entry.0 in elements {
      SelectPresentMembers(MaxAngularMomenta, elements, entry);
      var i :| 0 <= i < |selected| && selected[i] == entry;
      assert lines[i] == AngularMomentumLine(entry);
    }
    if AngularMomentumLine(entry) in lines {
      var i :| 0 <= i < |lines| && lines[i] == AngularMomentumLine(entry);
      SelectPresentMembers(MaxAngularMomenta, elements, selected[i]);
      var k' :| 0 <= k' < |MaxAngularMomenta| && MaxAngularMomenta[k'] == selected[i];
      assert k' == k;
    }
  }

  /** Every angular-momentum line belongs to a supported element that is present,
      so symbols outside C, H, N, O, S, Si (P, F, Cl, ...) add no line. */
  lemma AngularMomentumLinesSupported(elements: seq<string>, line: string)
    requires line in AngularMomentumLines(elements)
    ensures exists k :: 0 <= k < |MaxAngularMomenta| && MaxAngularMomenta[k].0 in elements &&
                        line == AngularMomentumLine(MaxAngularMomenta[k])
  {
    var selected := SelectPresent(MaxAngularMomenta, elements);
    var i :| 0 <= i < |selected| && AngularMomentumLines(elements)[i] == line;
    SelectPresentMembers(MaxAngularMomenta, elements, selected[i]);
  }

  /** The lines come in the fixed order C, H, N, O, S, Si. */
  lemma AngularMomentumLinesOrdered(elements: seq<string>)
    ensures OrderedBy(SelectPresent(MaxAngularMomenta, elements), MaxAngularMomenta)
  {
    SupportedLinesDistinct();
    FilterOrdered(MaxAngularMomenta, (entry: (string, string)) => entry.0 in elements);
  }

  /** The document depends only on which supported symbols are present: reordering
      or repeating the element list, or adding unsupported symbols, changes nothing. */
  lemma DocumentDependsOnSupportedSet(path: string, e1: seq<string>, e2: seq<string>)
    requires forall k :: 0 <= k < |MaxAngularMomenta| ==>
               (MaxAngularMomenta[k].0 in e1 <==> MaxAngularMomenta[k].0 in e2)
    ensures DftbDocument(path, e1) == DftbDocument(path, e2)
  {
    FilterCongruent(MaxAngularMomenta, (entry: (string, string)) => entry.0 in e1,
                    (entry: (string, string)) => entry.0 in e2);
  }

  lemma DocumentIgnoresOrderAndRepeats(path: string, e1: seq<string>, e2: seq<string>)
    requires forall x :: x in e1 <==> x in e2
    ensures DftbDocument(path, e1) == DftbDocument(path, e2)
  {
    DocumentDependsOnSupportedSet(path, e1, e2);
  }

  lemma DocumentIgnoresUnsupported(path: string, elements: seq<string>, symbol: string)
    requires forall k :: 0 <= k < |MaxAngularMomenta| ==> MaxAngularMomenta[k].0 != symbol
    ensures DftbDocument(path, elements + [symbol]) == DftbDocument(path, elements)
  {
    DocumentDependsOnSupportedSet(path, elements + [symbol], elements);
  }

  /** Water with a stray chlorine: hydrogen before oxygen, chlorine dropped. */
  lemma WaterSelection()
    ensures SelectPresent(MaxAngularMomenta, ["O", "H", "H", "Cl"]) == [("H", "s"), ("O", "p")]
  {
    var e := ["O", "H", "H", "Cl"];
    var t := MaxAngularMomenta;
    var keep := (entry: (string, string)) => entry.0 in e;
    assert "C" !in e && "H" in e && "N" !in e && "O" in e && "S" !in e && "Si" !in e;
    assert t[5..][1..] == [];
    assert Filter(t[5..], keep) == [];
    assert t[4..][1..] == t[5..];
    assert Filter(t[4..], keep) == [];
    assert t[3..][1..] == t[4..];
    assert Filter(t[3..], keep) == [("O", "p")];
    assert t[2..][1..] == t[3..];
    assert Filter(t[2..], keep) == [("O", "p")];
    assert t[1..][1..] == t[2..];
    assert Filter(t[1..], keep) == [("H", "s"), ("O", "p")];
    assert Filter(t, keep) == [("H", "s"), ("O", "p")];
  }

  /** The angular-momentum block written for that water molecule. */
  lemma WaterBlock()
    ensures Concat(AngularMomentumLines(["O", "H", "H", "Cl"])) ==
      AngularMomentumLine(("H", "s")) + AngularMomentumLine(("O", "p"))
  {
    WaterSelection();
    var lines := AngularMomentumLines(["O", "H", "H", "Cl"]);
    assert lines == [AngularMomentumLine(("H", "s")), AngularMomentumLine(("O", "p"))];
    assert lines[1..][1..] == [];
    assert Concat(lines[1..]) == AngularMomentumLine(("O", "p"));
  }

  /** The two lines as they appear in the file. */
  lemma WaterLines()
    ensures AngularMomentumLine(("H", "s")) + AngularMomentumLine(("O", "p")) ==
      "          H = 's'\n          O = 'p'\n"
  {
  }
}
