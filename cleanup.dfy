/** The two clean-ups of the scripts: the removal of the intermediate DFTB+ and
    waveplot files, which skips missing files and lists the ones it removed, and the
    removal of the 36 movie snapshots, which fails at the first missing one. */
module Cleanup {
  import opened Wrappers
  import opened Sequences
  import opened FileSystem
  import opened VmdScript

  /** The intermediate files `generate_orbitals.py` deletes once waveplot has run. */
  const RemovalFiles: seq<string> :=
    ["dftb_pin.hsd", "detailed.out", "detailed.xml", "eigenvec.bin", "charges.bin",
     "waveplot_pin.hsd", "waveplot.out", "dftb.out"]

  function PresentIn(dir: Directory): string -> bool
  {
    (name: string) => name in dir
  }

  /** The list of removed files: each listed name that exists, the first time it is
      listed. */
  function RemovedFiles(dir: Directory, names: seq<string>): seq<string>
  {
    Dedup(Filter(names, PresentIn(dir)))
  }

  /** The removal loop: each listed file that exists is removed and appended to the
      list of removed files; a missing one is only reported. */
  method RemoveExisting(dir: Directory, names: seq<string>) returns (after: Directory, removed: seq<string>)
    ensures forall x :: x in after <==> x in dir && x !in names
    ensures removed == RemovedFiles(dir, names)
  {
    after := dir;
    removed := [];
    var i := 0;
    while i < |names|
      invariant 0 <= i <= |names|
      invariant forall x :: x in after <==> x in dir && x !in names[..i]
      invariant removed == RemovedFiles(dir, names[..i])
    {
      var name := names[i];
      var seen := Filter(names[..i], PresentIn(dir));
      assert names[..i + 1] == names[..i] + [name];
      FilterSnoc(names[..i], PresentIn(dir), name);
      DedupMembers(seen, name);
      FilterMembers(names[..i], PresentIn(dir), name);
      if name in after {
        var r := Remove(after, name);
        after := r.value;
        assert Filter(names[..i + 1], PresentIn(dir)) == seen + [name];
        DedupSnoc(seen, name);
        removed := removed + [name];
      } else if name in dir {
        assert Filter(names[..i + 1], PresentIn(dir)) == seen + [name];
        DedupSnoc(seen, name);
      } else {
        assert Filter(names[..i + 1], PresentIn(dir)) == seen;
      }
      i := i + 1;
    }
    assert names[..i] == names;
  }

  /** A file is listed as removed exactly when it existed and was named. */
  lemma RemovedFilesMembers(dir: Directory, names: seq<string>, x: string)
    ensures x in RemovedFiles(dir, names) <==> x in dir && x in names
  {
    DedupMembers(Filter(names, PresentIn(dir)), x);
    FilterMembers(names, PresentIn(dir), x);
  }

  /** No file is listed twice. */
  lemma RemovedFilesDistinct(dir: Directory, names: seq<string>)
    ensures NoDuplicates(RemovedFiles(dir, names))
  {
    DedupNoDuplicates(Filter(names, PresentIn(dir)));
  }

  /** With distinct names, the removed files are listed in the order of the list. */
  lemma RemovedFilesInListOrder(dir: Directory, names: seq<string>)
    requires NoDuplicates(names)
    ensures OrderedBy(RemovedFiles(dir, names), names)
  {
    var present := Filter(names, PresentIn(dir));
    FilterOrdered(names, PresentIn(dir));
    OrderedByNoDuplicates(present, names);
    DedupOfDistinct(present);
  }

  /** Length, first and tenth character of a file name: enough to tell the eight
      intermediate files apart. */
  function DistinguishingKey(name: string): (int, char, char)
  {
    if |name| < 10 then (|name|, ' ', ' ') else (|name|, name[0], name[9])
  }

  /** The eight intermediate files are eight different files, and the inputs the
      runs read, `dftb_in.hsd` and `waveplot_in.hsd`, are not among them. */
  lemma RemovalFilesKeepInputs()
    ensures NoDuplicates(RemovalFiles)
    ensures "dftb_in.hsd" !in RemovalFiles && "waveplot_in.hsd" !in RemovalFiles
  {
    forall i, j | 0 <= i < j < |RemovalFiles| ensures RemovalFiles[i] != RemovalFiles[j] {
      assert DistinguishingKey(RemovalFiles[i]) != DistinguishingKey(RemovalFiles[j]);
    }
  }

  function Digit(d: nat): (c: char)
    requires d < 10
    ensures DigitValue(c) == d
  {
    ('0' as int + d) as char
  }

  /** The value of a decimal digit character. */
  function DigitValue(c: char): int
  {
    c as int - '0' as int
  }

  /** `n` written with four decimal digits, with leading zeros. */
  function Pad4(n: nat): (s: string)
    requires n < 10000
    ensures |s| == 4
  {
    var thousands := n / 1000;
    var r := n - 1000 * thousands;
    var hundreds := r / 100;
    var tens := (r - 100 * hundreds) / 10;
    var units := r - 100 * hundreds - 10 * tens;
    [Digit(thousands), Digit(hundreds), Digit(tens), Digit(units)]
  }

  /** The frames of the 36 snapshots VMD's movie maker leaves behind, as the scripts
      list them. */
  const SnapshotFrames: seq<string> :=
    ["0000", "0001", "0002", "0003", "0004", "0005", "0006", "0007", "0008",
     "0009", "0010", "0011", "0012", "0013", "0014", "0015", "0016", "0017",
     "0018", "0019", "0020", "0021", "0022", "0023", "0024", "0025", "0026",
     "0027", "0028", "0029", "0030", "0031", "0032", "0033", "0034", "0035"]

  /** The listed frames are the numbers 0 to 35, each written with four digits. */
  lemma SnapshotFramesArePadded()
    ensures |SnapshotFrames| == 36
    ensures forall i :: 0 <= i < 36 ==> SnapshotFrames[i] == Pad4(i)
  {
    forall i | 0 <= i < 36 ensures SnapshotFrames[i] == Pad4(i) {
      var d := if i < 10 then 0 else if i < 20 then 1 else if i < 30 then 2 else 3;
      assert i / 1000 == 0 && i / 100 == 0 && i / 10 == d;
      assert Pad4(i) == [Digit(0), Digit(0), Digit(d), Digit(i - 10 * d)];
      FramesInDecade(d, i);
    }
  }

  /** The listed frames of one decade, `00<d>0` up to `00<d>9`. */
  lemma FramesInDecade(d: nat, i: nat)
    requires d < 4 && 10 * d <= i < 10 * d + 10 && i < 36
    ensures SnapshotFrames[i] == ['0', '0', Digit(d), Digit(i - 10 * d)]
  {
  }

  /** The four characters are decimal digits, and read as a decimal number they give
      back `n`. */
  lemma Pad4Value(n: nat)
    requires n < 10000
    ensures forall k :: 0 <= k < 4 ==> '0' <= Pad4(n)[k] <= '9'
    ensures 1000 * DigitValue(Pad4(n)[0]) + 100 * DigitValue(Pad4(n)[1]) +
            10 * DigitValue(Pad4(n)[2]) + DigitValue(Pad4(n)[3]) == n
  {
    var s := Pad4(n);
    var thousands := n / 1000;
    var r := n - 1000 * thousands;
    var hundreds := r / 100;
    var tens := (r - 100 * hundreds) / 10;
    assert s == [Digit(thousands), Digit(hundreds), Digit(tens), Digit(r - 100 * hundreds - 10 * tens)];
  }

  /** Different frame numbers give different four-digit frames. */
  lemma Pad4Injective(m: nat, n: nat)
    requires m < 10000 && n < 10000 && Pad4(m) == Pad4(n)
    ensures m == n
  {
    Pad4Value(m);
    Pad4Value(n);
  }

  function SnapshotName(frame: string): string
  {
    "snap." + frame + ".rgb"
  }

  /** The snapshot files: `snap.<frame>.rgb` for the frames 0 to 35, in order. */
  function SnapshotFiles(): (files: seq<string>)
    ensures |files| == 36
    ensures forall i :: 0 <= i < 36 ==> files[i] == "snap." + Pad4(i) + ".rgb"
  {
    SnapshotFramesArePadded();
    seq(|SnapshotFrames|, i requires 0 <= i < |SnapshotFrames| => SnapshotName(SnapshotFrames[i]))
  }

  /** The 36 snapshot files are 36 different files. */
  lemma SnapshotFilesDistinct()
    ensures NoDuplicates(SnapshotFiles())
  {
    var files := SnapshotFiles();
    forall i, j | 0 <= i < j < |files| ensures files[i] != files[j] {
      WrapInjective("snap.", Pad4(i), Pad4(j), ".rgb");
      if files[i] == files[j] {
        Pad4Injective(i, j);
      }
    }
  }

  /** The `os.remove` loop over a list of names: the first name that is no longer
      there raises, leaving the removals before it done. */
  method RemoveAll(dir: Directory, names: seq<string>) returns (after: Directory, error: Option<FsError>)
    ensures error.None? <==> NoDuplicates(names) && forall i :: 0 <= i < |names| ==> names[i] in dir
    ensures error.None? ==> forall x :: x in after <==> x in dir && x !in names
    ensures error.Some? ==> exists j :: (0 <= j < |names| && error.value == FileNotFound(names[j]) &&
      (names[j] !in dir || names[j] in names[..j]) &&
      (forall x :: x in after <==> x in dir && x !in names[..j]) &&
      NoDuplicates(names[..j]) && forall i :: 0 <= i < j ==> names[i] in dir)
  {
    after := dir;
    var k := 0;
    while k < |names|
      invariant 0 <= k <= |names|
      invariant forall x :: x in after <==> x in dir && x !in names[..k]
      invariant NoDuplicates(names[..k]) && forall i :: 0 <= i < k ==> names[i] in dir
    {
      var r := Remove(after, names[k]);
      if r.Failure? {
        error := Some(r.error);
        if NoDuplicates(names) {
          assert names[k] !in names[..k] by {
            forall i | 0 <= i < k ensures names[i] != names[k] {
              assert names[i] == names[..k][i];
            }
          }
        }
        return;
      }
      assert names[..k + 1] == names[..k] + [names[k]];
      after := r.value;
      k := k + 1;
    }
    assert names[..k] == names;
    error := None;
  }

  /** A removal loop over `names` that raised at position `j`: `names[j]` was missing,
      every name before it was present, and exactly those were removed. */
  ghost predicate StoppedAt(dir: Directory, after: Directory, names: seq<string>, j: int)
  {
    0 <= j < |names| && names[j] !in dir && (forall i :: 0 <= i < j ==> names[i] in dir) &&
    forall x :: x in after <==> x in dir && x !in names[..j]
  }

  /** In a list without duplicates, no name occurs before its own position. */
  lemma FirstOfDistinctIsNew(names: seq<string>, j: nat)
    requires NoDuplicates(names) && j < |names|
    ensures names[j] !in names[..j]
  {
    forall i | 0 <= i < j ensures names[..j][i] != names[j] {
      assert names[..j][i] == names[i];
    }
  }

  /** The snapshot clean-up at the end of both scripts, run only for the answers
      that asked for a movie. */
  method CleanupSnapshots(dir: Directory, movie: string) returns (after: Directory, error: Option<FsError>)
    ensures !MakesMovie(movie) ==> after == dir && error.None?
    ensures MakesMovie(movie) ==> (error.None? <==> forall i :: 0 <= i < 36 ==> SnapshotFiles()[i] in dir)
    ensures MakesMovie(movie) && error.None? ==>
      forall x :: x in after <==> x in dir && x !in SnapshotFiles()
    ensures MakesMovie(movie) && error.Some? ==> exists j :: (0 <= j < 36 &&
      error.value == FileNotFound(SnapshotFiles()[j]) && StoppedAt(dir, after, SnapshotFiles(), j))
  {
    if !MakesMovie(movie) {
      return dir, None;
    }
    SnapshotFilesDistinct();
    var files := SnapshotFiles();
    after, error := RemoveAll(dir, files);
    if error.Some? {
      ghost var j :| 0 <= j < |files| && error.value == FileNotFound(files[j]) &&
        (files[j] !in dir || files[j] in files[..j]) &&
        (forall x :: x in after <==> x in dir && x !in files[..j]) &&
        NoDuplicates(files[..j]) && forall i :: 0 <= i < j ==> files[i] in dir;
      FirstOfDistinctIsNew(files, j);
      assert StoppedAt(dir, after, files, j);
    }
  }
}
