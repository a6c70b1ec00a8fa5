/** The per-orbital part of `generate_orbitals.py`: the list of requested orbital
    levels, the name of the cube file waveplot writes for a level, and the renaming
    of the three rotation movies after each orbital has been shown. */
module Orbitals {
  import opened Wrappers
  import opened Sequences
  import opened FileSystem
  import opened VmdScript

  /** Number of iterations of `range(0, n)`: none for a negative `n`. */
  function RangeLength(n: int): (count: nat)
    ensures n <= 0 ==> count == 0
    ensures n >= 0 ==> count == n
  {
    if n < 0 then 0 else n
  }

  /** The prompt loop for the requested orbitals: one answer per iteration of
      `range(0, numberOrbitals)`, appended in order. Running out of answers is the
      end-of-input error of `input`. */
  method ReadOrbitals(numberOrbitals: int, answers: seq<string>) returns (orbitals: Option<seq<string>>)
    ensures orbitals.Some? <==> RangeLength(numberOrbitals) <= |answers|
    ensures orbitals.Some? ==> |orbitals.value| == RangeLength(numberOrbitals)
    ensures orbitals.Some? ==> forall i :: 0 <= i < |orbitals.value| ==> orbitals.value[i] == answers[i]
    ensures numberOrbitals <= 0 ==> orbitals == Some([])
  {
    var n := RangeLength(numberOrbitals);
    var read: seq<string> := [];
    var i := 0;
    while i < n
      invariant 0 <= i <= n && i <= |answers|
      invariant read == answers[..i]
    {
      if i == |answers| {
        return None;
      }
      read := read + [answers[i]];
      i := i + 1;
    }
    return Some(read);
  }

  const CubePrefix: string := "wp-1-1-"
  const CubeSuffix: string := "-real.cube"

  /** The cube file waveplot writes for the orbital level `orbital`. */
  function CubeFileName(orbital: string): string
  {
    CubePrefix + orbital + CubeSuffix
  }

  /** The orbital level a cube file name belongs to, when it has the cube shape. */
  function OrbitalOfCubeFile(name: string): Option<string>
  {
    Unwrap(CubePrefix, CubeSuffix, name)
  }

  lemma CubeFileRoundTrip(orbital: string)
    ensures OrbitalOfCubeFile(CubeFileName(orbital)) == Some(orbital)
  {
    UnwrapWrap(CubePrefix, orbital, CubeSuffix);
  }

  /** Every name of the cube shape is the cube file of the level it carries. */
  lemma CubeFileNameSound(name: string)
    requires OrbitalOfCubeFile(name).Some?
    ensures CubeFileName(OrbitalOfCubeFile(name).value) == name
  {
    WrapUnwrap(CubePrefix, CubeSuffix, name);
  }

  /** Different levels are looked up in different cube files. */
  lemma CubeFileNamesDistinct(a: string, b: string)
    ensures CubeFileName(a) == CubeFileName(b) <==> a == b
  {
    WrapInjective(CubePrefix, a, b, CubeSuffix);
  }

  datatype Axis = X | Y | Z

  function AxisName(a: Axis): string
  {
    match a
    case X => "x"
    case Y => "y"
    case Z => "z"
  }

  /** Order in which the three movies are renamed. */
  function AxisIndex(a: Axis): nat
  {
    match a
    case X => 0
    case Y => 1
    case Z => 2
  }

  /** The movie the animation script records around axis `a`. */
  function RotationGif(a: Axis): string
  {
    "rotation_" + AxisName(a) + ".gif"
  }

  /** The name the movie around axis `a` is given for orbital level `orbital`. */
  function OrbitalRotationGif(orbital: string, a: Axis): string
  {
    "MO_" + orbital + "_rotation_" + AxisName(a) + ".gif"
  }

  /** No renamed movie carries the name of a freshly recorded one, so renaming one
      axis never moves or replaces the movie of another. */
  lemma GifNamesDisjoint(orbital: string, a: Axis, b: Axis)
    ensures OrbitalRotationGif(orbital, a) != RotationGif(b)
    ensures RotationGif(a) == RotationGif(b) <==> a == b
  {
    assert OrbitalRotationGif(orbital, a)[0] == 'M';
    assert RotationGif(b)[0] == 'r';
    assert RotationGif(a)[9] == AxisName(a)[0];
    assert RotationGif(b)[9] == AxisName(b)[0];
  }

  /** Renamed movies of different orbitals, or of different axes, have different
      names, so no orbital's movies overwrite another's. */
  lemma OrbitalRotationGifInjective(o1: string, a1: Axis, o2: string, a2: Axis)
    ensures OrbitalRotationGif(o1, a1) == OrbitalRotationGif(o2, a2) <==> o1 == o2 && a1 == a2
  {
    if OrbitalRotationGif(o1, a1) == OrbitalRotationGif(o2, a2) {
      var n1, n2 := OrbitalRotationGif(o1, a1), OrbitalRotationGif(o2, a2);
      assert |o1| == |o2|;
      assert o1 == n1[3..3 + |o1|];
      assert o2 == n2[3..3 + |o2|];
      assert n1[|n1| - 5] == AxisName(a1)[0];
      assert n2[|n2| - 5] == AxisName(a2)[0];
    }
  }

  /** After all three renames, a file is present exactly when it is one of the
      orbital's three movies, or it was present and is not a recorded movie. */
  function RenamedAll(dir: Directory, orbital: string): Directory
  {
    dir - {RotationGif(X), RotationGif(Y), RotationGif(Z)}
    + {OrbitalRotationGif(orbital, X), OrbitalRotationGif(orbital, Y), OrbitalRotationGif(orbital, Z)}
  }

  /** The three `os.rename` calls after an orbital has been shown, made only when
      the answers asked for a movie: in the order x, y, z, the first missing movie
      raises and leaves the renames before it done. */
  method RenameRotationGifs(dir: Directory, orbital: string, movie: string) returns (after: Directory, error: Option<FsError>)
    ensures !MakesMovie(movie) ==> after == dir && error.None?
    ensures MakesMovie(movie) ==>
      (error.None? <==> RotationGif(X) in dir && RotationGif(Y) in dir && RotationGif(Z) in dir)
    ensures MakesMovie(movie) && error.None? ==> after == RenamedAll(dir, orbital)
    ensures MakesMovie(movie) ==> (error == Some(FileNotFound(RotationGif(X))) <==> RotationGif(X) !in dir)
    ensures RotationGif(X) !in dir ==> after == dir
    ensures MakesMovie(movie) ==>
      (error == Some(FileNotFound(RotationGif(Y))) <==> RotationGif(X) in dir && RotationGif(Y) !in dir)
    ensures MakesMovie(movie) && RotationGif(X) in dir && RotationGif(Y) !in dir ==>
      after == dir - {RotationGif(X)} + {OrbitalRotationGif(orbital, X)}
    ensures MakesMovie(movie) ==> (error == Some(FileNotFound(RotationGif(Z))) <==>
      RotationGif(X) in dir && RotationGif(Y) in dir && RotationGif(Z) !in dir)
    ensures MakesMovie(movie) && RotationGif(X) in dir && RotationGif(Y) in dir && RotationGif(Z) !in dir ==>
      after == dir - {RotationGif(X), RotationGif(Y)} + {OrbitalRotationGif(orbital, X), OrbitalRotationGif(orbital, Y)}
  {
    if !MakesMovie(movie) {
      return dir, None;
    }
    GifNamesDisjoint(orbital, X, Y);
    GifNamesDisjoint(orbital, X, Z);
    GifNamesDisjoint(orbital, Y, Z);
    GifNamesDisjoint(orbital, Y, X);
    GifNamesDisjoint(orbital, Z, X);
    GifNamesDisjoint(orbital, Z, Y);
    var r := Rename(dir, RotationGif(X), OrbitalRotationGif(orbital, X));
    if r.Failure? {
      return dir, Some(r.error);
    }
    after := r.value;
    r := Rename(after, RotationGif(Y), OrbitalRotationGif(orbital, Y));
    if r.Failure? {
      return after, Some(r.error);
    }
    after := r.value;
    r := Rename(after, RotationGif(Z), OrbitalRotationGif(orbital, Z));
    if r.Failure? {
      return after, Some(r.error);
    }
    after := r.value;
    error := None;
  }

  /** Showing a second orbital keeps the first one's movies: its renames touch only
      the recorded movies and its own names. */
  lemma RenamesKeepOtherOrbitals(dir: Directory, o1: string, o2: string, a: Axis)
    requires o1 != o2 && OrbitalRotationGif(o1, a) in dir
    ensures OrbitalRotationGif(o1, a) in RenamedAll(dir, o2)
  {
    GifNamesDisjoint(o1, a, X);
    GifNamesDisjoint(o1, a, Y);
    GifNamesDisjoint(o1, a, Z);
  }
}
