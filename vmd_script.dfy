/** `create_vmd_script`, present in `modules.py` and in `visualise_orbitals.py`: the
    VMD (Tcl) script that loads the molecule and the orbital cube file, draws the
    positive and negative isosurfaces, and then adds at most one background line,
    at most one molecule-style line and, optionally, the rotation-movie commands.
    The two copies have the same text except for the path of the Tcl file that
    defines the movie command, which is a parameter here. */
module VmdScript {
  import opened Wrappers

  /** The Tcl file sourced for the movie by the copy in `modules.py`. */
  const ModulesAnimationScript: string :=
    "/data/user9/kevin/scripts/script_orbitals/rotation_animatied_gif.tcl"

  /** The Tcl file sourced for the movie by the copy in `visualise_orbitals.py`. */
  const StandaloneAnimationScript: string :=
    "/data/user4/Kevin/scripts/script_orbitals/rotation_animatied_gif.tcl"

  datatype Representation = Lines | CPK | Licorice

  /** The two backgrounds the script can set: white is VMD colour 8, black 16. */
  datatype Background = White | Black

  function ColorId(b: Background): string
  {
    match b
    case White => "8"
    case Black => "16"
  }

  /** The pieces the script is concatenated from, in the order the code appends them. */
  datatype Fragment =
    | LoadOrbital(moleculeFile: string, orbitalFile: string)
    | BackgroundColor(background: Background)
    | MoleculeStyle(style: Representation)
    | RotationMovie(animationScript: string)

  /** Background code to background: '1' white, '2' or empty black. */
  function BackgroundColorFor(code: string): Option<Background>
  {
    if code == "1" then Some(White)
    else if code == "2" || code == "" then Some(Black)
    else None
  }

  /** Style code to representation: '1' or empty Lines, '2' CPK, '3' Licorice. */
  function StyleFor(code: string): Option<Representation>
  {
    if code == "1" || code == "" then Some(Lines)
    else if code == "2" then Some(CPK)
    else if code == "3" then Some(Licorice)
    else None
  }

  predicate MakesMovie(code: string)
  {
    code == "yes" || code == "y"
  }

  /** Position of each kind of fragment in the script. */
  function Rank(f: Fragment): nat
  {
    match f
    case LoadOrbital(_, _) => 0
    case BackgroundColor(_) => 1
    case MoleculeStyle(_) => 2
    case RotationMovie(_) => 3
  }

  function BackgroundFragments(background: string): seq<Fragment>
  {
    match BackgroundColorFor(background)
    case None => []
    case Some(c) => [BackgroundColor(c)]
  }

  function StyleFragments(style: string): seq<Fragment>
  {
    match StyleFor(style)
    case None => []
    case Some(r) => [MoleculeStyle(r)]
  }

  function MovieFragments(animationScript: string, movie: string): seq<Fragment>
  {
    if MakesMovie(movie) then [RotationMovie(animationScript)] else []
  }

  /** The fragments `create_vmd_script` appends for the given option codes: the
      base block first, then at most one fragment of each further kind, in the order
      background, style, movie. */
  function ScriptFragments(animationScript: string, moleculeFile: string, orbitalFile: string,
                           background: string, style: string, movie: string): (frags: seq<Fragment>)
    ensures |frags| >= 1 && frags[0] == LoadOrbital(moleculeFile, orbitalFile)
    ensures forall i, j :: 0 <= i < j < |frags| ==> Rank(frags[i]) < Rank(frags[j])
  {
    var b, s, m := BackgroundFragments(background), StyleFragments(style), MovieFragments(animationScript, movie);
    var frags := [LoadOrbital(moleculeFile, orbitalFile)] + b + s + m;
    assert forall i :: 1 <= i < 1 + |b| ==> Rank(frags[i]) == 1;
    assert forall i :: 1 + |b| <= i < 1 + |b| + |s| ==> Rank(frags[i]) == 2;
    assert forall i :: 1 + |b| + |s| <= i < |frags| ==> Rank(frags[i]) == 3;
    frags
  }

  lemma FragmentsMembers(animationScript: string, moleculeFile: string, orbitalFile: string,
                         background: string, style: string, movie: string, f: Fragment)
    ensures var frags := ScriptFragments(animationScript, moleculeFile, orbitalFile, background, style, movie);
      f in frags <==> f == LoadOrbital(moleculeFile, orbitalFile) || f in BackgroundFragments(background) ||
                      f in StyleFragments(style) || f in MovieFragments(animationScript, movie)
  {
  }

  /** Background '1' adds colour 8, '2' or empty adds colour 16, any other code
      adds no background line. */
  lemma BackgroundLine(animationScript: string, moleculeFile: string, orbitalFile: string,
                       background: string, style: string, movie: string)
    ensures var frags := ScriptFragments(animationScript, moleculeFile, orbitalFile, background, style, movie);
      (BackgroundColor(White) in frags <==> background == "1") &&
      (BackgroundColor(Black) in frags <==> background == "2" || background == "")
  {
    forall f {
      FragmentsMembers(animationScript, moleculeFile, orbitalFile, background, style, movie, f);
    }
  }

  /** Style '1' or empty adds Lines, '2' CPK, '3' Licorice, any other code adds no
      style line. */
  lemma StyleLine(animationScript: string, moleculeFile: string, orbitalFile: string,
                  background: string, style: string, movie: string)
    ensures var frags := ScriptFragments(animationScript, moleculeFile, orbitalFile, background, style, movie);
      (MoleculeStyle(Lines) in frags <==> style == "1" || style == "") &&
      (MoleculeStyle(CPK) in frags <==> style == "2") &&
      (MoleculeStyle(Licorice) in frags <==> style == "3")
  {
    forall f {
      FragmentsMembers(animationScript, moleculeFile, orbitalFile, background, style, movie, f);
    }
  }

  /** The movie commands are present exactly for 'yes' or 'y', and always source the
      given Tcl file. */
  lemma MovieLines(animationScript: string, moleculeFile: string, orbitalFile: string,
                   background: string, style: string, movie: string)
    ensures var frags := ScriptFragments(animationScript, moleculeFile, orbitalFile, background, style, movie);
      (RotationMovie(animationScript) in frags <==> movie == "yes" || movie == "y") &&
      (forall tcl :: RotationMovie(tcl) in frags ==> tcl == animationScript)
  {
    forall f {
      FragmentsMembers(animationScript, moleculeFile, orbitalFile, background, style, movie, f);
    }
  }

  /** The fixed base block: load both files, reset the view, draw the +0.02 and
      -0.02 isosurfaces. */
  function BaseText(moleculeFile: string, orbitalFile: string): string
  {
    "    # Load molecule from XYZ format\n    set molecule [mol new \"" + moleculeFile +
    "\"]\n\n    # Load MO data\n    set MO [mol addfile \"" + orbitalFile +
    "\"]\n\n    # Display the molecule\n    display resetview $molecule\n\n    # Displaying positive MO\n    mol color ColorID \"0\"\n    mol representation isosurface \"0.02, Isosurface, Solid Surface\"\n    mol addrep $MO\n\n    # Displaying negative MO\n    mol color ColorID \"1\"\n    mol representation isosurface \"-0.02, Isosurface, Solid Surface\"\n    mol addrep $MO\n\n    # Display update\n    display update\n    "
  }

  function StyleName(style: Representation): string
  {
    match style
    case Lines => "Lines"
    case CPK => "CPK"
    case Licorice => "Licorice \"0.2\""
  }

  function FragmentText(f: Fragment): string
  {
    match f
    case LoadOrbital(m, o) => BaseText(m, o)
    case BackgroundColor(c) =>
      "        color Display Background " + ColorId(c) + "\n        "
    case MoleculeStyle(s) => "        mol modstyle rep0 $molecule " + StyleName(s) + "\n        "
    case RotationMovie(tcl) => "        source " + tcl + "\n        make_rotation_animated_gif\n        "
  }

  function Render(frags: seq<Fragment>): string
  {
    if frags == [] then "" else FragmentText(frags[0]) + Render(frags[1..])
  }

  /** The script text `create_vmd_script` writes to its temporary file. */
  function CreateVmdScript(animationScript: string, moleculeFile: string, orbitalFile: string,
                           background: string, style: string, movie: string): (script: string)
    ensures BaseText(moleculeFile, orbitalFile) <= script
  {
    var frags := ScriptFragments(animationScript, moleculeFile, orbitalFile, background, style, movie);
    RenderStartsWithFirst(frags);
    Render(frags)
  }

  lemma RenderStartsWithFirst(frags: seq<Fragment>)
    requires frags != []
    ensures FragmentText(frags[0]) <= Render(frags)
  {
    var head, rest := FragmentText(frags[0]), Render(frags[1..]);
    assert Render(frags) == head + rest;
  }

  /** A code outside the recognised ones contributes nothing: the script is the one
      for any other unrecognised code. */
  lemma UnrecognisedCodesAddNothing(animationScript: string, moleculeFile: string, orbitalFile: string,
                                    b1: string, b2: string, s1: string, s2: string, m1: string, m2: string)
    requires BackgroundColorFor(b1).None? && BackgroundColorFor(b2).None?
    requires StyleFor(s1).None? && StyleFor(s2).None?
    requires !MakesMovie(m1) && !MakesMovie(m2)
    ensures CreateVmdScript(animationScript, moleculeFile, orbitalFile, b1, s1, m1) ==
            CreateVmdScript(animationScript, moleculeFile, orbitalFile, b2, s2, m2) ==
            BaseText(moleculeFile, orbitalFile)
  {
    OnlyBaseBlock(animationScript, moleculeFile, orbitalFile, b1, s1, m1);
    OnlyBaseBlock(animationScript, moleculeFile, orbitalFile, b2, s2, m2);
  }

  lemma OnlyBaseBlock(animationScript: string, moleculeFile: string, orbitalFile: string,
                      background: string, style: string, movie: string)
    requires BackgroundColorFor(background).None? && StyleFor(style).None? && !MakesMovie(movie)
    ensures CreateVmdScript(animationScript, moleculeFile, orbitalFile, background, style, movie) ==
            BaseText(moleculeFile, orbitalFile)
  {
    var frags := ScriptFragments(animationScript, moleculeFile, orbitalFile, background, style, movie);
    assert frags == [LoadOrbital(moleculeFile, orbitalFile)];
    RenderSingle(frags[0]);
  }

  lemma RenderSingle(f: Fragment)
    ensures Render([f]) == FragmentText(f)
  {
    assert [f][1..] == [];
    AppendEmpty(FragmentText(f));
  }

  lemma AppendEmpty(t: string)
    ensures t + "" == t
  {
  }

  lemma RenderCons(f: Fragment, rest: seq<Fragment>)
    ensures Render([f] + rest) == FragmentText(f) + Render(rest)
  {
    var all := [f] + rest;
    assert all[0] == f && all[1..] == rest;
    calc {
      Render(all);
      FragmentText(all[0]) + Render(all[1..]);
      FragmentText(f) + Render(rest);
    }
  }

  lemma RenderFour(a: Fragment, b: Fragment, c: Fragment, d: Fragment)
    ensures Render([a] + ([b] + ([c] + [d]))) ==
            FragmentText(a) + FragmentText(b) + FragmentText(c) + FragmentText(d)
  {
    var ta, tb, tc, td := FragmentText(a), FragmentText(b), FragmentText(c), FragmentText(d);
    calc {
      Render([a] + ([b] + ([c] + [d])));
      { RenderCons(a, [b] + ([c] + [d])); }
      ta + Render([b] + ([c] + [d]));
      { RenderCons(b, [c] + [d]); }
      ta + (tb + Render([c] + [d]));
      { RenderCons(c, [d]); RenderSingle(d); }
      ta + (tb + (tc + td));
      { AppendAssociative(ta, tb, tc, td); }
      ta + tb + tc + td;
    }
  }

  /** White background, CPK and a movie: all four fragments, in order. */
  lemma FullScriptExample(animationScript: string, moleculeFile: string, orbitalFile: string)
    ensures CreateVmdScript(animationScript, moleculeFile, orbitalFile, "1", "2", "y") ==
      FragmentText(LoadOrbital(moleculeFile, orbitalFile)) + FragmentText(BackgroundColor(White)) +
      FragmentText(MoleculeStyle(CPK)) + FragmentText(RotationMovie(animationScript))
  {
    var load, bg, st, mv :=
      LoadOrbital(moleculeFile, orbitalFile), BackgroundColor(White), MoleculeStyle(CPK), RotationMovie(animationScript);
    assert ScriptFragments(animationScript, moleculeFile, orbitalFile, "1", "2", "y") == [load] + ([bg] + ([st] + [mv]));
    RenderFour(load, bg, st, mv);
  }

  lemma AppendAssociative(a: string, b: string, c: string, d: string)
    ensures a + (b + (c + d)) == a + b + c + d
  {
  }
}
