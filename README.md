# Orbital visualisation scripts — a Dafny model

The scripts compute molecular orbitals with DFTB+ and Waveplot and show them in VMD.
`generate_orbitals.py` does the following, in order:

1. reads the element symbols of an XYZ coordinate file;
2. asks how many orbitals to compute, and which ones;
3. writes a DFTB+ input for the elements and runs DFTB+;
4. writes one Waveplot input per orbital;
5. deletes the intermediate files and lists the ones it deleted;
6. asks for the background, the molecule style and whether to record a rotation movie;
7. writes a VMD script for each orbital's cube file;
8. renames the recorded movies per orbital;
9. removes the movie snapshots.

`visualise_orbitals.py` does steps 6, 7 and 9 for one cube file.

The model covers the text and list logic of these steps:

- **`Elements`** models `read_elements`.
  - The loop over the lines is an imperative `ReadElements`, proved equal to `ElementsOf`, which is a deduplication of the first column of every line after the two header lines.
  - `Text` models Python's `str.split()` with Python's full whitespace set, and `strip()` used as a truth value.
- **`DftbInput`** models the document `run_dftb` writes.
  - The six `if '<symbol>' in elements` tests are read as one filter over the table `MaxAngularMomenta`.
- **`WaveplotInput`** models the document `input_waveplot` writes, with an inverse that reads the orbital index back.
- **`VmdScript`** models `create_vmd_script`.
  - It is first a list of fragments (base block, background, style, movie), and then their text.
  - The two copies of the function differ only in the Tcl path, which is a parameter. `ModulesAnimationScript` and `StandaloneAnimationScript` hold the two paths.
- **`Choices`** models the three `while True` prompt loops of `user_choices` over a stream of answers.
- **`Orbitals`** models:
  - the list of requested orbitals;
  - the cube file name and its inverse;
  - the three movie renames.
- **`Cleanup`** models:
  - the removal of the intermediate files with the list of removed ones;
  - the snapshot removal.
- **`FileSystem`** models the working directory as the set of names in it, with `os.remove` and `os.rename`.
- **`Sequences`** holds generic facts: deduplication that keeps the first-seen order, filtering, and wrapping a middle between a fixed head and tail.
- **`Wrappers`** holds `Option` and `Result`.

The code and its documentation disagree in four places. The model follows the code in all of them:

- The type hints of `create_vmd_script` (modules.py:505) give all three codes as `int`, and those of `user_choices` (modules.py:582) give the background and style codes as `int` and the movie code as `str`. The code compares every code with strings (`'1'`, `'2'`, `'3'`, `''`, `'yes'`, `'y'`), so all three codes are strings here.
- The docstring at modules.py:586 gives style 2 as Licorice and 3 as CPK. The code maps `'2'` to CPK and `'3'` to Licorice, and so does the model (`VmdScript.StyleFor`, `VmdScript.StyleLine`).
- The docstring of `create_vmd_script` (modules.py:513) gives the movie code as `1` for yes and `2` for no. The code tests for `'yes'` and `'y'` (`VmdScript.MakesMovie`).
- `input_waveplot` hints `num_orbital: int` (modules.py:106). `generate_orbitals.py` passes it the string `input()` returned (generate_orbitals.py:55, 69), and it is only formatted into the text, so `WaveplotDocument` takes the orbital as a string.

## Model

| member | source | states |
|---|---|---|
| Text.Split | modules.py:26 | every column `split()` returns is a non-empty run of non-whitespace characters |
| Text.SplitEmptyIffBlank | modules.py:26-33 | a line splits into no columns exactly when it is empty or all whitespace |
| Text.FirstTokenIsLeadingWord | modules.py:26-33 | the first column is absent exactly for a blank line; otherwise it is a word preceded only by whitespace and followed by whitespace or the end of the line |
| Elements.ReadElements | modules.py:8-39 | fails exactly when the file has fewer than two lines (`next(file)` raises); otherwise returns `ElementsOf` of the lines after the header |
| Elements.ScanLine | modules.py:24-37 | one pass of the line loop extends the element list of the lines so far to that of one more line |
| Elements.FirstNonBlankColumn | modules.py:29-33 | returns the first column whose `strip()` is non-empty, or nothing when every column is blank |
| Elements.FirstColumnIsFirstToken | modules.py:26-33 | since `split()` yields no blank column, the search stops at the first column, which is the line's first token |
| Elements.ReadStep | modules.py:36-37 | the `if first_col and first_col not in elements` append is one step of the first-seen deduplication |
| Elements.ElementsSnoc | modules.py:36-37 | a line appends its first column when it is not listed yet and leaves the list unchanged otherwise |
| Elements.ElementsMembers | modules.py:24-37 | a symbol is listed exactly when it is the first column of some line after the header |
| Elements.ElementsCoverEveryLine | modules.py:24-37 | every non-blank line after the header contributes its first column to the list |
| Elements.ElementsAreWords | modules.py:26-37 | every listed symbol is a non-empty string without whitespace |
| Elements.ElementsNoDuplicates | modules.py:36-37 | no symbol is listed twice |
| Elements.ElementsFirstSeenOrder | modules.py:36-37 | a symbol listed before another first occurs on an earlier line than every line that starts with the later one |
| Elements.BlankLineIgnored | modules.py:26-36 | inserting a blank line anywhere after the header does not change the result |
| DftbInput.DftbDocument | modules.py:54-97 | the document starts with the geometry block naming the coordinate file and the Hamiltonian head, and ends with the fixed Slater-Koster/Options/Analysis tail |
| DftbInput.AngularMomentumLines | modules.py:67-78 | one angular-momentum line per supported element that is present |
| DftbInput.SelectPresentMembers | modules.py:67-78 | a table entry is selected exactly when its symbol is in the element list |
| DftbInput.SupportedLinesDistinct | modules.py:67-78 | the six supported elements (C p, H s, N p, O p, S p, Si d) have six different lines |
| DftbInput.AngularMomentumLinePresent | modules.py:67-78 | each supported element's line is in the angular-momentum block exactly when the element is present |
| DftbInput.AngularMomentumLinesSupported | modules.py:67-78 | every angular-momentum line belongs to a supported element that is present; other symbols add no line |
| DftbInput.AngularMomentumLinesOrdered | modules.py:67-78 | the lines come in the fixed order C, H, N, O, S, Si, whatever the order of the element list |
| DftbInput.DocumentDependsOnSupportedSet | modules.py:54-97 | two element lists with the same supported symbols give the same document |
| DftbInput.DocumentIgnoresOrderAndRepeats | modules.py:54-97 | element lists with the same members give the same document |
| DftbInput.DocumentIgnoresUnsupported | modules.py:67-78 | appending an unsupported symbol does not change the document |
| DftbInput.WaterSelection | modules.py:67-78 | for O, H, H, Cl the selected entries are H 's' then O 'p' |
| DftbInput.WaterBlock | modules.py:67-78 | for O, H, H, Cl the angular-momentum block is the H line followed by the O line |
| DftbInput.WaterLines | modules.py:70-74 | those two lines are `          H = 's'` and `          O = 'p'`, each ending in a newline |
| WaveplotInput.PlottedLevelRoundTrip | modules.py:118-125 | the orbital index written between `PlottedLevels = {` and `}` can be read back from every document |
| WaveplotInput.PlottedLevelSound | modules.py:118-125 | a text from which an index can be read is exactly the document for that index |
| WaveplotInput.DocumentsDifferOnlyInIndex | modules.py:118-125 | two documents are equal exactly when their indices are |
| VmdScript.ScriptFragments | modules.py:519-572 | the script starts with the block loading both files, followed by at most one background, one style and one movie fragment, in that order |
| VmdScript.FragmentsMembers | modules.py:543-572 | a fragment is present exactly when it is the base block or one of the fragments the three codes select |
| VmdScript.BackgroundLine | modules.py:543-551 | `'1'` adds colour 8, `'2'` or empty adds colour 16, any other code adds no background line |
| VmdScript.StyleLine | modules.py:553-565 | `'1'` or empty adds Lines, `'2'` CPK, `'3'` Licorice, any other code adds no style line |
| VmdScript.MovieLines | modules.py:567-572 | the movie commands are present exactly for `yes` or `y` and always source the given Tcl file |
| VmdScript.CreateVmdScript | modules.py:519-572 | every script starts with the block that loads the molecule and the cube file and draws both isosurfaces |
| VmdScript.RenderStartsWithFirst | modules.py:519-541 | the text of the first fragment starts the script |
| VmdScript.OnlyBaseBlock | modules.py:543-572 | with no recognised code the script is the base block alone |
| VmdScript.UnrecognisedCodesAddNothing | visualise_orbitals.py:6-61 | any two sets of unrecognised codes give the same script, the base block |
| VmdScript.FullScriptExample | modules.py:519-572 | white background, CPK and a movie give the base block, colour 8, CPK and the movie commands, in order |
| Choices.Ask | visualise_orbitals.py:79-127 | returns the first accepted answer (the one at `FirstAccepted`) and how many answers were read; all earlier answers are rejected; nothing when the answers run out |
| Choices.FirstAccepted | modules.py:589-603 | the position of the first answer a prompt accepts: every earlier answer is rejected, and there is none when no answer is accepted |
| Choices.UserChoices | modules.py:589-645 | the three prompts settle on `Selected`: the first accepted background answer, then the first accepted style answer after it, then the first accepted movie answer after that; nothing when the input ends first |
| Choices.SelectedAnswers | modules.py:589-645 | a selection holds an accepted answer for each prompt, typed in the order background, style, movie; without an accepted background answer there is no selection |
| Choices.AcceptedBackgroundHasLine | modules.py:596-601 | the background answers the prompt accepts are exactly those for which the script gets a background line |
| Choices.AcceptedStyleHasLine | modules.py:614-622 | the style answers the prompt accepts are exactly those for which the script gets a style line |
| Choices.SelectionScript | modules.py:589-645 | an accepted selection gives a script with one background and one style fragment, and four fragments exactly when a movie is asked for |
| FileSystem.Remove | generate_orbitals.py:79 | `os.remove` deletes an existing name and nothing else, and raises `FileNotFoundError` for a missing one |
| FileSystem.Rename | generate_orbitals.py:126-128 | `os.rename` moves `src` to `dst`, replacing `dst`, and raises when `src` is missing |
| Orbitals.ReadOrbitals | generate_orbitals.py:52-55 | reads one orbital per iteration of `range(0, n)`, keeping the order of the answers, and fails exactly when the answers run out; for `n <= 0` it reads nothing and returns the empty list |
| Orbitals.CubeFileRoundTrip | generate_orbitals.py:97 | the orbital level can be read back from its cube file name `wp-1-1-<level>-real.cube` |
| Orbitals.CubeFileNameSound | generate_orbitals.py:97 | every name of the cube shape is the cube file of the level it carries |
| Orbitals.CubeFileNamesDistinct | generate_orbitals.py:97 | different levels have different cube files |
| Orbitals.GifNamesDisjoint | generate_orbitals.py:125-128 | no renamed movie takes a recorded movie's name, and the three recorded movies have different names |
| Orbitals.OrbitalRotationGifInjective | generate_orbitals.py:126-128 | `MO_<level>_rotation_<axis>.gif` names are equal exactly when level and axis are |
| Orbitals.RenameRotationGifs | generate_orbitals.py:125-128 | without `yes`/`y` nothing changes and nothing is raised; with it, renames x, y, z in turn, succeeds exactly when all three movies exist, and otherwise reports the first missing one, with the renames before it done |
| Orbitals.RenamesKeepOtherOrbitals | generate_orbitals.py:95-128 | renaming the movies of one orbital keeps the renamed movies of another orbital |
| Cleanup.RemoveExisting | generate_orbitals.py:75-82 | the directory loses exactly the listed names, and the removed list is `RemovedFiles` |
| Cleanup.RemovedFilesMembers | generate_orbitals.py:75-82 | a name is listed as removed exactly when it existed and was in the removal list |
| Cleanup.RemovedFilesDistinct | generate_orbitals.py:75-82 | no name is listed as removed twice |
| Cleanup.RemovedFilesInListOrder | generate_orbitals.py:75-82 | with a duplicate-free removal list, the removed names come in list order |
| Cleanup.RemovalFilesKeepInputs | generate_orbitals.py:75 | the eight intermediate names are distinct, and neither `dftb_in.hsd` nor `waveplot_in.hsd` is among them |
| Cleanup.Pad4Value | generate_orbitals.py:133-136 | a frame number is written as four decimal digits whose decimal value is the number |
| Cleanup.SnapshotFramesArePadded | generate_orbitals.py:133-136 | the 36 listed frames `0000` … `0035` are the numbers 0 to 35 in order, each written with four digits |
| Cleanup.Pad4Injective | generate_orbitals.py:133-136 | different frame numbers give different frames |
| Cleanup.SnapshotFiles | generate_orbitals.py:137-138 | there are 36 snapshot names, and the `i`-th is `snap.` followed by `i` in four digits and `.rgb` |
| Cleanup.SnapshotFilesDistinct | generate_orbitals.py:133-138 | the 36 snapshot names are distinct |
| Cleanup.RemoveAll | visualise_orbitals.py:176-179 | succeeds exactly when the names are distinct and all exist, removing exactly them; otherwise raises at the first name that is gone, with the removals before it done |
| Cleanup.CleanupSnapshots | generate_orbitals.py:132-138 | without `yes`/`y` nothing changes; with it, the clean-up succeeds exactly when all 36 snapshots exist, and removes exactly them; otherwise it raises for the first missing snapshot, every earlier one having existed and been removed and nothing else |

## Left out

- Running DFTB+, Waveplot and VMD (`subprocess`), and waiting for them, are left out. Their outputs enter the model only as names in the working directory.
- File contents are left out. Writing `dftb_in.hsd`, `waveplot_in.hsd` and the temporary VMD script is modelled as the text written; the temporary file's name, and its removal, are left out.
- The coordinate file is given as its sequence of lines. Opening it and the line-ending handling of Python's text mode are left out.
- `print` output is left out, including the "does not exist" message of the removal loop and the list of removed files.
- The Waveplot basis block (`Basis = {` with its Slater-type exponents and coefficients, modules.py:138-494) is a parameter `basis`, not its literal text.
- The command-line argument checks, the `os.path.isfile` checks that call `exit()`, and `os.getcwd`/`os.chdir` are left out.
- `int(input(...))` for the number of orbitals is left out. The number is given as an integer, and a `ValueError` for non-numeric input is not modelled.
- The per-orbital loop of `generate_orbitals.py` (cube check, script, VMD launch) is modelled only through its pieces: `CubeFileName`, `CreateVmdScript` and `RenameRotationGifs`.
- `launch_vmd_with_script` is left out; it is a process launch.
- FileSystem.Rename: models POSIX `os.rename`, which replaces an existing destination; Windows raises instead.
- Choices.Ask: input that ends before an answer is accepted (the `EOFError` of `input`) is the `None` result.
