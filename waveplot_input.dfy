/** The Waveplot input document `input_waveplot` writes to `waveplot_in.hsd` for
    one orbital: a fixed header, the orbital index between `PlottedLevels = {` and
    `}`, and a fixed remainder. The Slater-type basis block of that remainder is a
    parameter `basis` here, standing for its fixed text. */
module WaveplotInput {
  import opened Wrappers
  import opened Sequences

  /** Everything up to and including `PlottedLevels = {`. */
  const WaveplotHead: string :=
    "#Genral Options\n\nOptions = {\n    RealComponent = Yes                  # Plot real component of the wavefunction\n  PlottedSpins = { -1 1 }\n  PlottedLevels = {"

  /** From the closing `}` of `PlottedLevels` to the start of the basis block. */
  const WaveplotOptionsTail: string :=
    "}                # Levels to plot\n    PlottedRegion =  OptimalCuboid { }    # Region to plot\n  NrOfPoints = { 80 80 80 }            # Number of grid points in each direction\n  NrOfCachedGrids = -1                 # Nr of cached grids (speeds up things)\n  Verbose = Yes                        # Wanna see a lot of messages?\n}\n\nDetailedXML = \"detailed.xml\"           # File containing the detailed xml output\n                                       # of DFTB+\nEigenvecBin = \"eigenvec.bin\"           # File cointaining the binary eigenvecs\n\n\n# Definition of the basis\n"

  /** After the basis block: the inclusion of the DFTB+ input. */
  const WaveplotTrailer: string := "\n  <<+ \"dftb_in.hsd\"  \n}\n"

  /** The fixed text that follows the orbital index. */
  function WaveplotTail(basis: string): string
  {
    WaveplotOptionsTail + basis + WaveplotTrailer
  }

  /** The orbital index with the blank on either side of it. */
  function LevelField(orbital: string): string
  {
    " " + orbital + " "
  }

  /** The text `input_waveplot` builds for the orbital `orbital`. */
  function WaveplotDocument(basis: string, orbital: string): string
  {
    WaveplotHead + LevelField(orbital) + WaveplotTail(basis)
  }

  /** Reads back the orbital index of a Waveplot document with the given basis:
      the text between the fixed header and the fixed tail, without its blanks. */
  function PlottedLevel(basis: string, doc: string): Option<string>
  {
    match Unwrap(WaveplotHead, WaveplotTail(basis), doc)
    case None => None
    case Some(field) => Unwrap(" ", " ", field)
  }

  /** The index can be read back from every document. */
  lemma PlottedLevelRoundTrip(basis: string, orbital: string)
    ensures PlottedLevel(basis, WaveplotDocument(basis, orbital)) == Some(orbital)
  {
    UnwrapWrap(WaveplotHead, LevelField(orbital), WaveplotTail(basis));
    UnwrapWrap(" ", orbital, " ");
  }

  /** A text from which an index can be read is the document for that index. */
  lemma PlottedLevelSound(basis: string, doc: string, orbital: string)
    requires PlottedLevel(basis, doc) == Some(orbital)
    ensures doc == WaveplotDocument(basis, orbital)
  {
    WrapUnwrap(WaveplotHead, WaveplotTail(basis), doc);
    var field := Unwrap(WaveplotHead, WaveplotTail(basis), doc).value;
    WrapUnwrap(" ", " ", field);
  }

  /** Two documents for the same basis are equal exactly when their indices are:
      the index is the only part that varies. */
  lemma DocumentsDifferOnlyInIndex(basis: string, a: string, b: string)
    ensures WaveplotDocument(basis, a) == WaveplotDocument(basis, b) <==> a == b
  {
    PlottedLevelRoundTrip(basis, a);
    PlottedLevelRoundTrip(basis, b);
  }
}
