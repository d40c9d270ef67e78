/** The title text handed to the progress bar of one download
    (index.js:124, index.js:141, index.js:168, index.js:173, index.js:179).
    Every label is cut with `substring(0, k)`, modelled by Text.Prefix. */
module BarLabels {
  import opened Text
  import opened FileNames

  /** The bar's first title (index.js:124): the raw title cut to 35 characters. */
  function InitialTitle(title: string): (r: string)
    ensures r <= title
    ensures |r| == Min(|title|, 35)
  {
    Prefix(title, 35)
  }

  /** "Starting " followed by the first 26 characters of the file title (index.js:141). */
  function StartingLabel(fileTitle: string): (r: string)
    ensures |r| == 9 + Min(|fileTitle|, 26)
    ensures r[..9] == "Starting " && r[9..] <= fileTitle
  {
    "Starting " + Prefix(fileTitle, 26)
  }

  /** The title shown while data arrives and when the download ends
      (index.js:168, index.js:173). */
  function ProgressTitle(fileTitle: string): (r: string)
    ensures |r| == Min(|fileTitle|, 35) && r <= fileTitle
  {
    Prefix(fileTitle, 35)
  }

  /** "Error downloading " followed by the first 17 characters of the file title (index.js:179). */
  function ErrorLabel(fileTitle: string): (r: string)
    ensures |r| == 18 + Min(|fileTitle|, 17)
    ensures r[..18] == "Error downloading " && r[18..] <= fileTitle
  {
    "Error downloading " + Prefix(fileTitle, 17)
  }

  /** Because the file title is padded to at least 35 characters, every label
      built from it is exactly 35 characters wide and carries a prefix of the
      sanitised title (or of the padding after it), so the rows align. */
  lemma LabelsAreFixedWidth(title: string)
    ensures var f := FileTitle(title);
      && |StartingLabel(f)| == 35
      && StartingLabel(f)[9..] <= f
      && |ProgressTitle(f)| == 35
      && ProgressTitle(f) <= f
      && |ErrorLabel(f)| == 35
      && ErrorLabel(f)[18..] <= f
  {
  }

  /** The progress title is the sanitised title itself, cut or padded to 35. */
  lemma ProgressTitleContents(title: string)
    ensures var p := ProgressTitle(FileTitle(title));
      && (forall i :: 0 <= i < Min(|title|, 35) ==> p[i] == Sanitize(title)[i])
      && (forall i :: |title| <= i < 35 ==> p[i] == ' ')
  {
    var f := FileTitle(title);
    var p := ProgressTitle(f);
    assert forall i :: 0 <= i < Min(|title|, 35) ==> p[i] == f[i] == Sanitize(title)[i];
    if |title| < 35 {
      assert f == Sanitize(title) + Repeat(' ', 35 - |title|);
      assert forall i :: |title| <= i < 35 ==> p[i] == f[i];
    }
  }
}
