/**
 * The "Convert image..." menu action: a chain of guards that either opens the
 * converter dialog or tells the user why it will not.
 */
module Action {
  import opened Naming

  /** How the main window is browsing: the file system or a saved image set. */
  datatype BrowseMode = FileSystem | ImageSet

  /** The main window's current selection: nothing, or an image file by name. */
  datatype Selection = Empty | Selected(fileName: string)

  /** What the action does: show a message under the title "Convert image", or open the dialog. */
  datatype Decision = Rejected(message: string) | OpenDialog

  const NothingSelected := "Nothing selected."
  const NotFileSystem := "Image conversion is only supported when browsing the file system."
  const NotJpegOrPng := "Image conversion can currently only be performed on jpeg or png images."

  /** The lower-cased name ends with "jpg", "jpeg" or "png"; no dot is needed before them. */
  predicate ConvertibleName(name: string)
  {
    var lower := Lower(name);
    EndsWith(lower, "jpg") || EndsWith(lower, "jpeg") || EndsWith(lower, "png")
  }

  /**
   * ImageConverterAction.actionPerformed: the checks run in order (selection,
   * browse mode, file name) and the first that fails picks the message; the
   * dialog opens only when all three pass.
   */
  function ActionPerformed(selection: Selection, mode: BrowseMode): (d: Decision)
    ensures d == OpenDialog <==>
      selection.Selected? && mode.FileSystem? && ConvertibleName(selection.fileName)
    ensures d == Rejected(NothingSelected) <==> selection.Empty?
    ensures d == Rejected(NotFileSystem) <==> selection.Selected? && mode.ImageSet?
    ensures d == Rejected(NotJpegOrPng) <==>
      selection.Selected? && mode.FileSystem? && !ConvertibleName(selection.fileName)
  {
    if selection.Empty? then Rejected(NothingSelected)
    else if mode.ImageSet? then Rejected(NotFileSystem)
    else if !ConvertibleName(selection.fileName) then Rejected(NotJpegOrPng)
    else OpenDialog
  }

  /** Lower-casing and taking a suffix can be done in either order. */
  lemma LowerSuffix(s: string, k: nat)
    requires k <= |s|
    ensures Lower(s)[k..] == Lower(s[k..])
  {
  }

  /**
   * The name test looks only at the last three or four characters, each
   * compared without regard to case.
   */
  lemma ConvertibleByLastCharacters(name: string)
    ensures ConvertibleName(name) <==>
      (|name| >= 3 && (Lower(name[|name| - 3..]) == "jpg" || Lower(name[|name| - 3..]) == "png"))
      || (|name| >= 4 && Lower(name[|name| - 4..]) == "jpeg")
  {
    if |name| >= 3 {
      LowerSuffix(name, |name| - 3);
    }
    if |name| >= 4 {
      LowerSuffix(name, |name| - 4);
    }
  }

  /** Names that differ only in the case of ASCII letters get the same decision. */
  lemma CaseInsensitive(a: string, b: string, mode: BrowseMode)
    requires Lower(a) == Lower(b)
    ensures ActionPerformed(Selected(a), mode) == ActionPerformed(Selected(b), mode)
  {
  }

  /** Names without a dot pass ("notjpg"), upper-case names pass, other extensions do not. */
  lemma SuffixExamples()
    ensures ActionPerformed(Selected("notjpg"), FileSystem) == OpenDialog
    ensures ActionPerformed(Selected("PHOTO.JPEG"), FileSystem) == OpenDialog
    ensures ActionPerformed(Selected("photo.gif"), FileSystem) == Rejected(NotJpegOrPng)
    ensures ActionPerformed(Selected("photo.png"), ImageSet) == Rejected(NotFileSystem)
  {
    assert Lower("notjpg")[3..] == "jpg";
    assert Lower("PHOTO.JPEG")[6..] == "jpeg";
    var g := Lower("photo.gif");
    assert g == "photo.gif";
    assert g[6..] != "jpg" && g[6..] != "png" && g[5..] != "jpeg";
  }
}
