/**
 * The converter dialog: the conversion policy for one file (target name,
 * skip-or-overwrite, then write, delete and re-time), the extensions a bulk
 * run looks for, the OK button's dispatch and the defaults shown for an image.
 */
module Dialog {
  import opened Wrappers
  import opened Naming
  import opened Disk

  /** ImageConverterDialog.OperationOutcome. */
  datatype Outcome = SkippedBecauseExists | InternalError | Success

  /**
   * The values of the dialog's form: "Convert:" index (0 selected image, 1
   * this directory, 2 recursively), "Format:" index (0 Jpeg -> PNG, 1 PNG ->
   * Jpeg) and the check boxes and the quality percentage.
   */
  datatype Settings = Settings(
    quantityIndex: int,
    formatIndex: int,
    deleteOriginal: bool,
    overwriteIfExists: bool,
    jpegQuality: int,
    preserveDate: bool,
    extraLogging: bool)

  /** The form as it is built: single image, to PNG, keep originals, no overwrite, quality 95, keep dates. */
  const InitialSettings := Settings(0, 0, false, false, 95, true, false)

  /**
   * The outcome of each I/O step of one conversion, and the clock: reading
   * the source's attributes, finding a PNG writer, encoding and writing the
   * target, deleting the source, setting the target's time.
   */
  datatype IoEnv = IoEnv(
    attributesReadable: bool,
    pngWriterPresent: bool,
    saveSucceeds: bool,
    deleteSucceeds: bool,
    setTimeSucceeds: bool,
    now: nat)

  /** The outcome of one conversion together with the file system it leaves. */
  datatype Conversion = Conversion(outcome: Outcome, files: FileMap)

  function Target(src: Path, s: Settings): Path
  {
    TargetPath(src, TargetFormat(s.formatIndex))
  }

  /** PNG is written with the default writer settings; JPEG at the chosen quality. */
  function Encoded(image: Image, s: Settings): Contents
  {
    if TargetFormat(s.formatIndex) == Png then PngImage(image) else JpegImage(image, s.jpegQuality)
  }

  /** The target exists and "overwrite if exists" is off. */
  predicate SkipsExisting(files: FileMap, src: Path, s: Settings)
  {
    Target(src, s) in files && !s.overwriteIfExists
  }

  /** The conversion gets as far as writing the target. */
  predicate WritesTarget(files: FileMap, src: Path, s: Settings, io: IoEnv)
  {
    && !SkipsExisting(files, src, s)
    && src in files && io.attributesReadable
    && (TargetFormat(s.formatIndex) == Png ==> io.pngWriterPresent)
    && io.saveSucceeds
  }

  /** "Remove source file(s)" is on and the removal succeeds. */
  predicate DeletesSource(s: Settings, io: IoEnv)
  {
    s.deleteOriginal && io.deleteSucceeds
  }

  /** What convertImage(File, BufferedImage) does, step by step, as a function of the old files. */
  function Convert(files: FileMap, src: Path, image: Image, s: Settings, io: IoEnv): Conversion
  {
    var target := Target(src, s);
    if target in files && !s.overwriteIfExists then Conversion(SkippedBecauseExists, files)
    else if !(src in files && io.attributesReadable) then Conversion(InternalError, files)
    else
      var created := files[src].created;
      if TargetFormat(s.formatIndex) == Png && !io.pngWriterPresent then Conversion(InternalError, files)
      else if !io.saveSucceeds then Conversion(InternalError, files)
      else
        var written := Saved(files, target, Encoded(image, s), io.now);
        var kept := if s.deleteOriginal && src in written && io.deleteSucceeds then written - {src} else written;
        if !s.preserveDate then Conversion(Success, kept)
        else if target in kept && io.setTimeSucceeds then
          Conversion(Success, kept[target := kept[target].(modified := created)])
        else Conversion(InternalError, kept)
  }

  /**
   * ImageConverterDialog.convertImage(File, BufferedImage): the effects on the
   * file system in the order the dialog performs them, with an early return
   * at the first failure.
   */
  method ConvertImage(store: FileStore, src: Path, image: Image, s: Settings, io: IoEnv)
    returns (outcome: Outcome)
    modifies store
    ensures Conversion(outcome, store.files) == Convert(old(store.files), src, image, s, io)
  {
    var targetExtension := if s.formatIndex == 0 then ".png" else ".jpg";
    var target := Path(src.dir, BaseName(src.name) + targetExtension);
    var targetExists := store.Exists(target);
    if targetExists && !s.overwriteIfExists {
      return SkippedBecauseExists;
    }
    var created := store.ReadCreationTime(src, io.attributesReadable);
    if created.None? {
      return InternalError;
    }
    if targetExtension == ".png" {
      if !io.pngWriterPresent {
        return InternalError;
      }
      var saved := store.Save(target, PngImage(image), io.now, io.saveSucceeds);
      if !saved {
        return InternalError;
      }
    } else {
      var saved := store.Save(target, JpegImage(image, s.jpegQuality), io.now, io.saveSucceeds);
      if !saved {
        return InternalError;
      }
    }
    if s.deleteOriginal {
      var deleted := store.Delete(src, io.deleteSucceeds);
    }
    if s.preserveDate {
      var retimed := store.SetLastModifiedTime(target, created.value, io.setTimeSucceeds);
      if !retimed {
        return InternalError;
      }
    }
    return Success;
  }

  /**
   * The outcome is decided as follows: skipped exactly when the target
   * exists and overwriting is off; an internal error exactly when some I/O
   * step fails (reading the source's attributes, finding a PNG writer,
   * writing, or, with "preserve date" on, setting the time of a target that
   * may already have been deleted as the source); success otherwise.
   */
  lemma OutcomeCases(files: FileMap, src: Path, image: Image, s: Settings, io: IoEnv)
    ensures Convert(files, src, image, s, io).outcome == SkippedBecauseExists <==> SkipsExisting(files, src, s)
    ensures Convert(files, src, image, s, io).outcome == InternalError <==>
      !SkipsExisting(files, src, s) &&
      (!WritesTarget(files, src, s, io) ||
       (s.preserveDate && (!io.setTimeSucceeds || (Target(src, s) == src && DeletesSource(s, io)))))
    ensures Convert(files, src, image, s, io).outcome == Success <==>
      WritesTarget(files, src, s, io) &&
      (s.preserveDate ==> io.setTimeSucceeds && !(Target(src, s) == src && DeletesSource(s, io)))
  {
  }

  /** Until the target is written nothing changes: a skip or an early failure leaves every file as it was. */
  lemma NothingChangesBeforeWrite(files: FileMap, src: Path, image: Image, s: Settings, io: IoEnv)
    requires !WritesTarget(files, src, s, io)
    ensures Convert(files, src, image, s, io).files == files
    ensures Convert(files, src, image, s, io).outcome != Success
  {
  }

  /** A conversion touches the source and the target and no other file. */
  lemma OnlySourceAndTargetChange(files: FileMap, src: Path, image: Image, s: Settings, io: IoEnv, p: Path)
    requires p != src && p != Target(src, s)
    ensures p in Convert(files, src, image, s, io).files <==> p in files
    ensures p in files ==> Convert(files, src, image, s, io).files[p] == files[p]
  {
  }

  /** The source disappears only once the target was written and only when deletion was asked for. */
  lemma SourceDeletedOnlyAfterWrite(files: FileMap, src: Path, image: Image, s: Settings, io: IoEnv)
    requires src in files
    ensures src !in Convert(files, src, image, s, io).files <==>
      WritesTarget(files, src, s, io) && DeletesSource(s, io)
  {
  }

  /**
   * A written target holds the encoded image; with "preserve date" on and a
   * successful outcome its modification time is the source's creation time
   * as read before anything was written or deleted, and without it the
   * time of the write.
   */
  lemma WrittenTarget(files: FileMap, src: Path, image: Image, s: Settings, io: IoEnv)
    requires WritesTarget(files, src, s, io)
    requires !(Target(src, s) == src && DeletesSource(s, io))
    ensures Target(src, s) in Convert(files, src, image, s, io).files
    ensures Convert(files, src, image, s, io).files[Target(src, s)].contents == Encoded(image, s)
    ensures Convert(files, src, image, s, io).outcome == Success && s.preserveDate ==>
      Convert(files, src, image, s, io).files[Target(src, s)].modified == files[src].created
    ensures !s.preserveDate ==>
      Convert(files, src, image, s, io).files[Target(src, s)].modified == io.now
  {
  }

  /**
   * A source that is its own target ("a.png" converted with "Jpeg -> PNG")
   * is overwritten and then deleted when removal is on: no file is left, and
   * the outcome is Success unless "preserve date" is on.
   */
  lemma SelfTargetIsLost(files: FileMap, src: Path, image: Image, s: Settings, io: IoEnv)
    requires NoSeparator(src.name) && EndsWith(src.name, TargetExtension(TargetFormat(s.formatIndex)))
    requires WritesTarget(files, src, s, io) && DeletesSource(s, io)
    ensures src !in Convert(files, src, image, s, io).files
    ensures Convert(files, src, image, s, io).outcome == Success <==> !s.preserveDate
  {
    var f := TargetFormat(s.formatIndex);
    SelfTargetIf(src, f);
    assert Target(src, s) == src;
    var written := Saved(files, src, Encoded(image, s), io.now);
    assert src in written;
  }

  /** The opposite format: the one a conversion to `f` reads. */
  function Other(f: Format): Format
  {
    if f == Png then Jpeg else Png
  }

  /** The format a lower-case file extension names, if any. */
  function ExtensionFormat(ext: string): Option<Format>
  {
    if ext == "jpg" || ext == "jpeg" then Some(Jpeg)
    else if ext == "png" then Some(Png)
    else None
  }

  /**
   * The extension list convertBulk hands to the directory search: exactly
   * the extensions of the format being converted from, each once.
   */
  method BulkExtensions(formatIndex: int) returns (extensions: seq<string>)
    ensures forall e :: e in extensions <==> ExtensionFormat(e) == Some(Other(TargetFormat(formatIndex)))
    ensures forall i, j :: 0 <= i < j < |extensions| ==> extensions[i] != extensions[j]
  {
    var toPng := formatIndex == 0;
    extensions := [];
    if toPng {
      extensions := extensions + ["jpg"];
      extensions := extensions + ["jpeg"];
    } else {
      extensions := extensions + ["png"];
    }
  }

  /**
   * A file the bulk search finds (its lower-cased name ends with one of the
   * extensions of the other format) never has itself as its target.
   */
  lemma BulkSourceIsNotItsTarget(src: Path, f: Format, ext: string)
    requires ExtensionFormat(ext) == Some(Other(f))
    requires EndsWith(Lower(src.name), ext)
    ensures TargetPath(src, f) != src
  {
    if TargetPath(src, f) == src {
      SelfTargetOnlyIf(src, f);
      ExtensionsDiffer(src.name, f, ext);
    }
  }

  /**
   * A bulk run never selects its own target even when letter case is
   * ignored: the lowered names of a source and its target differ.
   */
  lemma BulkSourceIsNotItsTargetAnyCase(src: Path, f: Format, ext: string)
    requires ExtensionFormat(ext) == Some(Other(f))
    requires EndsWith(Lower(src.name), ext)
    ensures Lower(TargetPath(src, f).name) != Lower(src.name)
  {
    var t := TargetPath(src, f).name;
    TargetPathShape(src, f);
    var lt, ls := Lower(t), Lower(src.name);
    if lt == ls {
      ExtensionsDiffer(t, f, ext);
    }
  }

  /**
   * A name ending in the target extension does not end, lowered, in an
   * extension of the other format: the next-to-last letters differ ('n' of
   * ".png" against 'p' of "jpg" or 'e' of "jpeg", 'p' of ".jpg" against 'n'
   * of "png").
   */
  lemma ExtensionsDiffer(n: string, f: Format, ext: string)
    requires ExtensionFormat(ext) == Some(Other(f))
    requires EndsWith(n, TargetExtension(f))
    ensures !EndsWith(Lower(n), ext)
  {
    var e, l := TargetExtension(f), Lower(n);
    assert n[|n| - 2] == e[2] by {
      assert n[|n| - 4..][2] == n[|n| - 2];
    }
    assert l[|l| - 2] == (if f == Png then 'n' else 'p');
  }

  /** What the OK button starts. */
  datatype Dispatch = ConvertSingle | ConvertBulk(recursive: bool)

  /** okHandler: index 0 converts the selected image; any other index a bulk run, recursive for index 2. */
  function OkHandler(s: Settings): (d: Dispatch)
    ensures d == ConvertSingle <==> s.quantityIndex == 0
    ensures d.ConvertBulk? ==> (d.recursive <==> s.quantityIndex == 2)
  {
    if s.quantityIndex == 0 then ConvertSingle else ConvertBulk(s.quantityIndex == 2)
  }

  /**
   * loadImageDetails: when the dialog opens it selects "Selected image" and
   * the format "PNG -> Jpeg" exactly for a name whose lower-case form ends in
   * ".png"; every other setting is left alone.
   */
  function LoadImageDetails(s: Settings, fileName: string): (r: Settings)
    ensures r.quantityIndex == 0
    ensures r.formatIndex == 1 <==> EndsWith(Lower(fileName), ".png")
    ensures r.formatIndex == 0 <==> !EndsWith(Lower(fileName), ".png")
    ensures r == s.(quantityIndex := 0, formatIndex := r.formatIndex)
  {
    var isPng := EndsWith(Lower(fileName), ".png");
    s.(quantityIndex := 0, formatIndex := if isPng then 1 else 0)
  }

  /**
   * With the defaults loadImageDetails picks, OK converts the selected image
   * and a ".png" name is converted to JPEG, any other name to PNG.
   */
  lemma DefaultsConvertSelectedImage(s: Settings, fileName: string)
    ensures OkHandler(LoadImageDetails(s, fileName)) == ConvertSingle
    ensures TargetFormat(LoadImageDetails(s, fileName).formatIndex) ==
      if EndsWith(Lower(fileName), ".png") then Jpeg else Png
  {
  }

  /** A message box: an error or an information message, with a title and a text. */
  datatype Notice = ErrorNotice(title: string, text: string) | InfoNotice(title: string, text: string)

  /** The message the single-image conversion shows for each outcome. */
  function SingleOutcomeNotice(o: Outcome): (n: Notice)
    ensures n.ErrorNotice? <==> o == InternalError
  {
    match o
    case InternalError => ErrorNotice("Conversion error", "An internal error occurred. Check the log for details.")
    case SkippedBecauseExists => InfoNotice("Conversion skipped", "Conversion was skipped because the output file exists.")
    case Success => InfoNotice("Conversion complete", "The file was successfully converted.")
  }
}
