# Image converter extension: a verified model

This project models the decision logic of the image viewer's "Convert image"
extension, which converts JPEG images to PNG or PNG images to JPEG, for one
selected image or in bulk over a directory. Three parts are modelled:

- **The menu action** (`action.dfy`, module `Action`): the ordered guards that
  decide whether the converter dialog opens or which message is shown.
- **The dialog's conversion policy** (`naming.dfy`, `disk.dfy`, `dialog.dfy`):
  - the target file name: same directory, the commons-io base name, then
    `.png` or `.jpg`;
  - the skip-or-overwrite decision;
  - the effects of one conversion on the file system, in order: read the
    source's creation time, write the target, maybe delete the source, maybe
    re-time the target;
  - the extensions a bulk run searches for, the OK button's dispatch, and the
    format preselected for an image.
- **The bulk worker** (`worker.dfy`, module `Worker`): the `run` loop of
  `ImageConverterThread`, with its counters, cancellation, progress index and
  time total, and the choice of completion message.

The file system is a map from paths to file records (contents, creation time,
modification time). `Disk.FileStore` is a class over that map, and the
conversion changes it in place. Each I/O step may fail, and that is decided
by the caller: `Dialog.IoEnv` says for one conversion whether the attribute
read, the PNG writer lookup, the write, the delete and the re-timing succeed,
and gives the clock. For each list entry, `Worker.FileEnv` says whether the
progress monitor reports "canceled" when that entry is reached, whether the
image loads, and how long the conversion took.

Each imperative method is proved against a specification function:

- `Dialog.ConvertImage` against `Dialog.Convert`;
- `Worker.ConverterThread.Run` against `Worker.RunFrom`.

The lemmas then state what the source promises about those functions.

One consequence of the code as written is proved, not corrected
(`Dialog.SelfTargetIsLost`). A source whose name already carries the target
extension is its own target, for example `a.png` with "Jpeg -> PNG" chosen by
hand. With "overwrite" and "remove source" both on, the conversion writes the
file and then deletes it. No file is left, and the outcome is Success unless
"preserve date" is on. A bulk run never selects its own target, on any file
system: even with letter case ignored, a file found by the bulk search differs
from its target (`Dialog.BulkSourceIsNotItsTarget`,
`Dialog.BulkSourceIsNotItsTargetAnyCase`). The loss is therefore a
single-image one. On a case-insensitive file system (the usual Windows and
macOS set-up) it also reaches upper-case extensions, such as `A.PNG` with
"Jpeg -> PNG" chosen by hand; the model compares paths as exact strings and
does not capture that case (see "Left out").

Bulk mode has a loss of its own. `b.jpg` and `b.jpeg` in one directory share
the target `b.png` (`Naming.JpegVariantsShareTarget`), and a "Jpeg -> PNG"
bulk run selects both. With "overwrite" and "remove source" on, the second
conversion replaces the first one's output and both sources are deleted, so
the image of the first one survives nowhere.

Some behaviours of the code that are easy to misread:

- A failed re-timing of the target is an `InternalError`, not a non-fatal
  step.
- The progress index advances only for files that loaded, not after every
  file.
- `getProcessedCount` is the list size even for a canceled run, not the
  number of files visited.
- The JPEG quality field
  (`ImageConverterDialog.java:259`) ranges over 60..99 with default 95.

## Model

| member | source | states |
|---|---|---|
| Naming.TargetExtension | src/main/java/ca/corbett/imageviewer/extensions/imageconvert/ImageConverterDialog.java:128 | The target extension is ".png" exactly for PNG and ".jpg" exactly for JPEG: four characters, a dot, no separator, no further dot. |
| Naming.BaseNameSplits | src/main/java/ca/corbett/imageviewer/extensions/imageconvert/ImageConverterDialog.java:129-130 | The file-name part is the whole path when it has no separator, and otherwise the suffix after the last '/' or '\\' (the character before it is a separator); it has no separator itself. The base name has no separator and is either the whole file-name part (no dot) or what precedes its last dot, the rest being a dot and a dot-free extension. |
| Naming.BaseNameDropsLastExtension | src/main/java/ca/corbett/imageviewer/extensions/imageconvert/ImageConverterDialog.java:130 | Only the last extension goes: "photo.jpeg" gives "photo", "a.b.jpg" gives "a.b". |
| Naming.BaseNameDropsDirectory | src/main/java/ca/corbett/imageviewer/extensions/imageconvert/ImageConverterDialog.java:130 | The directory part goes with either separator, and a dot inside it is no extension: "dir\\shot.png" and "a.d/shot" both give "shot". |
| Naming.PlainNameIsBase | src/main/java/ca/corbett/imageviewer/extensions/imageconvert/ImageConverterDialog.java:130 | A name with no separator and no dot is its own base name. |
| Naming.TargetPathShape | src/main/java/ca/corbett/imageviewer/extensions/imageconvert/ImageConverterDialog.java:129-130 | The target is in the source's directory, its name holds no separator and ends with the target extension, and its base name is the source's base name (round trip). |
| Naming.JpegVariantsShareTarget | src/main/java/ca/corbett/imageviewer/extensions/imageconvert/ImageConverterDialog.java:129-130 | For a base name b with no separator and no dot, "b.jpg" and "b.jpeg" in one directory both have the target "b.png" when converting to PNG. |
| Naming.SelfTarget | src/main/java/ca/corbett/imageviewer/extensions/imageconvert/ImageConverterDialog.java:129-133 | The target equals the source exactly when the source name has no separator and already ends with the target extension. |
| Action.ActionPerformed | src/main/java/ca/corbett/imageviewer/extensions/imageconvert/ImageConverterAction.java:22-47 | The dialog opens iff an image is selected, the browse mode is the file system and the name passes. Each rejection message holds iff its check is the first to fail. |
| Action.ConvertibleByLastCharacters | src/main/java/ca/corbett/imageviewer/extensions/imageconvert/ImageConverterAction.java:38-40 | The name test is equivalent to the last three characters being "jpg" or "png", or the last four "jpeg", ignoring case. No dot is needed. |
| Action.CaseInsensitive | src/main/java/ca/corbett/imageviewer/extensions/imageconvert/ImageConverterAction.java:38-40 | Names equal after lower-casing get the same decision. |
| Action.SuffixExamples | src/main/java/ca/corbett/imageviewer/extensions/imageconvert/ImageConverterAction.java:24-44 | "notjpg" and "PHOTO.JPEG" open the dialog. "photo.gif" gets the format message. Image-set mode gets the browse-mode message. |
| Dialog.ConvertImage | src/main/java/ca/corbett/imageviewer/extensions/imageconvert/ImageConverterDialog.java:127-179 | The exists check, attribute read, PNG writer check, write, delete and re-time, with early returns, produce exactly the outcome and files of `Convert`. |
| Dialog.OutcomeCases | src/main/java/ca/corbett/imageviewer/extensions/imageconvert/ImageConverterDialog.java:133-178 | Skipped iff the target exists and overwrite is off. InternalError iff an I/O step fails, counting a re-time of a target already deleted as the source. Success otherwise. |
| Dialog.NothingChangesBeforeWrite | src/main/java/ca/corbett/imageviewer/extensions/imageconvert/ImageConverterDialog.java:133-161 | A skip or a failure before the write leaves every file unchanged and is not a success. |
| Dialog.OnlySourceAndTargetChange | src/main/java/ca/corbett/imageviewer/extensions/imageconvert/ImageConverterDialog.java:129-171 | No file other than the source and the target is created, removed or changed. |
| Dialog.SourceDeletedOnlyAfterWrite | src/main/java/ca/corbett/imageviewer/extensions/imageconvert/ImageConverterDialog.java:156-166 | The source disappears iff the target was written, deletion is on and the deletion succeeds. |
| Dialog.WrittenTarget | src/main/java/ca/corbett/imageviewer/extensions/imageconvert/ImageConverterDialog.java:142-171 | A written target holds the encoded image. With preserve-date and success its mtime is the source's creation time read before the write; without preserve-date it is the write time. |
| Dialog.SelfTargetIsLost | src/main/java/ca/corbett/imageviewer/extensions/imageconvert/ImageConverterDialog.java:129-171 | A source that is its own target, with overwrite and delete on, is gone afterwards. The outcome is Success iff preserve-date is off. |
| Dialog.BulkExtensions | src/main/java/ca/corbett/imageviewer/extensions/imageconvert/ImageConverterDialog.java:197-205 | The list holds exactly the extensions of the format converted from (jpg, jpeg for PNG; png for JPEG), each once. |
| Dialog.BulkSourceIsNotItsTarget | src/main/java/ca/corbett/imageviewer/extensions/imageconvert/ImageConverterDialog.java:196-207 | A file whose lower-cased name ends with a searched extension never has itself as its target. |
| Dialog.BulkSourceIsNotItsTargetAnyCase | src/main/java/ca/corbett/imageviewer/extensions/imageconvert/ImageConverterDialog.java:196-207 | A file whose lower-cased name ends with a searched extension differs from its target even when letter case is ignored, so the bulk search never selects its own target on a case-insensitive file system either. |
| Dialog.OkHandler | src/main/java/ca/corbett/imageviewer/extensions/imageconvert/ImageConverterDialog.java:303-310 | Quantity index 0 converts the selected image. Any other index starts a bulk run, recursive iff the index is 2. |
| Dialog.LoadImageDetails | src/main/java/ca/corbett/imageviewer/extensions/imageconvert/ImageConverterDialog.java:312-316 | The quantity becomes 0. The format becomes "PNG -> Jpeg" iff the lower-cased name ends in ".png", else "Jpeg -> PNG". Nothing else changes. |
| Dialog.DefaultsConvertSelectedImage | src/main/java/ca/corbett/imageviewer/extensions/imageconvert/ImageConverterDialog.java:303-316 | After the defaults are loaded, OK converts the selected image: a ".png" name to JPEG, any other name to PNG. |
| Dialog.SingleOutcomeNotice | src/main/java/ca/corbett/imageviewer/extensions/imageconvert/ImageConverterDialog.java:181-194 | The single-image conversion shows an error message iff the outcome is InternalError. |
| Worker.StepCountsOnce | src/main/java/ca/corbett/imageviewer/extensions/imageconvert/ImageConverterThread.java:100-131 | Each visited file adds one to exactly one counter: a failed load or InternalError to problems, SkippedBecauseExists to skipped, Success to converted. Only a loaded file advances progress and adds its time. |
| Worker.StepProgress | src/main/java/ca/corbett/imageviewer/extensions/imageconvert/ImageConverterThread.java:102-103 | A file appends the next progress value iff it loaded. |
| Worker.FirstCancel | src/main/java/ca/corbett/imageviewer/extensions/imageconvert/ImageConverterThread.java:95-99 | The position where cancel is first seen: no entry before it is canceled, and the entry at it is. |
| Worker.RunVisits | src/main/java/ca/corbett/imageviewer/extensions/imageconvert/ImageConverterThread.java:95-132 | The files visited are those before the first cancel, each adding one to the counter sum. The run ends canceled iff a cancel was seen. |
| Worker.RunProgress | src/main/java/ca/corbett/imageviewer/extensions/imageconvert/ImageConverterThread.java:94-103 | The progress log grows by one value per loaded file before the first cancel and keeps its earlier values. |
| Worker.RunCountsUp | src/main/java/ca/corbett/imageviewer/extensions/imageconvert/ImageConverterThread.java:94-103 | The values passed to setProgress keep counting 1, 2, 3, ... |
| Worker.RunTime | src/main/java/ca/corbett/imageviewer/extensions/imageconvert/ImageConverterThread.java:104-107 | The time total grows by the elapsed times of the loaded files before the first cancel, and by nothing else. |
| Worker.CancelStopsRun | src/main/java/ca/corbett/imageviewer/extensions/imageconvert/ImageConverterThread.java:95-99 | Once cancel is seen at entry k, no later file is loaded or converted. The run ends in the state the first k entries reach, marked canceled. |
| Worker.RunFromStart | src/main/java/ca/corbett/imageviewer/extensions/imageconvert/ImageConverterThread.java:88-132 | From the reset state: converted + skipped + problems equals the files visited, which is at most the list size and equal to it iff not canceled. Progress values are 1..n, one per loaded file. The time total is those files' sum. |
| Worker.EmptyListNotCanceled | src/main/java/ca/corbett/imageviewer/extensions/imageconvert/ImageConverterThread.java:95-99 | An empty list never reports canceled and changes no file. |
| Worker.CompletionSummary | src/main/java/ca/corbett/imageviewer/extensions/imageconvert/ImageConverterThread.java:149-163 | A canceled run reports only the converted count, under the title "Conversion canceled" exactly when canceled. Otherwise the report has processed, converted, skipped and time, with a problems line iff problems > 0. |
| Worker.SummaryTitle | src/main/java/ca/corbett/imageviewer/extensions/imageconvert/ImageConverterThread.java:150-163 | The window title is "Conversion canceled" exactly for the canceled summary and "Conversion complete" exactly for the complete one. |
| Worker.SummaryOfRun | src/main/java/ca/corbett/imageviewer/extensions/imageconvert/ImageConverterThread.java:53-55 | For a finished run the reported processed count (the list size) is converted + skipped + problems. For a canceled run the list size exceeds the files counted. |
| Worker.ConverterThread.constructor | src/main/java/ca/corbett/imageviewer/extensions/imageconvert/ImageConverterThread.java:46-85 | The worker keeps its owner, list and logging flag. The monitor's maximum is the list size, or 100 for an empty list. |
| Worker.ConverterThread.Run | src/main/java/ca/corbett/imageviewer/extensions/imageconvert/ImageConverterThread.java:87-143 | After resetting the counters, the loop with its break on cancel leaves the counters, time, cancel flag, progress log and files equal to `RunFrom` from the reset state. |
| Worker.ConverterThread.HandleFile | src/main/java/ca/corbett/imageviewer/extensions/imageconvert/ImageConverterThread.java:100-131 | One loop body (load, setProgress, convert, add the time, count the outcome) moves the worker's state exactly as `Step` does. |
| Worker.ConverterThread.CompletionMessage | src/main/java/ca/corbett/imageviewer/extensions/imageconvert/ImageConverterThread.java:145-165 | The canceled message, titled "Conversion canceled", is chosen iff `wasCanceled`. The complete message reports the list size as processed. |
| Worker.StartBulk | src/main/java/ca/corbett/imageviewer/extensions/imageconvert/ImageConverterDialog.java:196-221 | The directory search gets the other format's extensions. A worker over the found files, with the dialog's settings and logging flag, is created iff the user confirms. |

## Left out

- Swing: dialog layout, form fields, key dispatch, `dispose` and `setVisible`. The form's values are the `Dialog.Settings` record, with its initial values in `Dialog.InitialSettings`.
- The progress monitor's window, `setNote`, `close`, the worker `Thread` and `SwingUtilities.invokeLater`. Cancellation is an oracle flag per list entry, and progress is the list of values passed to `setProgress`.
- Image decoding and encoding (`ImageUtil.loadImage`, `saveImage`, ImageIO) are oracles. An image is an opaque token, and a written file records which image and format it holds. `image.flush()` is not modelled.
- A failed write is modelled as leaving the target as it was. A partially written target file is not modelled.
- `FileSystemUtil.findFiles` (directory walking and its case rules) is external. Its answer is a parameter of `Worker.StartBulk`.
- The `Stopwatch` registry and time formatting. Elapsed time is a natural number per file, and the summary carries numbers, not the message text.
- Load and codec failures other than `IOException`, and a null image from `ImageUtil.loadImage`, are not modelled: the oracles fail only in the ways `run` and `convertImage` catch (ImageConverterThread.java:126, ImageConverterDialog.java:173). In the program such a failure escapes `run()`, so the completion summary is never shown, the progress monitor is not closed and the directory tree stays disabled.
- Logging: the per-file "Converted ..." lines and the severe log entries.
- The JPEG quality is an integer percent passed through unchanged. The float division by 100 is not modelled.
- Dialog.Settings.jpegQuality: an unconstrained integer; the field's 60..99 range (default 95) is not modelled, since the conversion only passes the value through.
- Paths compare as exact strings, as on a case-sensitive file system. `File.exists` on a case-insensitive file system (Windows, macOS) also finds a target that differs from the computed name only in letter case, so there "A.PNG" with "Jpeg -> PNG" and overwrite off is skipped where the model converts it; that behaviour is not modelled.
- Java `int` and `long` overflow of the counters and the time total: these are unbounded naturals.
- Lower-casing covers ASCII letters only. For the suffix tests this is exact, since only 'J', 'P', 'E', 'G', 'N' lower-case to the letters tested.
- The `IllegalArgumentException`s that newer commons-io versions raise for a NUL character, or for a colon on Windows, in a file name.
- A null file list, which `run` would not survive.
- The confirmation prompt's wording and the host window's calls (`disableDirTree`, `enableDirTree`, `reloadCurrentDirectory`, `showMessageDialog`).
- The extension registration class and its metadata loading.
