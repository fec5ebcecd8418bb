/** The progress record the tester hands to its progress sink
    (EyesOfficeTester/EyesOfficeProgressUpdate.cs). Bitmaps and their PNG
    encodings are opaque tokens. */
module ProgressRecord {
  import opened Wrappers

  /** A rendered page or sheet bitmap, identified by an opaque token. */
  datatype Image = Image(id: nat)

  /** The PNG encoding of a bitmap (`Bitmap.Save(ms, ImageFormat.Png)`). */
  datatype Png = PngOf(source: Image)

  /** The record's fields at one instant: a snapshot as an observer sees it. */
  datatype UpdateValue = UpdateValue(
    progressMessage: Option<string>,
    progressValue: Option<int>,
    bitmap: Option<Image>,
    pngBytes: Option<Png>,
    hasError: bool)

  /** A freshly constructed record: every reference null, no error. */
  const Blank: UpdateValue := UpdateValue(None, None, None, None, false)

  /** The one mutable record the tester reuses for every report. */
  class ProgressUpdate {
    var progressMessage: Option<string>
    var progressValue: Option<int>
    var bitmap: Option<Image>
    var pngBytes: Option<Png>
    var hasError: bool

    constructor ()
      ensures Value() == Blank
    {
      progressMessage, progressValue := None, None;
      bitmap, pngBytes := None, None;
      hasError := false;
    }

    /** The current field values. */
    function Value(): UpdateValue
      reads this
    {
      UpdateValue(progressMessage, progressValue, bitmap, pngBytes, hasError)
    }
  }
}
