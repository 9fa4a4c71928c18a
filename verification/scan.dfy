/**
 * The Scan page: the manual shelf-label entry with its trim-and-submit
 * handler, the camera and barcode mode switches, the details card's
 * visibility rule and the shelf id it shows.
 */
module Scan {
  import opened Wrappers
  import opened Text

  datatype ScanMode = Manual | Camera | Barcode

  /** The page's React state: `manualEntry`, `scanMode`, `scannedShelf`. */
  datatype ScanView = ScanView(manualEntry: string, scanMode: ScanMode, scannedShelf: Option<string>)

  const InitialView := ScanView("", Manual, None)

  /** The id shown when no shelf has been scanned yet. */
  const FallbackShelfId := "A-1-2"

  datatype ScanEvent =
    | TypeEntry(text: string)
    | SubmitEntry
    | StartCamera
    | ActivateScanner

  /** `disabled={!manualEntry.trim()}`, negated: the submit button can be pressed. */
  predicate SubmitEnabled(v: ScanView) {
    Trim(v.manualEntry) != ""
  }

  /** The button is enabled exactly when the entry holds a non-whitespace character. */
  lemma SubmitEnabledIff(v: ScanView)
    ensures SubmitEnabled(v) <==> !AllWhitespace(v.manualEntry)
  {
  }

  /**
   * `handleManualSubmit`: a blank or all-whitespace entry changes nothing;
   * otherwise the trimmed entry becomes the scanned shelf. The entry itself
   * and the mode are kept.
   */
  function Submit(v: ScanView): (r: ScanView)
    ensures AllWhitespace(v.manualEntry) ==> r == v
    ensures !AllWhitespace(v.manualEntry) ==>
              r.scannedShelf.Some? && r.scannedShelf.value == Trim(v.manualEntry)
    ensures r.manualEntry == v.manualEntry && r.scanMode == v.scanMode
  {
    var entry := Trim(v.manualEntry);
    if entry != "" then v.(scannedShelf := Some(entry)) else v
  }

  /** One interaction; the mode buttons only ever select camera or barcode. */
  function Step(v: ScanView, e: ScanEvent): (r: ScanView)
    ensures e.TypeEntry? ==> r.manualEntry == e.text && r.scanMode == v.scanMode && r.scannedShelf == v.scannedShelf
    ensures e.StartCamera? ==> r.scanMode == Camera && r.scannedShelf == v.scannedShelf
    ensures e.ActivateScanner? ==> r.scanMode == Barcode && r.scannedShelf == v.scannedShelf
    ensures e.SubmitEntry? ==> r == Submit(v)
    ensures e.StartCamera? || e.ActivateScanner? ==> r.manualEntry == v.manualEntry
    ensures r.scanMode == Manual ==> v.scanMode == Manual
  {
    match e
    case TypeEntry(text) => v.(manualEntry := text)
    case SubmitEntry => Submit(v)
    case StartCamera => v.(scanMode := Camera)
    case ActivateScanner => v.(scanMode := Barcode)
  }

  function Run(v: ScanView, events: seq<ScanEvent>): ScanView
    decreases |events|
  {
    if events == [] then v else Run(Step(v, events[0]), events[1..])
  }

  /** A scanned shelf id, once set, is non-empty and has no surrounding whitespace. */
  predicate ScannedWellFormed(v: ScanView) {
    v.scannedShelf.Some? ==> v.scannedShelf.value != "" && IsTrimmed(v.scannedShelf.value)
  }

  lemma StepKeepsScannedWellFormed(v: ScanView, e: ScanEvent)
    requires ScannedWellFormed(v)
    ensures ScannedWellFormed(Step(v, e))
  {
  }

  /**
   * The page only moves forward: a scanned shelf is never cleared and the
   * mode never returns to manual, whatever the user does.
   */
  lemma {:induction false} RunMovesForward(v: ScanView, events: seq<ScanEvent>)
    ensures v.scannedShelf.Some? ==> Run(v, events).scannedShelf.Some?
    ensures v.scanMode != Manual ==> Run(v, events).scanMode != Manual
    ensures ScannedWellFormed(v) ==> ScannedWellFormed(Run(v, events))
    decreases |events|
  {
    if events != [] {
      if ScannedWellFormed(v) {
        StepKeepsScannedWellFormed(v, events[0]);
      }
      RunMovesForward(Step(v, events[0]), events[1..]);
    }
  }

  /** Every state the page can reach has a well-formed scanned shelf. */
  lemma ReachableScannedWellFormed(events: seq<ScanEvent>)
    ensures ScannedWellFormed(Run(InitialView, events))
  {
    RunMovesForward(InitialView, events);
  }

  /** `scannedShelf || scanMode !== 'manual'`: JavaScript truthiness, so an empty id counts as unset. */
  predicate DetailsVisible(v: ScanView) {
    (v.scannedShelf.Some? && v.scannedShelf.value != "") || v.scanMode != Manual
  }

  /** On every reachable state the card shows exactly when a shelf is set or the mode is not manual. */
  lemma DetailsVisibleIff(v: ScanView)
    requires ScannedWellFormed(v)
    ensures DetailsVisible(v) <==> v.scannedShelf.Some? || v.scanMode != Manual
  {
  }

  /** `mockShelfData.id`: `scannedShelf || 'A-1-2'`. */
  function DisplayedShelfId(v: ScanView): (id: string)
    ensures id != ""
    ensures ScannedWellFormed(v) ==> id == v.scannedShelf.GetOr(FallbackShelfId)
  {
    if v.scannedShelf.Some? && v.scannedShelf.value != "" then v.scannedShelf.value else FallbackShelfId
  }

  /** After a successful submit the card is on screen and shows the trimmed entry. */
  lemma SubmitShowsEntry(v: ScanView)
    requires SubmitEnabled(v)
    ensures DetailsVisible(Step(v, SubmitEntry))
    ensures DisplayedShelfId(Step(v, SubmitEntry)) == Trim(v.manualEntry)
  {
  }
}
