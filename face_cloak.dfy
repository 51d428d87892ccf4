/** The targeted cloak page: its state cells, one method per event (drop, target pick,
    toggles, submit and its settling, Clear, Reset, unmount) and the preview-revoking
    effect that runs after every commit that changes `[preview, targetPreview]`. */
module FaceCloak {
  import opened Json
  import opened Browser
  import opened CloakResponse

  /** The `alert(...)` dialogs the page raises. */
  datatype Alert =
    | UploadImageFirst                  // "Please upload an image first."
    | UploadTargetFirst                 // "Please upload a target image for targeted cloaking."
    | ProcessingFailed(reason: Value)   // "Failed to process image: <reason>"

  /** What reading `cloaked_image` of a null `res.data` throws, in the wording of V8 (the
      engine of Chrome and Edge); Firefox and Safari word the `TypeError` differently. */
  const NULL_DATA_ERROR: string := "Cannot read properties of null (reading 'cloaked_image')"

  /** The page's `useState` cells as one rendered snapshot. An event handler's setters are
      batched by React into one commit, so every event replaces the snapshot at once. */
  datatype Cells = Cells(
    originalFile: Option<File>,
    preview: Option<Handle>,
    response: Option<DataUrl>,
    loading: bool,
    intensity: real,
    isTargeted: bool,
    targetImage: Option<File>,
    targetPreview: Option<Handle>,
    predictions: Predictions,
    rawData: Option<Value>,
    metrics: Option<map<string, Value>>)

  /** The cells a successful answer sets. */
  datatype Interpretation =
    Interpretation(image: DataUrl, raw: Value, predictions: Predictions, metrics: Option<map<string, Value>>)

  /** The success path of the submit handler on `res.data`; `None` when reading
      `res.data.cloaked_image` throws, which sends the handler to its error path. */
  function Interpret(data: Value): Option<Interpretation>
  {
    if data == Null then None
    else
      var payload := Payload(data);
      var root := EffectiveRoot(payload);
      Some(Interpretation(PngDataUrl(Get(data, "cloaked_image")), payload, ExtractPredictions(root), PickedMetrics(root)))
  }

  /** A submit goes out only with a source image, and with a target image when targeted. */
  predicate Ready(c: Cells)
  {
    c.originalFile.Some? && (!c.isTargeted || c.targetImage.Some?)
  }

  /** The multipart form of a submit. */
  function SubmitForm(file: File, targeted: bool, target: Option<File>, intensity: real): (form: FormData)
    ensures Lookup(form, "file") == Some(FileValue(file))
    ensures Lookup(form, "targeted") == Some(TextValue(if targeted then "true" else "false"))
    ensures Lookup(form, "intensity") == Some(NumberValue(intensity))
    ensures Lookup(form, "target_image").Some? <==> targeted && target.Some?
    ensures targeted && target.Some? ==> Lookup(form, "target_image") == Some(FileValue(target.value))
    ensures forall i :: 0 <= i < |form| ==> form[i].0 in {"file", "target_image", "targeted", "intensity"}
  {
    var fileField := ("file", FileValue(file));
    var flagField := ("targeted", TextValue(if targeted then "true" else "false"));
    var intensityField := ("intensity", NumberValue(intensity));
    var tail: FormData := [flagField] + [intensityField];
    var rest: FormData := if targeted && target.Some? then [("target_image", FileValue(target.value))] + tail else tail;
    assert "file"[0] != "target_image"[0] && "file"[0] != "targeted"[0] && "file"[0] != "intensity"[0];
    assert "intensity"[0] != "target_image"[0] && "intensity"[0] != "targeted"[0];
    assert |"targeted"| != |"target_image"|;
    LookupCons(intensityField, [], "target_image");
    LookupCons(intensityField, [], "intensity");
    LookupCons(flagField, [intensityField], "target_image");
    LookupCons(flagField, [intensityField], "targeted");
    LookupCons(flagField, [intensityField], "intensity");
    var targetField := ("target_image", FileValue(if target.Some? then target.value else file));
    LookupCons(targetField, tail, "targeted");
    LookupCons(targetField, tail, "intensity");
    LookupCons(fileField, rest, "target_image");
    LookupCons(fileField, rest, "targeted");
    LookupCons(fileField, rest, "intensity");
    [fileField] + rest
  }

  class FaceCloakPage {
    var cells: Cells

    // The page's effect on its surroundings.
    var nextHandle: Handle        // the next object URL `createObjectURL` hands out
    var revoked: seq<Handle>      // every `revokeObjectURL`, in order
    var requests: seq<FormData>   // every form posted to `/face-cloak`, in order
    var inFlight: nat             // posted requests that have not settled
    var alerts: seq<Alert>
    var mounted: bool

    /** The page invariant: no object URL leaks (each is shown or revoked, and all are revoked
        once unmounted), a pending submit has cleared the result cells, at most one request is
        in flight, and the intensity stays in the slider's range. */
    ghost predicate Valid()
      reads this
    {
      && NoLeak(revoked, nextHandle, cells.preview, cells.targetPreview)
      && (!mounted ==> AllRevoked(revoked, nextHandle))
      && (cells.loading ==> cells.predictions == NoPredictions && cells.rawData.None? && cells.metrics.None?)
      && (mounted ==> inFlight == if cells.loading then 1 else 0)
      && inFlight <= 1
      && 0.0 <= cells.intensity <= 0.1
    }

    constructor ()
      ensures Valid() && mounted
      ensures cells == Cells(None, None, None, false, 0.01, false, None, None, NoPredictions, None, None)
      ensures nextHandle == 0 && revoked == [] && requests == [] && inFlight == 0 && alerts == []
    {
      cells := Cells(None, None, None, false, 0.01, false, None, None, NoPredictions, None, None);
      nextHandle, revoked, requests, inFlight, alerts, mounted := 0, [], [], 0, [], true;
    }

    /** `onDrop`: without a file nothing happens; otherwise the file becomes the source, the
        cloaked image is dropped and a fresh preview handle replaces the old one, whereupon the
        effect revokes both previous previews. */
    method Drop(accepted: seq<File>)
      requires Valid() && mounted
      modifies this
      ensures Valid() && mounted
      ensures accepted == [] ==> cells == old(cells) && nextHandle == old(nextHandle) && revoked == old(revoked)
      ensures accepted != [] ==>
        && cells == old(cells).(originalFile := Some(accepted[0]), response := None, preview := Some(old(nextHandle)))
        && nextHandle == old(nextHandle) + 1
        && revoked == old(revoked) + Released(old(cells).preview) + Released(old(cells).targetPreview)
      ensures requests == old(requests) && inFlight == old(inFlight) && alerts == old(alerts)
    {
      if accepted == [] {
        return;
      }
      var url := nextHandle;
      nextHandle := nextHandle + 1;
      var next := cells.(originalFile := Some(accepted[0]), response := None, preview := Some(url));
      CommitKeepsNoLeak(revoked, url, cells.preview, cells.targetPreview, nextHandle, next.preview, next.targetPreview);
      revoked := revoked + PreviewCleanup(cells.preview, cells.targetPreview, next.preview, next.targetPreview);
      cells := next;
    }

    /** The target input's `onChange` (rendered only while targeted): `targetImage` takes the
        first file, or undefined when none was chosen; only a chosen file replaces
        `targetPreview`, and only then does the effect revoke both previous previews. */
    method PickTarget(files: seq<File>)
      requires Valid() && mounted && cells.isTargeted
      modifies this
      ensures Valid() && mounted
      ensures files == [] ==>
        && cells == old(cells).(targetImage := None)
        && nextHandle == old(nextHandle) && revoked == old(revoked)
      ensures files != [] ==>
        && cells == old(cells).(targetImage := Some(files[0]), targetPreview := Some(old(nextHandle)))
        && nextHandle == old(nextHandle) + 1
        && revoked == old(revoked) + Released(old(cells).preview) + Released(old(cells).targetPreview)
      ensures requests == old(requests) && inFlight == old(inFlight) && alerts == old(alerts)
    {
      var n0 := nextHandle;
      var next := cells.(targetImage := if files == [] then None else Some(files[0]));
      if files != [] {
        next := next.(targetPreview := Some(nextHandle));
        nextHandle := nextHandle + 1;
      }
      CommitKeepsNoLeak(revoked, n0, cells.preview, cells.targetPreview, nextHandle, next.preview, next.targetPreview);
      revoked := revoked + PreviewCleanup(cells.preview, cells.targetPreview, next.preview, next.targetPreview);
      cells := next;
    }

    /** The "Targeted Cloaking" checkbox; turning it off keeps the target image and preview. */
    method SetTargeted(on: bool)
      requires Valid() && mounted
      modifies this`cells
      ensures Valid() && cells == old(cells).(isTargeted := on)
    {
      cells := cells.(isTargeted := on);
    }

    /** The intensity slider, whose range is [0, 0.1]. */
    method SetIntensity(x: real)
      requires Valid() && mounted && 0.0 <= x <= 0.1
      modifies this`cells
      ensures Valid() && cells == old(cells).(intensity := x)
    {
      cells := cells.(intensity := x);
    }

    /** The synchronous part of `handleStartCloaking`, up to the request; the button is
        disabled while loading. A missing source or a missing target (when targeted) raises an
        alert and changes nothing else; otherwise the result cells are cleared (the cloaked
        image is kept) and exactly one form is posted. */
    method StartCloaking()
      requires Valid() && mounted && !cells.loading
      modifies this`cells, this`requests, this`inFlight, this`alerts
      ensures Valid()
      ensures old(cells).originalFile.None? ==>
        cells == old(cells) && alerts == old(alerts) + [UploadImageFirst] &&
        requests == old(requests) && inFlight == old(inFlight)
      ensures old(cells).originalFile.Some? && old(cells).isTargeted && old(cells).targetImage.None? ==>
        cells == old(cells) && alerts == old(alerts) + [UploadTargetFirst] &&
        requests == old(requests) && inFlight == old(inFlight)
      ensures Ready(old(cells)) ==>
        && cells == old(cells).(loading := true, predictions := NoPredictions, rawData := None, metrics := None)
        && requests == old(requests) + [SubmitForm(cells.originalFile.value, cells.isTargeted, cells.targetImage, cells.intensity)]
        && inFlight == 1 && alerts == old(alerts)
    {
      if cells.originalFile.None? {
        alerts := alerts + [UploadImageFirst];
        return;
      }
      if cells.isTargeted && cells.targetImage.None? {
        alerts := alerts + [UploadTargetFirst];
        return;
      }
      var form := SubmitForm(cells.originalFile.value, cells.isTargeted, cells.targetImage, cells.intensity);
      cells := cells.(loading := true, predictions := NoPredictions, rawData := None, metrics := None);
      requests := requests + [form];
      inFlight := inFlight + 1;
    }

    /** The rest of `handleStartCloaking`, when the request settles. There is no stale-response
        guard: the answer is applied to whatever the page shows by then. After an unmount React
        drops the state updates, but the browser still raises the alert. A success fills the
        result cells from the answer; a failure, or a null body, raises an alert; `loading` ends
        false either way. */
    method Resolve(outcome: HttpOutcome)
      requires Valid() && inFlight > 0
      modifies this`cells, this`inFlight, this`alerts
      ensures Valid() && inFlight == old(inFlight) - 1
      ensures !mounted ==> cells == old(cells)
      ensures mounted && outcome.Resolved? && outcome.data != Null ==>
        var r := Interpret(outcome.data).value;
        cells == old(cells).(loading := false, response := Some(r.image), rawData := Some(r.raw),
                             predictions := r.predictions, metrics := r.metrics)
      ensures mounted && !(outcome.Resolved? && outcome.data != Null) ==> cells == old(cells).(loading := false)
      ensures outcome.Resolved? && outcome.data != Null ==> alerts == old(alerts)
      ensures outcome.Resolved? && outcome.data == Null ==> alerts == old(alerts) + [ProcessingFailed(Str(NULL_DATA_ERROR))]
      ensures outcome.Rejected? ==> alerts == old(alerts) + [ProcessingFailed(FailureReason(outcome.responseData, outcome.message))]
    {
      inFlight := inFlight - 1;
      match outcome
      case Resolved(data) =>
        if data == Null {
          alerts := alerts + [ProcessingFailed(Str(NULL_DATA_ERROR))];
          if mounted {
            cells := cells.(loading := false);
          }
        } else if mounted {
          var image := PngDataUrl(Get(data, "cloaked_image"));
          var payload := Payload(data);
          var root := EffectiveRoot(payload);
          var metrics := ExtractMetrics(root);
          cells := cells.(loading := false, response := Some(image), rawData := Some(payload),
                          predictions := ExtractPredictions(root), metrics := metrics);
        }
      case Rejected(body, message) =>
        alerts := alerts + [ProcessingFailed(FailureReason(body, message))];
        if mounted {
          cells := cells.(loading := false);
        }
    }

    /** What Clear and Reset both do: every source, target and result cell back to empty, after
        which the effect revokes the previews that were bound, if any. */
    method Discard()
      requires Valid() && mounted
      modifies this`cells, this`revoked
      ensures Valid()
      ensures cells == old(cells).(response := None, preview := None, originalFile := None,
        targetImage := None, targetPreview := None, predictions := NoPredictions, rawData := None, metrics := None)
      ensures revoked == old(revoked) + PreviewCleanup(old(cells).preview, old(cells).targetPreview, None, None)
    {
      var next := cells.(response := None, preview := None, originalFile := None,
        targetImage := None, targetPreview := None, predictions := NoPredictions, rawData := None, metrics := None);
      CommitKeepsNoLeak(revoked, nextHandle, cells.preview, cells.targetPreview, nextHandle, None, None);
      revoked := revoked + PreviewCleanup(cells.preview, cells.targetPreview, None, None);
      cells := next;
    }

    /** The Clear button, shown while a preview is bound and there is no cloaked image (also
        while a submit is pending). */
    method Clear()
      requires Valid() && mounted && (cells.preview.Some? || cells.targetPreview.Some?) && cells.response.None?
      modifies this`cells, this`revoked
      ensures Valid()
      ensures cells == old(cells).(preview := None, originalFile := None, targetImage := None,
        targetPreview := None, predictions := NoPredictions, rawData := None, metrics := None)
      ensures revoked == old(revoked) + Released(old(cells).preview) + Released(old(cells).targetPreview)
    {
      Discard();
    }

    /** The Reset button, shown beside a cloaked image once loading is over. */
    method Reset()
      requires Valid() && mounted && !cells.loading && cells.response.Some?
      modifies this`cells, this`revoked
      ensures Valid()
      ensures cells == old(cells).(response := None, preview := None, originalFile := None,
        targetImage := None, targetPreview := None, predictions := NoPredictions, rawData := None, metrics := None)
      ensures revoked == old(revoked) + PreviewCleanup(old(cells).preview, old(cells).targetPreview, None, None)
    {
      Discard();
    }

    /** Unmount runs the last cleanup: the handles still bound are revoked, so none is left live. */
    method Unmount()
      requires Valid() && mounted
      modifies this`revoked, this`mounted
      ensures Valid() && !mounted
      ensures revoked == old(revoked) + Released(cells.preview) + Released(cells.targetPreview)
      ensures AllRevoked(revoked, nextHandle)
    {
      UnmountRevokesAll(revoked, nextHandle, cells.preview, cells.targetPreview);
      revoked := revoked + Released(cells.preview) + Released(cells.targetPreview);
      mounted := false;
    }
  }

  /** Choosing a target while a source is shown revokes the source's object URL although
      the page keeps displaying it. */
  method ShownPreviewRevoked(source: File, target: File) returns (page: FaceCloakPage)
    ensures page.Valid() && page.cells.preview == Some(0) && page.revoked == [0]
  {
    page := new FaceCloakPage();
    page.Drop([source]);
    assert page.revoked == [] && page.cells.preview == Some(0);
    page.SetTargeted(true);
    page.PickTarget([target]);
  }

  /** A second target choice revokes the shown source a second time. */
  method PreviewRevokedTwice(source: File, first: File, second: File) returns (page: FaceCloakPage)
    ensures page.Valid() && page.cells.preview == Some(0) && multiset(page.revoked)[0] == 2
  {
    page := new FaceCloakPage();
    page.Drop([source]);
    assert page.revoked == [] && page.cells.preview == Some(0);
    page.SetTargeted(true);
    page.PickTarget([first]);
    assert page.revoked == [0] && page.cells.targetPreview == Some(1);
    page.PickTarget([second]);
    assert page.revoked == [0] + [0] + [1];
  }
}
