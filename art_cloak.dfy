/** The untargeted art cloak page: its state cells, one method per event (drop, slider,
    Cloak Image and its settling, Clear, Reset, unmount) and the effect over `[preview]`
    that revokes the previous preview after every commit that replaces it. */
module ArtCloak {
  import opened Json
  import opened Browser
  import opened CloakResponse

  /** The page's `useState` cells as one rendered snapshot; the setters of one event are
      batched into one commit. */
  datatype ArtCells = ArtCells(
    preview: Option<Handle>,
    response: Option<DataUrl>,
    loading: bool,
    intensity: real,
    file: Option<File>,
    predictions: Predictions)

  const INITIAL: ArtCells := ArtCells(None, None, false, 0.01, None, NoPredictions)

  /** The multipart form of a cloak request. */
  function CloakForm(file: File, intensity: real): (form: FormData)
    ensures Lookup(form, "image") == Some(FileValue(file))
    ensures Lookup(form, "intensity") == Some(NumberValue(intensity))
    ensures forall i :: 0 <= i < |form| ==> form[i].0 in {"image", "intensity"}
  {
    var imageField := ("image", FileValue(file));
    var intensityField := ("intensity", NumberValue(intensity));
    assert "image"[0] != "intensity"[1];
    LookupCons(intensityField, [], "intensity");
    [imageField] + [intensityField]
  }

  /** Replacing the only previewed handle by a fresh one (or by none) keeps every handle made
      either revoked or shown, keeps the shown one unrevoked, and revokes nothing twice. */
  lemma ReplacePreview(revoked: seq<Handle>, next: Handle, p0: Option<Handle>, next1: Handle, p1: Option<Handle>)
    requires NoLeak(revoked, next, p0, None) && Distinct(revoked)
    requires p0.Some? ==> p0.value !in revoked
    requires next <= next1
    requires p1.Some? ==> p1 == p0 || next <= p1.value < next1
    requires forall h: Handle :: next <= h < next1 ==> Bound(p1, h)
    ensures var r := revoked + PreviewCleanup(p0, None, p1, None);
      && NoLeak(r, next1, p1, None) && Distinct(r)
      && (p1.Some? ==> p1.value !in r)
  {
    CommitKeepsNoLeak(revoked, next, p0, None, next1, p1, None);
    var r := revoked + PreviewCleanup(p0, None, p1, None);
    if p0 != p1 && p0.Some? {
      assert r == revoked + [p0.value];
      forall i, j | 0 <= i < j < |r|
        ensures r[i] != r[j]
      {
        if j == |revoked| {
          assert r[i] == revoked[i];
        }
      }
    }
  }

  class ArtCloakPage {
    var cells: ArtCells

    // The page's effect on its surroundings.
    var nextHandle: Handle        // the next object URL `createObjectURL` hands out
    var revoked: seq<Handle>      // every `revokeObjectURL`, in order
    var requests: seq<FormData>   // every form posted to `/art-cloak`, in order
    var inFlight: nat             // posted requests that have not settled
    var mounted: bool

    /** The page invariant: every object URL made is revoked or shown, the shown one is live,
        none is revoked twice and all are revoked once unmounted; a pending cloak has cleared
        the result cells and has a request out; the intensity stays in the slider's range. */
    ghost predicate Valid()
      reads this
    {
      && NoLeak(revoked, nextHandle, cells.preview, None)
      && Distinct(revoked)
      && (mounted && cells.preview.Some? ==> cells.preview.value !in revoked)
      && (!mounted ==> AllRevoked(revoked, nextHandle))
      && (cells.loading ==> cells.response.None? && cells.predictions == NoPredictions)
      && (mounted && cells.loading ==> inFlight > 0)
      && 0.0 <= cells.intensity <= 0.2
    }

    constructor ()
      ensures Valid() && mounted && cells == INITIAL
      ensures nextHandle == 0 && revoked == [] && requests == [] && inFlight == 0
    {
      cells := INITIAL;
      nextHandle, revoked, requests, inFlight, mounted := 0, [], [], 0, true;
    }

    /** `onDrop`. With no file, `setResponse(null)` is queued and then making an object URL of
        undefined throws, so only the cloaked image is cleared. Otherwise the file and a fresh
        preview replace the old ones (whose URL the effect revokes), the cloaked image is
        cleared, and `loading` is forced false even when a request is still out. */
    method Drop(accepted: seq<File>)
      requires Valid() && mounted
      modifies this`cells, this`nextHandle, this`revoked
      ensures Valid()
      ensures accepted == [] ==>
        cells == old(cells).(response := None) && nextHandle == old(nextHandle) && revoked == old(revoked)
      ensures accepted != [] ==>
        && cells == old(cells).(response := None, preview := Some(old(nextHandle)), file := Some(accepted[0]), loading := false)
        && nextHandle == old(nextHandle) + 1
        && revoked == old(revoked) + Released(old(cells).preview)
    {
      if accepted == [] {
        cells := cells.(response := None);
        return;
      }
      var url := nextHandle;
      nextHandle := nextHandle + 1;
      var next := cells.(response := None, preview := Some(url), file := Some(accepted[0]), loading := false);
      ReplacePreview(revoked, url, cells.preview, nextHandle, next.preview);
      revoked := revoked + PreviewCleanup(cells.preview, None, next.preview, None);
      cells := next;
    }

    /** The intensity slider, whose range is [0, 0.2]. */
    method SetIntensity(x: real)
      requires Valid() && mounted && 0.0 <= x <= 0.2
      modifies this`cells
      ensures Valid() && cells == old(cells).(intensity := x)
    {
      cells := cells.(intensity := x);
    }

    /** The synchronous part of `handleCloak`; the button is disabled while loading. Without a
        file nothing happens; otherwise the result cells are cleared and one form is posted. */
    method Cloak()
      requires Valid() && mounted && !cells.loading
      modifies this`cells, this`requests, this`inFlight
      ensures Valid()
      ensures old(cells).file.None? ==> cells == old(cells) && requests == old(requests) && inFlight == old(inFlight)
      ensures old(cells).file.Some? ==>
        && cells == old(cells).(loading := true, response := None, predictions := NoPredictions)
        && requests == old(requests) + [CloakForm(cells.file.value, cells.intensity)]
        && inFlight == old(inFlight) + 1
    {
      if cells.file.None? {
        return;
      }
      requests := requests + [CloakForm(cells.file.value, cells.intensity)];
      inFlight := inFlight + 1;
      cells := cells.(loading := true, response := None, predictions := NoPredictions);
    }

    /** The rest of `handleCloak`, when a request settles, applied to whatever the page shows
        by then (updates after unmount are dropped). A non-null body fills the cloaked image and
        both prediction lists; a failure or a null body is only logged; `loading` ends false. */
    method Resolve(outcome: HttpOutcome)
      requires Valid() && inFlight > 0
      modifies this`cells, this`inFlight
      ensures Valid() && inFlight == old(inFlight) - 1
      ensures !mounted ==> cells == old(cells)
      ensures mounted && outcome.Resolved? && outcome.data != Null ==>
        cells == old(cells).(loading := false, response := Some(PngDataUrl(Get(outcome.data, "cloaked_image"))),
                             predictions := ExtractPredictions(EffectiveRoot(Payload(outcome.data))))
      ensures mounted && (outcome.Rejected? || outcome.data == Null) ==> cells == old(cells).(loading := false)
    {
      inFlight := inFlight - 1;
      if !mounted {
        return;
      }
      if outcome.Resolved? && outcome.data != Null {
        var payload := Payload(outcome.data);
        cells := cells.(loading := false, response := Some(PngDataUrl(Get(outcome.data, "cloaked_image"))),
                        predictions := ExtractPredictions(EffectiveRoot(payload)));
      } else {
        cells := cells.(loading := false);
      }
    }

    /** The Clear button, always enabled: the cloaked image, preview and file go, the prediction
        lists stay, and the effect revokes the preview if one was shown. */
    method Clear()
      requires Valid() && mounted
      modifies this`cells, this`revoked
      ensures Valid()
      ensures cells == old(cells).(response := None, preview := None, file := None)
      ensures revoked == old(revoked) + Released(old(cells).preview)
    {
      ReplacePreview(revoked, nextHandle, cells.preview, nextHandle, None);
      revoked := revoked + PreviewCleanup(cells.preview, None, None, None);
      cells := cells.(response := None, preview := None, file := None);
    }

    /** The Reset button, shown beside a cloaked image once loading is over: as Clear, and the
        prediction lists are emptied too. */
    method Reset()
      requires Valid() && mounted && !cells.loading && cells.response.Some?
      modifies this`cells, this`revoked
      ensures Valid()
      ensures cells == old(cells).(response := None, preview := None, file := None, predictions := NoPredictions)
      ensures revoked == old(revoked) + Released(old(cells).preview)
    {
      ReplacePreview(revoked, nextHandle, cells.preview, nextHandle, None);
      revoked := revoked + PreviewCleanup(cells.preview, None, None, None);
      cells := cells.(response := None, preview := None, file := None, predictions := NoPredictions);
    }

    /** Unmount runs the last cleanup: the shown preview is revoked, so every object URL made has
        been revoked, and none twice. */
    method Unmount()
      requires Valid() && mounted
      modifies this`revoked, this`mounted
      ensures Valid() && !mounted
      ensures revoked == old(revoked) + Released(cells.preview)
      ensures AllRevoked(revoked, nextHandle) && Distinct(revoked)
    {
      UnmountRevokesAll(revoked, nextHandle, cells.preview, None);
      ReplacePreview(revoked, nextHandle, cells.preview, nextHandle, None);
      assert Released(None) == [];
      revoked := revoked + Released(cells.preview);
      mounted := false;
    }
  }

  /** Dropping a new file while a cloak is pending re-enables the button, so a second request
      goes out before the first settles. */
  method TwoCloaksInFlight(first: File, second: File) returns (page: ArtCloakPage)
    ensures fresh(page) && page.Valid() && page.mounted && page.inFlight == 2 && page.cells.loading
    ensures page.cells.file == Some(second)
    ensures page.requests == [CloakForm(first, 0.01), CloakForm(second, 0.01)]
  {
    page := new ArtCloakPage();
    page.Drop([first]);
    page.Cloak();
    page.Drop([second]);
    page.Cloak();
  }

  /** The first request's answer, arriving after the second file was dropped, is shown as the
      cloaked version of the second file. */
  method StaleAnswerShown(first: File, second: File, data: Value) returns (page: ArtCloakPage)
    requires data != Null
    ensures page.Valid() && page.cells.file == Some(second)
    ensures page.cells.response == Some(PngDataUrl(Get(data, "cloaked_image")))
    ensures page.requests == [CloakForm(first, 0.01), CloakForm(second, 0.01)] && page.inFlight == 1
  {
    page := TwoCloaksInFlight(first, second);
    page.Resolve(Resolved(data));
  }
}
