/**
  LauncherViewManager: the two overlay slots of the launcher screen.

  The sheet slot holds the content type of the bottom sheet; the dialog slot
  holds the properties of the confirmation dialog. Both payload types are
  opaque to the manager, so they are type parameters here.

  The bottom sheet's own animation state is reduced to a visibility flag
  (`surfaceVisible`, what `bottomSheetState.isVisible` reports) and to
  counts of launched animation jobs that have not completed yet. A job's
  completion is an explicit step (`CompleteShow`, `CompleteHide`) that the
  environment takes at some later point; a completion may be a normal end
  or a cancellation (for instance when a newer animation interrupts it).
 */
module ViewManager {

  /** A Kotlin nullable value. */
  datatype Option<T> = None | Some(value: T)

  class LauncherViewManager<Sheet, Dialog> {
    /** Value of the sheet-content-type flow. */
    var sheetContentType: Option<Sheet>
    /** Value of the dialog-properties flow. */
    var dialogProperties: Option<Dialog>
    /** The bottom sheet surface's own visibility. */
    var surfaceVisible: bool
    /** Launched expand jobs that have not completed. */
    var pendingShows: nat
    /** Launched hide jobs that have not completed. */
    var pendingHides: nat

    /** Both slots start empty; the surface is in whatever state it was handed in. */
    constructor (sheetInitiallyVisible: bool)
      ensures sheetContentType == None && dialogProperties == None
      ensures surfaceVisible == sheetInitiallyVisible
      ensures pendingShows == 0 && pendingHides == 0
    {
      sheetContentType := None;
      dialogProperties := None;
      surfaceVisible := sheetInitiallyVisible;
      pendingShows := 0;
      pendingHides := 0;
    }

    /** `isVisible`: the surface's flag, not the presence of a payload. */
    predicate IsVisible()
      reads this
    {
      surfaceVisible
    }

    /** `isDialogVisible`: a dialog payload is present. */
    predicate IsDialogVisible()
      reads this
    {
      dialogProperties.Some?
    }

    /**
      `hideBottomSheet`: launch a hide job. Nothing observable changes now;
      the payload is cleared when the job completes (`CompleteHide`).
     */
    method HideBottomSheet()
      modifies this
      ensures pendingHides == old(pendingHides) + 1
      ensures sheetContentType == old(sheetContentType)
      ensures dialogProperties == old(dialogProperties)
      ensures surfaceVisible == old(surfaceVisible) && pendingShows == old(pendingShows)
    {
      pendingHides := pendingHides + 1;
    }

    /** `showBottomSheet`: set the payload now, launch an expand job. */
    method ShowBottomSheet(sheetType: Sheet)
      modifies this
      ensures sheetContentType == Some(sheetType)
      ensures pendingShows == old(pendingShows) + 1
      ensures dialogProperties == old(dialogProperties)
      ensures surfaceVisible == old(surfaceVisible) && pendingHides == old(pendingHides)
    {
      sheetContentType := Some(sheetType);
      pendingShows := pendingShows + 1;
    }

    /**
      The completion handler of a hide job. It runs whether the job ended
      normally or was cancelled, and clears the payload unconditionally:
      there is no check that the payload is still the one being hidden.
     */
    method CompleteHide(cancelled: bool)
      requires pendingHides > 0
      modifies this
      ensures sheetContentType == None
      ensures surfaceVisible == (old(surfaceVisible) && cancelled)
      ensures pendingHides == old(pendingHides) - 1
      ensures dialogProperties == old(dialogProperties) && pendingShows == old(pendingShows)
    {
      if !cancelled {
        surfaceVisible := false;
      }
      pendingHides := pendingHides - 1;
      sheetContentType := None;
    }

    /** The end of an expand job: a completed one leaves the surface visible. */
    method CompleteShow(cancelled: bool)
      requires pendingShows > 0
      modifies this
      ensures surfaceVisible == (old(surfaceVisible) || !cancelled)
      ensures pendingShows == old(pendingShows) - 1
      ensures sheetContentType == old(sheetContentType)
      ensures dialogProperties == old(dialogProperties) && pendingHides == old(pendingHides)
    {
      if !cancelled {
        surfaceVisible := true;
      }
      pendingShows := pendingShows - 1;
    }

    /** `hideDialog`. */
    method HideDialog()
      modifies this
      ensures dialogProperties == None && !IsDialogVisible()
      ensures sheetContentType == old(sheetContentType) && surfaceVisible == old(surfaceVisible)
      ensures pendingShows == old(pendingShows) && pendingHides == old(pendingHides)
    {
      dialogProperties := None;
    }

    /** `showDialog`. */
    method ShowDialog(properties: Dialog)
      modifies this
      ensures dialogProperties == Some(properties) && IsDialogVisible()
      ensures sheetContentType == old(sheetContentType) && surfaceVisible == old(surfaceVisible)
      ensures pendingShows == old(pendingShows) && pendingHides == old(pendingHides)
    {
      dialogProperties := Some(properties);
    }
  }

  /**
    show(a); hide(); show(b); and then the first hide job completes: the
    stale completion wipes out `b`, whichever way the job ended.
   */
  method StaleHideClearsNewerSheet<S, D>(m: LauncherViewManager<S, D>, a: S, b: S, cancelled: bool)
    modifies m
    ensures m.sheetContentType == None
    ensures m.dialogProperties == old(m.dialogProperties)
  {
    m.ShowBottomSheet(a);
    m.HideBottomSheet();
    m.ShowBottomSheet(b);
    assert m.sheetContentType == Some(b);
    m.CompleteHide(cancelled);
  }

  /**
    Right after `showBottomSheet` on a hidden surface the payload is present
    while `isVisible` is still false: the two are not the same thing.
   */
  method PayloadAheadOfSurface<S, D>(m: LauncherViewManager<S, D>, t: S)
    requires !m.IsVisible()
    modifies m
    ensures m.sheetContentType == Some(t) && !m.IsVisible()
  {
    m.ShowBottomSheet(t);
  }
}
