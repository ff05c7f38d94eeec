/**
 * The write screen's picture viewer: an optional selected picture over the
 * gallery's list, moved by the Next and Previous buttons and cleared by
 * Delete, Close and dismissing the dialog; and the mood pager's page.
 */
module WriteScreen {
  import opened Wrappers
  import opened DiaryModel
  import Util = Mood

  /** `images.indexOf(selected)`: the first position holding the selection, -1 when there is none. */
  function IndexOf(images: seq<GalleryImage>, selected: Option<GalleryImage>): (r: int)
    ensures -1 <= r < |images|
    ensures r >= 0 ==> selected == Some(images[r]) && forall j :: 0 <= j < r ==> selected != Some(images[j])
    ensures r == -1 <==> forall j :: 0 <= j < |images| ==> selected != Some(images[j])
  {
    if images == [] then -1
    else if selected == Some(images[0]) then 0
    else
      var i := IndexOf(images[1..], selected);
      assert forall j :: 1 <= j < |images| ==> images[1..][j - 1] == images[j];
      if i == -1 then -1 else i + 1
  }

  /** The selection after "Next": the following picture, when the selection is not the last. */
  function NextSelection(images: seq<GalleryImage>, selected: Option<GalleryImage>): (r: Option<GalleryImage>)
    ensures r != selected ==> r.Some? && r.value in images
    ensures IndexOf(images, selected) < |images| - 1 ==> r == Some(images[IndexOf(images, selected) + 1])
    ensures IndexOf(images, selected) >= |images| - 1 ==> r == selected
  {
    var index := IndexOf(images, selected);
    if index < |images| - 1 then Some(images[index + 1]) else selected
  }

  /** The selection after "Previous": the preceding picture, when the selection is not the first. */
  function PreviousSelection(images: seq<GalleryImage>, selected: Option<GalleryImage>): (r: Option<GalleryImage>)
    ensures r != selected ==> r.Some? && r.value in images
    ensures IndexOf(images, selected) > 0 ==> r == Some(images[IndexOf(images, selected) - 1])
    ensures IndexOf(images, selected) <= 0 ==> r == selected
  {
    var index := IndexOf(images, selected);
    if index > 0 then Some(images[index - 1]) else selected
  }

  /** A selection that is one of the pictures stays one of them under Next and Previous. */
  lemma StaysInGallery(images: seq<GalleryImage>, image: GalleryImage)
    requires image in images
    ensures NextSelection(images, Some(image)).Some? && NextSelection(images, Some(image)).value in images
    ensures PreviousSelection(images, Some(image)).Some? && PreviousSelection(images, Some(image)).value in images
  {
  }

  /** Next and Previous leave the last, respectively the first, picture where it is. */
  lemma {:induction false} EndsAreFixed(images: seq<GalleryImage>)
    requires |images| > 0
    requires forall i, j :: 0 <= i < j < |images| ==> images[i] != images[j]
    ensures NextSelection(images, Some(images[|images| - 1])) == Some(images[|images| - 1])
    ensures PreviousSelection(images, Some(images[0])) == Some(images[0])
  {
    DistinctIndex(images, |images| - 1);
    DistinctIndex(images, 0);
  }

  /** With distinct pictures, Previous undoes Next and Next undoes Previous. */
  lemma {:induction false} NextPreviousRoundTrip(images: seq<GalleryImage>, i: nat)
    requires forall a, b :: 0 <= a < b < |images| ==> images[a] != images[b]
    requires i < |images|
    ensures i + 1 < |images| ==> PreviousSelection(images, NextSelection(images, Some(images[i]))) == Some(images[i])
    ensures i > 0 ==> NextSelection(images, PreviousSelection(images, Some(images[i]))) == Some(images[i])
  {
    forall k: nat | k < |images| ensures IndexOf(images, Some(images[k])) == k {
      DistinctIndex(images, k);
    }
  }

  /** In a list of distinct pictures, picture k is found at k. */
  lemma DistinctIndex(images: seq<GalleryImage>, k: nat)
    requires forall a, b :: 0 <= a < b < |images| ==> images[a] != images[b]
    requires k < |images|
    ensures IndexOf(images, Some(images[k])) == k
  {
  }

  /**
   * The pager page for the state's mood: the ordinal of the mood looked up
   * by its own name, which is the mood's ordinal.
   */
  function PagerPage(mood: Util.Mood): (r: nat)
    ensures r == Util.Ordinal(mood) && r < |Util.Values| && Util.Values[r] == mood
  {
    Util.ValueOfName(mood);
    Util.Ordinal(Util.ValueOf(Util.Name(mood)).value)
  }

  /** The `selectedGalleryImage` state of the write screen. */
  class GalleryViewer {
    var selected: Option<GalleryImage>

    /** `remember { mutableStateOf(null) }`. */
    constructor ()
      ensures selected.None?
    {
      selected := None;
    }

    /** The dialog is shown exactly while an image is selected. */
    predicate Visible()
      reads this
    {
      selected.Some?
    }

    /** Tapping a picture of the content selects it. */
    method OnImageClicked(image: GalleryImage)
      modifies this
      ensures selected == Some(image) && Visible()
    {
      selected := Some(image);
    }

    method OnNextClicked(images: seq<GalleryImage>)
      modifies this
      ensures selected == NextSelection(images, old(selected))
    {
      var index := IndexOf(images, selected);
      if index < |images| - 1 {
        selected := Some(images[index + 1]);
      }
    }

    method OnPreviousClicked(images: seq<GalleryImage>)
      modifies this
      ensures selected == PreviousSelection(images, old(selected))
    {
      var index := IndexOf(images, selected);
      if index > 0 {
        selected := Some(images[index - 1]);
      }
    }

    /** Hands the selection to `onImageDeleteClicked` (None: not called) and closes the dialog. */
    method OnDeleteClicked() returns (deleted: Option<GalleryImage>)
      modifies this
      ensures deleted == old(selected) && selected.None? && !Visible()
    {
      deleted := selected;
      if selected.Some? {
        selected := None;
      }
    }

    method OnCloseClicked()
      modifies this
      ensures selected.None? && !Visible()
    {
      selected := None;
    }

    method OnDismissRequest()
      modifies this
      ensures selected.None? && !Visible()
    {
      selected := None;
    }
  }
}
