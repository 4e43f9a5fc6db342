/** The photo grid: the selected-check mark for each photo, the hover overlay, the
    buttons that report a photo to the parent page, and the detail modal it opens. */
module PhotoGrid {
  import opened Wrappers
  import opened Types
  import opened Selection
  import PDM = PhotoDetailModal

  /** `selectedPhotos = []`: an absent prop means nothing is selected. */
  function EffectiveSelection(selectedPhotos: Option<seq<Photo>>): (s: seq<Photo>)
    ensures selectedPhotos.None? ==> s == []
    ensures selectedPhotos.Some? ==> s == selectedPhotos.value
  {
    selectedPhotos.GetOr([])
  }

  /** `selectedPhotos.some(p => p.id === photo.id)`: the check mark on a photo. */
  predicate ShowsCheckMark(selectedPhotos: Option<seq<Photo>>, photo: Photo) {
    IsSelected(EffectiveSelection(selectedPhotos), photo.id)
  }

  /** A grid given no selection, as the event page mounts it, marks no photo,
      whatever its parent has selected. */
  lemma NoSelectionNoMarks(photo: Photo)
    ensures !ShowsCheckMark(None, photo)
  {
  }

  /** With a selection, the mark is on exactly the photos whose id is selected, so
      toggling a photo flips its own mark and no other. */
  lemma CheckMarkFollowsToggle(selected: seq<Photo>, photo: Photo, other: Photo)
    ensures ShowsCheckMark(Some(Toggle(selected, photo)), photo) <==> !ShowsCheckMark(Some(selected), photo)
    ensures other.id != photo.id ==>
      (ShowsCheckMark(Some(Toggle(selected, photo)), other) <==> ShowsCheckMark(Some(selected), other))
  {
  }

  class PhotoGrid {
    var hoveredId: Option<string>
    var selectedPhoto: Option<Photo>
    var isModalOpen: bool
    const modal: PDM.PhotoDetailModal

    /** The modal is only ever opened on a photo. */
    ghost predicate Valid()
      reads this, modal
    {
      (isModalOpen ==> selectedPhoto.Some?) && modal.Valid()
    }

    constructor ()
      ensures Valid() && fresh(modal)
      ensures hoveredId == None && selectedPhoto == None && !isModalOpen
      ensures modal.selectedQuality == "standard"
    {
      hoveredId, selectedPhoto, isModalOpen := None, None, false;
      modal := new PDM.PhotoDetailModal();
    }

    /** The hover overlay of `photo` is shown. */
    predicate OverlayShown(photo: Photo)
      reads this
    {
      hoveredId == Some(photo.id)
    }

    method MouseEnter(photo: Photo)
      requires Valid()
      modifies this
      ensures Valid() && OverlayShown(photo)
      ensures selectedPhoto == old(selectedPhoto) && isModalOpen == old(isModalOpen)
    {
      hoveredId := Some(photo.id);
    }

    method MouseLeave()
      requires Valid()
      modifies this
      ensures Valid() && hoveredId == None
      ensures selectedPhoto == old(selectedPhoto) && isModalOpen == old(isModalOpen)
    {
      hoveredId := None;
    }

    /** `handlePhotoClick`: open the detail modal on `photo`. */
    method PhotoClick(photo: Photo)
      requires Valid()
      modifies this
      ensures Valid() && ModalShown()
      ensures selectedPhoto == Some(photo) && isModalOpen && hoveredId == old(hoveredId)
    {
      selectedPhoto := Some(photo);
      isModalOpen := true;
    }

    /** The overlay's cart button and the caption bar's cart button: the click stops
        before the tile, so it reports the photo to the parent and opens nothing. */
    method SelectButton(photo: Photo) returns (reported: seq<Photo>)
      ensures reported == [photo]
    {
      reported := [photo];
    }

    /** The modal's `onClose`. */
    method CloseModal()
      requires Valid()
      modifies this
      ensures Valid() && !ModalShown()
      ensures selectedPhoto == old(selectedPhoto) && hoveredId == old(hoveredId)
    {
      isModalOpen := false;
    }

    /** The modal's option `k` is clicked. */
    method ChooseQuality(k: nat)
      requires Valid() && k < 4
      modifies modal
      ensures Valid()
      ensures modal.selectedQuality == PDM.QualityOptions()[k].id
    {
      modal.ClickOption(k);
    }

    /** "Adicionar ao carrinho" in the open modal, through `handleAddToCart`: the photo
        is reported to the parent (which toggles it), the chosen quality is dropped,
        and the modal closes. */
    method ModalAddToCart() returns (reported: seq<Photo>)
      requires Valid() && ModalShown()
      modifies this
      ensures Valid() && !ModalShown()
      ensures reported == [old(selectedPhoto).value]
      ensures selectedPhoto == old(selectedPhoto) && hoveredId == old(hoveredId)
    {
      var photo, quality := modal.AddToCart(selectedPhoto.value);
      reported := [photo];
      isModalOpen := false;
    }

    /** The detail modal is on screen. */
    predicate ModalShown()
      reads this
    {
      PDM.Renders(isModalOpen, selectedPhoto)
    }
  }

  /** In a valid grid the modal is on screen exactly when it is open. */
  lemma ModalShownIffOpen(g: PhotoGrid)
    requires g.Valid()
    ensures g.ModalShown() <==> g.isModalOpen
  {
  }
}
