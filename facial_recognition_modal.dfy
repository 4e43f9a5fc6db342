/** The "Encontrar minhas fotos" modal: the choice between uploading a photo and
    taking a selfie, the upload preview with its object URL, the screen each state
    shows, and the callbacks it makes to the page. */
module FacialRecognitionModal {
  import opened Wrappers
  import opened Strings
  import opened Types

  datatype Modality = Upload | Selfie

  /** The body the modal shows. */
  datatype Screen = Choice | Preview(url: string) | Blank

  /** The view rule: the two option buttons while nothing usable is chosen, the
      preview once an upload has one, and an empty body while the selfie modal runs. */
  function ScreenFor(selectedOption: Option<Modality>, previewUrl: Option<string>): (s: Screen)
    ensures s == Choice <==> selectedOption.None? || (selectedOption == Some(Upload) && !Present(previewUrl))
    ensures s.Preview? <==> selectedOption == Some(Upload) && Present(previewUrl)
    ensures s.Preview? ==> Some(s.url) == previewUrl
    ensures s == Blank <==> selectedOption == Some(Selfie)
  {
    if selectedOption.None? || (selectedOption == Some(Upload) && !Present(previewUrl)) then Choice
    else if selectedOption == Some(Upload) && Present(previewUrl) then Preview(previewUrl.value)
    else
      assert selectedOption.value != Upload;
      Blank
  }

  class FacialRecognitionModal {
    var isOpen: bool
    var selectedOption: Option<Modality>
    var isSelfieModalOpen: bool
    var previewUrl: Option<string>
    /** `URL.revokeObjectURL` calls made so far, oldest first. */
    var revoked: seq<string>
    /** Object URLs created for previews so far. */
    ghost var created: set<string>

    /** A closed modal holds neither a choice nor a preview, and no object URL leaks. */
    ghost predicate Valid()
      reads this
    {
      && (!isOpen ==> selectedOption.None? && previewUrl.None?)
      && UrlsAccounted()
    }

    /** The preview is a (non-empty) URL that was created, and every URL ever created
        is either the current preview or has been revoked. */
    ghost predicate UrlsAccounted()
      reads this
    {
      && (previewUrl.Some? ==> previewUrl.value in created && previewUrl.value != "")
      && (forall u | u in created :: previewUrl == Some(u) || u in revoked)
    }

    /** `setPreviewUrl(url)` together with the revoke effect: when the value changes,
        the cleanup revokes the URL held before. */
    method SetPreview(url: Option<string>)
      requires previewUrl.Some? ==> previewUrl.value in created && previewUrl.value != ""
      requires url.Some? ==> url.value in created && url.value != ""
      requires forall u | u in created :: previewUrl == Some(u) || u in revoked || url == Some(u)
      modifies this
      ensures UrlsAccounted()
      ensures previewUrl == url
      ensures revoked == if old(previewUrl) != url && old(previewUrl).Some?
                         then old(revoked) + [old(previewUrl).value] else old(revoked)
      ensures isOpen == old(isOpen) && selectedOption == old(selectedOption)
      ensures isSelfieModalOpen == old(isSelfieModalOpen) && created == old(created)
    {
      if previewUrl != url {
        if previewUrl.Some? {
          revoked := revoked + [previewUrl.value];
        }
        previewUrl := url;
      }
    }

    constructor (open: bool)
      ensures Valid()
      ensures isOpen == open && selectedOption == None && !isSelfieModalOpen && previewUrl == None
      ensures revoked == [] && created == {}
    {
      isOpen, selectedOption, isSelfieModalOpen, previewUrl := open, None, false, None;
      revoked, created := [], {};
    }

    /** The `isOpen` prop changes; on closing, the effect clears the choice and the
        preview (whose URL the revoke effect then releases). */
    method SetOpen(open: bool)
      requires Valid()
      modifies this
      ensures Valid()
      ensures isOpen == open
      ensures !open ==> selectedOption == None && previewUrl == None
      ensures open ==> selectedOption == old(selectedOption) && previewUrl == old(previewUrl)
      ensures isSelfieModalOpen == old(isSelfieModalOpen)
    {
      isOpen := open;
      if !open {
        selectedOption := None;
        SetPreview(None);
      }
    }

    /** `handleOptionSelect`: only the selfie option opens the selfie modal. */
    method SelectOption(option: Modality)
      requires Valid() && isOpen
      modifies this
      ensures Valid()
      ensures selectedOption == Some(option)
      ensures isSelfieModalOpen == (option == Selfie || old(isSelfieModalOpen))
      ensures previewUrl == old(previewUrl) && isOpen == old(isOpen) && revoked == old(revoked)
    {
      selectedOption := Some(option);
      if option == Selfie {
        isSelfieModalOpen := true;
      }
    }

    /** `handleFileChange`: `objectUrl` is the URL `URL.createObjectURL` made for the
        first chosen file (a non-empty `blob:` URL), or None when no file was chosen. */
    method FileChange(objectUrl: Option<string>)
      requires Valid() && isOpen
      requires objectUrl.Some? ==> objectUrl.value != ""
      modifies this
      ensures Valid()
      ensures previewUrl == if objectUrl.Some? then objectUrl else old(previewUrl)
      ensures selectedOption == old(selectedOption) && isSelfieModalOpen == old(isSelfieModalOpen)
      ensures isOpen == old(isOpen)
    {
      if objectUrl.Some? {
        created := created + {objectUrl.value};
        SetPreview(objectUrl);
      }
    }

    /** `handleSelfieCapture`: the selfie modal closes and the image goes to the page;
        this modal does not close itself. */
    method SelfieCapture(image: string) returns (calls: seq<Callback>)
      requires Valid() && isOpen
      modifies this
      ensures Valid()
      ensures calls == [OnCapture(image)] && !isSelfieModalOpen
      ensures selectedOption == old(selectedOption) && previewUrl == old(previewUrl) && isOpen == old(isOpen)
    {
      isSelfieModalOpen := false;
      calls := [OnCapture(image)];
    }

    /** `handleUploadSubmit` ("Confirmar"). */
    method UploadSubmit() returns (calls: seq<Callback>)
      ensures Present(previewUrl) ==> calls == [OnCapture(previewUrl.value), OnClose]
      ensures !Present(previewUrl) ==> calls == []
    {
      if Present(previewUrl) {
        calls := [OnCapture(previewUrl.value), OnClose];
      } else {
        calls := [];
      }
    }

    /** `handleCloseSelfieModal`. */
    method CloseSelfieModal()
      requires Valid()
      modifies this
      ensures Valid()
      ensures !isSelfieModalOpen && selectedOption == None
      ensures previewUrl == old(previewUrl) && isOpen == old(isOpen) && revoked == old(revoked)
    {
      isSelfieModalOpen := false;
      selectedOption := None;
    }

    /** "Escolher outra": the preview goes, the option stays. */
    method ChooseAnother()
      requires Valid() && isOpen
      modifies this
      ensures Valid()
      ensures previewUrl == None
      ensures selectedOption == old(selectedOption) && isSelfieModalOpen == old(isSelfieModalOpen)
      ensures isOpen == old(isOpen)
    {
      SetPreview(None);
    }

    /** The close button. */
    method CloseButton() returns (calls: seq<Callback>)
      ensures calls == [OnClose]
    {
      calls := [OnClose];
    }

    /** Unmounting: the cleanup revokes the preview URL still held. */
    method Unmount()
      requires Valid()
      modifies this
      ensures created == old(created)
      ensures forall u | u in created :: u in revoked
      ensures revoked == if old(previewUrl).Some? then old(revoked) + [old(previewUrl).value] else old(revoked)
    {
      if previewUrl.Some? {
        revoked := revoked + [previewUrl.value];
      }
    }

    /** The body on screen. */
    function CurrentScreen(): (s: Screen)
      reads this
      ensures s == ScreenFor(selectedOption, previewUrl)
    {
      ScreenFor(selectedOption, previewUrl)
    }
  }

  /** "Escolher outra" on the preview screen leads back to the option buttons. */
  lemma ChooseAnotherShowsChoice(selectedOption: Option<Modality>, previewUrl: Option<string>)
    requires ScreenFor(selectedOption, previewUrl).Preview?
    ensures ScreenFor(selectedOption, None) == Choice
  {
  }
}
