# SportShot storefront core in Dafny

SportShot is a storefront for sports-event photography. Visitors browse events,
search for the photos they appear in, either by text or by a face (an uploaded
photo or a selfie), select photos, and go to checkout. This project models the
parts of the web client that decide what the visitor sees and where they are
sent next:

- the search page: the text search, the facial search, the selection and the checkout link;
- the mocked recognition service;
- the event page with its photo grid and the photo detail modal;
- the facial recognition modal, the selfie camera modal and the upload area;
- the registration form: the CPF and phone masks and the validation order;
- the home page's distinct-photographer scan;
- the "all events" page: category list, filter and sort;
- the event grid's release countdown;
- the theme provider and the header search bar.

Pure logic becomes functions on values: selection toggling, filters, masks,
validation and message tables. React components whose state changes event by
event become classes. Their fields are the component's `useState` values, and
each handler is a method whose `ensures` gives the whole new state. Loops in the
source become methods with loop invariants, proved against a specification:

- the nested `forEach` over photographers (`HomePage.UniquePhotographers` and
  `HomePage.ScanPhotographers`, equal to a first-occurrence de-duplication);
- `getTracks().forEach(stop)` (`SelfieModal.MediaStream.StopAllTracks`).

The CPF and phone masks are straight-line methods (`RegisterPage.CpfMask`,
`RegisterPage.PhoneMask`) whose steps are the single regex replaces, each
modelled by a leftmost-match function. The global `replace(/\D/g, '')` is the
function `RegisterPage.StripNonDigits`.

Module layout, one file per source unit:

- `wrappers.dfy`, `strings.dfy` and `seqs.dfy` hold shared value types, string
  functions (trim, lower case, includes, split/join, number printing) and
  sequence functions (filter, first-occurrence de-duplication).
- `types.dfy` holds the shared entities and the mock photo generator.
- The remaining files follow the source: `search_page`, `recognition_service`,
  `selection`, `event_page`, `photo_grid`, `photo_detail_modal`,
  `facial_recognition_modal`, `selfie_modal`, `upload_area`, `register_page`,
  `home_page`, `all_events_page`, `events_grid`, `theme_provider`, `search_bar`.

Where the intended behaviour and the code differ, the model follows the code.
Three such places:

- Toggling a photo twice is meant to restore the selection.
  The code restores it exactly only when the photo was not selected. When it
  was selected, the photo moves to the end (`Selection.ToggleTwice`).
- The recognition service's comment promises between 4 and 12 photos.
  `Math.floor(Math.random() * 8) + 4` yields 4 to 11, and the model says 4..11.
- Adding a photo to the cart from the detail modal goes through the same
  toggle as the grid button. An already-selected photo is therefore removed.

## Model

| member | source | states |
|---|---|---|
| Types.MockEventId | src/pages/EventPage.tsx:59 | mock photo i belongs to event `(i % 4) + 1`, as a one-character id |
| Types.MockPhoto | src/pages/EventPage.tsx:53-60 | mock photo i has id `photo-(i+1)` and the event id of `MockEventId(i)` |
| Types.MockPhotos | src/services/facialRecognitionService.ts:4-11 | `Array.from({length: n})` gives exactly n photos, the i-th being mock photo i |
| Types.MockPhotoIdsDistinct | src/pages/EventPage.tsx:54 | different positions give different photo ids, whatever the caption |
| Types.PhotographerFor | src/components/search/PhotoGrid.tsx:41-51 | the id is `photographer-` + event id; the name is one of four; Mariana Costa exactly for events other than 1-3 |
| Types.EventNameFor | src/components/search/PhotoDetailModal.tsx:161-164 | the Seattle tournament name is the fallback for every event id other than 1-3 |
| Types.Avatars | src/pages/AllEventsPage.tsx:191-207 | no stack iff photographers are missing or empty; otherwise the first min(n, limit) are shown, in order, with a badge iff n > limit |
| Types.AvatarsCountEveryone | src/pages/AllEventsPage.tsx:195-207 | shown avatars plus the badge number account for every photographer |
| Strings.Trim | src/components/common/SearchBar.tsx:15 | trimming never lengthens the text |
| Strings.TrimSpec | src/components/common/SearchBar.tsx:15 | the trimmed text is empty iff every character is whitespace; otherwise it neither starts nor ends with whitespace and is a contiguous block of the input |
| Strings.SplitJoin | src/pages/SearchPage.tsx:111 | splitting a comma-joined list of comma-free ids gives the ids back |
| Strings.ParseNatToString | src/services/facialRecognitionService.ts:5 | the decimal rendering of a photo number parses back to that number |
| Strings.Lower | src/pages/AllEventsPage.tsx:23-24 | `toLowerCase`: same length, each upper-case ASCII letter lowered and every other character kept |
| Strings.Includes | src/pages/AllEventsPage.tsx:23-24 | `includes`: the second string occurs as a contiguous block of the first; the empty string is included in any string (`IncludesEmpty`) |
| Strings.StartsWith | src/components/search/UploadArea.tsx:40 | `startsWith`: the prefix occurs at index 0 |
| Strings.Join | src/pages/SearchPage.tsx:111 | `join(',')`: the members with the separator between neighbours; `SplitJoin` shows it is undone by `Split` |
| Strings.Split | src/pages/SearchPage.tsx:111 | `split` on one character: always at least one part, as in JavaScript; `SplitJoin` is its round trip with `Join` |
| Seqs.FilterOrder | src/pages/AllEventsPage.tsx:22-27 | `Array.filter` keeps a subsequence: each result element sits at a strictly increasing input index |
| Seqs.Filter | src/pages/AllEventsPage.tsx:22-27 | `filter`: no longer than the input, every kept element is in the input and passes the test, and every passing element is kept |
| Seqs.DedupKeysDistinct | src/pages/HomePage.tsx:159-165 | keeping only the first element per key leaves distinct keys |
| Seqs.DedupCoversKeys | src/pages/HomePage.tsx:159-165 | every key of the input is kept by the first-occurrence scan |
| Seqs.DedupFirstOccurrences | src/pages/AllEventsPage.tsx:12-14 | each kept element is the first occurrence of its key, in first-occurrence order |
| Seqs.DedupBy | src/pages/AllEventsPage.tsx:12-14 | the first-occurrence de-duplication of `new Set` and of the has/set map: never longer than the input; `DedupKeysDistinct`, `DedupCoversKeys` and `DedupFirstOccurrences` give its keys, coverage and order |
| Selection.Without | src/pages/SearchPage.tsx:102 | removing by id leaves the id unselected and every other id as it was |
| Selection.Toggle | src/pages/SearchPage.tsx:99-107 | flips membership of the photo's id, leaves the other ids alone, appends at the end when absent, shrinks when present |
| Selection.WithoutAbsent | src/pages/SearchPage.tsx:102 | filtering out an id that is not selected returns the selection unchanged |
| Selection.ToggleTwice | src/pages/SearchPage.tsx:99-107 | two toggles restore an absent photo's selection exactly; a present photo moves to the end |
| Selection.Ids | src/pages/SearchPage.tsx:111 | `map(p => p.id)` keeps length and order |
| Selection.ToggleKeepsIdsDistinct | src/pages/SearchPage.tsx:99-107 | toggling never lets two selected photos share an id |
| Selection.IsSelected | src/pages/SearchPage.tsx:101 | `prev.some(p => p.id === id)`: some member of the selection has that id; `Toggle` flips it for the toggled id and keeps it for every other id |
| Selection.WithoutRemovesOne | src/pages/SearchPage.tsx:102 | with distinct ids, deselecting the k-th photo removes exactly that position |
| Selection.CheckoutTarget | src/pages/SearchPage.tsx:109-113 | the link always starts with `/checkout?photos=` |
| Selection.CheckoutIdsRecoverable | src/pages/SearchPage.tsx:109-113 | the checkout page can split the query value back into the selected ids, in order |
| Selection.SummaryBarVisible | src/pages/SearchPage.tsx:175 | the summary bar with the checkout button shows for a non-empty selection, on the search page and on the event page (EventPage.tsx:148) |
| Selection.SummaryBarAfterToggle | src/pages/SearchPage.tsx:99-107 | selecting a photo always shows the summary bar; deselecting one hides it exactly when it was the only photo selected |
| RecognitionService.Catalogue | src/services/facialRecognitionService.ts:4-11 | 12 photos with ids `photo-1`..`photo-12` and event ids cycling 1-4 |
| RecognitionService.ResultCount | src/services/facialRecognitionService.ts:22 | every random draw in [0,1) gives a count from 4 to 11 |
| RecognitionService.ResultCountReachesEach | src/services/facialRecognitionService.ts:22 | every count from 4 to 11 is produced by some draw |
| RecognitionService.RecognizeFace | src/services/facialRecognitionService.ts:14-26 | the result is the prefix of the catalogue whose length is the drawn count (4..11), with ids `photo-1`.. in order |
| RecognitionService.RecognizedIdsDistinct | src/services/facialRecognitionService.ts:23 | no two recognised photos share an id |
| RecognitionService.RecognitionIgnoresImage | src/services/facialRecognitionService.ts:14-26 | the result depends on the draw only, never on the image |
| SearchPage.SearchMode | src/pages/SearchPage.tsx:24 | a present `mode` parameter is used as given; otherwise the mode is `text` |
| SearchPage.TextResults | src/pages/SearchPage.tsx:39-46 | a text search shows eight mock photos |
| SearchPage.SearchPage.constructor | src/pages/SearchPage.tsx:24-31 | mode and query come from the URL; nothing is found or selected yet; the modal starts open iff the mode is facial |
| SearchPage.SearchPage.StartTextSearch | src/pages/SearchPage.tsx:33-37 | the spinner starts iff there is a query in text mode; nothing else changes |
| SearchPage.SearchPage.FinishTextSearch | src/pages/SearchPage.tsx:47-49 | the timer the text-mode effect set for a non-empty query fires: the eight results are shown, the spinner stops and the results block is visible |
| SearchPage.SearchPage.HandleFacialRecognitionCapture | src/pages/SearchPage.tsx:77-97 | the modal closes and the spinner ends; on success the recognised 4 to 11 photos are shown and the results block is visible, on failure the old results stay |
| SearchPage.SearchPage.HandleImageUpload | src/pages/SearchPage.tsx:54-75 | a read file's photos (4 to 11) are recognised and the results block is visible; an unread file leaves the results |
| SearchPage.SearchPage.NewSearch | src/pages/SearchPage.tsx:145-148 | "Nova Busca" hides the results block and reopens the modal, keeping photos and selection |
| SearchPage.SearchPage.CloseModal | src/pages/SearchPage.tsx:206 | closing the modal changes nothing else |
| SearchPage.SearchPage.SelectPhoto | src/pages/SearchPage.tsx:99-107 | the selection becomes the toggle of the old selection |
| SearchPage.SearchPage.Checkout | src/pages/SearchPage.tsx:109-113 | navigates to the checkout link for the current selection |
| SearchPage.SearchPage.ResultsVisible | src/pages/SearchPage.tsx:135 | the results block shows when results are on and no search runs; `FinishTextSearch` and a successful recognition make it true, `NewSearch` makes it false, and after a failed recognition it holds exactly when results were on before |
| EventPage.Events | src/pages/EventPage.tsx:9-50 | four events with ids 1-4 |
| EventPage.FindEvent | src/pages/EventPage.tsx:71 | an event that `find` returns has the id looked up |
| EventPage.FindEventSpec | src/pages/EventPage.tsx:71 | `find` gives nothing iff no id matches, otherwise the first match |
| EventPage.EventCatalogue | src/pages/EventPage.tsx:53-60 | thirty mock photos |
| EventPage.PhotosOfEvent | src/pages/EventPage.tsx:75 | an event never has more photos than the thirty mock photos |
| EventPage.PhotosOfEventBelong | src/pages/EventPage.tsx:75 | the event's photos all belong to it and come from the catalogue |
| EventPage.MockPhotoOfEvent | src/pages/EventPage.tsx:59 | mock photo i belongs to event c+1 iff i mod 4 is c |
| EventPage.MockPhotosPerEvent | src/pages/EventPage.tsx:53-60 | of n mock photos, event c+1 owns exactly (n + 3 - c) div 4 |
| EventPage.PhotosOfEventCount | src/pages/EventPage.tsx:73-76 | events 1 and 2 show 8 photos, events 3 and 4 show 7 |
| EventPage.PhotosOfEventIndex | src/pages/EventPage.tsx:73-76 | the event in position c of the table gets (33 - c) div 4 of the thirty photos |
| EventPage.NoPhotosOfOtherEvent | src/pages/EventPage.tsx:75 | an unknown id has no photos |
| EventPage.EventPage.constructor | src/pages/EventPage.tsx:62-67 | the page starts loading with no event, no photos and no selection |
| EventPage.EventPage.Load | src/pages/EventPage.tsx:69-79 | a found event sets the event and its photos; loading always ends; the selection is kept |
| EventPage.EventPage.SelectPhoto | src/pages/EventPage.tsx:81-89 | the selection becomes the toggle of the old one |
| EventPage.EventPage.CurrentView | src/pages/EventPage.tsx:91-108 | spinner iff loading, "not found" iff loaded without an event, otherwise the event's page |
| EventPage.LoadedView | src/pages/EventPage.tsx:69-79 | after loading, an event is found iff the id is 1-4, and all its photos carry that id |
| EventPage.KnownIds | src/pages/EventPage.tsx:9-50 | the table holds an event with a given id iff that id is one of "1" to "4" |
| PhotoGrid.EffectiveSelection | src/components/search/PhotoGrid.tsx:12 | a missing `selectedPhotos` prop is the empty selection |
| PhotoGrid.NoSelectionNoMarks | src/components/search/PhotoGrid.tsx:122 | without a selection prop no photo shows a check mark (as on the event page) |
| PhotoGrid.CheckMarkFollowsToggle | src/components/search/PhotoGrid.tsx:122 | toggling flips the photo's check mark and leaves the others |
| PhotoGrid.ShowsCheckMark | src/components/search/PhotoGrid.tsx:122 | the check mark (on the select button and the corner badge, line 136) is on a photo exactly when its id is in the effective selection; `NoSelectionNoMarks` and `CheckMarkFollowsToggle` give its behaviour |
| PhotoGrid.PhotoGrid.constructor | src/components/search/PhotoGrid.tsx:13-15 | nothing hovered or open; the modal's quality is standard |
| PhotoGrid.PhotoGrid.MouseEnter | src/components/search/PhotoGrid.tsx:57 | the hovered photo shows its overlay |
| PhotoGrid.PhotoGrid.MouseLeave | src/components/search/PhotoGrid.tsx:58 | no photo is hovered |
| PhotoGrid.PhotoGrid.PhotoClick | src/components/search/PhotoGrid.tsx:22-25 | the clicked photo opens in the modal |
| PhotoGrid.PhotoGrid.SelectButton | src/components/search/PhotoGrid.tsx:17-20 | the select button reports exactly that photo |
| PhotoGrid.PhotoGrid.CloseModal | src/components/search/PhotoGrid.tsx:172-177 | the modal closes; the last photo and hover remain |
| PhotoGrid.PhotoGrid.ChooseQuality | src/components/search/PhotoDetailModal.tsx:180-185 | the modal remembers the clicked quality |
| PhotoGrid.PhotoGrid.ModalAddToCart | src/components/search/PhotoGrid.tsx:27-32 | the open photo is reported once and the modal closes |
| PhotoGrid.ModalShownIffOpen | src/components/search/PhotoGrid.tsx:172-177 | the modal is on screen exactly while it is open |
| PhotoDetailModal.QualityOptions | src/components/search/PhotoDetailModal.tsx:31-60 | four options web, standard, premium, original with distinct ids and strictly rising prices |
| PhotoDetailModal.SelectedOption | src/components/search/PhotoDetailModal.tsx:75 | the option with the chosen id, or the standard option when none matches |
| PhotoDetailModal.PhotoDetailModal.constructor | src/components/search/PhotoDetailModal.tsx:26 | the choice starts at standard |
| PhotoDetailModal.PhotoDetailModal.ClickOption | src/components/search/PhotoDetailModal.tsx:180-185 | clicking option k selects its id |
| PhotoDetailModal.PhotoDetailModal.AddToCart | src/components/search/PhotoDetailModal.tsx:222 | adds the shown photo with a quality that is one of the options |
| PhotoDetailModal.HighlightMatchesPrice | src/components/search/PhotoDetailModal.tsx:180-185 | the highlighted option is exactly the one whose price is shown |
| PhotoDetailModal.Renders | src/components/search/PhotoDetailModal.tsx:28 | the modal renders nothing unless it is open and has a photo; `PhotoGrid.ModalShownIffOpen` shows the grid keeps the two together |
| FacialRecognitionModal.ScreenFor | src/components/common/FacialRecognitionModal.tsx:90-164 | the choice screen iff no usable choice; the preview iff an upload has a URL; blank iff the selfie path runs |
| FacialRecognitionModal.FacialRecognitionModal.SetPreview | src/components/common/FacialRecognitionModal.tsx:29-36 | a changed preview revokes the URL held before, so every created URL is current or revoked |
| FacialRecognitionModal.FacialRecognitionModal.constructor | src/components/common/FacialRecognitionModal.tsx:16-18 | no choice, no selfie modal, no preview |
| FacialRecognitionModal.FacialRecognitionModal.SetOpen | src/components/common/FacialRecognitionModal.tsx:21-27 | closing clears the choice and the preview; opening keeps them |
| FacialRecognitionModal.FacialRecognitionModal.SelectOption | src/components/common/FacialRecognitionModal.tsx:38-44 | records the choice; the selfie choice opens the selfie modal |
| FacialRecognitionModal.FacialRecognitionModal.FileChange | src/components/common/FacialRecognitionModal.tsx:46-53 | a chosen file's object URL becomes the preview; no file changes nothing |
| FacialRecognitionModal.FacialRecognitionModal.SelfieCapture | src/components/common/FacialRecognitionModal.tsx:55-58 | passes the selfie on and closes the selfie modal |
| FacialRecognitionModal.FacialRecognitionModal.UploadSubmit | src/components/common/FacialRecognitionModal.tsx:60-65 | with a preview: capture then close; without: no calls |
| FacialRecognitionModal.FacialRecognitionModal.CloseSelfieModal | src/components/common/FacialRecognitionModal.tsx:67-70 | closes the selfie modal and forgets the choice |
| FacialRecognitionModal.FacialRecognitionModal.ChooseAnother | src/components/common/FacialRecognitionModal.tsx:146-148 | "Escolher outra" drops the preview |
| FacialRecognitionModal.FacialRecognitionModal.CloseButton | src/components/common/FacialRecognitionModal.tsx:81-85 | the close button only calls `onClose` |
| FacialRecognitionModal.FacialRecognitionModal.Unmount | src/components/common/FacialRecognitionModal.tsx:29-36 | unmounting revokes the last preview, so no object URL leaks; no URL is created |
| FacialRecognitionModal.FacialRecognitionModal.CurrentScreen | src/components/common/FacialRecognitionModal.tsx:72-164 | the rendered body follows the view rule |
| FacialRecognitionModal.ChooseAnotherShowsChoice | src/components/common/FacialRecognitionModal.tsx:146-148 | from the preview, dropping it returns to the choice screen |
| SelfieModal.Classify | src/components/common/SelfieModal.tsx:102-128 | the ten known names map to their seven faults and each fault comes only from its names; a described fault carries the error's non-empty message; anything not an `Error` is unknown |
| SelfieModal.DedicatedMessages | src/components/common/SelfieModal.tsx:113-120 | `OverconstrainedError`, `AbortError`, `SecurityError` and `TypeError` each show their own text, whatever the message |
| SelfieModal.FaultMessage | src/components/common/SelfieModal.tsx:107-124 | every fault has a non-empty message |
| SelfieModal.CameraErrorMessage | src/components/common/SelfieModal.tsx:102-128 | every thrown value leads to a non-empty message |
| SelfieModal.AliasesShareMessage | src/components/common/SelfieModal.tsx:107-112 | each legacy error name gets the same message as its modern name |
| SelfieModal.UnknownErrorMessages | src/components/common/SelfieModal.tsx:103-124 | other errors show "Erro: " + their message, or the default message when it is empty |
| SelfieModal.FaultOfMessage | src/components/common/SelfieModal.tsx:107-124 | reading a message back recovers the described fault's text |
| SelfieModal.FaultMessageRoundTrip | src/components/common/SelfieModal.tsx:107-124 | a message identifies its fault |
| SelfieModal.DescribedRoundTrip | src/components/common/SelfieModal.tsx:121-122 | "Erro: " and a message read back as that message |
| SelfieModal.FixedRoundTrip | src/components/common/SelfieModal.tsx:103-120 | each fixed text reads back as its own fault |
| SelfieModal.FaultMessageInjective | src/components/common/SelfieModal.tsx:107-124 | distinct faults never share a message |
| SelfieModal.Acquire | src/components/common/SelfieModal.tsx:50-69 | success only with camera support and at least one video track; no support fails with the unsupported error |
| SelfieModal.OwnFailureMessages | src/components/common/SelfieModal.tsx:50-69 | the component's own thrown errors are shown as "Erro: " + their text |
| SelfieModal.MediaStream.constructor | src/components/common/SelfieModal.tsx:62-69 | a new stream has the given number of live tracks |
| SelfieModal.MediaStream.StopAllTracks | src/components/common/SelfieModal.tsx:25-32 | every track is stopped |
| SelfieModal.SelfieModal.constructor | src/components/common/SelfieModal.tsx:11-14 | no stream, image or error; not loading |
| SelfieModal.SelfieModal.RunEffect | src/components/common/SelfieModal.tsx:19-24 | the camera starts iff the modal is open without a stream |
| SelfieModal.SelfieModal.Cleanup | src/components/common/SelfieModal.tsx:25-32 | the stream the effect saw is stopped and dropped; error and spinner are cleared |
| SelfieModal.SelfieModal.SetOpen | src/components/common/SelfieModal.tsx:19-33 | only the open flag changes |
| SelfieModal.SelfieModal.StartCamera | src/components/common/SelfieModal.tsx:35-130 | `startCamera`'s own updates: the old stream is stopped; a failure shows its message without a spinner; a success holds a fresh live stream, with the spinner on if the video element is mounted and the internal-error text if not |
| SelfieModal.SelfieModal.StartCameraSettled | src/components/common/SelfieModal.tsx:19-98 | a start from the opening effect, followed by the cleanup and effect re-run the new stream triggers: a success ends with the live stream, no spinner, no error, no second start and the shutter enabled unless a photo is held; a failure keeps its message and no stream |
| SelfieModal.SelfieModal.MetadataLoaded | src/components/common/SelfieModal.tsx:80-89 | the spinner goes; a refused `play()` shows its message |
| SelfieModal.SelfieModal.VideoError | src/components/common/SelfieModal.tsx:91-95 | a video error shows its message and ends the spinner |
| SelfieModal.SelfieModal.CapturePhoto | src/components/common/SelfieModal.tsx:132-151 | a drawn frame becomes the captured image; no canvas context keeps the old one |
| SelfieModal.SelfieModal.Retake | src/components/common/SelfieModal.tsx:153-155 | the captured image is dropped |
| SelfieModal.SelfieModal.Confirm | src/components/common/SelfieModal.tsx:157-162 | with an image: capture then close; without: no calls |
| SelfieModal.SelfieModal.CanCapture | src/components/common/SelfieModal.tsx:224-229 | the shutter button is shown and enabled only with the modal open, no photo taken, no error, not loading and a stream; `StartCameraSettled` makes it hold exactly when the camera starts and no photo is held |
| UploadArea.AcceptanceIgnoresSize | src/components/search/UploadArea.tsx:39-48 | only the MIME type decides acceptance, never the size |
| UploadArea.Accepts | src/components/search/UploadArea.tsx:40 | a file is accepted exactly when its MIME type starts with `image/`; `AcceptanceExamples` and `AcceptanceIgnoresSize` show it reads nothing else |
| UploadArea.FirstFile | src/components/search/UploadArea.tsx:22-37 | only the first of the files is used; none for an empty list |
| UploadArea.UploadArea.constructor | src/components/search/UploadArea.tsx:9-10 | not dragging, no preview |
| UploadArea.UploadArea.DragOver | src/components/search/UploadArea.tsx:13-16 | highlights the zone |
| UploadArea.UploadArea.DragLeave | src/components/search/UploadArea.tsx:18-20 | removes the highlight |
| UploadArea.UploadArea.HandleFile | src/components/search/UploadArea.tsx:39-48 | an image is uploaded and read; any other file is ignored |
| UploadArea.UploadArea.Drop | src/components/search/UploadArea.tsx:22-30 | the highlight goes, the preview is kept, and exactly the `Reported` files are uploaded and start a read |
| UploadArea.UploadArea.FileInput | src/components/search/UploadArea.tsx:32-37 | the highlight and preview are kept, and exactly the `Reported` files are uploaded and start a read |
| UploadArea.UploadArea.ReadLoaded | src/components/search/UploadArea.tsx:44-46 | the read data URL becomes the preview, which hides the drop zone |
| UploadArea.UploadArea.ClearPreview | src/components/search/UploadArea.tsx:50-55 | the preview goes and the drop zone returns |
| UploadArea.UploadArea.ShowsDropZone | src/components/search/UploadArea.tsx:64 | the drop zone shows while there is no preview; a loaded preview hides it (`ReadLoaded`) and `ClearPreview` brings it back |
| UploadArea.Reported | src/components/search/UploadArea.tsx:22-48 | a drop or file input reports at most one file: the first, and only if it is an image; an empty selection or a non-image first file reports nothing |
| UploadArea.AcceptanceExamples | src/components/search/UploadArea.tsx:41 | PNG and JPEG are accepted; PDF and untyped files are not |
| RegisterPage.StripNonDigits | src/pages/RegisterPage.tsx:26 | `replace(/\D/g, '')` leaves only digits and never lengthens |
| RegisterPage.StripAppend | src/pages/RegisterPage.tsx:26 | stripping distributes over concatenation |
| RegisterPage.StripDigits | src/pages/RegisterPage.tsx:26 | a digit string is unchanged by stripping |
| RegisterPage.RunFrom | src/pages/RegisterPage.tsx:29-31 | finds the leftmost digit run of the pattern's length, or reports none |
| RegisterPage.LeftmostRunAt | src/pages/RegisterPage.tsx:29-31 | a run with none before it is the one the regex finds |
| RegisterPage.InsertAfterRun | src/pages/RegisterPage.tsx:29-31 | a non-global replace inserts one separator iff its digit run occurs |
| RegisterPage.HyphenBeforeTail | src/pages/RegisterPage.tsx:31 | without a trailing digit run of 4 or 5 the text is unchanged |
| RegisterPage.CpfFirstDot | src/pages/RegisterPage.tsx:29 | the first replace puts a dot after three digits when there are at least four |
| RegisterPage.CpfSecondDot | src/pages/RegisterPage.tsx:30 | the second replace puts the next dot after six digits when there are at least seven |
| RegisterPage.CpfHyphen | src/pages/RegisterPage.tsx:31 | the last replace puts a hyphen before the last one or two digits when there are at least ten |
| RegisterPage.CpfSteps | src/pages/RegisterPage.tsx:29-31 | the three regex steps together give `000.000.000-00` shaped prefixes |
| RegisterPage.CpfFormat | src/pages/RegisterPage.tsx:27-32 | the CPF layout of a digit string: bare up to 3 digits, then dots after the 3rd and 6th and a hyphen after the 9th digit as far as there are digits, bare digits again beyond 11; `CpfSteps` proves it equal to the three replaces |
| RegisterPage.CpfMask | src/pages/RegisterPage.tsx:25-35 | the CPF mask is `CpfFormat` of the stripped digits: formatted when there are at most 11 digits, returned as bare digits otherwise |
| RegisterPage.StripFullCpf | src/pages/RegisterPage.tsx:26 | stripping a masked CPF removes exactly its two dots and hyphen |
| RegisterPage.CpfKeepsDigits | src/pages/RegisterPage.tsx:25-35 | the mask loses no digit and adds none |
| RegisterPage.CpfSeparators | src/pages/RegisterPage.tsx:29-31 | a masked CPF holds only digits, dots and a hyphen |
| RegisterPage.CpfIdempotent | src/pages/RegisterPage.tsx:25-35 | re-masking a masked CPF changes nothing |
| RegisterPage.CpfWellFormed | src/pages/RegisterPage.tsx:64 | the CPF pattern `000.000.000-00`: 14 characters, the separators at 3, 7 and 11 and digits elsewhere; `CpfWellFormedIffEleven` and `CpfWellFormedIsFixpoint` relate it to the mask |
| RegisterPage.CpfWellFormedIffEleven | src/pages/RegisterPage.tsx:64-65 | the validation pattern matches the mask's output iff it has 11 digits |
| RegisterPage.CpfWellFormedIsFixpoint | src/pages/RegisterPage.tsx:64-65 | a CPF that passes validation is left unchanged by the mask |
| RegisterPage.PhoneHyphen | src/pages/RegisterPage.tsx:45-47 | the hyphen goes after the fifth local digit |
| RegisterPage.PhoneFormat | src/pages/RegisterPage.tsx:40-48 | the phone layout of a digit string: bare up to 2 digits, then the area code in brackets and a space, and a hyphen after the next five digits from 8 digits on, bare digits again beyond 11; `PhoneMask` proves the steps equal to it |
| RegisterPage.PhoneMask | src/pages/RegisterPage.tsx:38-51 | the phone mask is `PhoneFormat` of the stripped digits: formatted when there are at most 11 digits, returned as bare digits otherwise |
| RegisterPage.PhoneKeepsDigits | src/pages/RegisterPage.tsx:38-51 | the phone mask loses no digit and adds none |
| RegisterPage.StripAreaCode | src/pages/RegisterPage.tsx:43 | stripping the "(aa) " prefix keeps exactly the two area digits |
| RegisterPage.PhoneIdempotent | src/pages/RegisterPage.tsx:38-51 | re-masking a masked phone changes nothing |
| RegisterPage.PhoneElevenDigits | src/pages/RegisterPage.tsx:38-51 | eleven digits give `(00) 00000-0000` |
| RegisterPage.EmailExamples | src/pages/RegisterPage.tsx:71-72 | the e-mail pattern accepts `a@b.c` and rejects addresses missing a part or holding a space |
| RegisterPage.EmailValid | src/pages/RegisterPage.tsx:71 | the e-mail pattern by its shape: no whitespace, exactly one `@` with something before it, and a `.` after the `@` with something on both sides; `EmailExamples` checks it on accepted and rejected samples |
| RegisterPage.ValidateForm | src/pages/RegisterPage.tsx:56-96 | no error iff no check fails; otherwise the first failing check in source order |
| RegisterPage.ErrorMessage | src/pages/RegisterPage.tsx:59-91 | the message shown for each failed check, in the source's wording; `Submit` shows the message of the first failing check |
| RegisterPage.ChangeIdempotent | src/pages/RegisterPage.tsx:21-54 | feeding a field's stored value back into `handleChange` leaves the form unchanged |
| RegisterPage.Changed | src/pages/RegisterPage.tsx:21-54 | `handleChange` on one field: CPF and phone go through their masks, every other field takes the value as typed; `ChangeIdempotent` shows that typing the same value twice, or retyping the value a masked field shows, changes nothing |
| RegisterPage.RegisterPage.constructor | src/pages/RegisterPage.tsx:7-19 | empty form, boxes unticked, no error, not loading |
| RegisterPage.RegisterPage.HandleChange | src/pages/RegisterPage.tsx:21-54 | only the changed field is updated, masked for CPF and phone |
| RegisterPage.RegisterPage.SetTermsAccepted | src/pages/RegisterPage.tsx:281 | only the terms box changes |
| RegisterPage.RegisterPage.SetMarketingAccepted | src/pages/RegisterPage.tsx:299 | only the marketing box changes |
| RegisterPage.RegisterPage.Submit | src/pages/RegisterPage.tsx:98-106 | proceeds iff validation passes; otherwise shows the first error's message |
| RegisterPage.RegisterPage.FinishRegistration | src/pages/RegisterPage.tsx:106-126 | success goes to `/login`; failure shows the failure message; loading ends either way |
| HomePage.RecentEvents | src/pages/HomePage.tsx:7-79 | four recent events |
| HomePage.FeaturedEvents | src/pages/HomePage.tsx:81-151 | four featured events |
| HomePage.HomeEvents | src/pages/HomePage.tsx:156 | the eight events, recent first |
| HomePage.Entries | src/pages/HomePage.tsx:160 | a missing photographer list is visited as empty |
| HomePage.Unique | src/pages/HomePage.tsx:155-168 | never more photographers than entries |
| HomePage.UniquePhotographers | src/pages/HomePage.tsx:155-168 | the nested loops over a `Map` yield the first record per id, in first-seen order |
| HomePage.ScanPhotographers | src/pages/HomePage.tsx:160-164 | scanning one event's photographers extends the de-duplicated list by that event's entries and keeps the map in step with it |
| HomePage.ScanStep | src/pages/HomePage.tsx:161-163 | an entry with a known id changes nothing; any other is inserted and appended |
| HomePage.IndexesInsert | src/pages/HomePage.tsx:162 | inserting a new id keeps the map's keys equal to the listed ids |
| HomePage.UniqueIdsDistinct | src/pages/HomePage.tsx:161-163 | no id is listed twice |
| HomePage.EntriesInAll | src/pages/HomePage.tsx:159-165 | each event's entries are among those scanned |
| HomePage.UniqueCoversEveryEvent | src/pages/HomePage.tsx:155-168 | every photographer of every event appears by id |
| HomePage.UniqueKeepsFirstRecord | src/pages/HomePage.tsx:161-163 | each listed record is the first entry with its id, in the order of those entries |
| HomePage.EmptyEventContributesNothing | src/pages/HomePage.tsx:160 | an event without photographers adds nothing |
| AllEventsPage.AllEvents | src/pages/AllEventsPage.tsx:9 | the eight home-page events |
| AllEventsPage.PresentCategories | src/pages/AllEventsPage.tsx:12-14 | `filter(Boolean)` keeps exactly the non-empty categories |
| AllEventsPage.Categories | src/pages/AllEventsPage.tsx:12-14 | the category list: `CategoriesExact` proves it distinct, made only of present categories and covering every event's category, and `CategoriesFirstOccurrenceOrder` proves it ordered by first appearance |
| AllEventsPage.EventCategories | src/pages/AllEventsPage.tsx:12-14 | `EVENT_CATEGORIES` is that list for the page's own events |
| AllEventsPage.CategoriesExact | src/pages/AllEventsPage.tsx:12-14 | the category list has no repeats, no empties, and exactly the events' categories |
| AllEventsPage.CategoriesFirstOccurrenceOrder | src/pages/AllEventsPage.tsx:12-14 | `Set` keeps categories in first-occurrence order |
| AllEventsPage.FilteredEvents | src/pages/AllEventsPage.tsx:22-27 | an event is kept iff its name or location contains the term (case-insensitively) and its category matches any selected one |
| AllEventsPage.MatchesSearch | src/pages/AllEventsPage.tsx:23-24 | the search test: the lower-cased term occurs in the lower-cased name or location |
| AllEventsPage.MatchesCategory | src/pages/AllEventsPage.tsx:25 | the category test: with no (or an empty) category selected every event passes, otherwise only events of that category |
| AllEventsPage.NoCriteriaKeepsAll | src/pages/AllEventsPage.tsx:22-27 | an empty term without a category keeps every event |
| AllEventsPage.FilterKeepsOrder | src/pages/AllEventsPage.tsx:22-27 | filtering keeps the events' relative order |
| AllEventsPage.DatePart | src/pages/AllEventsPage.tsx:32 | `split(' - ')[0]` is a prefix of the date text |
| AllEventsPage.DatePartSpec | src/pages/AllEventsPage.tsx:32 | that prefix ends at the first " - ", or is the whole text when there is none |
| AllEventsPage.LexCompare | src/pages/AllEventsPage.tsx:34 | the name comparison is -1, 0 or 1, and 0 exactly for equal names |
| AllEventsPage.LexCompareFlips | src/pages/AllEventsPage.tsx:34 | swapping the names negates the comparison |
| AllEventsPage.Compare | src/pages/AllEventsPage.tsx:31-38 | the sort callback: newest date first, names in code-unit order, most photos first; `CompareFlips` proves that when it puts one event first, the swapped call puts the other one second |
| AllEventsPage.Insert | src/pages/AllEventsPage.tsx:30-39 | inserting one event adds exactly it |
| AllEventsPage.SortedEvents | src/pages/AllEventsPage.tsx:30-39 | sorting is a permutation of the filtered events |
| AllEventsPage.CompareFlips | src/pages/AllEventsPage.tsx:30-39 | each comparator is antisymmetric in sign |
| AllEventsPage.InsertInOrder | src/pages/AllEventsPage.tsx:30-39 | inserting into an ordered list keeps it ordered |
| AllEventsPage.SortedInOrder | src/pages/AllEventsPage.tsx:30-39 | every adjacent pair of the result is in comparator order |
| AllEventsPage.SortByPhotosDescending | src/pages/AllEventsPage.tsx:36 | sorting by photos gives non-increasing counts, as a permutation |
| AllEventsPage.NonIncreasingFrom | src/pages/AllEventsPage.tsx:36 | adjacent order on counts extends to every pair |
| AllEventsPage.SortByNameAscending | src/pages/AllEventsPage.tsx:34 | sorting by name gives ascending names |
| AllEventsPage.InitialFilters | src/pages/AllEventsPage.tsx:17-19 | the page starts with an empty term, no category and newest first; `InitialFiltersShowAll` proves it then lists every event |
| AllEventsPage.InitialFiltersShowAll | src/pages/AllEventsPage.tsx:17-19 | the initial filters (empty term, no category) keep every event of any list |
| AllEventsPage.ClearFilters | src/pages/AllEventsPage.tsx:232-235 | "clear filters" keeps the sort order |
| AllEventsPage.ClearFiltersShowAll | src/pages/AllEventsPage.tsx:232-235 | after "clear filters" every event of any list is shown again |
| AllEventsPage.Shown | src/pages/AllEventsPage.tsx:22-39 | the shown cards are exactly the filtered events, reordered |
| AllEventsPage.CardAvatars | src/pages/AllEventsPage.tsx:191-211 | a card shows at most three avatars and a "+n" badge for the rest |
| EventsGrid.CalculateTimeLeft | src/components/home/EventsGrid.tsx:37-51 | all zero once the release has passed; otherwise whole days plus hours < 24, minutes < 60, seconds < 60 |
| EventsGrid.CountdownAddsUp | src/components/home/EventsGrid.tsx:45-49 | the displayed fields add up to the time left, rounded down to a whole second |
| EventsGrid.CountdownView | src/components/home/EventsGrid.tsx:71-76 | the card shows "Fotos disponíveis" once `total` is not positive and the four counters before; `AvailableIffElapsed` proves the label shows exactly when the release time has passed |
| EventsGrid.AvailableIffElapsed | src/components/home/EventsGrid.tsx:66-76 | "Fotos disponíveis" shows exactly once the release time is reached |
| EventsGrid.GridAvatars | src/components/home/EventsGrid.tsx:142-155 | a grid card shows at most five avatars and a badge for the rest |
| ThemeProvider.Persisted | src/components/common/ThemeProvider.tsx:30-37 | the saved value is "dark" exactly for the dark theme |
| ThemeProvider.InitialIsDark | src/components/common/ThemeProvider.tsx:21-27 | a saved value decides (dark iff "dark"); otherwise the system preference does |
| ThemeProvider.PersistRoundTrip | src/components/common/ThemeProvider.tsx:21-37 | the saved theme is the theme restored on the next load |
| ThemeProvider.ThemeProvider.constructor | src/components/common/ThemeProvider.tsx:21-37 | mounting takes the initial theme and syncs the class and storage |
| ThemeProvider.ThemeProvider.ApplyTheme | src/components/common/ThemeProvider.tsx:30-37 | the document class and the saved value match the theme |
| ThemeProvider.ThemeProvider.ToggleTheme | src/components/common/ThemeProvider.tsx:39-41 | the theme flips and stays synced |
| ThemeProvider.ThemeProvider.Reloaded | src/components/common/ThemeProvider.tsx:21-27 | a reload after syncing restores the current theme |
| ThemeProvider.UseTheme | src/components/common/ThemeProvider.tsx:11-17 | outside a provider the hook fails with its message; inside it returns the context |
| SearchBar.SearchBar.constructor | src/components/common/SearchBar.tsx:10 | the term starts empty |
| SearchBar.SearchBar.SetSearchTerm | src/components/common/SearchBar.tsx:10 | the term is what was typed |
| SearchBar.SearchBar.HandleSearch | src/components/common/SearchBar.tsx:13-18 | navigates iff the term has non-whitespace content, to the search with the encoded trimmed term |
| SearchBar.SearchBar.HandleFileUpload | src/components/common/SearchBar.tsx:20-22 | the camera button always goes to the facial search |

## Left out

- Rendering, styling, icons and layout are not modelled. Only the view decisions (which screen, which marks, which badge) are.
- Timers (`setTimeout`, `setInterval`), `Math.random`, `Date.now`, `new Date(...)`, `FileReader`, `URL.createObjectURL`, `localStorage`, `matchMedia`, `getUserMedia`, canvas drawing and navigation are not modelled as calls. Their results are parameters: a random draw, a `dateMs` function, a read result, an object URL, a stored value, an acquisition outcome or a captured frame.
- React's asynchronous interleaving is left out: each handler runs to completion, and a later event is a later method call. Two overlapping `startCamera` calls therefore cannot be expressed.
- `encodeURIComponent` is a parameter of `SearchBar.SearchBar.HandleSearch`, so its escaping is not modelled.
- Prices are whole centavos, not JavaScript floats, and the price display is not modelled.
- `RecognitionService.ResultCount`: the count is `floor(r * 8) + 4` on an exact real `r`, so the float rounding of the product is not modelled.
- `EventsGrid.CalculateTimeLeft`: it uses integer `div`/`mod` where the source takes `Math.floor` of floating divisions and `%`. For a positive whole number of milliseconds these agree. The 1-second interval, the clean-up of the timer and the `padStart` display are not modelled. Neither is a `Date` that does not parse (NaN).
- `AllEventsPage.LexCompare`: it compares by code point, standing in for `localeCompare`, so locale collation (accents, case) is not modelled. `Strings.Lower` lowers ASCII letters only.
- `AllEventsPage.SortedEvents`: a stable insertion sort stands in for `Array.prototype.sort`. Stability itself is not stated as a lemma. The date order is proved only in the adjacent-pair form `InOrder`, because `dateMs` is arbitrary.
- The concrete value of `EVENT_CATEGORIES` (seven categories) is not proved. `AllEventsPage.CategoriesExact` states its properties for any event list.
- `SearchPage.SearchPage.HandleImageUpload`: the page's `handleImageUpload` is not wired to any element, and the model keeps it as a method. The page's own `MOCK_PHOTOS` constant is unused by the source and is not modelled.
- The photographer-count label (singular or plural) and the avatar images are not modelled.
- `RegisterPage.ValidateForm` counts the password length in code points, not UTF-16 units. The show-password toggle is not modelled.
- The e-mail pattern is modelled by the shape it checks (`EmailShape`), not by a general regular-expression engine.
- `UploadArea`: the "Max 10MB" label is not enforced by the source, and the model does not enforce it either (`UploadArea.AcceptanceIgnoresSize`).
- The `ThemeToggle` button component and the other pages (login, checkout, photographer dashboard, profile, event detail) are not part of this model. Toggling the theme twice restoring it follows from `ThemeProvider.ThemeProvider.ToggleTheme` applied twice and is not a separate lemma.
- Sorting `[...filteredEvents]` on a copy holds by value semantics and is not stated separately.
- The failure `alert(...)` of the facial search handlers (src/pages/SearchPage.tsx:71 and :93) and all `console.log`/`console.error` output (in the search page and throughout the selfie modal) are not modelled. A failed search only keeps the previous results and closes the modal.
- `Types.EventInfo` has no `photosReleaseDate` or `uploadProgress` field. The home events' release dates are computed from `Date.now()`. So the rule that an event card shows the countdown only when the event has a release date (src/components/home/EventsGrid.tsx:172) is not modelled. The countdown itself is modelled for a given millisecond difference.
- `SelfieModal.SelfieModal.StartCamera`: `hasVideoElement` is an unconstrained parameter. In the source the `<video>` element is mounted exactly when the modal is open with no camera error and no captured image (src/components/common/SelfieModal.tsx:189-212), and that link is not stated.
- The upload area's `takeSelfie` button handler (src/components/search/UploadArea.tsx:57-60) only raises an `alert` and is not modelled.
- `RegisterPage.Changed`: the typed `value` is any string. The source's inputs carry `maxLength={15}` for the phone (src/pages/RegisterPage.tsx:187) and `maxLength={14}` for the CPF (src/pages/RegisterPage.tsx:204), so the browser stops longer input. The model over-approximates this and also covers values those limits would block, such as a CPF of more than 11 digits.
