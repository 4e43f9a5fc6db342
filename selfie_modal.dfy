/** The selfie modal: camera start-up with its failure classification, the
    stream's tracks and how they are stopped, the effect that starts the camera and
    its cleanup, and the capture / retake / confirm cycle. */
module SelfieModal {
  import opened Wrappers
  import opened Strings
  import opened Types

  /** A value thrown while starting the camera: an `Error` with its name and message,
      or anything else. */
  datatype Thrown = ErrorValue(name: string, message: string) | NonError

  /** What went wrong, as the catch block tells the cases apart. */
  datatype CameraFault =
    | PermissionDenied
    | NoCamera
    | CameraBusy
    | Overconstrained
    | Aborted
    | Blocked
    | InvalidSettings
    | Described(message: string)
    | Unknown

  const DefaultMessage := "Não foi possível acessar sua câmera"
  const PermissionMessage :=
    "Permissão para acessar a câmera " +
    "foi negada. Por favor, permita o " +
    "acesso à câmera nas configurações " +
    "do seu navegador."
  const NoCameraMessage :=
    "Nenhuma câmera foi encontrada no " +
    "seu dispositivo."
  const BusyMessage :=
    "Sua câmera está sendo usada por " +
    "outro aplicativo. Feche outros " +
    "aplicativos que possam estar " +
    "usando a câmera e tente novamente."
  const OverconstrainedMessage :=
    "As configurações solicitadas para " +
    "a câmera não são suportadas pelo " +
    "seu dispositivo."
  const AbortedMessage :=
    "A operação de acesso à câmera foi " +
    "cancelada. Tente novamente."
  const BlockedMessage :=
    "O uso da câmera foi bloqueado por " +
    "questões de segurança. Verifique " +
    "as configurações do seu navegador."
  const InvalidSettingsMessage :=
    "Configurações inválidas para a " +
    "câmera. Tente novamente."
  const UnsupportedMessage :=
    "Seu navegador não suporta acesso à " +
    "câmera"
  const NoVideoTrackMessage := "Nenhuma track de vídeo disponível"
  const NoVideoElementMessage :=
    "Erro interno: elemento de vídeo " +
    "não encontrado."
  const PlayFailedMessage :=
    "Não foi possível iniciar a câmera. " +
    "Tente novamente."
  const VideoFailedMessage :=
    "Ocorreu um erro ao exibir o vídeo " +
    "da câmera."

  /** The catch block's chain of name tests; a message is used only for an `Error`
      of no known name. */
  function Classify(t: Thrown): (f: CameraFault)
    ensures t.NonError? ==> f == Unknown
    ensures t.ErrorValue? ==>
      (f == PermissionDenied <==> t.name == "NotAllowedError" || t.name == "PermissionDeniedError")
    ensures t.ErrorValue? ==>
      (f == NoCamera <==> t.name == "NotFoundError" || t.name == "DevicesNotFoundError")
    ensures t.ErrorValue? ==>
      (f == CameraBusy <==> t.name == "NotReadableError" || t.name == "TrackStartError")
    ensures t.ErrorValue? ==> (f == Overconstrained <==> t.name == "OverconstrainedError")
    ensures t.ErrorValue? ==> (f == Aborted <==> t.name == "AbortError")
    ensures t.ErrorValue? ==> (f == Blocked <==> t.name == "SecurityError")
    ensures t.ErrorValue? ==> (f == InvalidSettings <==> t.name == "TypeError")
    ensures f.Described? ==> t.ErrorValue? && f.message == t.message && f.message != ""
  {
    match t
    case NonError => Unknown
    case ErrorValue(name, message) =>
      if name == "NotAllowedError" || name == "PermissionDeniedError" then PermissionDenied
      else if name == "NotFoundError" || name == "DevicesNotFoundError" then NoCamera
      else if name == "NotReadableError" || name == "TrackStartError" then CameraBusy
      else if name == "OverconstrainedError" then Overconstrained
      else if name == "AbortError" then Aborted
      else if name == "SecurityError" then Blocked
      else if name == "TypeError" then InvalidSettings
      else if message != "" then Described(message)
      else Unknown
  }

  /** The text shown for each fault. */
  function FaultMessage(f: CameraFault): (msg: string)
    ensures msg != ""
  {
    match f
    case PermissionDenied => PermissionMessage
    case NoCamera => NoCameraMessage
    case CameraBusy => BusyMessage
    case Overconstrained => OverconstrainedMessage
    case Aborted => AbortedMessage
    case Blocked => BlockedMessage
    case InvalidSettings => InvalidSettingsMessage
    case Described(m) => "Erro: " + m
    case Unknown => DefaultMessage
  }

  /** The `cameraError` a thrown value leads to. */
  function CameraErrorMessage(t: Thrown): (msg: string)
    ensures msg != ""
  {
    FaultMessage(Classify(t))
  }

  /** The legacy and the standard name of each `getUserMedia` error give the same text. */
  lemma AliasesShareMessage(m1: string, m2: string)
    ensures CameraErrorMessage(ErrorValue("NotAllowedError", m1)) == CameraErrorMessage(ErrorValue("PermissionDeniedError", m2)) == PermissionMessage
    ensures CameraErrorMessage(ErrorValue("NotFoundError", m1)) == CameraErrorMessage(ErrorValue("DevicesNotFoundError", m2)) == NoCameraMessage
    ensures CameraErrorMessage(ErrorValue("NotReadableError", m1)) == CameraErrorMessage(ErrorValue("TrackStartError", m2)) == BusyMessage
  {
  }

  /** Each of the four names with a text of its own shows that text, whatever the message. */
  lemma DedicatedMessages(m: string)
    ensures CameraErrorMessage(ErrorValue("OverconstrainedError", m)) == OverconstrainedMessage
    ensures CameraErrorMessage(ErrorValue("AbortError", m)) == AbortedMessage
    ensures CameraErrorMessage(ErrorValue("SecurityError", m)) == BlockedMessage
    ensures CameraErrorMessage(ErrorValue("TypeError", m)) == InvalidSettingsMessage
  {
  }

  /** An `Error` of no known name shows "Erro: " and its message when it has one, and
      the default text otherwise; a thrown non-`Error` shows the default text. */
  lemma UnknownErrorMessages(t: Thrown)
    requires t.ErrorValue? ==> t.name !in {"NotAllowedError", "PermissionDeniedError", "NotFoundError",
      "DevicesNotFoundError", "NotReadableError", "TrackStartError", "OverconstrainedError",
      "AbortError", "SecurityError", "TypeError"}
    ensures t.ErrorValue? && t.message != "" ==> CameraErrorMessage(t) == "Erro: " + t.message
    ensures (t.NonError? || t.message == "") ==> CameraErrorMessage(t) == DefaultMessage
  {
  }

  /** Reads the fault back from the text shown. */
  function FaultOfMessage(msg: string): (f: CameraFault)
    ensures f.Described? ==> "Erro: " + f.message == msg
  {
    if |msg| >= 6 && msg[..6] == "Erro: " then
      assert msg == msg[..6] + msg[6..];
      Described(msg[6..])
    else if msg == PermissionMessage then PermissionDenied
    else if msg == NoCameraMessage then NoCamera
    else if msg == BusyMessage then CameraBusy
    else if msg == OverconstrainedMessage then Overconstrained
    else if msg == AbortedMessage then Aborted
    else if msg == BlockedMessage then Blocked
    else if msg == InvalidSettingsMessage then InvalidSettings
    else Unknown
  }

  /** The text shown determines the fault: reading it back gives the fault again. */
  lemma FaultMessageRoundTrip(f: CameraFault)
    ensures FaultOfMessage(FaultMessage(f)) == f
  {
    match f
    case Described(m) => DescribedRoundTrip(m);
    case _ => FixedRoundTrip(f);
  }

  /** "Erro: " followed by a message reads back as that message. */
  lemma DescribedRoundTrip(m: string)
    ensures FaultOfMessage("Erro: " + m) == Described(m)
  {
    var msg := "Erro: " + m;
    assert msg[..6] == "Erro: ";
    assert msg[6..] == m;
  }

  /** The fixed texts do not start with "Erro: " and differ from each other. */
  lemma FixedRoundTrip(f: CameraFault)
    requires !f.Described?
    ensures FaultOfMessage(FaultMessage(f)) == f
  {
    assert FaultMessage(f)[0] != 'E';
  }

  /** Distinct faults show distinct texts, so the text tells the user which case
      occurred (and, for `Described`, which message). */
  lemma FaultMessageInjective(f: CameraFault, g: CameraFault)
    requires FaultMessage(f) == FaultMessage(g)
    ensures f == g
  {
    FaultMessageRoundTrip(f);
    FaultMessageRoundTrip(g);
  }

  /** The browser-side outcome of `getUserMedia`: a stream with its number of video
      tracks, or the value it rejected with. */
  datatype Acquisition = Granted(videoTracks: nat) | Rejected(thrown: Thrown)

  /** Everything `startCamera` does between the `try` and the `catch`, as data: the
      number of tracks of the stream it keeps, or what was thrown. */
  function Acquire(supported: bool, acquisition: Acquisition): (r: Result<nat, Thrown>)
    ensures r.Success? ==> supported && acquisition == Granted(r.value) && r.value > 0
    ensures !supported ==> r == Failure(ErrorValue("Error", UnsupportedMessage))
  {
    if !supported then Failure(ErrorValue("Error", UnsupportedMessage))
    else match acquisition
      case Rejected(t) => Failure(t)
      case Granted(n) => if n == 0 then Failure(ErrorValue("Error", NoVideoTrackMessage)) else Success(n)
  }

  /** The two failures `startCamera` raises itself show their own message after "Erro: ". */
  lemma OwnFailureMessages()
    ensures CameraErrorMessage(ErrorValue("Error", UnsupportedMessage)) == "Erro: " + UnsupportedMessage
    ensures CameraErrorMessage(ErrorValue("Error", NoVideoTrackMessage)) == "Erro: " + NoVideoTrackMessage
  {
  }

  /** A camera stream; audio is never requested, so its tracks are its video tracks. */
  class MediaStream {
    /** One flag per track: still live. */
    const live: array<bool>

    constructor (videoTracks: nat)
      ensures fresh(live) && live.Length == videoTracks
      ensures forall i | 0 <= i < live.Length :: live[i]
    {
      live := new bool[videoTracks](_ => true);
    }

    /** No track is live any more. */
    predicate Stopped()
      reads live
    {
      forall i | 0 <= i < live.Length :: !live[i]
    }

    /** `stream.getTracks().forEach(track => track.stop())`. */
    method StopAllTracks()
      modifies live
      ensures Stopped()
    {
      for i := 0 to live.Length
        invariant forall j | 0 <= j < i :: !live[j]
      {
        live[i] := false;
      }
    }
  }

  class SelfieModal {
    var isOpen: bool
    var stream: MediaStream?
    var capturedImage: Option<string>
    var cameraError: Option<string>
    var isLoading: bool
    /** The stream the open/stream effect saw when it last ran: its cleanup uses this
        one, not the current one. */
    var effectStream: MediaStream?

    /** The spinner is never shown together with an error. */
    ghost predicate Valid()
      reads this
    {
      cameraError.Some? ==> !isLoading
    }

    constructor (open: bool)
      ensures Valid()
      ensures isOpen == open && stream == null && effectStream == null
      ensures capturedImage == None && cameraError == None && !isLoading
    {
      isOpen, stream, effectStream := open, null, null;
      capturedImage, cameraError, isLoading := None, None, false;
    }

    /** The effect body: remembers the stream it saw and tells whether it starts the camera. */
    method RunEffect() returns (start: bool)
      requires Valid()
      modifies this
      ensures Valid()
      ensures start <==> isOpen && stream == null
      ensures effectStream == stream
      ensures isOpen == old(isOpen) && stream == old(stream) && capturedImage == old(capturedImage)
      ensures cameraError == old(cameraError) && isLoading == old(isLoading)
    {
      effectStream := stream;
      start := isOpen && stream == null;
    }

    /** The effect cleanup, run when the modal closes or the stream changes: the stream
        the effect saw is stopped and dropped, and the error and spinner are cleared.
        The captured image is kept. */
    method Cleanup()
      requires Valid()
      modifies this, if effectStream == null then {} else {effectStream.live}
      ensures Valid()
      ensures old(effectStream) != null ==> old(effectStream).Stopped() && stream == null
      ensures old(effectStream) == null ==> stream == old(stream)
      ensures cameraError == None && !isLoading
      ensures isOpen == old(isOpen) && capturedImage == old(capturedImage) && effectStream == old(effectStream)
    {
      var seen := effectStream;
      if seen != null {
        seen.StopAllTracks();
        stream := null;
      }
      cameraError := None;
      isLoading := false;
    }

    /** The `isOpen` prop changes; React then runs the cleanup and the effect again
        (see `Cleanup` and `RunEffect`). */
    method SetOpen(open: bool)
      requires Valid()
      modifies this
      ensures Valid()
      ensures isOpen == open
      ensures stream == old(stream) && capturedImage == old(capturedImage) && effectStream == old(effectStream)
      ensures cameraError == old(cameraError) && isLoading == old(isLoading)
    {
      isOpen := open;
    }

    /** `startCamera`, with what the browser answers given as parameters: whether it
        has `getUserMedia`, what `getUserMedia` resolves or rejects with, and whether
        the video element is mounted. Any stream held before is stopped first. */
    method StartCamera(supported: bool, acquisition: Acquisition, hasVideoElement: bool)
      requires Valid()
      modifies this, if stream == null then {} else {stream.live}
      ensures Valid()
      ensures old(stream) != null ==> old(stream).Stopped()
      ensures Acquire(supported, acquisition).Failure? ==>
        stream == null && !isLoading
        && cameraError == Some(CameraErrorMessage(Acquire(supported, acquisition).error))
      ensures Acquire(supported, acquisition).Success? ==>
        stream != null && fresh(stream) && fresh(stream.live)
        && stream.live.Length == Acquire(supported, acquisition).value
        && (forall i | 0 <= i < stream.live.Length :: stream.live[i])
        && (hasVideoElement ==> isLoading && cameraError == None)
        && (!hasVideoElement ==> !isLoading && cameraError == Some(NoVideoElementMessage))
      ensures isOpen == old(isOpen) && capturedImage == old(capturedImage) && effectStream == old(effectStream)
    {
      isLoading := true;
      cameraError := None;
      if stream != null {
        stream.StopAllTracks();
        stream := null;
      }
      var outcome := Acquire(supported, acquisition);
      if outcome.Failure? {
        cameraError := Some(CameraErrorMessage(outcome.error));
        isLoading := false;
      } else {
        stream := new MediaStream(outcome.value);
        if !hasVideoElement {
          cameraError := Some(NoVideoElementMessage);
          isLoading := false;
        }
      }
    }

    /** The camera start the effect makes when the modal opens, followed by what React
        does next. A successful start stores a new stream, which changes the effect's
        dependencies: the previous cleanup, which saw no stream, clears the error and
        the spinner, and the effect runs again without starting the camera a second
        time. So neither the spinner nor the missing-video-element message survives a
        successful start. A failed start stores no stream, so nothing runs after it. */
    method StartCameraSettled(supported: bool, acquisition: Acquisition, hasVideoElement: bool)
      returns (restarted: bool)
      requires Valid() && isOpen && stream == null && effectStream == null
      modifies this
      ensures Valid()
      ensures Acquire(supported, acquisition).Failure? ==>
        stream == null && effectStream == null && !isLoading
        && cameraError == Some(CameraErrorMessage(Acquire(supported, acquisition).error))
      ensures Acquire(supported, acquisition).Success? ==>
        stream != null && fresh(stream) && effectStream == stream
        && stream.live.Length == Acquire(supported, acquisition).value
        && (forall i | 0 <= i < stream.live.Length :: stream.live[i])
        && !isLoading && cameraError == None
      ensures !restarted
      ensures isOpen && capturedImage == old(capturedImage)
      ensures CanCapture() <==> Acquire(supported, acquisition).Success? && capturedImage.None?
    {
      StartCamera(supported, acquisition, hasVideoElement);
      if Acquire(supported, acquisition).Success? {
        Cleanup();
        restarted := RunEffect();
      } else {
        restarted := false;
      }
    }

    /** The video's `loadedmetadata` event: the spinner goes, and a refused `play()`
        shows an error. */
    method MetadataLoaded(playOk: bool)
      requires Valid()
      modifies this
      ensures Valid()
      ensures !isLoading
      ensures cameraError == if playOk then old(cameraError) else Some(PlayFailedMessage)
      ensures stream == old(stream) && capturedImage == old(capturedImage)
      ensures isOpen == old(isOpen) && effectStream == old(effectStream)
    {
      isLoading := false;
      if !playOk {
        cameraError := Some(PlayFailedMessage);
      }
    }

    /** The video element's `error` event. */
    method VideoError()
      requires Valid()
      modifies this
      ensures Valid()
      ensures cameraError == Some(VideoFailedMessage) && !isLoading
      ensures stream == old(stream) && capturedImage == old(capturedImage)
      ensures isOpen == old(isOpen) && effectStream == old(effectStream)
    {
      cameraError := Some(VideoFailedMessage);
      isLoading := false;
    }

    /** The shutter button is shown and enabled. */
    predicate CanCapture()
      reads this
    {
      isOpen && capturedImage.None? && cameraError.None? && !isLoading && stream != null
    }

    /** `capturePhoto`: `frame` is the JPEG data URL drawn from the video, or None when
        the video, canvas or 2D context is missing. */
    method CapturePhoto(frame: Option<string>)
      requires Valid() && CanCapture()
      modifies this
      ensures Valid()
      ensures capturedImage == if frame.Some? then frame else old(capturedImage)
      ensures stream == old(stream) && cameraError == old(cameraError) && isLoading == old(isLoading)
      ensures isOpen == old(isOpen) && effectStream == old(effectStream)
    {
      if frame.Some? {
        capturedImage := frame;
      }
    }

    /** "Tirar novamente": only the captured image is dropped. */
    method Retake()
      requires Valid()
      modifies this
      ensures Valid()
      ensures capturedImage == None
      ensures stream == old(stream) && cameraError == old(cameraError) && isLoading == old(isLoading)
      ensures isOpen == old(isOpen) && effectStream == old(effectStream)
    {
      capturedImage := None;
    }

    /** "Confirmar": the parent callbacks it calls, in order. */
    method Confirm() returns (calls: seq<Callback>)
      ensures Present(capturedImage) ==> calls == [OnCapture(capturedImage.value), OnClose]
      ensures !Present(capturedImage) ==> calls == []
    {
      if Present(capturedImage) {
        calls := [OnCapture(capturedImage.value), OnClose];
      } else {
        calls := [];
      }
    }
  }
}
