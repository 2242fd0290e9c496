/** The browser side: the checks the submit handler makes before and after the
    request, the preview scale, the scaled drawing of the returned faces, and
    the per-face breakdown. The DOM, the canvas and `fetch` are not modelled;
    what the handler does to them is recorded as values. */
module Client {
  import opened Wrappers

  // ---------------------------------------------------------------------------
  // Faces as the client reads them from the response
  // ---------------------------------------------------------------------------

  datatype Point = Point(x: real, y: real)

  /** One entry of `data.faces`: the face box in original-image pixels and its landmark points. */
  datatype Face = Face(x: real, y: real, width: real, height: real, landmarks: seq<Point>)

  /** A rectangle as passed to `strokeRect`. */
  datatype Box = Box(x: real, y: real, width: real, height: real)

  // ---------------------------------------------------------------------------
  // Preview scale
  // ---------------------------------------------------------------------------

  /** The preview canvas is never wider than this. */
  const MaxPreviewWidth: real := 800.0

  function Min(a: real, b: real): real
  {
    if a <= b then a else b
  }

  /** `Math.min(1, maxWidth / img.width)`. For a zero width JavaScript divides
      to Infinity, so the minimum is 1. */
  function PreviewScale(width: nat): (s: real)
    ensures 0.0 < s <= 1.0
    ensures width as real * s <= MaxPreviewWidth
    ensures width as real <= MaxPreviewWidth ==> s == 1.0
    ensures width as real > MaxPreviewWidth ==> width as real * s == MaxPreviewWidth
  {
    if width == 0 then 1.0 else Min(1.0, MaxPreviewWidth / width as real)
  }

  // ---------------------------------------------------------------------------
  // Scaling
  // ---------------------------------------------------------------------------

  function ScalePoint(p: Point, scale: real): Point
  {
    Point(p.x * scale, p.y * scale)
  }

  function ScaleBox(b: Box, scale: real): Box
  {
    Box(b.x * scale, b.y * scale, b.width * scale, b.height * scale)
  }

  /** The face's own box, unscaled. */
  function BoxOf(f: Face): Box
  {
    Box(f.x, f.y, f.width, f.height)
  }

  /** Scaling by a non-zero factor loses nothing: scaling back restores the box. */
  lemma ScaleBoxInverse(b: Box, scale: real)
    requires scale != 0.0
    ensures ScaleBox(ScaleBox(b, scale), 1.0 / scale) == b
  {
    assert b.x * scale * (1.0 / scale) == b.x;
    assert b.y * scale * (1.0 / scale) == b.y;
    assert b.width * scale * (1.0 / scale) == b.width;
    assert b.height * scale * (1.0 / scale) == b.height;
  }

  lemma ScalePointInverse(p: Point, scale: real)
    requires scale != 0.0
    ensures ScalePoint(ScalePoint(p, scale), 1.0 / scale) == p
  {
    assert p.x * scale * (1.0 / scale) == p.x;
    assert p.y * scale * (1.0 / scale) == p.y;
  }

  /** An image no wider than the preview is drawn at its own size. */
  lemma NarrowImageIsNotRescaled(width: nat, b: Box)
    requires width as real <= MaxPreviewWidth
    ensures ScaleBox(b, PreviewScale(width)) == b
  {
  }

  // ---------------------------------------------------------------------------
  // What `drawDetectionResults` draws
  // ---------------------------------------------------------------------------

  /** The radius of a landmark dot. */
  const DotRadius: real := 2.0

  /** A canvas call that leaves a mark: a stroked face box or a filled landmark dot. */
  datatype DrawOp = StrokeBox(box: Box) | Dot(centre: Point, radius: real)

  /** The dots for a face's landmarks, in landmark order. */
  function LandmarkOps(pts: seq<Point>, scale: real): seq<DrawOp>
  {
    if pts == [] then []
    else LandmarkOps(pts[..|pts| - 1], scale) + [Dot(ScalePoint(pts[|pts| - 1], scale), DotRadius)]
  }

  /** One face: its box, then its landmarks. */
  function FaceOps(f: Face, scale: real): seq<DrawOp>
  {
    [StrokeBox(ScaleBox(BoxOf(f), scale))] + LandmarkOps(f.landmarks, scale)
  }

  /** All faces, in face order. */
  function DrawOps(faces: seq<Face>, scale: real): seq<DrawOp>
  {
    if faces == [] then []
    else DrawOps(faces[..|faces| - 1], scale) + FaceOps(faces[|faces| - 1], scale)
  }

  /** The boxes stroked by a run of canvas calls, in order. */
  function Strokes(ops: seq<DrawOp>): seq<Box>
  {
    if ops == [] then []
    else Strokes(ops[..|ops| - 1]) + (if ops[|ops| - 1].StrokeBox? then [ops[|ops| - 1].box] else [])
  }

  /** The centres of the dots drawn by a run of canvas calls, in order. */
  function Dots(ops: seq<DrawOp>): seq<Point>
  {
    if ops == [] then []
    else Dots(ops[..|ops| - 1]) + (if ops[|ops| - 1].Dot? then [ops[|ops| - 1].centre] else [])
  }

  /** Every landmark of every face, in face order and then landmark order. */
  function AllLandmarks(faces: seq<Face>): seq<Point>
  {
    if faces == [] then [] else AllLandmarks(faces[..|faces| - 1]) + faces[|faces| - 1].landmarks
  }

  lemma {:induction false} StrokesAppend(a: seq<DrawOp>, b: seq<DrawOp>)
    ensures Strokes(a + b) == Strokes(a) + Strokes(b)
    ensures Dots(a + b) == Dots(a) + Dots(b)
    decreases |b|
  {
    if b != [] {
      var b' := b[..|b| - 1];
      assert (a + b)[..|a + b| - 1] == a + b';
      StrokesAppend(a, b');
    } else {
      assert a + b == a;
    }
  }

  lemma {:induction false} LandmarkOpsAreDots(pts: seq<Point>, scale: real)
    ensures Strokes(LandmarkOps(pts, scale)) == []
    ensures Dots(LandmarkOps(pts, scale)) == seq(|pts|, j requires 0 <= j < |pts| => ScalePoint(pts[j], scale))
  {
    if pts != [] {
      var init := pts[..|pts| - 1];
      LandmarkOpsAreDots(init, scale);
      StrokesAppend(LandmarkOps(init, scale), [Dot(ScalePoint(pts[|pts| - 1], scale), DotRadius)]);
    }
  }

  /** The boxes stroked are the faces' boxes, each coordinate multiplied by the
      scale, one per face and in face order. */
  lemma {:induction false} DrawnBoxes(faces: seq<Face>, scale: real)
    ensures Strokes(DrawOps(faces, scale)) == seq(|faces|, i requires 0 <= i < |faces| => ScaleBox(BoxOf(faces[i]), scale))
  {
    if faces != [] {
      var n := |faces| - 1;
      var init := faces[..n];
      DrawnBoxes(init, scale);
      StrokesAppend(DrawOps(init, scale), FaceOps(faces[n], scale));
      StrokesAppend([StrokeBox(ScaleBox(BoxOf(faces[n]), scale))], LandmarkOps(faces[n].landmarks, scale));
      LandmarkOpsAreDots(faces[n].landmarks, scale);
      assert Strokes([StrokeBox(ScaleBox(BoxOf(faces[n]), scale))]) == [ScaleBox(BoxOf(faces[n]), scale)];
    }
  }

  /** The dots drawn are all landmarks, each multiplied by the same scale as
      the boxes, in face order and then landmark order. */
  lemma {:induction false} DrawnDots(faces: seq<Face>, scale: real)
    ensures Dots(DrawOps(faces, scale)) ==
      seq(|AllLandmarks(faces)|, j requires 0 <= j < |AllLandmarks(faces)| => ScalePoint(AllLandmarks(faces)[j], scale))
  {
    if faces != [] {
      var n := |faces| - 1;
      var init := faces[..n];
      DrawnDots(init, scale);
      StrokesAppend(DrawOps(init, scale), FaceOps(faces[n], scale));
      StrokesAppend([StrokeBox(ScaleBox(BoxOf(faces[n]), scale))], LandmarkOps(faces[n].landmarks, scale));
      LandmarkOpsAreDots(faces[n].landmarks, scale);
      assert Dots([StrokeBox(ScaleBox(BoxOf(faces[n]), scale))]) == [];
    }
  }

  // ---------------------------------------------------------------------------
  // The per-face breakdown
  // ---------------------------------------------------------------------------

  /** One block of the breakdown: the face's number, position, size and landmark count. */
  datatype FaceDetail = FaceDetail(number: nat, x: real, y: real, width: real, height: real, landmarkCount: nat)

  /** `faces.map((face, index) => ...)`. */
  function Details(faces: seq<Face>): seq<FaceDetail>
  {
    seq(|faces|, i requires 0 <= i < |faces| =>
      FaceDetail(i + 1, faces[i].x, faces[i].y, faces[i].width, faces[i].height, |faces[i].landmarks|))
  }

  /** The breakdown lists the faces in the order their boxes are drawn,
      numbered from 1; it reports the unscaled box, which the drawn box is the
      scaled copy of, and as many landmarks as dots are drawn for the face. */
  lemma DetailsDescribeDrawing(faces: seq<Face>, scale: real)
    ensures |Details(faces)| == |Strokes(DrawOps(faces, scale))| == |faces|
    ensures forall i :: 0 <= i < |faces| ==>
      var d := Details(faces)[i];
      && d.number == i + 1
      && ScaleBox(Box(d.x, d.y, d.width, d.height), scale) == Strokes(DrawOps(faces, scale))[i]
      && d.landmarkCount == |Dots(FaceOps(faces[i], scale))|
  {
    DrawnBoxes(faces, scale);
    forall i | 0 <= i < |faces|
      ensures Details(faces)[i].landmarkCount == |Dots(FaceOps(faces[i], scale))|
    {
      var f := faces[i];
      StrokesAppend([StrokeBox(ScaleBox(BoxOf(f), scale))], LandmarkOps(f.landmarks, scale));
      LandmarkOpsAreDots(f.landmarks, scale);
      assert Dots([StrokeBox(ScaleBox(BoxOf(f), scale))]) == [];
    }
  }

  // ---------------------------------------------------------------------------
  // The submit handler's decisions
  // ---------------------------------------------------------------------------

  /** The part of the chosen file the handler looks at. */
  datatype FileInfo = FileInfo(size: nat)

  /** 16 MiB: the largest file the handler sends. */
  const MaxFileBytes: nat := 16 * 1024 * 1024

  const NoFileMessage: string := "画像を選択してください"
  const FileTooLargeMessage: string := "ファイルサイズが大きすぎます（16MB以下にしてください）"
  const UploadFailedMessage: string := "アップロードに失敗しました"

  /** The checks made before any request: a file is chosen, and it is at most 16 MiB. */
  function ValidateFile(file: Option<FileInfo>): (r: Result<FileInfo, string>)
    ensures r.Ok? <==> file.Some? && file.value.size <= MaxFileBytes
    ensures r.Ok? ==> r.value == file.value
    ensures file.None? ==> r == Err(NoFileMessage)
    ensures file.Some? && file.value.size > MaxFileBytes ==> r == Err(FileTooLargeMessage)
  {
    match file
    case None => Err(NoFileMessage)
    case Some(f) => if f.size > MaxFileBytes then Err(FileTooLargeMessage) else Ok(f)
  }

  /** The parsed response body: the `error` field (absent as None) and `faces`. */
  datatype ResponseData = ResponseData(error: Option<string>, faces: seq<Face>)

  /** JavaScript truthiness of an optional string: present and not empty. */
  predicate Truthy(v: Option<string>)
  {
    v.Some? && v.value != ""
  }

  /** The checks on the response: a non-ok status fails with the server's
      message or the generic one, and an ok status carrying an error fails too. */
  function ResponseOutcome(ok: bool, data: ResponseData): (r: Result<seq<Face>, string>)
    ensures r.Ok? <==> ok && !Truthy(data.error)
    ensures r.Ok? ==> r.value == data.faces
    ensures Truthy(data.error) ==> r == Err(data.error.value)
    ensures !ok && !Truthy(data.error) ==> r == Err(UploadFailedMessage)
  {
    if !ok then Err(if Truthy(data.error) then data.error.value else UploadFailedMessage)
    else if Truthy(data.error) then Err(data.error.value)
    else Ok(data.faces)
  }

  /** How the request settles: `fetch` rejects, the body is not JSON, or a
      response with its status and parsed body arrives. */
  datatype Reply =
    | NetworkFailure(message: string)
    | UnreadableBody(message: string)
    | Received(ok: bool, data: ResponseData)

  function Settle(reply: Reply): Result<seq<Face>, string>
  {
    match reply
    case NetworkFailure(m) => Err(m)
    case UnreadableBody(m) => Err(m)
    case Received(ok, data) => ResponseOutcome(ok, data)
  }

  /** What one submission ends in: the faces to draw, or the message shown. */
  function SubmitOutcome(file: Option<FileInfo>, reply: Reply): Result<seq<Face>, string>
  {
    match ValidateFile(file)
    case Err(m) => Err(m)
    case Ok(_) => Settle(reply)
  }

  /** The visible steps of a submission, in order. */
  datatype Step =
    | ShowError(message: string)
    | LoadingOn
    | LoadingOff
    | HideError
    | HideResult
    | Preview(file: FileInfo)
    | Upload(file: FileInfo)
    | ScheduleDraw(faces: seq<Face>)

  /** The steps the handler takes for a file and the way its request settles. */
  function SubmitSteps(file: Option<FileInfo>, reply: Reply): seq<Step>
  {
    match ValidateFile(file)
    case Err(m) => [ShowError(m)]
    case Ok(f) => [LoadingOn] + RequestSteps(f, reply) + [LoadingOff]
  }

  /** The steps while loading is on: hide the error and the result, preview,
      send, then either schedule the drawing or show the failure. */
  function RequestSteps(f: FileInfo, reply: Reply): seq<Step>
  {
    [HideError, HideResult, Preview(f), Upload(f)]
    + (match Settle(reply) case Ok(faces) => [ScheduleDraw(faces)] case Err(m) => [ShowError(m)])
  }

  /** A file that fails a check is reported and nothing else happens: no
      loading indicator and no request. */
  lemma RejectedFileSendsNothing(file: Option<FileInfo>, reply: Reply)
    requires ValidateFile(file).Err?
    ensures SubmitSteps(file, reply) == [ShowError(ValidateFile(file).error)]
    ensures forall k :: 0 <= k < |SubmitSteps(file, reply)| ==>
      !SubmitSteps(file, reply)[k].Upload? && SubmitSteps(file, reply)[k] != LoadingOn
  {
  }

  /** Loading goes on first, only once both checks passed, and goes off last
      whatever the reply; the request is sent once, while loading is on. */
  lemma LoadingBracketsTheRequest(file: Option<FileInfo>, reply: Reply)
    requires ValidateFile(file).Ok?
    ensures var t := SubmitSteps(file, reply);
      && |t| == 7
      && t[0] == LoadingOn
      && t[|t| - 1] == LoadingOff
      && t[4] == Upload(file.value)
      && forall k :: 0 < k < |t| - 1 ==> t[k] != LoadingOn && t[k] != LoadingOff && (k != 4 ==> !t[k].Upload?)
  {
  }

  /** A message is shown exactly when the submission fails, and it is the
      failure's message; otherwise the faces are handed to the drawing. */
  lemma SubmitShowsOutcome(file: Option<FileInfo>, reply: Reply)
    ensures var t := SubmitSteps(file, reply);
      match SubmitOutcome(file, reply)
      case Err(m) => ShowError(m) in t && forall k :: 0 <= k < |t| ==> !t[k].ScheduleDraw?
      case Ok(faces) => ScheduleDraw(faces) in t && forall k :: 0 <= k < |t| ==> !t[k].ShowError?
  {
    var t := SubmitSteps(file, reply);
    match ValidateFile(file)
    case Err(m) =>
      assert t == [ShowError(m)];
    case Ok(f) =>
      match Settle(reply)
      case Ok(faces) =>
        assert t == [LoadingOn, HideError, HideResult, Preview(f), Upload(f), ScheduleDraw(faces), LoadingOff];
      case Err(m) =>
        assert t == [LoadingOn, HideError, HideResult, Preview(f), Upload(f), ShowError(m), LoadingOff];
  }

  /** The size limit is inclusive: a file of exactly 16 MiB is sent, one byte more is not. */
  lemma SizeLimitIsInclusive(reply: Reply)
    ensures Upload(FileInfo(MaxFileBytes)) in SubmitSteps(Some(FileInfo(MaxFileBytes)), reply)
    ensures SubmitSteps(Some(FileInfo(MaxFileBytes + 1)), reply) == [ShowError(FileTooLargeMessage)]
  {
    LoadingBracketsTheRequest(Some(FileInfo(MaxFileBytes)), reply);
  }

  // ---------------------------------------------------------------------------
  // The page state the handlers change
  // ---------------------------------------------------------------------------

  /** The parts of the page the handlers change: the loading indicator, the
      error box, the result panel, the canvas and the breakdown; `steps`
      records the submission steps in the order they happen. */
  class Page {
    var loading: bool
    var errorText: string
    var errorShown: bool
    var resultShown: bool
    var canvas: seq<DrawOp>
    var details: seq<FaceDetail>
    var steps: seq<Step>

    constructor ()
      ensures !loading && !errorShown && !resultShown
      ensures errorText == "" && canvas == [] && details == [] && steps == []
    {
      loading, errorText, errorShown, resultShown := false, "", false, false;
      canvas, details, steps := [], [], [];
    }

    /** `showError`: sets the message and shows the box. */
    method ShowErrorMessage(message: string)
      modifies this
      ensures errorText == message && errorShown
      ensures steps == old(steps) + [ShowError(message)]
      ensures loading == old(loading) && resultShown == old(resultShown)
      ensures canvas == old(canvas) && details == old(details)
    {
      errorText, errorShown := message, true;
      steps := steps + [ShowError(message)];
    }

    /** `toggleLoading`. */
    method ToggleLoading(show: bool)
      modifies this
      ensures loading == show
      ensures steps == old(steps) + [if show then LoadingOn else LoadingOff]
      ensures errorText == old(errorText) && errorShown == old(errorShown) && resultShown == old(resultShown)
      ensures canvas == old(canvas) && details == old(details)
    {
      loading := show;
      steps := steps + [if show then LoadingOn else LoadingOff];
    }

    /** The submit handler, for the chosen file and the way its request settles. */
    method Submit(file: Option<FileInfo>, reply: Reply)
      modifies this
      ensures steps == old(steps) + SubmitSteps(file, reply)
      ensures loading == (if ValidateFile(file).Ok? then false else old(loading))
      ensures resultShown == (if ValidateFile(file).Ok? then false else old(resultShown))
      ensures match SubmitOutcome(file, reply)
        case Err(m) => errorShown && errorText == m
        case Ok(_) => !errorShown && errorText == old(errorText)
      ensures canvas == old(canvas) && details == old(details)
    {
      if file.None? {
        ShowErrorMessage(NoFileMessage);
        return;
      }
      var f := file.value;
      if f.size > MaxFileBytes {
        ShowErrorMessage(FileTooLargeMessage);
        return;
      }
      ToggleLoading(true);
      Request(f, reply);
      ToggleLoading(false);
    }

    /** The `try` block and its `catch`, between the two loading toggles: the
        request settles as `Settle` says, and a thrown error is shown. */
    method Request(f: FileInfo, reply: Reply)
      modifies this
      ensures steps == old(steps) + RequestSteps(f, reply)
      ensures loading == old(loading) && !resultShown
      ensures match Settle(reply)
        case Err(m) => errorShown && errorText == m
        case Ok(_) => !errorShown && errorText == old(errorText)
      ensures canvas == old(canvas) && details == old(details)
    {
      errorShown := false;
      resultShown := false;
      steps := steps + [HideError, HideResult, Preview(f), Upload(f)];
      match Settle(reply) {
        case Ok(faces) =>
          steps := steps + [ScheduleDraw(faces)];
        case Err(m) =>
          ShowErrorMessage(m);
      }
    }

    /** `drawDetectionResults`: strokes each face's scaled box and a dot at each
        scaled landmark, then shows the breakdown. */
    method DrawDetectionResults(faces: seq<Face>, scale: real)
      modifies this
      ensures canvas == old(canvas) + DrawOps(faces, scale)
      ensures details == Details(faces) && resultShown
      ensures loading == old(loading) && errorText == old(errorText) && errorShown == old(errorShown)
      ensures steps == old(steps)
    {
      for i := 0 to |faces|
        invariant canvas == old(canvas) + DrawOps(faces[..i], scale)
        invariant loading == old(loading) && errorText == old(errorText) && errorShown == old(errorShown)
        invariant steps == old(steps) && details == old(details) && resultShown == old(resultShown)
      {
        assert faces[..i + 1][..i] == faces[..i];
        DrawFace(faces[i], scale);
      }
      assert faces[..|faces|] == faces;
      details := Details(faces);
      resultShown := true;
    }

    /** One face's callback: stroke its scaled box, then a dot at each scaled
        landmark. */
    method DrawFace(face: Face, scale: real)
      modifies this
      ensures canvas == old(canvas) + FaceOps(face, scale)
      ensures loading == old(loading) && errorText == old(errorText) && errorShown == old(errorShown)
      ensures steps == old(steps) && details == old(details) && resultShown == old(resultShown)
    {
      canvas := canvas + [StrokeBox(ScaleBox(BoxOf(face), scale))];
      assert LandmarkOps(face.landmarks[..0], scale) == [];
      for j := 0 to |face.landmarks|
        invariant canvas == old(canvas) + [StrokeBox(ScaleBox(BoxOf(face), scale))] + LandmarkOps(face.landmarks[..j], scale)
        invariant loading == old(loading) && errorText == old(errorText) && errorShown == old(errorShown)
        invariant steps == old(steps) && details == old(details) && resultShown == old(resultShown)
      {
        assert face.landmarks[..j + 1][..j] == face.landmarks[..j];
        canvas := canvas + [Dot(ScalePoint(face.landmarks[j], scale), DotRadius)];
      }
      assert face.landmarks[..|face.landmarks|] == face.landmarks;
    }
  }
}
