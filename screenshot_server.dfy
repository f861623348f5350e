/**
  The screenshot relay service: one in-memory "latest capture" slot, the
  `/save-screenshot` handler that fills it (and writes a file), and the
  `/latest-screenshot` handler that reads it.

  The filesystem and the clock are parameters: a save is given the value of
  `Date.now()` (used for the file name), the value of
  `new Date().toISOString()` (taken later, for the slot), and the outcome of
  the folder creation and of the file write. Files are recorded with the
  base64 text that is written; decoding it to bytes is not modelled.
 */
module ScreenshotServer {
  import opened Wrappers
  import opened Decimal
  import opened Strings

  /** The separator between a data-URL header and its base64 body. */
  const DataUrlMarker: string := "base64,"
  /** The error code that folder creation tolerates. */
  const AlreadyExists: string := "EEXIST"
  const FilenamePrefix: string := "screenshot_"
  const FilenameSuffix: string := ".png"

  /** An error raised by the filesystem: its `code` and `message`. */
  datatype FsError = FsError(code: string, message: string)

  /** What the outside world supplies to one save. */
  datatype Environment = Environment(
    nowMillis: nat,             // Date.now(), used for the file name
    isoNow: string,             // new Date().toISOString(), stored in the slot
    mkdir: Option<FsError>,     // what fs.mkdir(folder, {recursive: true}) threw, if anything
    write: Option<FsError>)     // what fs.writeFile threw, if anything

  /** The in-memory slot; every field starts out null. */
  datatype Slot = Slot(data: Option<string>, timestamp: Option<string>, filename: Option<string>)

  const EmptySlot: Slot := Slot(None, None, None)

  /** A file write performed by a save: the path and the base64 text decoded into it. */
  datatype FileWrite = FileWrite(path: string, base64Data: string)

  datatype SaveResponse =
    | BadRequest(error: string)
    | Saved(message: string, timestamp: string, filename: string, filePath: string)
    | PartiallySaved(message: string, error: string, timestamp: string)
  {
    function Status(): int {
      match this
      case BadRequest(_) => 400
      case Saved(_, _, _, _) => 200
      case PartiallySaved(_, _, _) => 207
    }

    /** The `success` field of the JSON body (the 400 body has none). */
    function Success(): Option<bool> {
      if BadRequest? then None else Some(true)
    }
  }

  datatype LatestResponse =
    | NotFound(error: string)
    | Latest(data: string, timestamp: Option<string>, filename: Option<string>, filePath: Option<string>)
  {
    function Status(): int {
      if NotFound? then 404 else 200
    }

    function Success(): bool {
      Latest?
    }
  }

  /** The result of one save: the new slot, the file written (if any) and the response. */
  datatype SaveOutcome = SaveOutcome(slot: Slot, written: Option<FileWrite>, response: SaveResponse)

  /** path.join(os.homedir(), 'Desktop', 'BugAppScreenshots'), with POSIX separators. */
  function ScreenshotsFolder(home: string): string {
    home + "/Desktop/BugAppScreenshots"
  }

  /** path.join of the folder and a file name that holds no separator. */
  function JoinPath(folder: string, name: string): string {
    folder + "/" + name
  }

  /** `screenshot_${timestamp}.png` */
  function FilenameFor(timestamp: nat): string {
    FilenamePrefix + DecimalString(timestamp) + FilenameSuffix
  }

  /** Reads the timestamp back out of a capture file name. */
  function TimestampOf(filename: string): Option<nat> {
    if |filename| >= |FilenamePrefix| + |FilenameSuffix|
       && filename[..|FilenamePrefix|] == FilenamePrefix
       && filename[|filename| - |FilenameSuffix|..] == FilenameSuffix
    then ParseNat(filename[|FilenamePrefix|..|filename| - |FilenameSuffix|])
    else None
  }

  lemma FilenameRoundTrip(timestamp: nat)
    ensures TimestampOf(FilenameFor(timestamp)) == Some(timestamp)
  {
    var d := DecimalString(timestamp);
    var f := FilenameFor(timestamp);
    assert f[..|FilenamePrefix|] == FilenamePrefix;
    assert f[|f| - |FilenameSuffix|..] == FilenameSuffix;
    assert f[|FilenamePrefix|..|f| - |FilenameSuffix|] == d;
    ParseDecimalString(timestamp);
  }

  /** Two saves at different milliseconds never share a file. */
  lemma FilenameInjective(a: nat, b: nat)
    ensures FilenameFor(a) == FilenameFor(b) <==> a == b
  {
    FilenameRoundTrip(a);
    FilenameRoundTrip(b);
  }

  /**
    `payload.includes('base64,') ? payload.split('base64,')[1] : payload`:
    after the first marker, up to the next marker or the end.
   */
  function StripDataUrlPrefix(payload: string): (data: string)
    ensures !Includes(payload, DataUrlMarker) ==> data == payload
    ensures Includes(payload, DataUrlMarker) ==>
      var after := payload[IndexOf(payload, DataUrlMarker).value + |DataUrlMarker|..];
      && data <= after
      && !Includes(data, DataUrlMarker)
      && (data == after || OccursAt(after, DataUrlMarker, |data|))
  {
    match IndexOf(payload, DataUrlMarker)
    case None => payload
    case Some(i) =>
      var after := payload[i + |DataUrlMarker|..];
      match IndexOf(after, DataUrlMarker)
      case None => after
      case Some(j) =>
        var data := after[..j];
        assert !Includes(data, DataUrlMarker) by {
          forall k: nat | k <= |data| ensures !OccursAt(data, DataUrlMarker, k) {
            if OccursAt(data, DataUrlMarker, k) {
              assert after[k..k + |DataUrlMarker|] == data[k..k + |DataUrlMarker|];
              assert OccursAt(after, DataUrlMarker, k);
            }
          }
          IncludesIff(data, DataUrlMarker);
        }
        data
  }

  /** ensureScreenshotsFolder: EEXIST counts as success, every other error is rethrown. */
  function EnsureFolder(mkdir: Option<FsError>): (thrown: Option<FsError>)
    ensures thrown.None? <==> mkdir.None? || mkdir.value.code == AlreadyExists
    ensures thrown.Some? ==> thrown == mkdir
  {
    match mkdir
    case None => None
    case Some(e) => if e.code != AlreadyExists then Some(e) else None
  }

  /** The `/save-screenshot` handler. */
  function Save(slot: Slot, folder: string, image: Option<string>, env: Environment): (out: SaveOutcome)
  {
    if image.None? || image.value == "" then
      SaveOutcome(slot, None, BadRequest("No image data provided"))
    else
      var base64Image := image.value;
      var filename := FilenameFor(env.nowMillis);
      var filePath := JoinPath(folder, filename);
      var base64Data := StripDataUrlPrefix(base64Image);
      var fileError := if EnsureFolder(env.mkdir).Some? then EnsureFolder(env.mkdir) else env.write;
      match fileError
      case None =>
        SaveOutcome(
          Slot(Some(base64Image), Some(env.isoNow), Some(filename)),
          Some(FileWrite(filePath, base64Data)),
          Saved("Screenshot saved successfully", env.isoNow, filename, filePath))
      case Some(e) =>
        SaveOutcome(
          Slot(Some(base64Image), Some(env.isoNow), None),
          None,
          PartiallySaved("Screenshot saved to memory but file save failed", e.message, env.isoNow))
  }

  /** The `/latest-screenshot` handler. */
  function GetLatest(slot: Slot, folder: string): (r: LatestResponse)
  {
    if slot.data.None? || slot.data.value == "" then
      NotFound("No screenshots found in memory")
    else
      Latest(slot.data.value, slot.timestamp, slot.filename,
             if slot.filename.Some? && slot.filename.value != "" then Some(JoinPath(folder, slot.filename.value)) else None)
  }

  /** A save is accepted when its payload is present and non-empty. */
  predicate Accepted(image: Option<string>) {
    image.Some? && image.value != ""
  }

  /** Valid states of the slot: empty, or the payload and time of an accepted save with a capture file name or null. */
  ghost predicate SlotValid(slot: Slot) {
    && (slot.data.None? ==> slot == EmptySlot)
    && (slot.data.Some? ==> slot.data.value != "" && slot.timestamp.Some?)
    && (slot.filename.Some? ==> exists t: nat :: slot.filename.value == FilenameFor(t))
  }

  /** Status rules of a save: 400 for a missing payload, otherwise 200 or 207, and which of the two. */
  lemma SaveStatus(slot: Slot, folder: string, image: Option<string>, env: Environment)
    ensures var r := Save(slot, folder, image, env).response;
      && r.Status() in {400, 200, 207}
      && (r.Status() == 400 <==> !Accepted(image))
      && (r.Status() == 200 <==> Accepted(image) && EnsureFolder(env.mkdir).None? && env.write.None?)
      && (r.Status() != 400 ==> r.Success() == Some(true))
  {
  }

  /** A rejected save leaves the slot and the disk untouched. */
  lemma RejectedSaveChangesNothing(slot: Slot, folder: string, image: Option<string>, env: Environment)
    requires !Accepted(image)
    ensures Save(slot, folder, image, env).slot == slot
    ensures Save(slot, folder, image, env).written.None?
  {
  }

  /**
    An accepted save replaces the whole slot with the unstripped payload and
    the ISO time, whatever the slot held before; the file name is recorded
    only when the folder and the write succeeded.
   */
  lemma AcceptedSaveOverwrites(slot: Slot, folder: string, image: Option<string>, env: Environment)
    requires Accepted(image)
    ensures var out := Save(slot, folder, image, env);
      out.slot == Slot(image, Some(env.isoNow),
                       if out.response.Saved? then Some(FilenameFor(env.nowMillis)) else None)
  {
  }

  /** On success exactly the stripped payload is written, at folder/screenshot_<ms>.png. */
  lemma SavedWritesStrippedData(slot: Slot, folder: string, image: Option<string>, env: Environment)
    requires Save(slot, folder, image, env).response.Saved?
    ensures var out := Save(slot, folder, image, env);
      && out.written == Some(FileWrite(JoinPath(folder, FilenameFor(env.nowMillis)), StripDataUrlPrefix(image.value)))
      && out.response.filePath == JoinPath(folder, FilenameFor(env.nowMillis))
  {
  }

  /** A 207 reports the message of the folder error when there is one, else that of the write error. */
  lemma PartialSaveReportsError(slot: Slot, folder: string, image: Option<string>, env: Environment)
    requires Save(slot, folder, image, env).response.PartiallySaved?
    ensures var r := Save(slot, folder, image, env).response;
      && (env.mkdir.Some? && env.mkdir.value.code != AlreadyExists ==> r.error == env.mkdir.value.message)
      && (EnsureFolder(env.mkdir).None? ==> env.write.Some? && r.error == env.write.value.message)
  {
  }

  /** Saving keeps the slot valid. */
  lemma SavePreservesValid(slot: Slot, folder: string, image: Option<string>, env: Environment)
    requires SlotValid(slot)
    ensures SlotValid(Save(slot, folder, image, env).slot)
  {
  }

  /** Before any save the latest-capture endpoint answers 404 with success false. */
  lemma EmptySlotNotFound(folder: string)
    ensures GetLatest(EmptySlot, folder).Status() == 404
    ensures !GetLatest(EmptySlot, folder).Success()
  {
  }

  /**
    What the latest-capture endpoint answers after an accepted save: the
    unstripped payload, and folder/filename after a 200 or a null path
    after a 207.
   */
  lemma SaveThenGetLatest(slot: Slot, folder: string, image: Option<string>, env: Environment)
    requires Accepted(image)
    ensures var out := Save(slot, folder, image, env);
      GetLatest(out.slot, folder) ==
        if out.response.Saved? then
          Latest(image.value, Some(env.isoNow), Some(FilenameFor(env.nowMillis)),
                 Some(JoinPath(folder, FilenameFor(env.nowMillis))))
        else
          Latest(image.value, Some(env.isoNow), None, None)
  {
  }

  /** A sequence of calls to the two endpoints, answered in order. */
  datatype Request = SaveRequest(image: Option<string>, env: Environment) | GetLatestRequest

  function Run(slot: Slot, folder: string, requests: seq<Request>): Slot
    decreases |requests|
  {
    if requests == [] then slot
    else
      var next := match requests[0]
        case SaveRequest(image, env) => Save(slot, folder, image, env).slot
        case GetLatestRequest => slot;
      Run(next, folder, requests[1..])
  }

  /** Once the slot holds a capture, no later sequence of calls makes the endpoint answer 404 again. */
  lemma {:induction false} NeverEmptyAgain(slot: Slot, folder: string, requests: seq<Request>)
    requires GetLatest(slot, folder).Latest?
    ensures GetLatest(Run(slot, folder, requests), folder).Latest?
    decreases |requests|
  {
    if requests != [] {
      var next := match requests[0]
        case SaveRequest(image, env) => Save(slot, folder, image, env).slot
        case GetLatestRequest => slot;
      NeverEmptyAgain(next, folder, requests[1..]);
    }
  }

  predicate HasAcceptedSave(requests: seq<Request>) {
    exists k :: 0 <= k < |requests| && requests[k].SaveRequest? && Accepted(requests[k].image)
  }

  /** Last writer wins: once a sequence holds an accepted save, the state before it no longer matters. */
  lemma {:induction false} LastAcceptedSaveDecides(a: Slot, b: Slot, folder: string, requests: seq<Request>)
    requires HasAcceptedSave(requests)
    ensures Run(a, folder, requests) == Run(b, folder, requests)
    decreases |requests|
  {
    var r := requests[0];
    var nextA := match r
      case SaveRequest(image, env) => Save(a, folder, image, env).slot
      case GetLatestRequest => a;
    var nextB := match r
      case SaveRequest(image, env) => Save(b, folder, image, env).slot
      case GetLatestRequest => b;
    if r.SaveRequest? && Accepted(r.image) {
      assert nextA == nextB;
    } else {
      var k :| 0 <= k < |requests| && requests[k].SaveRequest? && Accepted(requests[k].image);
      assert k != 0;
      assert requests[1..][k - 1] == requests[k];
      LastAcceptedSaveDecides(nextA, nextB, folder, requests[1..]);
    }
  }

  /** The slot after a run of calls ending in an accepted save holds that save's payload. */
  lemma RunEndingInSave(slot: Slot, folder: string, requests: seq<Request>, image: Option<string>, env: Environment)
    requires Accepted(image)
    ensures Run(slot, folder, requests + [SaveRequest(image, env)]).data == image
  {
    RunAppend(slot, folder, requests, SaveRequest(image, env));
  }

  lemma {:induction false} RunAppend(slot: Slot, folder: string, requests: seq<Request>, last: Request)
    ensures Run(slot, folder, requests + [last]) == Run(Run(slot, folder, requests), folder, [last])
    decreases |requests|
  {
    if requests != [] {
      var next := match requests[0]
        case SaveRequest(image, env) => Save(slot, folder, image, env).slot
        case GetLatestRequest => slot;
      assert (requests + [last])[1..] == requests[1..] + [last];
      RunAppend(next, folder, requests[1..], last);
    }
  }

  /**
    The relay process: the slot it reassigns and the files it has written
    (path to base64 text), under a folder fixed at start-up.
   */
  class Server {
    const folder: string
    var latest: Slot
    var disk: map<string, string>

    ghost predicate Valid()
      reads this
    {
      SlotValid(latest)
    }

    constructor (home: string)
      ensures folder == ScreenshotsFolder(home)
      ensures latest == EmptySlot && disk == map[]
      ensures Valid()
    {
      folder := ScreenshotsFolder(home);
      latest := EmptySlot;
      disk := map[];
    }

    method HandleSave(image: Option<string>, env: Environment) returns (response: SaveResponse)
      requires Valid()
      modifies this
      ensures Valid()
      ensures var out := Save(old(latest), folder, image, env);
        && latest == out.slot
        && response == out.response
        && disk == (if out.written.Some? then old(disk)[out.written.value.path := out.written.value.base64Data] else old(disk))
    {
      if image.None? || image.value == "" {
        response := BadRequest("No image data provided");
        return;
      }
      var base64Image := image.value;
      var filename := FilenameFor(env.nowMillis);
      var filePath := JoinPath(folder, filename);
      var base64Data := StripDataUrlPrefix(base64Image);

      var fileError := EnsureFolder(env.mkdir);
      if fileError.None? {
        fileError := env.write;
      }
      if fileError.None? {
        disk := disk[filePath := base64Data];
        latest := Slot(Some(base64Image), Some(env.isoNow), Some(filename));
        response := Saved("Screenshot saved successfully", env.isoNow, filename, filePath);
      } else {
        latest := Slot(Some(base64Image), Some(env.isoNow), None);
        response := PartiallySaved("Screenshot saved to memory but file save failed", fileError.value.message, env.isoNow);
      }
    }

    method HandleGetLatest() returns (response: LatestResponse)
      ensures response == GetLatest(latest, folder)
      ensures response.Latest? <==> latest.data.Some? && latest.data.value != ""
    {
      if latest.data.None? || latest.data.value == "" {
        return NotFound("No screenshots found in memory");
      }
      var filePath := None;
      if latest.filename.Some? && latest.filename.value != "" {
        filePath := Some(JoinPath(folder, latest.filename.value));
      }
      response := Latest(latest.data.value, latest.timestamp, latest.filename, filePath);
    }
  }
}
