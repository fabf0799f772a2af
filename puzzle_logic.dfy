/**
 * The older PuzzleService (backend/puzzle_logic.py), still the one the
 * FastAPI app imports. It creates, reads and lists puzzle records exactly as
 * PuzzleService does, and differs in generate_upload_url: the extension
 * keeps its case, the content type is "image/<ext>", and the URL lives for
 * an hour. It also means to wrap each ClientError it catches in a new one
 * whose message names the failed step; as written, building that new error
 * raises an AttributeError instead. The class follows the code as written;
 * the outcome functions take either reading (`Wrapping`).
 */
module PuzzleLogic {
  import opened Wrappers
  import opened Text
  import opened Storage
  import opened PuzzleService

  /** Lifetime of a legacy upload URL, in seconds. */
  const LegacyUploadExpiry: nat := 3600

  const LegacyUploadMessage := "Pre-signed URL generated successfully. Upload your image to this URL."

  /** The legacy extension: the text after the last '.', case kept, or "jpg" without a '.'. */
  function LegacyExtension(fileName: string): string
  {
    if '.' in fileName then LastPart(fileName, '.') else "jpg"
  }

  /** The legacy content type: the extension appended to "image/", whatever it is. */
  function LegacyContentType(ext: string): (ct: string)
    ensures |ct| == 6 + |ext| && ct[..6] == "image/" && ct[6..] == ext
  {
    "image/" + ext
  }

  /** The two services find the same extension up to case. */
  lemma LegacyExtensionLower(fileName: string)
    ensures Lower(LegacyExtension(fileName)) == UploadExtension(fileName)
  {
    assert Lower("jpg") == "jpg";
  }

  /** The text after the last '.', as it stands, is the legacy extension. */
  lemma LegacyExtensionAfterLastDot(fileName: string, k: nat, ext: string)
    requires k < |fileName| && fileName[k] == '.' && '.' !in fileName[k + 1..]
    requires fileName[k + 1..] == ext
    ensures LegacyExtension(fileName) == ext
  {
    LastPartAfterLast(fileName, '.', k);
  }

  /** "photo.JPG": the legacy service keeps "JPG", so it signs for "image/" + "JPG". */
  lemma UpperCaseJpgLegacy()
    ensures LegacyExtension("photo.JPG") == "JPG"
  {
    assert "photo.JPG"[6..] == "JPG";
    LegacyExtensionAfterLastDot("photo.JPG", 5, "JPG");
  }

  /** "photo.JPG": PuzzleService lower-cases it to "jpg" and signs for "image/jpeg". */
  lemma UpperCaseJpgService()
    ensures UploadExtension("photo.JPG") == "jpg" && ContentTypeFor(UploadExtension("photo.JPG")) == "image/jpeg"
  {
    assert "photo.JPG"[6..] == "JPG" && Lower("JPG") == "jpg";
    UploadExtensionAfterLastDot("photo.JPG", 5, "jpg");
  }

  /** Extensions that differ, even only in case, give different upload keys. */
  lemma UploadKeysApart(puzzleId: string, a: string, b: string)
    requires a != b
    ensures UploadKey(puzzleId, a) != UploadKey(puzzleId, b)
  {
    var n := |puzzleId| + 9;
    assert UploadKey(puzzleId, a)[n..] == a;
    assert UploadKey(puzzleId, b)[n..] == b;
  }

  /** Without a '.', the legacy service signs for "image/jpg", not the registered "image/jpeg". */
  lemma NoDotIsImageJpg(fileName: string)
    requires '.' !in fileName
    ensures LegacyContentType(LegacyExtension(fileName)) == "image/jpg"
    ensures ContentTypeFor(UploadExtension(fileName)) == "image/jpeg"
  {
  }

  /**
   * `raise ClientError(f"{context}: {str(e)}", operation_name=...)` as
   * written. botocore's ClientError takes the error response dictionary as
   * its first argument and calls `.get` on it; given a string it raises an
   * AttributeError instead, so what escapes is that AttributeError.
   */
  function RaisedAsWritten(context: string, e: Error): Error
  {
    AttributeError(StrHasNoGet)
  }

  /** str(e) of the AttributeError botocore's ClientError raises when given a string. */
  const StrHasNoGet := "'str' object has no attribute 'get'"

  /**
   * As written, the wrapped error is not a ClientError, and it is the same
   * whatever failed: the step and the storage error are both lost.
   */
  lemma RaisedAsWrittenLosesCause(c1: string, e1: Error, c2: string, e2: Error)
    ensures !RaisedAsWritten(c1, e1).ClientError?
    ensures RaisedAsWritten(c1, e1) == RaisedAsWritten(c2, e2)
  {
  }

  /** What the wrapping evidently means: a ClientError whose text names the step, then the cause. */
  function Wrapped(context: string, e: Error): (r: Error)
    ensures r.ClientError?
    ensures |r.message| == |context| + 2 + |e.message|
    ensures r.message[..|context|] == context && r.message[|context|..|context| + 2] == ": "
    ensures r.message[|context| + 2..] == e.message
  {
    ClientError(context + ": " + e.message)
  }

  /** The code as written never raises what it evidently means to: a failed put_item, say, is not reported as one. */
  lemma RaisedAsWrittenIsNotWrapped(context: string, e: Error)
    ensures RaisedAsWritten(context, e) != Wrapped(context, e)
  {
  }

  /** Wrapping keeps the cause: two wraps of the same step are equal exactly when the causes' texts are. */
  lemma WrappedKeepsCause(context: string, e1: Error, e2: Error)
    ensures Wrapped(context, e1) == Wrapped(context, e2) <==> e1.message == e2.message
  {
    var r1, r2 := Wrapped(context, e1), Wrapped(context, e2);
    if r1 == r2 {
      assert e1.message == r1.message[|context| + 2..];
    }
  }

  const SaveFailed := "Failed to save puzzle to DynamoDB"
  const PresignFailed := "Failed to generate pre-signed URL"
  const UpdateFailed := "Failed to update puzzle in DynamoDB"

  /**
   * The two readings of the legacy re-raise: the code as written, whose
   * re-raise itself fails, and the wrapped ClientError it evidently means.
   */
  datatype Wrapping = AsWritten | Intended

  /** What a legacy handler raises for a ClientError `e` caught during `context`. */
  function Reraise(wrapping: Wrapping, context: string, e: Error): Error
  {
    match wrapping
    case AsWritten => RaisedAsWritten(context, e)
    case Intended => Wrapped(context, e)
  }

  /**
   * The legacy create_puzzle: PuzzleService's, except for what a failed
   * put_item raises (`wrapping`).
   */
  function LegacyCreateOutcome(w: World, pieceCount: int, puzzleName: string, userId: string, now: string, f: Faults, wrapping: Wrapping): (World, Result<CreateSummary, Error>)
  {
    if pieceCount !in ValidPieceCounts then (w, Err(ValueError(InvalidCountMessage())))
    else
      var id := Uuid(w.issued);
      var w1 := w.(issued := w.issued + 1);
      if PutPuzzleItem in f then (w1, Err(Reraise(wrapping, SaveFailed, ClientError(f[PutPuzzleItem]))))
      else
        (w1.(puzzles := w1.puzzles[PuzzleKey(userId, id) := PendingItem(userId, id, puzzleName, pieceCount, now)]),
         Ok(CreateSummary(id, puzzleName, pieceCount, Pending.Text(), CreatedMessage)))
  }

  /**
   * The legacy create_puzzle leaves the backend as PuzzleService's does and
   * returns the same summary or ValueError. Where PuzzleService raises the
   * put_item ClientError, the code as written raises an AttributeError that
   * names neither the step nor the cause; the intended reading raises the
   * ClientError wrapped.
   */
  lemma LegacyCreateAgrees(w: World, pieceCount: int, puzzleName: string, userId: string, now: string, f: Faults, wrapping: Wrapping)
    ensures var (lw, lr) := LegacyCreateOutcome(w, pieceCount, puzzleName, userId, now, f, wrapping);
      var (sw, sr) := CreateOutcome(w, pieceCount, puzzleName, userId, now, f);
      && lw == sw
      && lr.Ok? == sr.Ok?
      && (sr.Ok? ==> lr == sr)
      && (sr.Err? && sr.error.ValueError? ==> lr == sr)
      && (sr.Err? && sr.error.ClientError? && wrapping == AsWritten ==> lr == Err(AttributeError(StrHasNoGet)))
      && (sr.Err? && sr.error.ClientError? && wrapping == Intended ==> lr == Err(Wrapped(SaveFailed, sr.error)))
  {
  }

  /** The legacy generate_upload_url as a function of the world, with the re-raise read as `wrapping`. */
  function LegacyUploadOutcome(w: World, bucket: string, puzzleId: string, fileName: string, userId: string, now: string, f: Faults, wrapping: Wrapping): (World, Result<UploadSummary, Error>)
  {
    var found := GetOutcome(w, userId, puzzleId, f);
    if Missing(found) then (w, Err(ValueError("Puzzle not found: " + puzzleId)))
    else
      var ext := LegacyExtension(fileName);
      var objectKey := UploadKey(puzzleId, ext);
      var key := PuzzleKey(userId, puzzleId);
      if PresignUpload in f then (w, Err(Reraise(wrapping, PresignFailed, ClientError(f[PresignUpload]))))
      else if UpdatePuzzleItem in f then (w, Err(Reraise(wrapping, UpdateFailed, ClientError(f[UpdatePuzzleItem]))))
      else
        (w.(puzzles := w.puzzles[key := ApplySets(w.puzzles[key], UploadSets(fileName, objectKey, now))]),
         Ok(UploadSummary(puzzleId, PresignedUrl(bucket, objectKey, LegacyContentType(ext), LegacyUploadExpiry), LegacyUploadExpiry, LegacyUploadMessage)))
  }

  /**
   * The legacy upload succeeds exactly when PuzzleService's does. Its URL
   * lives for 3600 seconds and is signed for "image/<ext>" with the
   * extension as written; the record takes the same attributes, and when
   * the extension is already lower case the two services leave the backend
   * in the same state. Where PuzzleService raises the presign or update_item
   * ClientError, the code as written raises an AttributeError; the intended
   * reading wraps the ClientError with the failed step.
   */
  lemma LegacyUploadAgrees(w: World, bucket: string, puzzleId: string, fileName: string, userId: string, now: string, f: Faults, wrapping: Wrapping)
    ensures var (lw, lr) := LegacyUploadOutcome(w, bucket, puzzleId, fileName, userId, now, f, wrapping);
      var (sw, sr) := UploadOutcome(w, bucket, puzzleId, fileName, userId, now, f);
      var ext := LegacyExtension(fileName);
      && lr.Ok? == sr.Ok?
      && (sr.Err? && sr.error.ValueError? ==> lr == sr && lw == w)
      && (sr.Err? && sr.error.ClientError? ==> lw == w)
      && (sr.Err? && sr.error.ClientError? && wrapping == AsWritten ==> lr == Err(AttributeError(StrHasNoGet)))
      && (sr.Err? && sr.error.ClientError? && wrapping == Intended ==>
            lr == Err(Wrapped(if PresignUpload in f then PresignFailed else UpdateFailed, sr.error)))
      && (lr.Ok? ==>
          && lr.value.expiresIn == 3600 && lr.value.uploadUrl.expiresIn == 3600
          && lr.value.uploadUrl.key == UploadKey(puzzleId, ext)
          && lr.value.uploadUrl.contentType == "image/" + ext
          && lw.puzzles.Keys == sw.puzzles.Keys
          && lw.objects == sw.objects && lw.pieces == sw.pieces && lw.issued == sw.issued)
      && (Lower(ext) == ext ==> lw == sw)
  {
    LegacyExtensionLower(fileName);
  }

  /**
   * On success the legacy upload sets the same four attributes, whatever
   * the record's status was, and with the key the URL was signed for.
   */
  lemma LegacyUploadRecord(w: World, bucket: string, puzzleId: string, fileName: string, userId: string, now: string, f: Faults, wrapping: Wrapping)
    requires LegacyUploadOutcome(w, bucket, puzzleId, fileName, userId, now, f, wrapping).1.Ok?
    ensures var (w', r) := LegacyUploadOutcome(w, bucket, puzzleId, fileName, userId, now, f, wrapping);
      var key := PuzzleKey(userId, puzzleId);
      && key in w'.puzzles
      && StatusOf(w'.puzzles[key]) == Some(Uploaded)
      && "s3Key" in w'.puzzles[key] && w'.puzzles[key]["s3Key"] == S(r.value.uploadUrl.key)
      && "fileName" in w'.puzzles[key] && w'.puzzles[key]["fileName"] == S(fileName)
      && forall other :: other in w.puzzles && other != key ==> w'.puzzles[other] == w.puzzles[other]
  {
    var key := PuzzleKey(userId, puzzleId);
    var objectKey := UploadKey(puzzleId, LegacyExtension(fileName));
    UploadedItemApplies(w.puzzles[key], fileName, objectKey, now);
    StatusOfText(UploadedItem(w.puzzles[key], fileName, objectKey, now), Uploaded);
  }

  /** The legacy service, as the FastAPI app constructs it. */
  class LegacyPuzzleService {
    const backend: Backend
    const bucket: string
    const environment: string

    constructor (backend: Backend, bucket: string, environment: string)
      ensures this.backend == backend && this.bucket == bucket && this.environment == environment
    {
      this.backend := backend;
      this.bucket := bucket;
      this.environment := environment;
    }

    /** get_puzzle. */
    method GetPuzzle(userId: string, puzzleId: string, f: Faults) returns (item: Option<Item>)
      ensures item == GetOutcome(backend.Snapshot(), userId, puzzleId, f)
    {
      var key := PuzzleKey(userId, puzzleId);
      if GetPuzzleItem !in f && key in backend.puzzles {
        item := Some(backend.puzzles[key]);
      } else {
        item := None;
      }
    }

    /** list_puzzles. */
    method ListPuzzles(userId: string, f: Faults) returns (items: map<PuzzleKey, Item>)
      ensures items == ListOutcome(backend.Snapshot(), userId, f)
    {
      items := map[];
      if QueryPuzzles !in f {
        items := map key | key in backend.puzzles && key.userId == userId :: backend.puzzles[key];
      }
    }

    /** create_puzzle. */
    method CreatePuzzle(pieceCount: int, puzzleName: string, userId: string, now: string, f: Faults)
      returns (r: Result<CreateSummary, Error>)
      modifies backend`puzzles, backend`issued
      ensures (backend.Snapshot(), r) == LegacyCreateOutcome(old(backend.Snapshot()), pieceCount, puzzleName, userId, now, f, AsWritten)
    {
      var validPieceCounts := [100, 300, 500, 1000, 2000];
      if pieceCount !in validPieceCounts {
        return Err(ValueError("pieceCount must be one of: " + Join(Decimals(validPieceCounts), ", ")));
      }
      var puzzleId := backend.NewUuid();
      var item := PendingItem(userId, puzzleId, puzzleName, pieceCount, now);
      if PutPuzzleItem in f {
        return Err(RaisedAsWritten(SaveFailed, ClientError(f[PutPuzzleItem])));
      }
      backend.puzzles := backend.puzzles[PuzzleKey(userId, puzzleId) := item];
      r := Ok(CreateSummary(puzzleId, puzzleName, pieceCount, "pending", CreatedMessage));
    }

    /** generate_upload_url. */
    method GenerateUploadUrl(puzzleId: string, fileName: string, userId: string, now: string, f: Faults)
      returns (r: Result<UploadSummary, Error>)
      modifies backend`puzzles
      ensures (backend.Snapshot(), r) == LegacyUploadOutcome(old(backend.Snapshot()), bucket, puzzleId, fileName, userId, now, f, AsWritten)
    {
      var puzzle := GetPuzzle(userId, puzzleId, f);
      if puzzle.None? || puzzle.value == map[] {
        return Err(ValueError("Puzzle not found: " + puzzleId));
      }
      var ext := if '.' in fileName then LastPart(fileName, '.') else "jpg";
      var s3Key := "puzzles/" + puzzleId + "." + ext;
      if PresignUpload in f {
        return Err(RaisedAsWritten(PresignFailed, ClientError(f[PresignUpload])));
      }
      var url := PresignedUrl(bucket, s3Key, "image/" + ext, 3600);
      if UpdatePuzzleItem in f {
        return Err(RaisedAsWritten(UpdateFailed, ClientError(f[UpdatePuzzleItem])));
      }
      var key := PuzzleKey(userId, puzzleId);
      backend.puzzles := backend.puzzles[key := ApplySets(backend.puzzles[key], UploadSets(fileName, s3Key, now))];
      r := Ok(UploadSummary(puzzleId, url, 3600, LegacyUploadMessage));
    }
  }
}
