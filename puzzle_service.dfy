/**
 * PuzzleService (backend/app/services/puzzle_service.py): creating a puzzle
 * record, issuing the pre-signed upload URL for its image, reading, listing
 * and deleting records.
 *
 * Each operation is specified as a function of the backend's state before
 * it (`CreateOutcome`, `UploadOutcome`, ...), and the methods of class
 * `PuzzleService` are proved to produce exactly that state and result. The
 * lemmas after the outcome functions state what the service guarantees.
 */
module PuzzleService {
  import opened Wrappers
  import opened Text
  import opened Storage
  import Grid

  /** The piece counts create_puzzle accepts, in the order its error message lists them. */
  const ValidPieceCounts: seq<int> := [100, 300, 500, 1000, 2000]

  const CreatedMessage := "Puzzle created successfully. You can now upload an image."
  const UploadMessage := "Pre-signed URL generated successfully. Upload your image to this URL within 15 minutes."
  const DeletedMessage := "Puzzle deleted successfully"

  /** Lifetime of an upload URL, in seconds. */
  const UploadExpiry: nat := 900

  /** `map(str, ns)`. */
  function Decimals(ns: seq<int>): (ds: seq<string>)
    ensures |ds| == |ns|
    ensures forall i :: 0 <= i < |ns| ==> ds[i] == IntToString(ns[i])
  {
    seq(|ns|, i requires 0 <= i < |ns| => IntToString(ns[i]))
  }

  /** The ValueError text for a piece count outside the list. */
  function InvalidCountMessage(): string
  {
    "pieceCount must be one of: " + Join(Decimals(ValidPieceCounts), ", ")
  }

  lemma DecimalsText()
    ensures Decimals(ValidPieceCounts) == ["100", "300", "500", "1000", "2000"]
  {
    assert IntToString(100) == "100" && IntToString(300) == "300" && IntToString(500) == "500";
    assert IntToString(1000) == "1000" && IntToString(2000) == "2000";
  }

  lemma JoinedCounts()
    ensures Join(["100", "300", "500", "1000", "2000"], ", ") == "100, 300, 500, 1000, 2000"
  {
  }

  /** The message lists the five counts, comma-separated. */
  lemma InvalidCountMessageText()
    ensures InvalidCountMessage() == "pieceCount must be one of: " + "100, 300, 500, 1000, 2000"
  {
    DecimalsText();
    JoinedCounts();
  }

  /** The service accepts exactly the counts the image processor has a grid for. */
  lemma ValidCountsHaveGrids(n: int)
    ensures n in ValidPieceCounts <==> n in Grid.PieceGrids
  {
  }

  /** `not puzzle`: get_puzzle found nothing, or an empty record. */
  predicate Missing(g: Option<Item>)
  {
    g.None? || g.value == map[]
  }

  /**
   * generate_upload_url's extension: the text after the last '.', lower-cased,
   * or "jpg" when the file name has no '.'.
   */
  function UploadExtension(fileName: string): string
  {
    if '.' in fileName then Lower(LastPart(fileName, '.')) else "jpg"
  }

  /**
   * With a '.' in the name, the extension is the lower-cased text after the
   * last '.' of the name.
   */
  lemma UploadExtensionSpec(fileName: string)
    requires '.' in fileName
    ensures var ext := UploadExtension(fileName); var k := |fileName| - |ext| - 1;
      && 0 <= k < |fileName| && fileName[k] == '.'
      && '.' !in fileName[k + 1..]
      && ext == Lower(fileName[k + 1..])
  {
    LastPartIsSuffix(fileName, '.');
  }

  /** Conversely, the lower-cased text after the last '.' is the extension. */
  lemma UploadExtensionAfterLastDot(fileName: string, k: nat, ext: string)
    requires k < |fileName| && fileName[k] == '.' && '.' !in fileName[k + 1..]
    requires Lower(fileName[k + 1..]) == ext
    ensures UploadExtension(fileName) == ext
  {
    LastPartAfterLast(fileName, '.', k);
  }

  /** The Content-Type the upload URL is signed for: png for "png", JPEG for everything else. */
  function ContentTypeFor(ext: string): (ct: string)
    ensures ct == "image/jpeg" || ct == "image/png"
    ensures ct == "image/png" <==> ext == "png"
  {
    if ext == "jpg" || ext == "jpeg" then "image/jpeg"
    else if ext == "png" then "image/png"
    else "image/jpeg"
  }

  /** The object key the image is uploaded to. */
  function UploadKey(puzzleId: string, ext: string): string
  {
    "puzzles/" + puzzleId + "." + ext
  }

  /**
   * For ids without a '.', such as those `uuid4` hands out, an upload key
   * determines both the puzzle and the extension.
   */
  lemma UploadKeyInjective(a: string, x: string, b: string, y: string)
    requires '.' !in a && '.' !in b
    requires UploadKey(a, x) == UploadKey(b, y)
    ensures a == b && x == y
  {
    var k := UploadKey(a, x);
    // the first '.' after "puzzles/" ends the id
    assert forall i :: 8 <= i < 8 + |a| ==> k[i] == a[i - 8] && k[i] != '.';
    assert forall i :: 8 <= i < 8 + |b| ==> k[i] == b[i - 8] && k[i] != '.';
    assert k[8 + |a|] == '.' && k[8 + |b|] == '.';
    assert |a| == |b|;
    assert a == k[8..8 + |a|] && b == k[8..8 + |b|];
    assert x == k[9 + |a|..] && y == k[9 + |b|..];
  }

  /** The item create_puzzle puts. */
  function PendingItem(userId: string, puzzleId: string, puzzleName: string, pieceCount: int, now: string): Item
  {
    map["userId" := S(userId), "puzzleId" := S(puzzleId), "puzzleName" := S(puzzleName),
        "pieceCount" := N(pieceCount), "status" := S(Pending.Text()), "createdAt" := S(now), "updatedAt" := S(now)]
  }

  /** What create_puzzle returns. */
  datatype CreateSummary = CreateSummary(puzzleId: string, puzzleName: string, pieceCount: int, status: string, message: string)

  /**
   * create_puzzle as a function of the world: the count is checked before
   * anything happens; then an id is drawn, and put_item either raises
   * (the ClientError propagates, the id is spent) or stores a pending record.
   */
  function CreateOutcome(w: World, pieceCount: int, puzzleName: string, userId: string, now: string, f: Faults): (World, Result<CreateSummary, Error>)
  {
    if pieceCount !in ValidPieceCounts then (w, Err(ValueError(InvalidCountMessage())))
    else
      var id := Uuid(w.issued);
      var w1 := w.(issued := w.issued + 1);
      if PutPuzzleItem in f then (w1, Err(ClientError(f[PutPuzzleItem])))
      else
        (w1.(puzzles := w1.puzzles[PuzzleKey(userId, id) := PendingItem(userId, id, puzzleName, pieceCount, now)]),
         Ok(CreateSummary(id, puzzleName, pieceCount, Pending.Text(), CreatedMessage)))
  }

  /** get_puzzle: the stored item, or None when there is none or get_item raises. */
  function GetOutcome(w: World, userId: string, puzzleId: string, f: Faults): Option<Item>
  {
    var key := PuzzleKey(userId, puzzleId);
    if GetPuzzleItem in f || key !in w.puzzles then None else Some(w.puzzles[key])
  }

  /**
   * list_puzzles: the records whose partition key is the user, keyed by
   * their primary key; nothing when the query raises.
   */
  function ListOutcome(w: World, userId: string, f: Faults): map<PuzzleKey, Item>
  {
    if QueryPuzzles in f then map[]
    else map key | key in w.puzzles && key.userId == userId :: w.puzzles[key]
  }

  /** A pre-signed `put_object` URL, as the parameters it is signed for. */
  datatype PresignedUrl = PresignedUrl(bucket: string, key: string, contentType: string, expiresIn: nat)

  /** What generate_upload_url returns. */
  datatype UploadSummary = UploadSummary(puzzleId: string, uploadUrl: PresignedUrl, expiresIn: nat, message: string)

  /** The SET list of generate_upload_url's update_item. */
  function UploadSets(fileName: string, key: string, now: string): seq<(string, Attr)>
  {
    [("fileName", S(fileName)), ("s3Key", S(key)), ("status", S(Uploaded.Text())), ("updatedAt", S(now))]
  }

  /**
   * generate_upload_url as a function of the world: the record must exist;
   * a failure to sign or to update the record propagates and changes
   * nothing; otherwise the record takes the file name, the key and the
   * status 'uploaded', whatever status it had.
   */
  function UploadOutcome(w: World, bucket: string, puzzleId: string, fileName: string, userId: string, now: string, f: Faults): (World, Result<UploadSummary, Error>)
  {
    var found := GetOutcome(w, userId, puzzleId, f);
    if Missing(found) then (w, Err(ValueError("Puzzle not found: " + puzzleId)))
    else
      var ext := UploadExtension(fileName);
      var objectKey := UploadKey(puzzleId, ext);
      var key := PuzzleKey(userId, puzzleId);
      if PresignUpload in f then (w, Err(ClientError(f[PresignUpload])))
      else if UpdatePuzzleItem in f then (w, Err(ClientError(f[UpdatePuzzleItem])))
      else
        (w.(puzzles := w.puzzles[key := ApplySets(w.puzzles[key], UploadSets(fileName, objectKey, now))]),
         Ok(UploadSummary(puzzleId, PresignedUrl(bucket, objectKey, ContentTypeFor(ext), UploadExpiry), UploadExpiry, UploadMessage)))
  }

  /** The image key a record names, when its `s3Key` is a non-empty string. */
  function ImageKey(item: Item): Option<string>
  {
    if "s3Key" in item && item["s3Key"].S? && item["s3Key"].s != "" then Some(item["s3Key"].s) else None
  }

  /** What delete_puzzle returns. */
  datatype DeleteSummary = DeleteSummary(puzzleId: string, message: string)

  /**
   * delete_puzzle as a function of the world: the record must exist; its
   * image, if it names one, is deleted, and a failure to do so is ignored;
   * then the record is deleted, and a failure there propagates.
   */
  function DeleteOutcome(w: World, userId: string, puzzleId: string, f: Faults): (World, Result<DeleteSummary, Error>)
  {
    var found := GetOutcome(w, userId, puzzleId, f);
    if Missing(found) then (w, Err(ValueError("Puzzle not found: " + puzzleId)))
    else
      var image := ImageKey(found.value);
      var w1 := if image.Some? && DeleteImageObject !in f then w.(objects := w.objects - {image.value}) else w;
      if DeletePuzzleItem in f then (w1, Err(ClientError(f[DeletePuzzleItem])))
      else (w1.(puzzles := w1.puzzles - {PuzzleKey(userId, puzzleId)}), Ok(DeleteSummary(puzzleId, DeletedMessage)))
  }

  // ---------------------------------------------------------------- create

  /** A count outside the list is refused before any call, with the listing message. */
  lemma CreateRejectsInvalidCount(w: World, pieceCount: int, puzzleName: string, userId: string, now: string, f: Faults)
    requires pieceCount !in ValidPieceCounts
    ensures CreateOutcome(w, pieceCount, puzzleName, userId, now, f)
      == (w, Err(ValueError("pieceCount must be one of: " + "100, 300, 500, 1000, 2000")))
  {
    InvalidCountMessageText();
  }

  /**
   * create_puzzle succeeds exactly when the count is valid and put_item does
   * not raise; it then returns a fresh id and a 'pending' record with equal
   * creation and update times is readable under that id.
   */
  lemma CreateStoresPending(w: World, pieceCount: int, puzzleName: string, userId: string, now: string, f: Faults, g: Faults)
    requires GetPuzzleItem !in g
    ensures var (w', r) := CreateOutcome(w, pieceCount, puzzleName, userId, now, f);
      && (r.Ok? <==> pieceCount in ValidPieceCounts && PutPuzzleItem !in f)
      && (r.Ok? ==>
          && r.value.puzzleId == Uuid(w.issued)
          && r.value.status == "pending" && r.value.pieceCount == pieceCount && r.value.puzzleName == puzzleName
          && var got := GetOutcome(w', userId, r.value.puzzleId, g);
          && got.Some?
          && StatusOf(got.value) == Some(Pending)
          && "createdAt" in got.value && "updatedAt" in got.value
          && got.value["createdAt"] == got.value["updatedAt"] == S(now)
          && got.value["pieceCount"] == N(pieceCount)
          && got.value["puzzleName"] == S(puzzleName))
  {
    var (w', r) := CreateOutcome(w, pieceCount, puzzleName, userId, now, f);
    if r.Ok? {
      var item := PendingItem(userId, Uuid(w.issued), puzzleName, pieceCount, now);
      StatusOfText(item, Pending);
    }
  }

  /**
   * Once the count is valid an id is spent whether or not put_item raises;
   * only a successful put adds a record, and no other record changes.
   */
  lemma CreateTouchesOnlyItsRecord(w: World, pieceCount: int, puzzleName: string, userId: string, now: string, f: Faults)
    ensures var (w', r) := CreateOutcome(w, pieceCount, puzzleName, userId, now, f);
      && w'.objects == w.objects && w'.pieces == w.pieces
      && w'.issued == (if pieceCount in ValidPieceCounts then w.issued + 1 else w.issued)
      && (r.Err? ==> w'.puzzles == w.puzzles)
      && (r.Ok? ==> w'.puzzles.Keys == w.puzzles.Keys + {PuzzleKey(userId, r.value.puzzleId)})
      && forall key :: key in w.puzzles && key.puzzleId != Uuid(w.issued) ==> w'.puzzles[key] == w.puzzles[key]
  {
  }

  /** Two creates in a row hand out different ids. */
  lemma CreatesDistinctIds(w: World, n1: int, p1: string, u1: string, t1: string, f1: Faults,
                           n2: int, p2: string, u2: string, t2: string, f2: Faults)
    requires CreateOutcome(w, n1, p1, u1, t1, f1).1.Ok?
    requires CreateOutcome(CreateOutcome(w, n1, p1, u1, t1, f1).0, n2, p2, u2, t2, f2).1.Ok?
    ensures CreateOutcome(w, n1, p1, u1, t1, f1).1.value.puzzleId
      != CreateOutcome(CreateOutcome(w, n1, p1, u1, t1, f1).0, n2, p2, u2, t2, f2).1.value.puzzleId
  {
    UuidDistinct(w.issued, w.issued + 1);
  }

  // ------------------------------------------------------------ get / list

  /** list_puzzles holds exactly the records get_puzzle finds for the same user. */
  lemma ListAgreesWithGet(w: World, userId: string, puzzleId: string, f: Faults)
    requires QueryPuzzles !in f && GetPuzzleItem !in f
    ensures var listed, got := ListOutcome(w, userId, f), GetOutcome(w, userId, puzzleId, f);
      && (PuzzleKey(userId, puzzleId) in listed <==> got.Some?)
      && (got.Some? ==> listed[PuzzleKey(userId, puzzleId)] == got.value)
  {
  }

  /** list_puzzles returns only the user's own records, and nothing when the query raises. */
  lemma ListOnlyOwn(w: World, userId: string, f: Faults)
    ensures forall key :: key in ListOutcome(w, userId, f) ==> key.userId == userId && key in w.puzzles
    ensures QueryPuzzles in f ==> ListOutcome(w, userId, f) == map[]
  {
  }

  /** A puzzle just created is in its owner's list. */
  lemma CreatedIsListed(w: World, pieceCount: int, puzzleName: string, userId: string, now: string, f: Faults, g: Faults)
    requires CreateOutcome(w, pieceCount, puzzleName, userId, now, f).1.Ok?
    requires QueryPuzzles !in g
    ensures var (w', r) := CreateOutcome(w, pieceCount, puzzleName, userId, now, f);
      PuzzleKey(userId, r.value.puzzleId) in ListOutcome(w', userId, g)
  {
  }

  // ---------------------------------------------------------------- upload

  /** Without a (non-empty) record, or when get_item raises, the upload is refused and nothing changes. */
  lemma UploadRejectsMissing(w: World, bucket: string, puzzleId: string, fileName: string, userId: string, now: string, f: Faults)
    requires GetPuzzleItem in f || PuzzleKey(userId, puzzleId) !in w.puzzles || w.puzzles[PuzzleKey(userId, puzzleId)] == map[]
    ensures UploadOutcome(w, bucket, puzzleId, fileName, userId, now, f) == (w, Err(ValueError("Puzzle not found: " + puzzleId)))
  {
  }

  /** A failure to sign the URL or to update the record propagates as that ClientError and changes nothing. */
  lemma UploadFaultChangesNothing(w: World, bucket: string, puzzleId: string, fileName: string, userId: string, now: string, f: Faults)
    requires !Missing(GetOutcome(w, userId, puzzleId, f))
    requires PresignUpload in f || UpdatePuzzleItem in f
    ensures UploadOutcome(w, bucket, puzzleId, fileName, userId, now, f)
      == (w, Err(ClientError(if PresignUpload in f then f[PresignUpload] else f[UpdatePuzzleItem])))
  {
  }

  /** The record as generate_upload_url leaves it, as plain assignments. */
  function UploadedItem(item: Item, fileName: string, key: string, now: string): Item
  {
    item["fileName" := S(fileName)]["s3Key" := S(key)]["status" := S(Uploaded.Text())]["updatedAt" := S(now)]
  }

  lemma UploadedItemApplies(item: Item, fileName: string, key: string, now: string)
    ensures ApplySets(item, UploadSets(fileName, key, now)) == UploadedItem(item, fileName, key, now)
  {
    var u3 := [("updatedAt", S(now))];
    var u2 := [("status", S(Uploaded.Text()))] + u3;
    var u1 := [("s3Key", S(key))] + u2;
    assert UploadSets(fileName, key, now) == [("fileName", S(fileName))] + u1;
    ApplySetsCons(item, "fileName", S(fileName), u1);
    var i1 := item["fileName" := S(fileName)];
    ApplySetsCons(i1, "s3Key", S(key), u2);
    var i2 := i1["s3Key" := S(key)];
    ApplySetsCons(i2, "status", S(Uploaded.Text()), u3);
    ApplySetsCons(i2["status" := S(Uploaded.Text())], "updatedAt", S(now), []);
  }

  /**
   * An upload succeeds exactly when the record exists and neither call
   * raises. The URL is signed for 900 seconds, for the key
   * "puzzles/<id>.<ext>" and a JPEG or PNG content type; the record then
   * holds the file name, that key, the status 'uploaded' and the time, and
   * keeps its other attributes. Nothing else changes.
   */
  lemma UploadSucceeds(w: World, bucket: string, puzzleId: string, fileName: string, userId: string, now: string, f: Faults)
    ensures var (w', r) := UploadOutcome(w, bucket, puzzleId, fileName, userId, now, f);
      var key, ext := PuzzleKey(userId, puzzleId), UploadExtension(fileName);
      && (r.Ok? <==> !Missing(GetOutcome(w, userId, puzzleId, f)) && PresignUpload !in f && UpdatePuzzleItem !in f)
      && (r.Ok? ==>
          && r.value.puzzleId == puzzleId
          && r.value.expiresIn == 900 && r.value.uploadUrl.expiresIn == 900
          && r.value.uploadUrl.bucket == bucket
          && r.value.uploadUrl.key == "puzzles/" + puzzleId + "." + ext
          && r.value.uploadUrl.contentType in {"image/jpeg", "image/png"}
          && w'.objects == w.objects && w'.pieces == w.pieces && w'.issued == w.issued
          && w'.puzzles.Keys == w.puzzles.Keys
          && (forall other :: other in w.puzzles && other != key ==> w'.puzzles[other] == w.puzzles[other])
          && var item := w'.puzzles[key];
          && StatusOf(item) == Some(Uploaded)
          && "fileName" in item && item["fileName"] == S(fileName)
          && "s3Key" in item && item["s3Key"] == S(r.value.uploadUrl.key)
          && "updatedAt" in item && item["updatedAt"] == S(now)
          && forall a :: a in w.puzzles[key] && a !in {"fileName", "s3Key", "status", "updatedAt"} ==> a in item && item[a] == w.puzzles[key][a])
  {
    var (w', r) := UploadOutcome(w, bucket, puzzleId, fileName, userId, now, f);
    if r.Ok? {
      var key := PuzzleKey(userId, puzzleId);
      var objectKey := UploadKey(puzzleId, UploadExtension(fileName));
      UploadedItemApplies(w.puzzles[key], fileName, objectKey, now);
      StatusOfText(UploadedItem(w.puzzles[key], fileName, objectKey, now), Uploaded);
    }
  }

  /**
   * generate_upload_url does not look at the status: a record in any state,
   * even 'completed' or 'failed', goes back to 'uploaded', a move outside
   * the intended lifecycle.
   */
  lemma UploadIgnoresLifecycle(w: World, bucket: string, puzzleId: string, fileName: string, userId: string, now: string, f: Faults, st: Status)
    requires PuzzleKey(userId, puzzleId) in w.puzzles && StatusOf(w.puzzles[PuzzleKey(userId, puzzleId)]) == Some(st)
    requires GetPuzzleItem !in f && PresignUpload !in f && UpdatePuzzleItem !in f
    requires st != Pending
    ensures var (w', r) := UploadOutcome(w, bucket, puzzleId, fileName, userId, now, f);
      && r.Ok?
      && StatusOf(w'.puzzles[PuzzleKey(userId, puzzleId)]) == Some(Uploaded)
      && !IntendedTransition(st, Uploaded)
  {
    UploadSucceeds(w, bucket, puzzleId, fileName, userId, now, f);
  }

  /** The default file name "puzzle.jpg" uploads as JPEG. */
  lemma DefaultNameIsJpeg()
    ensures UploadExtension("puzzle.jpg") == "jpg" && ContentTypeFor(UploadExtension("puzzle.jpg")) == "image/jpeg"
  {
    assert "puzzle.jpg"[7..] == "jpg" && Lower("jpg") == "jpg";
    UploadExtensionAfterLastDot("puzzle.jpg", 6, "jpg");
  }

  /** Only the last dot counts, and the extension is lower-cased before the lookup. */
  lemma UpperCasePngIsPng()
    ensures UploadExtension("Photo.Final.PNG") == "png" && ContentTypeFor(UploadExtension("Photo.Final.PNG")) == "image/png"
  {
    assert "Photo.Final.PNG"[12..] == "PNG" && Lower("PNG") == "png";
    UploadExtensionAfterLastDot("Photo.Final.PNG", 11, "png");
  }

  /** A name without a dot, and one with an extension outside the table, are signed as JPEG. */
  lemma OtherNamesAreJpeg()
    ensures UploadExtension("scan") == "jpg" && ContentTypeFor(UploadExtension("scan")) == "image/jpeg"
    ensures UploadExtension("anim.gif") == "gif" && ContentTypeFor(UploadExtension("anim.gif")) == "image/jpeg"
  {
    assert "anim.gif"[5..] == "gif" && Lower("gif") == "gif";
    UploadExtensionAfterLastDot("anim.gif", 4, "gif");
  }

  // ---------------------------------------------------------------- delete

  /** Without a (non-empty) record, or when get_item raises, the delete is refused and nothing changes. */
  lemma DeleteRejectsMissing(w: World, userId: string, puzzleId: string, f: Faults)
    requires Missing(GetOutcome(w, userId, puzzleId, f))
    ensures DeleteOutcome(w, userId, puzzleId, f) == (w, Err(ValueError("Puzzle not found: " + puzzleId)))
  {
  }

  /**
   * A delete succeeds exactly when the record exists and delete_item does
   * not raise, even if deleting the image does. The record is gone, the
   * image it names is gone unless deleting it raised, and no other record
   * or object changes; the puzzle's piece records and piece images stay.
   */
  lemma DeleteRemoves(w: World, userId: string, puzzleId: string, f: Faults, g: Faults)
    ensures var (w', r) := DeleteOutcome(w, userId, puzzleId, f);
      var key, found := PuzzleKey(userId, puzzleId), GetOutcome(w, userId, puzzleId, f);
      && (r.Ok? <==> !Missing(found) && DeletePuzzleItem !in f)
      && (r.Ok? ==>
          && r.value == DeleteSummary(puzzleId, "Puzzle deleted successfully")
          && w'.puzzles == w.puzzles - {key}
          && GetOutcome(w', userId, puzzleId, g).None?
          && w'.pieces == w.pieces && w'.issued == w.issued
          && var image := ImageKey(found.value);
          && w'.objects == (if image.Some? && DeleteImageObject !in f then w.objects - {image.value} else w.objects))
  {
  }

  /**
   * When delete_item raises, the error propagates and the record stays, but
   * the image may already be gone: the record then names a missing object.
   */
  lemma DeleteRecordFault(w: World, userId: string, puzzleId: string, f: Faults)
    requires !Missing(GetOutcome(w, userId, puzzleId, f)) && DeletePuzzleItem in f
    requires ImageKey(w.puzzles[PuzzleKey(userId, puzzleId)]).Some? && DeleteImageObject !in f
    ensures var (w', r) := DeleteOutcome(w, userId, puzzleId, f);
      var image := ImageKey(w.puzzles[PuzzleKey(userId, puzzleId)]).value;
      && r == Err(ClientError(f[DeletePuzzleItem]))
      && w'.puzzles == w.puzzles
      && PuzzleKey(userId, puzzleId) in w'.puzzles
      && image !in w'.objects
  {
  }

  /** Deleting a puzzle removes only the image its own record names. */
  lemma DeleteSparesOtherImages(w: World, userId: string, puzzleId: string, f: Faults, other: string)
    requires other in w.objects
    requires !Missing(GetOutcome(w, userId, puzzleId, f)) ==> ImageKey(w.puzzles[PuzzleKey(userId, puzzleId)]) != Some(other)
    ensures var w' := DeleteOutcome(w, userId, puzzleId, f).0;
      other in w'.objects && w'.objects[other] == w.objects[other]
  {
  }

  /** The service: the backend's bucket and puzzles table, and the bucket name URLs are signed for. */
  class PuzzleService {
    const backend: Backend
    const bucket: string

    constructor (backend: Backend, bucket: string)
      ensures this.backend == backend && this.bucket == bucket
    {
      this.backend := backend;
      this.bucket := bucket;
    }

    /** get_puzzle. */
    method GetPuzzle(userId: string, puzzleId: string, f: Faults) returns (item: Option<Item>)
      ensures item == GetOutcome(backend.Snapshot(), userId, puzzleId, f)
    {
      if GetPuzzleItem in f {
        return None;
      }
      var key := PuzzleKey(userId, puzzleId);
      if key in backend.puzzles {
        item := Some(backend.puzzles[key]);
      } else {
        item := None;
      }
    }

    /** list_puzzles. */
    method ListPuzzles(userId: string, f: Faults) returns (items: map<PuzzleKey, Item>)
      ensures items == ListOutcome(backend.Snapshot(), userId, f)
    {
      if QueryPuzzles in f {
        return map[];
      }
      items := map key | key in backend.puzzles && key.userId == userId :: backend.puzzles[key];
    }

    /** create_puzzle. */
    method CreatePuzzle(pieceCount: int, puzzleName: string, userId: string, now: string, f: Faults)
      returns (r: Result<CreateSummary, Error>)
      modifies backend`puzzles, backend`issued
      ensures (backend.Snapshot(), r) == CreateOutcome(old(backend.Snapshot()), pieceCount, puzzleName, userId, now, f)
    {
      var validPieceCounts := [100, 300, 500, 1000, 2000];
      if pieceCount !in validPieceCounts {
        return Err(ValueError("pieceCount must be one of: " + Join(Decimals(validPieceCounts), ", ")));
      }
      var puzzleId := backend.NewUuid();
      var item := map["userId" := S(userId), "puzzleId" := S(puzzleId), "puzzleName" := S(puzzleName),
        "pieceCount" := N(pieceCount), "status" := S("pending"), "createdAt" := S(now), "updatedAt" := S(now)];
      if PutPuzzleItem in f {
        return Err(ClientError(f[PutPuzzleItem]));
      }
      backend.puzzles := backend.puzzles[PuzzleKey(userId, puzzleId) := item];
      r := Ok(CreateSummary(puzzleId, puzzleName, pieceCount, "pending", CreatedMessage));
    }

    /** generate_upload_url. */
    method GenerateUploadUrl(puzzleId: string, fileName: string, userId: string, now: string, f: Faults)
      returns (r: Result<UploadSummary, Error>)
      modifies backend`puzzles
      ensures (backend.Snapshot(), r) == UploadOutcome(old(backend.Snapshot()), bucket, puzzleId, fileName, userId, now, f)
    {
      var puzzle := GetPuzzle(userId, puzzleId, f);
      if puzzle.None? || puzzle.value == map[] {
        return Err(ValueError("Puzzle not found: " + puzzleId));
      }
      var ext := if '.' in fileName then Lower(LastPart(fileName, '.')) else "jpg";
      var s3Key := "puzzles/" + puzzleId + "." + ext;
      var contentType := if ext == "jpg" || ext == "jpeg" then "image/jpeg" else if ext == "png" then "image/png" else "image/jpeg";
      if PresignUpload in f {
        return Err(ClientError(f[PresignUpload]));
      }
      var url := PresignedUrl(bucket, s3Key, contentType, 900);
      if UpdatePuzzleItem in f {
        return Err(ClientError(f[UpdatePuzzleItem]));
      }
      var key := PuzzleKey(userId, puzzleId);
      backend.puzzles := backend.puzzles[key := ApplySets(backend.puzzles[key], UploadSets(fileName, s3Key, now))];
      r := Ok(UploadSummary(puzzleId, url, 900, UploadMessage));
    }

    /** delete_puzzle. */
    method DeletePuzzle(userId: string, puzzleId: string, f: Faults) returns (r: Result<DeleteSummary, Error>)
      modifies backend`objects, backend`puzzles
      ensures (backend.Snapshot(), r) == DeleteOutcome(old(backend.Snapshot()), userId, puzzleId, f)
    {
      var puzzle := GetPuzzle(userId, puzzleId, f);
      if puzzle.None? || puzzle.value == map[] {
        return Err(ValueError("Puzzle not found: " + puzzleId));
      }
      var s3Key := ImageKey(puzzle.value);
      if s3Key.Some? {
        if DeleteImageObject !in f {
          backend.objects := backend.objects - {s3Key.value};
        }
      }
      if DeletePuzzleItem in f {
        return Err(ClientError(f[DeletePuzzleItem]));
      }
      backend.puzzles := backend.puzzles - {PuzzleKey(userId, puzzleId)};
      r := Ok(DeleteSummary(puzzleId, DeletedMessage));
    }
  }
}
