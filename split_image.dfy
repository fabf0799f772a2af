/**
 * What ImageProcessor.split_image (backend/app/services/image_processor.py)
 * guarantees, stated over `SplitOutcome`, the function its imperative model
 * is proved to compute: when it succeeds, which pieces it stores and how it
 * marks the puzzle; when it fails, what error escapes, what the record says
 * and which pieces stay behind; and that it touches nothing else. Most
 * lemmas hold for any failures `f`, so they cover the code as written
 * (`AsWrittenFaults(f)`) as well as the aliased updates, and
 * `SplitAsWrittenNeverCompletes` states what the code as written does.
 */
module SplitImage {
  import opened Wrappers
  import opened Text
  import opened Storage
  import opened Grid
  import opened ImageProcessor

  /**
   * The pass split_image plans for the stored image: its grid and pixel
   * size, when the source object exists, decodes, and the count is supported.
   */
  function PlannedCut(w: World, puzzleId: string, userId: string, s3Key: string, pieceCount: int, now: string): (c: Option<Cut>)
    ensures c.Some? ==> c.value.rows * c.value.cols == pieceCount && c.value.rows > 0 && c.value.cols > 0
    ensures c.Some? ==> pieceCount in PieceGrids && SourceSize(w, s3Key) == Some((c.value.width, c.value.height))
    ensures c.Some? ==> c.value.userId == userId && c.value.puzzleId == puzzleId && c.value.source == s3Key && c.value.now == now
  {
    match SourceSize(w, s3Key)
    case None => None
    case Some((width, height)) =>
      match GridFor(pieceCount, width, height)
      case Err(_) => None
      case Ok((rows, cols)) =>
        GridPositive(pieceCount, width, height);
        Some(Cut(userId, puzzleId, s3Key, rows, cols, width, height, now))
  }

  /** No cell of the pass raises. */
  predicate NoCellFails(f: Faults, c: Cut)
  {
    forall r: nat, k: nat :: r < c.rows && k < c.cols ==> !CellFails(c, f, r, k)
  }

  /** No cell of the pass meets a raising call in the fault map. */
  predicate NoFaultedCell(f: Faults, c: Cut)
  {
    forall r: nat, k: nat :: r < c.rows && k < c.cols ==>
      EncodePiece(r, k) !in f && PutPieceObject(r, k) !in f && PutPieceItem(r, k) !in f
  }

  /**
   * No cell raises exactly when every piece has at least one pixel each way
   * and no call of the pass fails.
   */
  lemma NoCellFailsIff(f: Faults, c: Cut)
    requires c.rows > 0 && c.cols > 0
    ensures NoCellFails(f, c) <==> c.cols <= c.width && c.rows <= c.height && NoFaultedCell(f, c)
  {
    EmptyCropIff(c);
    if NoCellFails(f, c) {
      forall r: nat, k: nat | r < c.rows && k < c.cols
        ensures EncodePiece(r, k) !in f && PutPieceObject(r, k) !in f && PutPieceItem(r, k) !in f
      {
        assert !CellFails(c, f, r, k);
      }
      assert !CellFails(c, f, 0, 0);
    }
    if c.cols <= c.width && c.rows <= c.height && NoFaultedCell(f, c) {
      forall r: nat, k: nat | r < c.rows && k < c.cols
        ensures !CellFails(c, f, r, k)
      {
        assert !EmptyCrop(c, r, k);
      }
    }
  }

  /** The first failing cell is the end of the pass exactly when no cell raises. */
  lemma FirstFailureEnd(f: Faults, c: Cut)
    ensures FirstFailure(f, c, 0, 0).0 == c.rows <==> NoCellFails(f, c)
  {
    var p := FirstFailure(f, c, 0, 0);
    if p.0 == c.rows {
      forall r: nat, k: nat | r < c.rows && k < c.cols ensures !CellFails(c, f, r, k) {
        assert Before(r, k, p.0, p.1);
      }
    } else {
      assert p.1 < c.cols && CellFails(c, f, p.0, p.1);
    }
  }

  /** The status the puzzle's record holds after a run, if the record exists. */
  function StatusAfter(w: World, key: PuzzleKey): Option<Status>
  {
    if key in w.puzzles then StatusOf(w.puzzles[key]) else None
  }

  /**
   * split_image returns normally exactly when no call raises on the way:
   * the 'processing' update, the download, the cells and the 'completed'
   * update all go through, the source decodes, the count is supported and
   * the image has at least one pixel per piece each way, so that no crop
   * is empty. The 'failed' update is not reached then.
   */
  lemma SplitOkIff(w: World, puzzleId: string, userId: string, s3Key: string, pieceCount: int, now: string, f: Faults)
    ensures SplitOutcome(w, puzzleId, userId, s3Key, pieceCount, now, f).1.Ok? <==>
      && MarkProcessing !in f && FetchSource !in f && MarkCompleted !in f
      && PlannedCut(w, puzzleId, userId, s3Key, pieceCount, now).Some?
      && var c := PlannedCut(w, puzzleId, userId, s3Key, pieceCount, now).value;
         c.cols <= c.width && c.rows <= c.height && NoFaultedCell(f, c)
  {
    AttemptOkIff(w, puzzleId, userId, s3Key, pieceCount, now, f);
  }

  lemma AttemptOkIff(w: World, puzzleId: string, userId: string, s3Key: string, pieceCount: int, now: string, f: Faults)
    ensures AttemptOutcome(w, puzzleId, userId, s3Key, pieceCount, now, f).1.Ok? <==>
      && MarkProcessing !in f && FetchSource !in f && MarkCompleted !in f
      && PlannedCut(w, puzzleId, userId, s3Key, pieceCount, now).Some?
      && var c := PlannedCut(w, puzzleId, userId, s3Key, pieceCount, now).value;
         c.cols <= c.width && c.rows <= c.height && NoFaultedCell(f, c)
  {
    var key := PuzzleKey(userId, puzzleId);
    var w1 := StatusUpdate(w, key, Processing, [], now, FaultAt(f, MarkProcessing)).0;
    assert SourceSize(w1, s3Key) == SourceSize(w, s3Key);
    var c := PlannedCut(w, puzzleId, userId, s3Key, pieceCount, now);
    if c.Some? {
      FirstFailureEnd(f, c.value);
      NoCellFailsIff(f, c.value);
    }
  }

  /**
   * An image with fewer pixels than pieces never splits: some crop box is
   * empty. Unless Pillow or a write fails first, the run reports Pillow's
   * refusal to save the first, empty piece.
   */
  lemma TooFewPixelsFails(w: World, puzzleId: string, userId: string, s3Key: string, pieceCount: int, now: string, f: Faults, width: nat, height: nat)
    requires SourceSize(w, s3Key) == Some((width, height)) && pieceCount > width * height
    ensures SplitOutcome(w, puzzleId, userId, s3Key, pieceCount, now, f).1.Err?
    ensures MarkProcessing !in f && FetchSource !in f && MarkFailed !in f && pieceCount in PieceGrids ==>
      SplitOutcome(w, puzzleId, userId, s3Key, pieceCount, now, f).1 == Err(ValueError("Image processing failed: " + EmptyImageMessage))
  {
    SplitOkIff(w, puzzleId, userId, s3Key, pieceCount, now, f);
    var p := PlannedCut(w, puzzleId, userId, s3Key, pieceCount, now);
    if p.Some? {
      FirstCellEmpty(f, p.value);
      if MarkProcessing !in f && FetchSource !in f && MarkFailed !in f {
        SplitFailingCellError(w, puzzleId, userId, s3Key, pieceCount, now, f);
      }
    }
  }

  /** With fewer pixels than cells, the very first cell is the first to fail, on its empty crop. */
  lemma FirstCellEmpty(f: Faults, c: Cut)
    requires c.rows > 0 && c.cols > 0 && c.rows * c.cols > c.width * c.height
    ensures !(c.cols <= c.width && c.rows <= c.height) && !NoCellFails(f, c)
    ensures FirstFailure(f, c, 0, 0) == (0, 0) && EncodeFails(c, f, 0, 0) && EncodeError(c, f, 0, 0) == EmptyImageMessage
  {
    if c.cols <= c.width && c.rows <= c.height {
      MulMono(c.cols, c.rows, c.height);
      MulMono(c.height, c.cols, c.width);
      assert false;
    }
    EmptyCropIff(c);
    assert CellFails(c, f, 0, 0);
  }

  /** A stored 5 by 5 picture cannot be cut into 100 pieces. */
  lemma TinyImageFails(w: World, puzzleId: string, userId: string, s3Key: string, now: string, f: Faults)
    requires s3Key in w.objects && w.objects[s3Key].body == Picture(5, 5)
    ensures SplitOutcome(w, puzzleId, userId, s3Key, 100, now, f).1.Err?
  {
    TooFewPixelsFails(w, puzzleId, userId, s3Key, 100, now, f, 5, 5);
  }

  /** The world once the 'processing' update has gone through. */
  function Marked(w: World, key: PuzzleKey, now: string): (w1: World)
    ensures w1.objects == w.objects && w1.pieces == w.pieces && w1.issued == w.issued
  {
    StatusUpdate(w, key, Processing, [], now, None).0
  }

  /** A successful run: processing marked, every cell written, completed marked. */
  lemma SuccessShape(w: World, puzzleId: string, userId: string, s3Key: string, pieceCount: int, now: string, f: Faults)
    requires SplitOutcome(w, puzzleId, userId, s3Key, pieceCount, now, f).1.Ok?
    ensures PlannedCut(w, puzzleId, userId, s3Key, pieceCount, now).Some?
    ensures var c := PlannedCut(w, puzzleId, userId, s3Key, pieceCount, now).value;
      var key := PuzzleKey(userId, puzzleId);
      && SplitOutcome(w, puzzleId, userId, s3Key, pieceCount, now, f).1.value == SplitSummary(puzzleId, pieceCount, c.rows, c.cols, "completed")
      && SplitOutcome(w, puzzleId, userId, s3Key, pieceCount, now, f).0 ==
           StatusUpdate(CellsWritten(Marked(w, key, now), c, c.rows, 0), key, Completed, CompletedSets(c.rows, c.cols, pieceCount), now, None).0
  {
    AttemptOkIff(w, puzzleId, userId, s3Key, pieceCount, now, f);
    var c := PlannedCut(w, puzzleId, userId, s3Key, pieceCount, now).value;
    FirstFailureEnd(f, c);
  }

  /**
   * A successful run reports the requested count as rows x cols of the
   * planned grid, and its status is 'completed'.
   */
  lemma SplitSucceeds(w: World, puzzleId: string, userId: string, s3Key: string, pieceCount: int, now: string, f: Faults)
    requires SplitOutcome(w, puzzleId, userId, s3Key, pieceCount, now, f).1.Ok?
    ensures pieceCount in PieceGrids && PlannedCut(w, puzzleId, userId, s3Key, pieceCount, now).Some?
    ensures var c, r := PlannedCut(w, puzzleId, userId, s3Key, pieceCount, now).value, SplitOutcome(w, puzzleId, userId, s3Key, pieceCount, now, f).1.value;
      && r.puzzleId == puzzleId && r.status == "completed"
      && r.rows == c.rows && r.cols == c.cols
      && r.totalPieces == pieceCount == r.rows * r.cols
  {
    SuccessShape(w, puzzleId, userId, s3Key, pieceCount, now, f);
  }

  /**
   * A successful run draws one id per piece and adds exactly one record per
   * piece, under those ids: `pieceCount` new records, all earlier records kept.
   */
  lemma SplitSucceedsPieces(w: World, puzzleId: string, userId: string, s3Key: string, pieceCount: int, now: string, f: Faults)
    requires SplitOutcome(w, puzzleId, userId, s3Key, pieceCount, now, f).1.Ok?
    ensures pieceCount >= 0
    ensures var w' := SplitOutcome(w, puzzleId, userId, s3Key, pieceCount, now, f).0;
      && w'.issued == w.issued + pieceCount
      && Grown(w.pieces, Drawn(puzzleId, w.issued, pieceCount), w'.pieces)
      && |Drawn(puzzleId, w.issued, pieceCount)| == pieceCount
  {
    SuccessShape(w, puzzleId, userId, s3Key, pieceCount, now, f);
    var c := PlannedCut(w, puzzleId, userId, s3Key, pieceCount, now).value;
    var w1 := Marked(w, PuzzleKey(userId, puzzleId), now);
    CellsWrittenIssued(w1, c, c.rows, 0, pieceCount);
    CellsWrittenPieces(w1, c, c.rows, 0, pieceCount);
    DrawnSize(puzzleId, w.issued, pieceCount);
  }

  /** A successful run adds exactly one image object per piece, all earlier objects kept. */
  lemma SplitSucceedsObjects(w: World, puzzleId: string, userId: string, s3Key: string, pieceCount: int, now: string, f: Faults)
    requires SplitOutcome(w, puzzleId, userId, s3Key, pieceCount, now, f).1.Ok?
    ensures pieceCount >= 0
    ensures Grown(w.objects, DrawnObjects(puzzleId, w.issued, pieceCount), SplitOutcome(w, puzzleId, userId, s3Key, pieceCount, now, f).0.objects)
  {
    SuccessShape(w, puzzleId, userId, s3Key, pieceCount, now, f);
    var c := PlannedCut(w, puzzleId, userId, s3Key, pieceCount, now).value;
    CellsWrittenObjects(Marked(w, PuzzleKey(userId, puzzleId), now), c, c.rows, 0, pieceCount);
  }

  /**
   * After a successful run every cell of the grid has its record and its
   * image, the record naming the image's key, its cell and the crop size.
   */
  lemma SplitSucceedsCells(w: World, puzzleId: string, userId: string, s3Key: string, pieceCount: int, now: string, f: Faults)
    requires SplitOutcome(w, puzzleId, userId, s3Key, pieceCount, now, f).1.Ok?
    ensures PlannedCut(w, puzzleId, userId, s3Key, pieceCount, now).Some?
    ensures CellsStored(PlannedCut(w, puzzleId, userId, s3Key, pieceCount, now).value, w.issued,
      PlannedCut(w, puzzleId, userId, s3Key, pieceCount, now).value.rows, 0, SplitOutcome(w, puzzleId, userId, s3Key, pieceCount, now, f).0)
  {
    SuccessShape(w, puzzleId, userId, s3Key, pieceCount, now, f);
    var c := PlannedCut(w, puzzleId, userId, s3Key, pieceCount, now).value;
    var w2 := CellsWritten(Marked(w, PuzzleKey(userId, puzzleId), now), c, c.rows, 0);
    CellsWrittenStored(Marked(w, PuzzleKey(userId, puzzleId), now), c, c.rows, 0);
    CellsStoredSame(c, w.issued, c.rows, 0, w2, SplitOutcome(w, puzzleId, userId, s3Key, pieceCount, now, f).0);
  }

  /** The attribute names split_image sets with 'completed'. */
  lemma CompletedSetsNames(rows: nat, cols: nat, total: nat)
    ensures Names(CompletedSets(rows, cols, total)) == {"rows", "cols", "total_pieces"}
    ensures var e := CompletedSets(rows, cols, total); forall i, j :: 0 <= i < j < |e| ==> e[i].0 != e[j].0
  {
    var e := CompletedSets(rows, cols, total);
    assert e[0].0 == "rows" && e[1].0 == "cols" && e[2].0 == "total_pieces";
  }

  /** The record after a successful run: the 'processing' SET list, then the 'completed' one. */
  lemma SuccessRecordShape(w: World, puzzleId: string, userId: string, s3Key: string, pieceCount: int, now: string, f: Faults)
    requires SplitOutcome(w, puzzleId, userId, s3Key, pieceCount, now, f).1.Ok?
    ensures PlannedCut(w, puzzleId, userId, s3Key, pieceCount, now).Some?
    ensures var c, w', key := PlannedCut(w, puzzleId, userId, s3Key, pieceCount, now).value,
        SplitOutcome(w, puzzleId, userId, s3Key, pieceCount, now, f).0, PuzzleKey(userId, puzzleId);
      && key in w'.puzzles
      && w'.puzzles[key] == ApplySets(ApplySets(ItemOrKey(w.puzzles, key), StatusSets(Processing, now) + []),
           StatusSets(Completed, now) + CompletedSets(c.rows, c.cols, pieceCount))
  {
    SuccessShape(w, puzzleId, userId, s3Key, pieceCount, now, f);
    var c := PlannedCut(w, puzzleId, userId, s3Key, pieceCount, now).value;
    var key := PuzzleKey(userId, puzzleId);
    var w1 := Marked(w, key, now);
    CellsWrittenIssued(w1, c, c.rows, 0, pieceCount);
  }

  /** A status update sets the status, then the time, then the keyword arguments. */
  lemma StatusSetsClosed(item: Item, status: Status, now: string, extra: seq<(string, Attr)>)
    ensures ApplySets(item, StatusSets(status, now) + extra) == ApplySets(item["status" := S(status.Text())]["updatedAt" := S(now)], extra)
  {
    var u := [("updatedAt", S(now))] + extra;
    assert StatusSets(status, now) + extra == [("status", S(status.Text()))] + u;
    ApplySetsCons(item, "status", S(status.Text()), u);
    ApplySetsCons(item["status" := S(status.Text())], "updatedAt", S(now), extra);
  }

  /** The keyword arguments split_image passes with 'completed', applied in turn. */
  lemma CompletedSetsClosed(item: Item, rows: nat, cols: nat, total: nat)
    ensures ApplySets(item, CompletedSets(rows, cols, total)) == item["rows" := N(rows)]["cols" := N(cols)]["total_pieces" := N(total)]
  {
    var t := [("total_pieces", N(total))];
    var c := [("cols", N(cols))] + t;
    assert CompletedSets(rows, cols, total) == [("rows", N(rows))] + c;
    ApplySetsCons(item, "rows", N(rows), c);
    ApplySetsCons(item["rows" := N(rows)], "cols", N(cols), t);
    ApplySetsCons(item["rows" := N(rows)]["cols" := N(cols)], "total_pieces", N(total), []);
  }

  /** The record after the 'processing' then the 'completed' update, as plain assignments. */
  function CompletedItem(item: Item, now: string, rows: nat, cols: nat, total: nat): Item
  {
    item["status" := S("processing")]["updatedAt" := S(now)]
      ["status" := S("completed")]["updatedAt" := S(now)]["rows" := N(rows)]["cols" := N(cols)]["total_pieces" := N(total)]
  }

  lemma CompletedItemApplies(item: Item, now: string, rows: nat, cols: nat, total: nat)
    ensures ApplySets(ApplySets(item, StatusSets(Processing, now) + []), StatusSets(Completed, now) + CompletedSets(rows, cols, total))
      == CompletedItem(item, now, rows, cols, total)
  {
    StatusSetsClosed(item, Processing, now, []);
    var m1 := item["status" := S("processing")]["updatedAt" := S(now)];
    StatusSetsClosed(m1, Completed, now, CompletedSets(rows, cols, total));
    CompletedSetsClosed(m1["status" := S("completed")]["updatedAt" := S(now)], rows, cols, total);
  }

  /** What the 'processing' then 'completed' updates make of a record. */
  lemma CompletedRecord(item: Item, now: string, rows: nat, cols: nat, total: nat)
    ensures var r := CompletedItem(item, now, rows, cols, total);
      && StatusOf(r) == Some(Completed)
      && "rows" in r && "cols" in r && "total_pieces" in r && "updatedAt" in r
      && r["rows"] == N(rows) && r["cols"] == N(cols) && r["total_pieces"] == N(total) && r["updatedAt"] == S(now)
      && forall a :: a in item && a !in {"status", "updatedAt", "rows", "cols", "total_pieces"} ==> a in r && r[a] == item[a]
  {
    StatusOfText(CompletedItem(item, now, rows, cols, total), Completed);
  }

  /**
   * After a successful run the puzzle's record says 'completed' with the
   * grid and the piece count; its other attributes are those it had before.
   */
  lemma SplitSucceedsRecord(w: World, puzzleId: string, userId: string, s3Key: string, pieceCount: int, now: string, f: Faults)
    requires SplitOutcome(w, puzzleId, userId, s3Key, pieceCount, now, f).1.Ok?
    ensures PlannedCut(w, puzzleId, userId, s3Key, pieceCount, now).Some?
    ensures var c, w', key := PlannedCut(w, puzzleId, userId, s3Key, pieceCount, now).value,
        SplitOutcome(w, puzzleId, userId, s3Key, pieceCount, now, f).0, PuzzleKey(userId, puzzleId);
      && key in w'.puzzles
      && StatusAfter(w', key) == Some(Completed)
      && "rows" in w'.puzzles[key] && "cols" in w'.puzzles[key] && "total_pieces" in w'.puzzles[key] && "updatedAt" in w'.puzzles[key]
      && w'.puzzles[key]["rows"] == N(c.rows) && w'.puzzles[key]["cols"] == N(c.cols)
      && w'.puzzles[key]["total_pieces"] == N(pieceCount) && w'.puzzles[key]["updatedAt"] == S(now)
      && forall a :: a in ItemOrKey(w.puzzles, key) && a !in {"status", "updatedAt", "rows", "cols", "total_pieces"} ==>
           a in w'.puzzles[key] && w'.puzzles[key][a] == ItemOrKey(w.puzzles, key)[a]
  {
    SuccessRecordShape(w, puzzleId, userId, s3Key, pieceCount, now, f);
    var c := PlannedCut(w, puzzleId, userId, s3Key, pieceCount, now).value;
    CompletedItemApplies(ItemOrKey(w.puzzles, PuzzleKey(userId, puzzleId)), now, c.rows, c.cols, pieceCount);
    CompletedRecord(ItemOrKey(w.puzzles, PuzzleKey(userId, puzzleId)), now, c.rows, c.cols, pieceCount);
  }

  /** The record after the 'processing' update, as plain assignments. */
  lemma MarkedRecord(w: World, key: PuzzleKey, now: string)
    ensures key in Marked(w, key, now).puzzles
    ensures Marked(w, key, now).puzzles[key] == ItemOrKey(w.puzzles, key)["status" := S("processing")]["updatedAt" := S(now)]
    ensures StatusAfter(Marked(w, key, now), key) == Some(Processing)
  {
    StatusSetsClosed(ItemOrKey(w.puzzles, key), Processing, now, []);
    StatusOfText(ItemOrKey(w.puzzles, key)["status" := S("processing")]["updatedAt" := S(now)], Processing);
  }

  /**
   * When the 'processing' update raises, nothing else happens in the `try`:
   * no download, no piece; its ClientError is what the body raises.
   */
  lemma AttemptProcessingFails(w: World, puzzleId: string, userId: string, s3Key: string, pieceCount: int, now: string, f: Faults)
    requires MarkProcessing in f
    ensures AttemptOutcome(w, puzzleId, userId, s3Key, pieceCount, now, f) == (w, Err(ClientError(f[MarkProcessing])))
  {
  }

  /**
   * Once 'processing' is recorded, a failed download, a missing object, an
   * undecodable image or an unsupported count each end the body before any
   * piece is cut, with the world as the 'processing' update left it.
   */
  lemma AttemptSourceFails(w: World, puzzleId: string, userId: string, s3Key: string, pieceCount: int, now: string, f: Faults)
    requires MarkProcessing !in f
    requires FetchSource in f || PlannedCut(w, puzzleId, userId, s3Key, pieceCount, now).None?
    ensures var (w1, r) := AttemptOutcome(w, puzzleId, userId, s3Key, pieceCount, now, f);
      && w1 == Marked(w, PuzzleKey(userId, puzzleId), now)
      && r == Err(
        if FetchSource in f then ClientError(f[FetchSource])
        else if s3Key !in w.objects then ClientError(NoSuchKeyMessage)
        else if SourceSize(w, s3Key).None? then ImageError(UnreadableImageMessage)
        else ValueError("Unsupported piece count: " + IntToString(pieceCount)))
  {
    assert SourceSize(Marked(w, PuzzleKey(userId, puzzleId), now), s3Key) == SourceSize(w, s3Key);
    if FetchSource !in f && SourceSize(w, s3Key).Some? {
      var (width, height) := SourceSize(w, s3Key).value;
      GridExact(pieceCount, width, height);
    }
  }

  /**
   * Once the source has decoded and the grid is planned, the body writes the
   * cells up to the first failing one; a failing cell ends it with that
   * cell's error, otherwise the 'completed' update ends it.
   */
  lemma AttemptPass(w: World, puzzleId: string, userId: string, s3Key: string, pieceCount: int, now: string, f: Faults)
    requires MarkProcessing !in f && FetchSource !in f
    requires PlannedCut(w, puzzleId, userId, s3Key, pieceCount, now).Some?
    ensures var c, key := PlannedCut(w, puzzleId, userId, s3Key, pieceCount, now).value, PuzzleKey(userId, puzzleId);
      var (fr, fc) := FirstFailure(f, c, 0, 0);
      var w2 := CellsWritten(Marked(w, key, now), c, fr, fc);
      AttemptOutcome(w, puzzleId, userId, s3Key, pieceCount, now, f) ==
        if fr < c.rows then (CellFailure(w2, c, f, fr, fc).0, Err(CellFailure(w2, c, f, fr, fc).1))
        else if MarkCompleted in f then (w2, Err(ClientError(f[MarkCompleted])))
        else (StatusUpdate(w2, key, Completed, CompletedSets(c.rows, c.cols, pieceCount), now, None).0,
              Ok(SplitSummary(puzzleId, pieceCount, c.rows, c.cols, "completed")))
  {
    assert SourceSize(Marked(w, PuzzleKey(userId, puzzleId), now), s3Key) == SourceSize(w, s3Key);
  }

  /**
   * A failing `try` body leaves the puzzles table as the 'processing'
   * update left it, or untouched when that update itself raised.
   */
  lemma AttemptFailurePuzzles(w: World, puzzleId: string, userId: string, s3Key: string, pieceCount: int, now: string, f: Faults)
    requires AttemptOutcome(w, puzzleId, userId, s3Key, pieceCount, now, f).1.Err?
    ensures AttemptOutcome(w, puzzleId, userId, s3Key, pieceCount, now, f).0.puzzles ==
      (if MarkProcessing in f then w.puzzles else Marked(w, PuzzleKey(userId, puzzleId), now).puzzles)
  {
    var c := PlannedCut(w, puzzleId, userId, s3Key, pieceCount, now);
    if MarkProcessing in f {
      AttemptProcessingFails(w, puzzleId, userId, s3Key, pieceCount, now, f);
    } else if FetchSource in f || c.None? {
      AttemptSourceFails(w, puzzleId, userId, s3Key, pieceCount, now, f);
    } else {
      AttemptPass(w, puzzleId, userId, s3Key, pieceCount, now, f);
      var (fr, fc) := FirstFailure(f, c.value, 0, 0);
      MulMono(fr, 0, c.value.cols);
      CellsWrittenIssued(Marked(w, PuzzleKey(userId, puzzleId), now), c.value, fr, fc, fr * c.value.cols + fc);
    }
  }

  /** The record after the 'failed' update, as plain assignments. */
  function FailedItem(item: Item, now: string, message: string): Item
  {
    item["status" := S("failed")]["updatedAt" := S(now)]["error" := S(message)]
  }

  lemma FailedItemApplies(item: Item, now: string, message: string)
    ensures ApplySets(item, StatusSets(Failed, now) + [("error", S(message))]) == FailedItem(item, now, message)
  {
    StatusSetsClosed(item, Failed, now, [("error", S(message))]);
    ApplySetsCons(item["status" := S("failed")]["updatedAt" := S(now)], "error", S(message), []);
  }

  /** What the 'failed' update makes of a record. */
  lemma FailedRecord(item: Item, now: string, message: string)
    ensures var r := FailedItem(item, now, message);
      && StatusOf(r) == Some(Failed)
      && "error" in r && "updatedAt" in r && r["error"] == S(message) && r["updatedAt"] == S(now)
      && forall x :: x in item && x !in {"status", "updatedAt", "error"} ==> x in r && r[x] == item[x]
  {
    StatusOfText(FailedItem(item, now, message), Failed);
  }

  /**
   * A failed run: the `try` body raised; the 'failed' update either went
   * through, recording str(e), and the error is re-raised, or raised itself
   * and its ClientError escapes instead.
   */
  lemma FailureShape(w: World, puzzleId: string, userId: string, s3Key: string, pieceCount: int, now: string, f: Faults)
    requires SplitOutcome(w, puzzleId, userId, s3Key, pieceCount, now, f).1.Err?
    ensures var (w1, a) := AttemptOutcome(w, puzzleId, userId, s3Key, pieceCount, now, f);
      var key := PuzzleKey(userId, puzzleId);
      && a.Err?
      && SplitOutcome(w, puzzleId, userId, s3Key, pieceCount, now, f) ==
         if MarkFailed in f then (w1, Err(ClientError(f[MarkFailed])))
         else (w1.(puzzles := w1.puzzles[key := FailedItem(ItemOrKey(w1.puzzles, key), now, a.error.message)]), Err(Reraised(a.error)))
  {
    var (w1, a) := AttemptOutcome(w, puzzleId, userId, s3Key, pieceCount, now, f);
    FailedItemApplies(ItemOrKey(w1.puzzles, PuzzleKey(userId, puzzleId)), now, a.error.message);
  }

  /**
   * What escapes a failed run: the ClientError of the 'failed' update when
   * that raises; otherwise the body's own error, a ClientError as it is and
   * anything else as a ValueError whose message starts with
   * "Image processing failed: ". Nothing in the bucket, the pieces table or
   * the id generator is rolled back.
   */
  lemma SplitFailure(w: World, puzzleId: string, userId: string, s3Key: string, pieceCount: int, now: string, f: Faults)
    requires SplitOutcome(w, puzzleId, userId, s3Key, pieceCount, now, f).1.Err?
    ensures var (w1, a) := AttemptOutcome(w, puzzleId, userId, s3Key, pieceCount, now, f);
      var (w', r) := SplitOutcome(w, puzzleId, userId, s3Key, pieceCount, now, f);
      && a.Err?
      && w'.objects == w1.objects && w'.pieces == w1.pieces && w'.issued == w1.issued
      && (MarkFailed in f ==> r.error == ClientError(f[MarkFailed]))
      && (MarkFailed !in f ==> r.error == Reraised(a.error))
      && (r.error.ClientError? || (r.error.ValueError? && "Image processing failed: " <= r.error.message))
  {
    FailureShape(w, puzzleId, userId, s3Key, pieceCount, now, f);
  }

  /**
   * Unless the 'failed' update raises, a failed run leaves the record
   * 'failed' with str(e) under "error" and the time under "updatedAt", its
   * other attributes as the body left them; no other record changes.
   */
  lemma SplitFailureRecord(w: World, puzzleId: string, userId: string, s3Key: string, pieceCount: int, now: string, f: Faults)
    requires SplitOutcome(w, puzzleId, userId, s3Key, pieceCount, now, f).1.Err? && MarkFailed !in f
    ensures var (w1, a) := AttemptOutcome(w, puzzleId, userId, s3Key, pieceCount, now, f);
      var w', key := SplitOutcome(w, puzzleId, userId, s3Key, pieceCount, now, f).0, PuzzleKey(userId, puzzleId);
      && a.Err?
      && key in w'.puzzles
      && StatusAfter(w', key) == Some(Failed)
      && "error" in w'.puzzles[key] && "updatedAt" in w'.puzzles[key]
      && w'.puzzles[key]["error"] == S(a.error.message) && w'.puzzles[key]["updatedAt"] == S(now)
      && (forall x :: x in ItemOrKey(w1.puzzles, key) && x !in {"status", "updatedAt", "error"} ==>
            x in w'.puzzles[key] && w'.puzzles[key][x] == ItemOrKey(w1.puzzles, key)[x])
      && w'.puzzles.Keys == w1.puzzles.Keys + {key}
      && (forall other :: other in w1.puzzles && other != key ==> w'.puzzles[other] == w1.puzzles[other])
  {
    FailureShape(w, puzzleId, userId, s3Key, pieceCount, now, f);
    var (w1, a) := AttemptOutcome(w, puzzleId, userId, s3Key, pieceCount, now, f);
    FailedRecord(ItemOrKey(w1.puzzles, PuzzleKey(userId, puzzleId)), now, a.error.message);
  }

  /**
   * When the 'failed' update raises after 'processing' was recorded, the
   * record is left saying 'processing' although the run is over.
   */
  lemma SplitLeftProcessing(w: World, puzzleId: string, userId: string, s3Key: string, pieceCount: int, now: string, f: Faults)
    requires SplitOutcome(w, puzzleId, userId, s3Key, pieceCount, now, f).1.Err?
    requires MarkProcessing !in f && MarkFailed in f
    ensures StatusAfter(SplitOutcome(w, puzzleId, userId, s3Key, pieceCount, now, f).0, PuzzleKey(userId, puzzleId)) == Some(Processing)
  {
    FailureShape(w, puzzleId, userId, s3Key, pieceCount, now, f);
    AttemptFailurePuzzles(w, puzzleId, userId, s3Key, pieceCount, now, f);
    MarkedRecord(w, PuzzleKey(userId, puzzleId), now);
  }

  /**
   * A run that fails before the grid is cut (the 'processing' update or the
   * download raises, or the source is missing, undecodable or of an
   * unsupported count) stores no piece, no image and draws no id.
   */
  lemma SplitFailsBeforeCutting(w: World, puzzleId: string, userId: string, s3Key: string, pieceCount: int, now: string, f: Faults)
    requires MarkProcessing in f || FetchSource in f || PlannedCut(w, puzzleId, userId, s3Key, pieceCount, now).None?
    ensures var w' := SplitOutcome(w, puzzleId, userId, s3Key, pieceCount, now, f).0;
      && SplitOutcome(w, puzzleId, userId, s3Key, pieceCount, now, f).1.Err?
      && w'.objects == w.objects && w'.pieces == w.pieces && w'.issued == w.issued
  {
    if MarkProcessing in f {
      AttemptProcessingFails(w, puzzleId, userId, s3Key, pieceCount, now, f);
    } else {
      AttemptSourceFails(w, puzzleId, userId, s3Key, pieceCount, now, f);
    }
    FailureShape(w, puzzleId, userId, s3Key, pieceCount, now, f);
  }

  /**
   * A count outside the table fails the run with
   * "Image processing failed: Unsupported piece count: <n>", but only once
   * 'processing' is recorded and the source has been fetched and decoded.
   */
  lemma UnsupportedCountFails(w: World, puzzleId: string, userId: string, s3Key: string, pieceCount: int, now: string, f: Faults)
    requires MarkProcessing !in f && FetchSource !in f && MarkFailed !in f
    requires SourceSize(w, s3Key).Some? && pieceCount !in PieceGrids
    ensures SplitOutcome(w, puzzleId, userId, s3Key, pieceCount, now, f).1 ==
      Err(ValueError("Image processing failed: " + ("Unsupported piece count: " + IntToString(pieceCount))))
  {
    AttemptSourceFails(w, puzzleId, userId, s3Key, pieceCount, now, f);
    FailureShape(w, puzzleId, userId, s3Key, pieceCount, now, f);
  }

  /**
   * A missing source object fails the run with S3's NoSuchKey ClientError
   * whatever the count: the download comes before the count is checked.
   */
  lemma MissingSourceFails(w: World, puzzleId: string, userId: string, s3Key: string, pieceCount: int, now: string, f: Faults)
    requires MarkProcessing !in f && FetchSource !in f && MarkFailed !in f
    requires s3Key !in w.objects
    ensures SplitOutcome(w, puzzleId, userId, s3Key, pieceCount, now, f).1 == Err(ClientError(NoSuchKeyMessage))
  {
    AttemptSourceFails(w, puzzleId, userId, s3Key, pieceCount, now, f);
    FailureShape(w, puzzleId, userId, s3Key, pieceCount, now, f);
  }

  /** A source Pillow cannot decode fails the run with a ValueError, whatever the count. */
  lemma UnreadableSourceFails(w: World, puzzleId: string, userId: string, s3Key: string, pieceCount: int, now: string, f: Faults)
    requires MarkProcessing !in f && FetchSource !in f && MarkFailed !in f
    requires s3Key in w.objects && SourceSize(w, s3Key).None?
    ensures SplitOutcome(w, puzzleId, userId, s3Key, pieceCount, now, f).1 ==
      Err(ValueError("Image processing failed: " + UnreadableImageMessage))
  {
    AttemptSourceFails(w, puzzleId, userId, s3Key, pieceCount, now, f);
    FailureShape(w, puzzleId, userId, s3Key, pieceCount, now, f);
  }

  /**
   * A run that reaches a failing cell: the cells before it are written, the
   * failing cell's id is drawn, and its error goes through the handlers.
   */
  lemma FailingCellShape(w: World, puzzleId: string, userId: string, s3Key: string, pieceCount: int, now: string, f: Faults)
    requires MarkProcessing !in f && FetchSource !in f
    requires PlannedCut(w, puzzleId, userId, s3Key, pieceCount, now).Some?
    requires FirstFailure(f, PlannedCut(w, puzzleId, userId, s3Key, pieceCount, now).value, 0, 0).0 <
      PlannedCut(w, puzzleId, userId, s3Key, pieceCount, now).value.rows
    ensures var c := PlannedCut(w, puzzleId, userId, s3Key, pieceCount, now).value;
      var (fr, fc) := FirstFailure(f, c, 0, 0);
      var w2 := CellsWritten(Marked(w, PuzzleKey(userId, puzzleId), now), c, fr, fc);
      var (w', r) := SplitOutcome(w, puzzleId, userId, s3Key, pieceCount, now, f);
      && r.Err?
      && w'.pieces == w2.pieces && w'.issued == w2.issued + 1 && w'.objects == CellFailure(w2, c, f, fr, fc).0.objects
      && r.error == if MarkFailed in f then ClientError(f[MarkFailed]) else Reraised(CellFailure(w2, c, f, fr, fc).1)
  {
    AttemptPass(w, puzzleId, userId, s3Key, pieceCount, now, f);
    FailureShape(w, puzzleId, userId, s3Key, pieceCount, now, f);
  }

  /**
   * A failing cell stops the pass there: `n + 1` ids are drawn, where `n`
   * cells come before it in row-major order; exactly those `n` cells have
   * records added, and earlier records are kept (nothing is rolled back).
   */
  lemma SplitStopsAtFailingCell(w: World, puzzleId: string, userId: string, s3Key: string, pieceCount: int, now: string, f: Faults)
      returns (n: nat)
    requires MarkProcessing !in f && FetchSource !in f
    requires PlannedCut(w, puzzleId, userId, s3Key, pieceCount, now).Some?
    requires !NoCellFails(f, PlannedCut(w, puzzleId, userId, s3Key, pieceCount, now).value)
    ensures var c := PlannedCut(w, puzzleId, userId, s3Key, pieceCount, now).value;
      var (fr, fc) := FirstFailure(f, c, 0, 0);
      && fr < c.rows && fc < c.cols && CellFails(c, f, fr, fc)
      && n == fr * c.cols + fc
    ensures var c := PlannedCut(w, puzzleId, userId, s3Key, pieceCount, now).value;
      var (fr, fc) := FirstFailure(f, c, 0, 0);
      var w' := SplitOutcome(w, puzzleId, userId, s3Key, pieceCount, now, f).0;
      && SplitOutcome(w, puzzleId, userId, s3Key, pieceCount, now, f).1.Err?
      && w'.issued == w.issued + n + 1
      && Grown(w.pieces, Drawn(puzzleId, w.issued, n), w'.pieces)
      && Grown(w.objects, DrawnObjects(puzzleId, w.issued, if LeavesOrphan(c, f, fr, fc) then n + 1 else n), w'.objects)
  {
    var c := PlannedCut(w, puzzleId, userId, s3Key, pieceCount, now).value;
    FirstFailureEnd(f, c);
    FailingCellShape(w, puzzleId, userId, s3Key, pieceCount, now, f);
    var (fr, fc) := FirstFailure(f, c, 0, 0);
    MulMono(fr, 0, c.cols);
    var w1 := Marked(w, PuzzleKey(userId, puzzleId), now);
    var w2 := CellsWritten(w1, c, fr, fc);
    n := fr * c.cols + fc;
    PassFailureGrows(w1, c, f, fr, fc, n);
    CellFailureEffect(w2, c, f, fr, fc);
    var w3 := CellFailure(w2, c, f, fr, fc).0;
    var w' := SplitOutcome(w, puzzleId, userId, s3Key, pieceCount, now, f).0;
    assert c.puzzleId == puzzleId && w1.pieces == w.pieces && w1.objects == w.objects && w1.issued == w.issued;
    assert w'.pieces == w3.pieces && w'.objects == w3.objects;
  }

  /**
   * After a run stopped by a failing cell, every cell before it still has
   * its record and its image under the id drawn for it.
   */
  lemma SplitFailingCellKeepsEarlier(w: World, puzzleId: string, userId: string, s3Key: string, pieceCount: int, now: string, f: Faults)
    requires MarkProcessing !in f && FetchSource !in f
    requires PlannedCut(w, puzzleId, userId, s3Key, pieceCount, now).Some?
    requires !NoCellFails(f, PlannedCut(w, puzzleId, userId, s3Key, pieceCount, now).value)
    ensures var c := PlannedCut(w, puzzleId, userId, s3Key, pieceCount, now).value;
      var (fr, fc) := FirstFailure(f, c, 0, 0);
      CellsStored(c, w.issued, fr, fc, SplitOutcome(w, puzzleId, userId, s3Key, pieceCount, now, f).0)
  {
    var c := PlannedCut(w, puzzleId, userId, s3Key, pieceCount, now).value;
    FirstFailureEnd(f, c);
    FailingCellShape(w, puzzleId, userId, s3Key, pieceCount, now, f);
    var (fr, fc) := FirstFailure(f, c, 0, 0);
    MulMono(fr, 0, c.cols);
    var w1 := Marked(w, PuzzleKey(userId, puzzleId), now);
    var w2 := CellsWritten(w1, c, fr, fc);
    CellsWrittenIssued(w1, c, fr, fc, fr * c.cols + fc);
    CellsWrittenStored(w1, c, fr, fc);
    CellFailureStored(c, w.issued, f, fr, fc, w2);
    CellFailureEffect(w2, c, f, fr, fc);
    CellsStoredSame(c, w.issued, fr, fc, CellFailure(w2, c, f, fr, fc).0, SplitOutcome(w, puzzleId, userId, s3Key, pieceCount, now, f).0);
  }

  /**
   * The error a failing cell makes the run raise: a Pillow error while
   * encoding, an empty crop's included, is wrapped in a ValueError, a ClientError from
   * either write is re-raised as it is.
   */
  lemma SplitFailingCellError(w: World, puzzleId: string, userId: string, s3Key: string, pieceCount: int, now: string, f: Faults)
    requires MarkProcessing !in f && FetchSource !in f && MarkFailed !in f
    requires PlannedCut(w, puzzleId, userId, s3Key, pieceCount, now).Some?
    requires !NoCellFails(f, PlannedCut(w, puzzleId, userId, s3Key, pieceCount, now).value)
    ensures var c := PlannedCut(w, puzzleId, userId, s3Key, pieceCount, now).value;
      var (fr, fc) := FirstFailure(f, c, 0, 0);
      SplitOutcome(w, puzzleId, userId, s3Key, pieceCount, now, f).1 == Err(
        if EncodeFails(c, f, fr, fc) then ValueError("Image processing failed: " + EncodeError(c, f, fr, fc))
        else if PutPieceObject(fr, fc) in f then ClientError(f[PutPieceObject(fr, fc)])
        else ClientError(f[PutPieceItem(fr, fc)]))
  {
    FirstFailureEnd(f, PlannedCut(w, puzzleId, userId, s3Key, pieceCount, now).value);
    FailingCellShape(w, puzzleId, userId, s3Key, pieceCount, now, f);
  }

  /**
   * When every cell goes through but the 'completed' update raises, all the
   * pieces are stored and the record ends up 'failed' (unless that update
   * raises too): a failed puzzle can have its full set of pieces.
   */
  lemma SplitCompletedUpdateFails(w: World, puzzleId: string, userId: string, s3Key: string, pieceCount: int, now: string, f: Faults)
    requires MarkProcessing !in f && FetchSource !in f && MarkCompleted in f
    requires PlannedCut(w, puzzleId, userId, s3Key, pieceCount, now).Some?
    requires NoCellFails(f, PlannedCut(w, puzzleId, userId, s3Key, pieceCount, now).value)
    ensures pieceCount >= 0
    ensures var (w', r) := SplitOutcome(w, puzzleId, userId, s3Key, pieceCount, now, f);
      && r == Err(ClientError(if MarkFailed in f then f[MarkFailed] else f[MarkCompleted]))
      && w'.issued == w.issued + pieceCount
      && Grown(w.pieces, Drawn(puzzleId, w.issued, pieceCount), w'.pieces)
  {
    var c := PlannedCut(w, puzzleId, userId, s3Key, pieceCount, now).value;
    FirstFailureEnd(f, c);
    AttemptPass(w, puzzleId, userId, s3Key, pieceCount, now, f);
    FailureShape(w, puzzleId, userId, s3Key, pieceCount, now, f);
    var w1 := Marked(w, PuzzleKey(userId, puzzleId), now);
    CellsWrittenIssued(w1, c, c.rows, 0, pieceCount);
    CellsWrittenPieces(w1, c, c.rows, 0, pieceCount);
  }

  /**
   * Whatever happens, split_image changes no other puzzle's record and
   * deletes no record; the only record it can add is its own puzzle's.
   */
  lemma SplitKeepsOtherPuzzles(w: World, puzzleId: string, userId: string, s3Key: string, pieceCount: int, now: string, f: Faults)
    ensures var w', key := SplitOutcome(w, puzzleId, userId, s3Key, pieceCount, now, f).0, PuzzleKey(userId, puzzleId);
      && w.puzzles.Keys <= w'.puzzles.Keys <= w.puzzles.Keys + {key}
      && forall other :: other in w.puzzles && other != key ==> w'.puzzles[other] == w.puzzles[other]
  {
    var key := PuzzleKey(userId, puzzleId);
    if SplitOutcome(w, puzzleId, userId, s3Key, pieceCount, now, f).1.Ok? {
      SuccessShape(w, puzzleId, userId, s3Key, pieceCount, now, f);
      var c := PlannedCut(w, puzzleId, userId, s3Key, pieceCount, now).value;
      CellsWrittenIssued(Marked(w, key, now), c, c.rows, 0, pieceCount);
    } else {
      FailureShape(w, puzzleId, userId, s3Key, pieceCount, now, f);
      AttemptFailurePuzzles(w, puzzleId, userId, s3Key, pieceCount, now, f);
    }
  }

  /** DynamoDB's two rejections change no cell: a pass fails on the same cells with them as without. */
  lemma AsWrittenSameCells(f: Faults, c: Cut)
    ensures NoCellFails(AsWrittenFaults(f), c) <==> NoCellFails(f, c)
  {
    var g := AsWrittenFaults(f);
    assert forall r: nat, k: nat :: CellFails(c, g, r, k) <==> CellFails(c, f, r, k) by {
      forall r: nat, k: nat
        ensures CellFails(c, g, r, k) <==> CellFails(c, f, r, k)
      {
        assert FaultAt(g, EncodePiece(r, k)) == FaultAt(f, EncodePiece(r, k));
        assert FaultAt(g, PutPieceObject(r, k)) == FaultAt(f, PutPieceObject(r, k));
        assert FaultAt(g, PutPieceItem(r, k)) == FaultAt(f, PutPieceItem(r, k));
      }
    }
  }

  /**
   * split_image as written never completes. Whatever happens in the `try`,
   * the 'failed' update is rejected for naming `error`, and that
   * ValidationException escapes; once the 'processing' mark went through,
   * the record stays 'processing' for good. When the other calls work, every
   * piece is cut and stored first, and only the 'completed' update, which
   * names `rows`, stops the run.
   */
  lemma SplitAsWrittenNeverCompletes(w: World, puzzleId: string, userId: string, s3Key: string, pieceCount: int, now: string, f: Faults)
    ensures var (w', r) := SplitOutcome(w, puzzleId, userId, s3Key, pieceCount, now, AsWrittenFaults(f));
      && r == Err(ClientError(ReservedMessage("error")))
      && (MarkProcessing !in f ==> StatusAfter(w', PuzzleKey(userId, puzzleId)) == Some(Processing))
    ensures var p := PlannedCut(w, puzzleId, userId, s3Key, pieceCount, now);
      MarkProcessing !in f && FetchSource !in f && p.Some? && NoCellFails(f, p.value) ==>
        var w' := SplitOutcome(w, puzzleId, userId, s3Key, pieceCount, now, AsWrittenFaults(f)).0;
        && pieceCount >= 0
        && w'.issued == w.issued + pieceCount
        && Grown(w.pieces, Drawn(puzzleId, w.issued, pieceCount), w'.pieces)
  {
    var g := AsWrittenFaults(f);
    SplitOkIff(w, puzzleId, userId, s3Key, pieceCount, now, g);
    FailureShape(w, puzzleId, userId, s3Key, pieceCount, now, g);
    if MarkProcessing !in f {
      SplitLeftProcessing(w, puzzleId, userId, s3Key, pieceCount, now, g);
    }
    var p := PlannedCut(w, puzzleId, userId, s3Key, pieceCount, now);
    if MarkProcessing !in f && FetchSource !in f && p.Some? && NoCellFails(f, p.value) {
      AsWrittenSameCells(f, p.value);
      SplitCompletedUpdateFails(w, puzzleId, userId, s3Key, pieceCount, now, g);
    }
  }
}
