/**
 * ImageProcessor.split_image and _update_puzzle_status
 * (backend/app/services/image_processor.py).
 *
 * The run is specified as a function of the backend's state before it
 * (`SplitOutcome`), with every attribute name of the status updates
 * aliased. The imperative methods of class `ImageProcessor` follow the code
 * as written, whose 'completed' and 'failed' updates DynamoDB rejects for
 * naming reserved words; they are proved to produce exactly `SplitOutcome`
 * under those rejections (`AsWrittenFaults`). The lemmas below state what
 * the run guarantees: the pieces it writes, their geometry, the puzzle's
 * status on every path, and what a failure leaves behind.
 */
module ImageProcessor {
  import opened Wrappers
  import opened Storage
  import opened Grid
  import opened Text

  /** str(e) for S3's answer to a get_object on a missing key. */
  const NoSuchKeyMessage := "An error occurred (NoSuchKey) when calling the GetObject operation: The specified key does not exist."
  /** str(e) for Pillow's answer to bytes that are not an image. */
  const UnreadableImageMessage := "cannot identify image file"
  /** str(e) for Pillow's refusal to save an image without pixels as JPEG. */
  const EmptyImageMessage := "cannot write empty image as JPEG"

  /** The object key of a piece image: pieces/{puzzle_id}/{piece_id}.jpg */
  function PieceObjectKey(puzzleId: string, pieceId: string): string
  {
    "pieces/" + puzzleId + "/" + pieceId + ".jpg"
  }

  /** Within one puzzle, an object key determines the piece id. */
  lemma PieceObjectKeyInjective(puzzleId: string, a: string, b: string)
    requires PieceObjectKey(puzzleId, a) == PieceObjectKey(puzzleId, b)
    ensures a == b
  {
    var ka, kb := PieceObjectKey(puzzleId, a), PieceObjectKey(puzzleId, b);
    var n := |"pieces/" + puzzleId + "/"|;
    assert |a| == |b|;
    assert a == ka[n..n + |a|];
    assert b == kb[n..n + |b|];
  }

  /** Within one puzzle, distinct piece ids give distinct object keys. */
  lemma PieceObjectKeyDistinct(puzzleId: string, a: string, b: string)
    requires a != b
    ensures PieceObjectKey(puzzleId, a) != PieceObjectKey(puzzleId, b)
  {
    if PieceObjectKey(puzzleId, a) == PieceObjectKey(puzzleId, b) {
      PieceObjectKeyInjective(puzzleId, a, b);
    }
  }

  /** The piece record split_image writes for cell (row, col). */
  function PieceItem(userId: string, puzzleId: string, pieceId: string, row: nat, col: nat, box: Rect, now: string): Item
  {
    map[
      "userId" := S(userId), "pieceId" := S(pieceId), "puzzleId" := S(puzzleId),
      "row" := N(row), "col" := N(col), "correctRow" := N(row), "correctCol" := N(col),
      "s3Key" := S(PieceObjectKey(puzzleId, pieceId)),
      "width" := N(box.right - box.left), "height" := N(box.bottom - box.top),
      "createdAt" := S(now), "updatedAt" := S(now)]
  }

  /** The fixed inputs of one cutting pass: whose puzzle, which source, which grid, which image size. */
  datatype Cut = Cut(userId: string, puzzleId: string, source: string, rows: nat, cols: nat, width: nat, height: nat, now: string)

  /** (row, col) is a position of the row-major pass: a cell, or the end. */
  predicate At(c: Cut, row: nat, col: nat)
  {
    row <= c.rows && col <= c.cols && (row == c.rows ==> col == 0)
  }

  /** Cell (r, k) comes before position (row, col) in row-major order. */
  predicate Before(r: nat, k: nat, row: nat, col: nat)
  {
    r < row || (r == row && k < col)
  }

  /** The `j`-th id drawn after the generator stood at `base`. */
  function IdAt(base: nat, j: nat): string
  {
    Uuid(base + j)
  }

  /** The record key of the piece the pass writes for cell (r, k) when the generator stood at `base`. */
  function CellKey(c: Cut, base: nat, r: nat, k: nat): PieceKey
  {
    PieceKey(c.puzzleId, IdAt(base, r * c.cols + k))
  }

  /** The object key of that piece's image. */
  function CellObjectKey(c: Cut, base: nat, r: nat, k: nat): string
  {
    PieceObjectKey(c.puzzleId, IdAt(base, r * c.cols + k))
  }

  /** The record of that piece. */
  function CellPiece(c: Cut, base: nat, r: nat, k: nat): Item
    requires r < c.rows && k < c.cols
  {
    PieceItem(c.userId, c.puzzleId, IdAt(base, r * c.cols + k), r, k, CellRect(r, k, c.rows, c.cols, c.width, c.height), c.now)
  }

  /** The image of that piece. */
  function CellObject(c: Cut, r: nat, k: nat): StoredObject
    requires r < c.rows && k < c.cols
  {
    StoredObject(PieceJpeg(c.source, CellRect(r, k, c.rows, c.cols, c.width, c.height)), "image/jpeg")
  }

  /** The record keys of the first `n` pieces of a puzzle whose ids are drawn from `base`. */
  function Drawn(puzzleId: string, base: nat, n: nat): set<PieceKey>
  {
    if n == 0 then {} else Drawn(puzzleId, base, n - 1) + {PieceKey(puzzleId, IdAt(base, n - 1))}
  }

  /** The object keys of those pieces. */
  function DrawnObjects(puzzleId: string, base: nat, n: nat): set<string>
  {
    if n == 0 then {} else DrawnObjects(puzzleId, base, n - 1) + {PieceObjectKey(puzzleId, IdAt(base, n - 1))}
  }

  /** Each of the first `n` ids is drawn. */
  lemma {:induction false} DrawnIncludes(puzzleId: string, base: nat, n: nat)
    ensures forall j: nat :: j < n ==> PieceKey(puzzleId, IdAt(base, j)) in Drawn(puzzleId, base, n)
  {
    if n > 0 {
      DrawnIncludes(puzzleId, base, n - 1);
    }
  }

  /** Every drawn key belongs to the puzzle and to one of the first `n` ids. */
  lemma {:induction false} DrawnOnly(puzzleId: string, base: nat, n: nat)
    ensures forall key :: key in Drawn(puzzleId, base, n) ==>
      key.puzzleId == puzzleId && exists j: nat :: j < n && key.pieceId == IdAt(base, j)
  {
    if n > 0 {
      DrawnOnly(puzzleId, base, n - 1);
    }
  }

  /** `n` drawn ids give `n` distinct record keys. */
  lemma {:induction false} DrawnSize(puzzleId: string, base: nat, n: nat)
    ensures |Drawn(puzzleId, base, n)| == n
  {
    if n > 0 {
      DrawnSize(puzzleId, base, n - 1);
      DrawnOnly(puzzleId, base, n - 1);
      assert PieceKey(puzzleId, IdAt(base, n - 1)) !in Drawn(puzzleId, base, n - 1);
    }
  }

  /** A cell before a position has a smaller row-major ordinal. */
  lemma OrdinalBefore(r: nat, k: nat, row: nat, col: nat, cols: nat)
    requires k < cols && col <= cols && Before(r, k, row, col)
    ensures r * cols + k < row * cols + col
  {
    if r < row {
      MulMono(cols, r + 1, row);
      assert cols * (r + 1) == r * cols + cols;
    }
  }

  /** The effect of one cell that succeeds: a new id, its JPEG object, its record. */
  function CellWritten(w: World, c: Cut, row: nat, col: nat): World
    requires row < c.rows && col < c.cols
  {
    var id := Uuid(w.issued);
    var box := CellRect(row, col, c.rows, c.cols, c.width, c.height);
    World(
      w.objects[PieceObjectKey(c.puzzleId, id) := StoredObject(PieceJpeg(c.source, box), "image/jpeg")],
      w.puzzles,
      w.pieces[PieceKey(c.puzzleId, id) := PieceItem(c.userId, c.puzzleId, id, row, col, box, c.now)],
      w.issued + 1)
  }

  /** The world once every cell before (row, col) has been written. */
  function CellsWritten(w: World, c: Cut, row: nat, col: nat): World
    requires At(c, row, col)
    decreases row, col
  {
    if col > 0 then CellWritten(CellsWritten(w, c, row, col - 1), c, row, col - 1)
    else if row > 0 then CellsWritten(w, c, row - 1, c.cols)
    else w
  }

  /**
   * Cell (row, col) is cropped to a box without pixels: the image is
   * narrower than the grid has columns (`image_width // cols` is 0) and the
   * cell is not in the last column, which takes the rest, or the same holds
   * for rows and height, or the image has no pixels at all.
   * `EmptyCropBox` shows this is exactly an empty `CellRect`.
   */
  predicate EmptyCrop(c: Cut, row: nat, col: nat)
  {
    && row < c.rows && col < c.cols
    && ((col < c.cols - 1 && c.width < c.cols) || (row < c.rows - 1 && c.height < c.rows) || c.width == 0 || c.height == 0)
  }

  /** `EmptyCrop` says exactly that the crop box of the cell is empty. */
  lemma EmptyCropBox(c: Cut, row: nat, col: nat)
    requires row < c.rows && col < c.cols
    ensures var box := CellRect(row, col, c.rows, c.cols, c.width, c.height);
      EmptyCrop(c, row, col) <==> box.right == box.left || box.bottom == box.top
  {
    SpanEmptyIff(col, c.cols, c.width);
    SpanEmptyIff(row, c.rows, c.height);
  }

  /** Saving the crop of cell (row, col) as JPEG raises: it is empty, or Pillow fails on it. */
  predicate EncodeFails(c: Cut, f: Faults, row: nat, col: nat)
  {
    EmptyCrop(c, row, col) || EncodePiece(row, col) in f
  }

  /** str(e) of that failure. */
  function EncodeError(c: Cut, f: Faults, row: nat, col: nat): string
    requires EncodeFails(c, f, row, col)
  {
    if EmptyCrop(c, row, col) then EmptyImageMessage else f[EncodePiece(row, col)]
  }

  /**
   * Every crop box of a pass has pixels exactly when the image has at least
   * as many columns of pixels as the grid has columns, and as many rows as
   * it has rows; otherwise the very first box, cell (0, 0), is empty.
   */
  lemma EmptyCropIff(c: Cut)
    requires c.rows > 0 && c.cols > 0
    ensures (forall r: nat, k: nat :: r < c.rows && k < c.cols ==> !EmptyCrop(c, r, k))
      <==> c.cols <= c.width && c.rows <= c.height
    ensures c.width < c.cols || c.height < c.rows ==> EmptyCrop(c, 0, 0)
  {
    if c.width < c.cols || c.height < c.rows {
      assert EmptyCrop(c, 0, 0);
    } else {
      forall r: nat, k: nat | r < c.rows && k < c.cols
        ensures !EmptyCrop(c, r, k)
      {
      }
    }
  }

  /** The encode, object write or record write of cell (row, col) raises. */
  predicate CellFails(c: Cut, f: Faults, row: nat, col: nat)
  {
    EncodeFails(c, f, row, col) || PutPieceObject(row, col) in f || PutPieceItem(row, col) in f
  }

  /** The first failing cell at or after (row, col), or the end (rows, 0). */
  function FirstFailure(f: Faults, c: Cut, row: nat, col: nat): (p: (nat, nat))
    requires At(c, row, col)
    ensures At(c, p.0, p.1)
    ensures p.0 < c.rows ==> p.1 < c.cols && CellFails(c, f, p.0, p.1)
    ensures !Before(p.0, p.1, row, col)
    ensures forall r: nat, k: nat :: k < c.cols && !Before(r, k, row, col) && Before(r, k, p.0, p.1) ==> !CellFails(c, f, r, k)
    decreases c.rows - row, c.cols - col
  {
    if row == c.rows then (c.rows, 0)
    else if col == c.cols then FirstFailure(f, c, row + 1, 0)
    else if CellFails(c, f, row, col) then (row, col)
    else FirstFailure(f, c, row, col + 1)
  }

  /**
   * What a failing cell leaves and raises. Its id is drawn first. An encode
   * error (Pillow, or an empty crop) or a failed object write store nothing;
   * a failed record write leaves the object behind.
   */
  function CellFailure(w: World, c: Cut, f: Faults, row: nat, col: nat): (World, Error)
    requires row < c.rows && col < c.cols && CellFails(c, f, row, col)
  {
    var id := Uuid(w.issued);
    var box := CellRect(row, col, c.rows, c.cols, c.width, c.height);
    var drawn := w.(issued := w.issued + 1);
    if EncodeFails(c, f, row, col) then (drawn, ImageError(EncodeError(c, f, row, col)))
    else if PutPieceObject(row, col) in f then (drawn, ClientError(f[PutPieceObject(row, col)]))
    else
      (drawn.(objects := w.objects[PieceObjectKey(c.puzzleId, id) := StoredObject(PieceJpeg(c.source, box), "image/jpeg")]),
       ClientError(f[PutPieceItem(row, col)]))
  }

  function FaultAt(f: Faults, s: Step): Option<string>
  {
    if s in f then Some(f[s]) else None
  }

  /** The SET list _update_puzzle_status always starts with. */
  function StatusSets(status: Status, now: string): seq<(string, Attr)>
  {
    [("status", S(status.Text())), ("updatedAt", S(now))]
  }

  /**
   * _update_puzzle_status as a function of the world: when update_item
   * raises (`fault`), nothing changes and the ClientError propagates;
   * otherwise the record takes the SET list.
   */
  function StatusUpdate(w: World, key: PuzzleKey, status: Status, extra: seq<(string, Attr)>, now: string, fault: Option<string>): (r: (World, Option<Error>))
    ensures r.1.Some? <==> fault.Some?
    ensures r.0.objects == w.objects && r.0.pieces == w.pieces && r.0.issued == w.issued
    ensures r.0.puzzles.Keys == w.puzzles.Keys + (if fault.Some? then {} else {key})
    ensures forall other :: other in w.puzzles && (fault.Some? || other != key) ==> r.0.puzzles[other] == w.puzzles[other]
  {
    if fault.Some? then (w, Some(ClientError(fault.value)))
    else (w.(puzzles := w.puzzles[key := ApplySets(ItemOrKey(w.puzzles, key), StatusSets(status, now) + extra)]), None)
  }

  /**
   * Some of DynamoDB's reserved words, in lower case: the ones among the
   * attribute names this code writes, and a few more. DynamoDB compares
   * names with its list without regard to case.
   */
  const ReservedWords: set<string> := {"status", "rows", "row", "error", "name", "count", "data", "size", "key", "value", "date", "time", "timestamp", "user", "column", "columns"}

  predicate Reserved(name: string)
  {
    Lower(name) in ReservedWords
  }

  /** The first attribute of a SET list, in expression order, whose name is a reserved word. */
  function FirstReserved(sets: seq<(string, Attr)>): (r: Option<string>)
    ensures r.Some? ==> Reserved(r.value) && r.value in Names(sets)
    ensures r.None? <==> forall i :: 0 <= i < |sets| ==> !Reserved(sets[i].0)
  {
    if sets == [] then None
    else if Reserved(sets[0].0) then Some(sets[0].0)
    else FirstReserved(sets[1..])
  }

  const ValidationPrefix := "An error occurred (ValidationException) when calling the UpdateItem operation: "
    + "Invalid UpdateExpression: Attribute name is a reserved keyword; reserved keyword: "

  /** The text of the ClientError botocore raises for DynamoDB's rejection of an expression naming `name`. */
  function ReservedMessage(name: string): string
  {
    ValidationPrefix + name
  }

  /**
   * _update_puzzle_status as written: only `status` is aliased (`#status`);
   * `updatedAt` and every keyword argument go into the update expression
   * under their own names, and DynamoDB rejects an expression that names a
   * reserved word before it writes anything. `StatusUpdate` is the update
   * with every name aliased.
   */
  function StatusUpdateAsWritten(w: World, key: PuzzleKey, status: Status, extra: seq<(string, Attr)>, now: string, fault: Option<string>): (World, Option<Error>)
  {
    // `updatedAt`, the first unaliased name, is not reserved (`UnaliasedRejection`).
    match FirstReserved(extra)
    case Some(name) => (w, Some(ClientError(ReservedMessage(name))))
    case None => StatusUpdate(w, key, status, extra, now, fault)
  }

  /**
   * As written, the status update is rejected, changing nothing, exactly
   * when a name it leaves unaliased is reserved, and the error names the
   * first such name; otherwise it is the aliased update.
   */
  lemma UnaliasedRejection(w: World, key: PuzzleKey, status: Status, extra: seq<(string, Attr)>, now: string, fault: Option<string>)
    ensures var unaliased := StatusSets(status, now)[1..] + extra;
      var r := StatusUpdateAsWritten(w, key, status, extra, now, fault);
      && ((exists i :: 0 <= i < |unaliased| && Reserved(unaliased[i].0)) ==>
           r == (w, Some(ClientError(ReservedMessage(FirstReserved(unaliased).value)))))
      && ((forall i :: 0 <= i < |unaliased| ==> !Reserved(unaliased[i].0)) ==> r == StatusUpdate(w, key, status, extra, now, fault))
  {
    var unaliased := StatusSets(status, now)[1..] + extra;
    assert !Reserved(unaliased[0].0) by {
      assert Lower("updatedAt") == "updatedat";
    }
    assert unaliased[1..] == extra;
  }

  /** What split_image returns on success. */
  datatype SplitSummary = SplitSummary(puzzleId: string, totalPieces: nat, rows: nat, cols: nat, status: string)

  /** The keyword arguments split_image passes with 'completed'. */
  function CompletedSets(rows: nat, cols: nat, total: nat): seq<(string, Attr)>
  {
    [("rows", N(rows)), ("cols", N(cols)), ("total_pieces", N(total))]
  }

  /** A grid for `n` pieces has at least one row and one column. */
  lemma GridPositive(n: int, w: nat, h: nat)
    requires w > 0 && h > 0 && GridFor(n, w, h).Ok?
    ensures GridFor(n, w, h).value.0 > 0 && GridFor(n, w, h).value.1 > 0
    ensures GridFor(n, w, h).value.0 * GridFor(n, w, h).value.1 == n && n >= 100
  {
    GridExact(n, w, h);
    PieceGridsExact(n);
  }

  /**
   * The failures split_image's calls meet as written: those of `f`, and
   * DynamoDB's rejection of the 'completed' update, which names `rows`, and
   * of the 'failed' update, which names `error`.
   */
  function AsWrittenFaults(f: Faults): (g: Faults)
    ensures MarkCompleted in g && g[MarkCompleted] == ReservedMessage("rows")
    ensures MarkFailed in g && g[MarkFailed] == ReservedMessage("error")
    ensures forall s :: s != MarkCompleted && s != MarkFailed ==> FaultAt(g, s) == FaultAt(f, s)
  {
    f[MarkCompleted := ReservedMessage("rows")][MarkFailed := ReservedMessage("error")]
  }

  /** The 'processing' update names no reserved word, so as written it is the aliased update. */
  lemma AsWrittenProcessing(w: World, key: PuzzleKey, now: string, f: Faults)
    ensures FirstReserved([]) == None
    ensures StatusUpdateAsWritten(w, key, Processing, [], now, FaultAt(f, MarkProcessing))
      == StatusUpdate(w, key, Processing, [], now, FaultAt(AsWrittenFaults(f), MarkProcessing))
  {
  }

  /**
   * The 'completed' update names `rows` first, so as written, whatever the
   * call's own failure, it is rejected as the aliased update meeting the
   * failure `AsWrittenFaults` gives it.
   */
  lemma AsWrittenCompleted(w: World, key: PuzzleKey, now: string, rows: nat, cols: nat, total: nat, fault: Option<string>, f: Faults)
    ensures FirstReserved(CompletedSets(rows, cols, total)) == Some("rows")
    ensures StatusUpdateAsWritten(w, key, Completed, CompletedSets(rows, cols, total), now, fault)
      == StatusUpdate(w, key, Completed, CompletedSets(rows, cols, total), now, FaultAt(AsWrittenFaults(f), MarkCompleted))
  {
    assert Lower("rows") == "rows";
  }

  /** The same for the 'failed' update, which names `error`. */
  lemma AsWrittenFailed(w: World, key: PuzzleKey, now: string, message: string, fault: Option<string>, f: Faults)
    ensures FirstReserved([("error", S(message))]) == Some("error")
    ensures StatusUpdateAsWritten(w, key, Failed, [("error", S(message))], now, fault)
      == StatusUpdate(w, key, Failed, [("error", S(message))], now, FaultAt(AsWrittenFaults(f), MarkFailed))
  {
    assert Lower("error") == "error";
  }

  /** The body of split_image's `try`: the state it reaches and what it returns or raises. */
  function AttemptOutcome(w: World, puzzleId: string, userId: string, s3Key: string, pieceCount: int, now: string, f: Faults): (World, Result<SplitSummary, Error>)
  {
    var key := PuzzleKey(userId, puzzleId);
    var (w1, e1) := StatusUpdate(w, key, Processing, [], now, FaultAt(f, MarkProcessing));
    if e1.Some? then (w1, Err(e1.value))
    else if FetchSource in f then (w1, Err(ClientError(f[FetchSource])))
    else if s3Key !in w1.objects then (w1, Err(ClientError(NoSuchKeyMessage)))
    else match Decode(w1.objects[s3Key].body)
      case None => (w1, Err(ImageError(UnreadableImageMessage)))
      case Some((width, height)) =>
        match GridFor(pieceCount, width, height)
        case Err(e) => (w1, Err(e))
        case Ok((rows, cols)) =>
          GridPositive(pieceCount, width, height);
          var c := Cut(userId, puzzleId, s3Key, rows, cols, width, height, now);
          var (fr, fc) := FirstFailure(f, c, 0, 0);
          var w2 := CellsWritten(w1, c, fr, fc);
          if fr < rows then
            var (w3, e) := CellFailure(w2, c, f, fr, fc);
            (w3, Err(e))
          else
            var (w3, e3) := StatusUpdate(w2, key, Completed, CompletedSets(rows, cols, rows * cols), now, FaultAt(f, MarkCompleted));
            if e3.Some? then (w3, Err(e3.value))
            else (w3, Ok(SplitSummary(puzzleId, rows * cols, rows, cols, "completed")))
  }

  /** What split_image's handlers re-raise for an error caught while marking the puzzle failed worked. */
  function Reraised(e: Error): Error
  {
    if e.ClientError? then e else ValueError("Image processing failed: " + e.message)
  }

  /**
   * split_image as a function of the world: the `try` body, then, on an
   * error, the 'failed' update with error=str(e) and the re-raise. When
   * that update itself raises, its ClientError is what propagates.
   */
  function SplitOutcome(w: World, puzzleId: string, userId: string, s3Key: string, pieceCount: int, now: string, f: Faults): (World, Result<SplitSummary, Error>)
  {
    var (w1, r) := AttemptOutcome(w, puzzleId, userId, s3Key, pieceCount, now, f);
    if r.Ok? then (w1, r)
    else
      var (w2, e2) := StatusUpdate(w1, PuzzleKey(userId, puzzleId), Failed, [("error", S(r.error.message))], now, FaultAt(f, MarkFailed));
      if e2.Some? then (w2, Err(e2.value)) else (w2, Err(Reraised(r.error)))
  }

  /** In `w2`, every cell before (row, col) has its record and image, under the id drawn for it from `base`. */
  predicate CellsStored(c: Cut, base: nat, row: nat, col: nat, w2: World)
  {
    forall r: nat, k: nat {:trigger CellKey(c, base, r, k)} :: r < c.rows && k < c.cols && Before(r, k, row, col) ==>
      && CellKey(c, base, r, k) in w2.pieces
      && w2.pieces[CellKey(c, base, r, k)] == CellPiece(c, base, r, k)
      && CellObjectKey(c, base, r, k) in w2.objects
      && w2.objects[CellObjectKey(c, base, r, k)] == CellObject(c, r, k)
  }

  lemma CellsStoredStep(base: nat, c: Cut, prev: World, row: nat, col: nat)
    requires row < c.rows && 0 < col <= c.cols
    requires prev.issued == base + row * c.cols + (col - 1) && CellsStored(c, base, row, col - 1, prev)
    ensures CellsStored(c, base, row, col, CellWritten(prev, c, row, col - 1))
  {
    var n := row * c.cols + (col - 1);
    var next := CellWritten(prev, c, row, col - 1);
    forall r: nat, k: nat | r < c.rows && k < c.cols && Before(r, k, row, col)
      ensures CellKey(c, base, r, k) in next.pieces
      ensures next.pieces[CellKey(c, base, r, k)] == CellPiece(c, base, r, k)
      ensures CellObjectKey(c, base, r, k) in next.objects
      ensures next.objects[CellObjectKey(c, base, r, k)] == CellObject(c, r, k)
    {
      if Before(r, k, row, col - 1) {
        OrdinalBefore(r, k, row, col - 1, c.cols);
        UuidDistinct(base + r * c.cols + k, base + n);
      } else {
        assert r == row && k == col - 1;
      }
    }
  }

  /** By position (row, col), the `n`-th of the pass, it has drawn one id per cell and left the puzzles table alone. */
  lemma {:induction false} CellsWrittenIssued(w: World, c: Cut, row: nat, col: nat, n: nat)
    requires At(c, row, col) && n == row * c.cols + col
    ensures CellsWritten(w, c, row, col).issued == w.issued + n
    ensures CellsWritten(w, c, row, col).puzzles == w.puzzles
    decreases row, col
  {
    if col > 0 {
      CellsWrittenIssued(w, c, row, col - 1, n - 1);
    } else if row > 0 {
      assert (row - 1) * c.cols + c.cols == row * c.cols;
      CellsWrittenIssued(w, c, row - 1, c.cols, n);
    }
  }

  /** Writing cell (row, col), the `n`-th of the pass, grows the pieces by one more drawn record key. */
  lemma PiecesStep(w: World, c: Cut, row: nat, col: nat, n: nat)
    requires row < c.rows && 0 < col <= c.cols && n > 0
    requires CellsWritten(w, c, row, col - 1).issued == w.issued + (n - 1)
    requires Grown(w.pieces, Drawn(c.puzzleId, w.issued, n - 1), CellsWritten(w, c, row, col - 1).pieces)
    ensures Grown(w.pieces, Drawn(c.puzzleId, w.issued, n), CellsWritten(w, c, row, col).pieces)
  {
    var prev := CellsWritten(w, c, row, col - 1);
    var key := PieceKey(c.puzzleId, IdAt(w.issued, n - 1));
    var next := CellWritten(prev, c, row, col - 1);
    assert next.pieces == prev.pieces[key := next.pieces[key]];
    GrownStep(w.pieces, Drawn(c.puzzleId, w.issued, n - 1), prev.pieces, key, next.pieces[key]);
  }

  /** By position (row, col), the `n`-th of the pass, the pieces table has grown by exactly the drawn record keys. */
  lemma {:induction false} CellsWrittenPieces(w: World, c: Cut, row: nat, col: nat, n: nat)
    requires At(c, row, col) && n == row * c.cols + col
    ensures Grown(w.pieces, Drawn(c.puzzleId, w.issued, n), CellsWritten(w, c, row, col).pieces)
    decreases row, col
  {
    if col > 0 {
      CellsWrittenPieces(w, c, row, col - 1, n - 1);
      CellsWrittenIssued(w, c, row, col - 1, n - 1);
      PiecesStep(w, c, row, col, n);
    } else if row > 0 {
      assert (row - 1) * c.cols + c.cols == row * c.cols;
      CellsWrittenPieces(w, c, row - 1, c.cols, n);
      CellsWrittenRowStart(w, c, row);
    }
  }

  /** Writing cell (row, col), the `n`-th of the pass, grows the objects by one more drawn object key. */
  lemma ObjectsStep(w: World, c: Cut, row: nat, col: nat, n: nat)
    requires row < c.rows && 0 < col <= c.cols && n > 0
    requires CellsWritten(w, c, row, col - 1).issued == w.issued + (n - 1)
    requires Grown(w.objects, DrawnObjects(c.puzzleId, w.issued, n - 1), CellsWritten(w, c, row, col - 1).objects)
    ensures Grown(w.objects, DrawnObjects(c.puzzleId, w.issued, n), CellsWritten(w, c, row, col).objects)
  {
    var prev := CellsWritten(w, c, row, col - 1);
    var key := PieceObjectKey(c.puzzleId, IdAt(w.issued, n - 1));
    var next := CellWritten(prev, c, row, col - 1);
    assert next.objects == prev.objects[key := next.objects[key]];
    GrownStep(w.objects, DrawnObjects(c.puzzleId, w.issued, n - 1), prev.objects, key, next.objects[key]);
  }

  /** By position (row, col), the `n`-th of the pass, the bucket has grown by exactly the drawn piece object keys. */
  lemma {:induction false} CellsWrittenObjects(w: World, c: Cut, row: nat, col: nat, n: nat)
    requires At(c, row, col) && n == row * c.cols + col
    ensures Grown(w.objects, DrawnObjects(c.puzzleId, w.issued, n), CellsWritten(w, c, row, col).objects)
    decreases row, col
  {
    if col > 0 {
      CellsWrittenObjects(w, c, row, col - 1, n - 1);
      CellsWrittenIssued(w, c, row, col - 1, n - 1);
      ObjectsStep(w, c, row, col, n);
    } else if row > 0 {
      assert (row - 1) * c.cols + c.cols == row * c.cols;
      CellsWrittenObjects(w, c, row - 1, c.cols, n);
      CellsWrittenRowStart(w, c, row);
    }
  }

  /** By position (row, col), every cell before it has its record and image stored under the id drawn for it. */
  lemma {:induction false} CellsWrittenStored(w: World, c: Cut, row: nat, col: nat)
    requires At(c, row, col)
    ensures CellsStored(c, w.issued, row, col, CellsWritten(w, c, row, col))
    decreases row, col
  {
    if col > 0 {
      var prev := CellsWritten(w, c, row, col - 1);
      CellsWrittenStored(w, c, row, col - 1);
      CellsWrittenIssued(w, c, row, col - 1, row * c.cols + (col - 1));
      CellsStoredStep(w.issued, c, prev, row, col);
    } else if row > 0 {
      CellsWrittenStored(w, c, row - 1, c.cols);
      CellsStoredRowEnd(c, w.issued, row, CellsWritten(w, c, row - 1, c.cols));
    }
  }

  /** Which cells are stored depends only on the pieces table and the bucket. */
  lemma CellsStoredSame(c: Cut, base: nat, row: nat, col: nat, w2: World, w3: World)
    requires CellsStored(c, base, row, col, w2) && w3.pieces == w2.pieces && w3.objects == w2.objects
    ensures CellsStored(c, base, row, col, w3)
  {
  }

  /** The end of one row is the start of the next. */
  lemma CellsWrittenRowStart(w: World, c: Cut, row: nat)
    requires 0 < row <= c.rows
    ensures CellsWritten(w, c, row, 0) == CellsWritten(w, c, row - 1, c.cols)
  {
  }

  /** The cells before the end of one row are the cells before the start of the next. */
  lemma CellsStoredRowEnd(c: Cut, base: nat, row: nat, w2: World)
    requires row > 0 && CellsStored(c, base, row - 1, c.cols, w2)
    ensures CellsStored(c, base, row, 0, w2)
  {
    forall r: nat, k: nat | r < c.rows && k < c.cols && Before(r, k, row, 0)
      ensures CellKey(c, base, r, k) in w2.pieces && w2.pieces[CellKey(c, base, r, k)] == CellPiece(c, base, r, k)
      ensures CellObjectKey(c, base, r, k) in w2.objects && w2.objects[CellObjectKey(c, base, r, k)] == CellObject(c, r, k)
    {
      assert Before(r, k, row - 1, c.cols);
    }
  }

  /** The drawn record keys include the key of every cell before (row, col). */
  lemma CellKeysDrawn(c: Cut, base: nat, row: nat, col: nat)
    requires At(c, row, col)
    ensures forall r: nat, k: nat :: r < c.rows && k < c.cols && Before(r, k, row, col) ==>
      CellKey(c, base, r, k) in Drawn(c.puzzleId, base, row * c.cols + col)
  {
    forall r: nat, k: nat | r < c.rows && k < c.cols && Before(r, k, row, col)
      ensures CellKey(c, base, r, k) in Drawn(c.puzzleId, base, row * c.cols + col)
    {
      CellKeyDrawn(c, base, row, col, r, k);
    }
  }

  lemma CellKeyDrawn(c: Cut, base: nat, row: nat, col: nat, r: nat, k: nat)
    requires col <= c.cols && k < c.cols && Before(r, k, row, col)
    ensures CellKey(c, base, r, k) in Drawn(c.puzzleId, base, row * c.cols + col)
  {
    OrdinalBefore(r, k, row, col, c.cols);
    DrawnIncludes(c.puzzleId, base, row * c.cols + col);
  }

  /** Two different cells of a pass never share a record key. */
  lemma CellKeysDistinct(c: Cut, base: nat, r1: nat, k1: nat, r2: nat, k2: nat)
    requires k1 < c.cols && k2 < c.cols && (r1, k1) != (r2, k2)
    ensures CellKey(c, base, r1, k1) != CellKey(c, base, r2, k2)
  {
    if Before(r1, k1, r2, k2) {
      OrdinalBefore(r1, k1, r2, k2, c.cols);
      UuidDistinct(base + r1 * c.cols + k1, base + r2 * c.cols + k2);
    } else {
      OrdinalBefore(r2, k2, r1, k1, c.cols);
      UuidDistinct(base + r1 * c.cols + k1, base + r2 * c.cols + k2);
    }
  }

  /**
   * The record of cell (r, k): its row and column twice (as placed and as
   * solved), the key its image is stored under, and the size of a crop box
   * that lies inside the image.
   */
  lemma CellPieceFields(c: Cut, base: nat, r: nat, k: nat)
    requires r < c.rows && k < c.cols
    ensures var p, box := CellPiece(c, base, r, k), CellRect(r, k, c.rows, c.cols, c.width, c.height);
      && "row" in p && "correctRow" in p && "col" in p && "correctCol" in p
      && p["row"] == p["correctRow"] == N(r) && p["col"] == p["correctCol"] == N(k)
      && "s3Key" in p && p["s3Key"] == S(CellObjectKey(c, base, r, k))
      && "width" in p && "height" in p
      && p["width"] == N(box.right - box.left) && p["height"] == N(box.bottom - box.top)
      && 0 <= box.left <= box.right <= c.width && 0 <= box.top <= box.bottom <= c.height
  {
    SpanInside(k, c.cols, c.width);
    SpanInside(r, c.rows, c.height);
  }

  /** Whether a failing cell leaves its image behind: only its record write raised. */
  predicate LeavesOrphan(c: Cut, f: Faults, row: nat, col: nat)
  {
    !EncodeFails(c, f, row, col) && PutPieceObject(row, col) !in f
  }

  /**
   * A failing cell draws one more id and touches no record; its image is
   * stored, under that id, exactly when only the record write raised.
   */
  lemma CellFailureEffect(w2: World, c: Cut, f: Faults, row: nat, col: nat)
    requires row < c.rows && col < c.cols && CellFails(c, f, row, col)
    ensures var w3 := CellFailure(w2, c, f, row, col).0;
      && w3.issued == w2.issued + 1 && w3.pieces == w2.pieces && w3.puzzles == w2.puzzles
      && w3.objects == if LeavesOrphan(c, f, row, col)
         then w2.objects[PieceObjectKey(c.puzzleId, Uuid(w2.issued)) := CellObject(c, row, col)]
         else w2.objects
  {
  }

  /** A failing cell disturbs none of the cells written before it. */
  lemma CellFailureStored(c: Cut, base: nat, f: Faults, row: nat, col: nat, w2: World)
    requires row < c.rows && col < c.cols && CellFails(c, f, row, col)
    requires w2.issued == base + row * c.cols + col && CellsStored(c, base, row, col, w2)
    ensures CellsStored(c, base, row, col, CellFailure(w2, c, f, row, col).0)
  {
    var w3 := CellFailure(w2, c, f, row, col).0;
    CellFailureEffect(w2, c, f, row, col);
    forall r: nat, k: nat | r < c.rows && k < c.cols && Before(r, k, row, col)
      ensures CellKey(c, base, r, k) in w3.pieces && w3.pieces[CellKey(c, base, r, k)] == CellPiece(c, base, r, k)
      ensures CellObjectKey(c, base, r, k) in w3.objects && w3.objects[CellObjectKey(c, base, r, k)] == CellObject(c, r, k)
    {
      OrdinalBefore(r, k, row, col, c.cols);
      UuidDistinct(base + r * c.cols + k, w2.issued);
      PieceObjectKeyDistinct(c.puzzleId, IdAt(base, r * c.cols + k), Uuid(w2.issued));
    }
  }

  /**
   * A pass from `w` that stops at the failing cell (row, col), the `n`-th:
   * `n + 1` ids drawn, the records of the `n` cells before it added, and
   * their images, plus the failing cell's own when it is left behind.
   */
  lemma PassFailureGrows(w: World, c: Cut, f: Faults, row: nat, col: nat, n: nat)
    requires row < c.rows && col < c.cols && CellFails(c, f, row, col) && n == row * c.cols + col
    ensures var w3 := CellFailure(CellsWritten(w, c, row, col), c, f, row, col).0;
      && w3.issued == w.issued + n + 1
      && Grown(w.pieces, Drawn(c.puzzleId, w.issued, n), w3.pieces)
      && Grown(w.objects, DrawnObjects(c.puzzleId, w.issued, if LeavesOrphan(c, f, row, col) then n + 1 else n), w3.objects)
  {
    var w2 := CellsWritten(w, c, row, col);
    CellsWrittenIssued(w, c, row, col, n);
    CellsWrittenPieces(w, c, row, col, n);
    CellsWrittenObjects(w, c, row, col, n);
    CellFailureEffect(w2, c, f, row, col);
    if LeavesOrphan(c, f, row, col) {
      GrownStep(w.objects, DrawnObjects(c.puzzleId, w.issued, n), w2.objects,
        PieceObjectKey(c.puzzleId, IdAt(w.issued, n)), CellObject(c, row, col));
    }
  }

  /**
   * What a successful _update_puzzle_status makes of the record: it holds
   * the new status, the time and every keyword argument, and no other
   * attribute changes.
   */
  lemma StatusSetsApplied(item: Item, status: Status, now: string, extra: seq<(string, Attr)>)
    requires "status" !in Names(extra) && "updatedAt" !in Names(extra)
    requires forall i, j :: 0 <= i < j < |extra| ==> extra[i].0 != extra[j].0
    ensures var r := ApplySets(item, StatusSets(status, now) + extra);
      && r.Keys == item.Keys + {"status", "updatedAt"} + Names(extra)
      && StatusOf(r) == Some(status)
      && r["updatedAt"] == S(now)
      && (forall i :: 0 <= i < |extra| ==> r[extra[i].0] == extra[i].1)
      && (forall a :: a in item && a !in {"status", "updatedAt"} + Names(extra) ==> r[a] == item[a])
  {
    var sets := StatusSets(status, now) + extra;
    StatusSetsNames(status, now, extra);
    StatusSetsDistinct(status, now, extra);
    ApplySetsSpec(item, sets);
    ApplySetsDistinct(item, sets);
    forall i | 0 <= i < |extra| ensures sets[i + 2] == extra[i] { }
    StatusOfText(ApplySets(item, sets), status);
  }

  lemma StatusSetsNames(status: Status, now: string, extra: seq<(string, Attr)>)
    ensures Names(StatusSets(status, now) + extra) == {"status", "updatedAt"} + Names(extra)
  {
    var sets := StatusSets(status, now) + extra;
    forall a | a in Names(extra) ensures a in Names(sets) {
      var i :| 0 <= i < |extra| && extra[i].0 == a;
      assert sets[i + 2] == extra[i];
    }
    forall a | a in Names(sets) ensures a in {"status", "updatedAt"} + Names(extra) {
      var i :| 0 <= i < |sets| && sets[i].0 == a;
      if i >= 2 { assert extra[i - 2] == sets[i]; }
    }
    assert sets[0].0 == "status" && sets[1].0 == "updatedAt";
  }

  lemma StatusSetsDistinct(status: Status, now: string, extra: seq<(string, Attr)>)
    requires "status" !in Names(extra) && "updatedAt" !in Names(extra)
    requires forall i, j :: 0 <= i < j < |extra| ==> extra[i].0 != extra[j].0
    ensures var sets := StatusSets(status, now) + extra; forall i, j :: 0 <= i < j < |sets| ==> sets[i].0 != sets[j].0
  {
    var sets := StatusSets(status, now) + extra;
    forall i, j | 0 <= i < j < |sets| ensures sets[i].0 != sets[j].0 {
      if i >= 2 {
        assert sets[i] == extra[i - 2] && sets[j] == extra[j - 2];
      } else if j >= 2 {
        assert sets[j] == extra[j - 2];
      }
    }
  }

  /** Where split_image's source image comes from: its size, when the object exists and decodes. */
  function SourceSize(w: World, s3Key: string): (size: Option<(nat, nat)>)
    ensures size.Some? ==> s3Key in w.objects && size.value.0 > 0 && size.value.1 > 0
  {
    if s3Key in w.objects then Decode(w.objects[s3Key].body) else None
  }

  class ImageProcessor {
    const backend: Backend

    constructor (backend: Backend)
      ensures this.backend == backend
    {
      this.backend := backend;
    }

    /**
     * _update_puzzle_status: builds the SET list from the status, the time
     * and each keyword argument in turn, then issues one update_item, which
     * DynamoDB rejects when a name after the aliased `#status` is reserved.
     */
    method UpdatePuzzleStatus(userId: string, puzzleId: string, status: Status, extra: seq<(string, Attr)>, now: string, fault: Option<string>)
      returns (err: Option<Error>)
      modifies backend`puzzles
      ensures (backend.Snapshot(), err) == StatusUpdateAsWritten(old(backend.Snapshot()), PuzzleKey(userId, puzzleId), status, extra, now, fault)
    {
      var sets := [("status", S(status.Text())), ("updatedAt", S(now))];
      var i := 0;
      while i < |extra|
        invariant 0 <= i <= |extra|
        invariant sets == StatusSets(status, now) + extra[..i]
      {
        sets := sets + [extra[i]];
        i := i + 1;
      }
      assert extra[..|extra|] == extra;
      // After the aliased `#status` come `updatedAt`, which is not reserved, and the keywords.
      var rejected := FirstReserved(extra);
      if rejected.Some? {
        return Some(ClientError(ReservedMessage(rejected.value)));
      }
      if fault.Some? {
        return Some(ClientError(fault.value));
      }
      var key := PuzzleKey(userId, puzzleId);
      backend.puzzles := backend.puzzles[key := ApplySets(ItemOrKey(backend.puzzles, key), sets)];
      err := None;
    }

    /** One iteration of the inner loop: id, crop, encode, put_object, put_item. */
    method CutPiece(c: Cut, row: nat, col: nat, f: Faults) returns (err: Option<Error>, info: Item)
      requires row < c.rows && col < c.cols
      modifies backend`objects, backend`pieces, backend`issued
      ensures !CellFails(c, f, row, col) ==> err.None? && backend.Snapshot() == CellWritten(old(backend.Snapshot()), c, row, col)
      ensures CellFails(c, f, row, col) ==> err.Some? && (backend.Snapshot(), err.value) == CellFailure(old(backend.Snapshot()), c, f, row, col)
    {
      var pieceId := backend.NewUuid();
      var box := CellRect(row, col, c.rows, c.cols, c.width, c.height);
      EmptyCropBox(c, row, col);
      if box.right == box.left || box.bottom == box.top {
        return Some(ImageError(EmptyImageMessage)), map[];
      }
      if EncodePiece(row, col) in f {
        return Some(ImageError(f[EncodePiece(row, col)])), map[];
      }
      var objectKey := PieceObjectKey(c.puzzleId, pieceId);
      if PutPieceObject(row, col) in f {
        return Some(ClientError(f[PutPieceObject(row, col)])), map[];
      }
      backend.objects := backend.objects[objectKey := StoredObject(PieceJpeg(c.source, box), "image/jpeg")];
      info := PieceItem(c.userId, c.puzzleId, pieceId, row, col, box, c.now);
      if PutPieceItem(row, col) in f {
        return Some(ClientError(f[PutPieceItem(row, col)])), info;
      }
      backend.pieces := backend.pieces[PieceKey(c.puzzleId, pieceId) := info];
      err := None;
    }

    /** The two nested loops of split_image: every cell in row-major order, stopping at the first that raises. */
    method CutPieces(c: Cut, f: Faults) returns (err: Option<Error>, piecesInfo: seq<Item>)
      modifies backend`objects, backend`pieces, backend`issued
      ensures FirstFailure(f, c, 0, 0).0 == c.rows ==>
        && err.None?
        && backend.Snapshot() == CellsWritten(old(backend.Snapshot()), c, c.rows, 0)
        && |piecesInfo| == c.rows * c.cols
      ensures FirstFailure(f, c, 0, 0).0 < c.rows ==>
        var (fr, fc) := FirstFailure(f, c, 0, 0);
        && err.Some?
        && (backend.Snapshot(), err.value) == CellFailure(CellsWritten(old(backend.Snapshot()), c, fr, fc), c, f, fr, fc)
    {
      ghost var w0 := backend.Snapshot();
      piecesInfo := [];
      var row := 0;
      while row < c.rows
        invariant 0 <= row <= c.rows
        invariant FirstFailure(f, c, 0, 0) == FirstFailure(f, c, row, 0)
        invariant backend.Snapshot() == CellsWritten(w0, c, row, 0)
        invariant |piecesInfo| == row * c.cols
      {
        var col := 0;
        while col < c.cols
          invariant 0 <= col <= c.cols
          invariant FirstFailure(f, c, 0, 0) == FirstFailure(f, c, row, col)
          invariant backend.Snapshot() == CellsWritten(w0, c, row, col)
          invariant |piecesInfo| == row * c.cols + col
        {
          var e, info := CutPiece(c, row, col, f);
          if e.Some? {
            return e, piecesInfo;
          }
          piecesInfo := piecesInfo + [info];
          col := col + 1;
        }
        CellsWrittenRowStart(w0, c, row + 1);
        row := row + 1;
      }
      err := None;
    }

    /**
     * The body of split_image's `try`, as written: the updates meet the
     * failures of `f` and DynamoDB's rejections (`AsWrittenFaults`).
     */
    method Attempt(puzzleId: string, userId: string, s3Key: string, pieceCount: int, now: string, f: Faults)
      returns (r: Result<SplitSummary, Error>)
      modifies backend
      ensures (backend.Snapshot(), r) == AttemptOutcome(old(backend.Snapshot()), puzzleId, userId, s3Key, pieceCount, now, AsWrittenFaults(f))
    {
      var g := AsWrittenFaults(f);
      AsWrittenProcessing(backend.Snapshot(), PuzzleKey(userId, puzzleId), now, f);
      var err := UpdatePuzzleStatus(userId, puzzleId, Processing, [], now, FaultAt(f, MarkProcessing));
      if err.Some? {
        return Err(err.value);
      }
      if FetchSource in f {
        return Err(ClientError(f[FetchSource]));
      }
      if s3Key !in backend.objects {
        return Err(ClientError(NoSuchKeyMessage));
      }
      var size := Decode(backend.objects[s3Key].body);
      if size.None? {
        return Err(ImageError(UnreadableImageMessage));
      }
      var (width, height) := size.value;
      var grid := CalculateGrid(pieceCount, width, height);
      if grid.Err? {
        return Err(grid.error);
      }
      var (rows, cols) := grid.value;
      GridPositive(pieceCount, width, height);
      var c := Cut(userId, puzzleId, s3Key, rows, cols, width, height, now);
      var e, piecesInfo := CutPieces(c, g);
      if e.Some? {
        return Err(e.value);
      }
      var total: nat := |piecesInfo|;
      AsWrittenCompleted(backend.Snapshot(), PuzzleKey(userId, puzzleId), now, rows, cols, total, FaultAt(f, MarkCompleted), f);
      var e3 := UpdatePuzzleStatus(userId, puzzleId, Completed, CompletedSets(rows, cols, total), now, FaultAt(f, MarkCompleted));
      if e3.Some? {
        return Err(e3.value);
      }
      r := Ok(SplitSummary(puzzleId, total, rows, cols, "completed"));
    }

    /** split_image, as written (see `SplitImage.SplitAsWrittenNeverCompletes`). */
    method SplitImage(puzzleId: string, userId: string, s3Key: string, pieceCount: int, now: string, f: Faults)
      returns (r: Result<SplitSummary, Error>)
      modifies backend
      ensures (backend.Snapshot(), r) == SplitOutcome(old(backend.Snapshot()), puzzleId, userId, s3Key, pieceCount, now, AsWrittenFaults(f))
    {
      r := Attempt(puzzleId, userId, s3Key, pieceCount, now, f);
      if r.Err? {
        var e := r.error;
        AsWrittenFailed(backend.Snapshot(), PuzzleKey(userId, puzzleId), now, e.message, FaultAt(f, MarkFailed), f);
        var e2 := UpdatePuzzleStatus(userId, puzzleId, Failed, [("error", S(e.message))], now, FaultAt(f, MarkFailed));
        if e2.Some? {
          r := Err(e2.value);
        } else {
          r := Err(Reraised(e));
        }
      }
    }
  }
}
