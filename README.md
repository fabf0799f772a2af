# Jigsaw puzzle back end: a verified model

This project models the core of a jigsaw-puzzle web application in Dafny.
A user registers a puzzle (a name and a piece count). They then obtain a
pre-signed URL to upload its image. A processor cuts the stored image into
a grid of pieces, writes each piece to the object store and the pieces
table, and is meant to mark the puzzle record `completed`, or `failed` when
anything goes wrong. As written, DynamoDB rejects both of those updates
(see Findings), so a run that got past its first update leaves the record
`processing`.

The model covers these parts:

- `Storage` (storage.dfy): the S3 bucket and the two DynamoDB tables as
  maps, held by a `Backend` class.
  - DynamoDB's `update_item ... SET` is modelled as an upsert (`ApplySets`, `ItemOrKey`).
  - `uuid4` is modelled as a counter that hands out distinct ids.
  - Each boto3 or Pillow call that can fail is a `Step`. A `Faults` map says which steps raise, and with what `str(e)`.
- `Grid` and `ImageProcessor` (grid.dfy, image_processor.dfy):
  - `calculate_grid`, with its correction loop;
  - the tiling geometry;
  - `split_image`, with its nested loops;
  - `_update_puzzle_status`.
  Each is an imperative method proved equal to a function of the backend's state.
- `SplitImage` (split_image.dfy): what `split_image` guarantees on success and on each kind of failure.
- `PuzzleService` (puzzle_service.dfy) and `PuzzleLogic` (puzzle_logic.dfy):
  - the current service and its legacy copy;
  - create, upload URL, get, list, delete;
  - lemmas relating the two services.
- `PuzzleRegister` (puzzle_register.dfy): the registration Lambda. It covers parsing, the required fields, the mapping from errors to status codes, and CORS.
- `Schemas` (schemas.dfy): the Pydantic request and response schemas. `backend/app/core/schemas.py` and `backend/schemas.py` are byte-identical, so one module models both.
- `RegisterForm` (register_form.dfy): the sign-up page's password rules, and the state its two submit handlers update.

Every state-changing operation is a method of a class. Its postcondition
equates the new state and the result with a function of the old state
(`...Outcome`). The lemmas state the source's promises about those functions.

Facts about the code that the model keeps:

- `calculate_grid` always returns a grid with `rows * cols == piece_count` exactly (`Grid.GridExact`).
- A piece count that `calculate_grid` does not support is detected only after the record has been marked `processing` and the image downloaded. The record then ends `failed` (`SplitImage.UnsupportedCountFails`).
- `_update_puzzle_status` aliases only `status`. The 'completed' update names `rows` and the 'failed' update names `error`, both DynamoDB reserved words, so DynamoDB rejects both. split_image as written never completes, and every run ends with that ValidationException (`SplitImage.SplitAsWrittenNeverCompletes`). The `...Outcome` functions describe the update with every name aliased; the class methods describe the code as written.
- An image with fewer pixel columns than grid columns, or fewer pixel rows than grid rows, gets empty crop boxes. Pillow refuses to save an empty image as JPEG, so such a job ends `failed` (`SplitImage.TooFewPixelsFails`).
- The record's status comment says `pending -> uploaded -> processing -> completed`. `generate_upload_url` and `split_image` do not check the current status (`UploadIgnoresLifecycle`).

## Model

| member | source | states |
|---|---|---|
| Storage.UuidDistinct | backend/app/services/puzzle_service.py:74 | different draws of the id oracle give different puzzle ids |
| Storage.Backend.NewUuid | backend/app/services/image_processor.py:178 | each call returns the next fresh id and advances the oracle by one |
| Storage.ApplySetsSpec | backend/app/services/image_processor.py:303-324 | an update_item SET list adds exactly its attribute names, keeps every other attribute, and gives each attribute its last assigned value |
| Storage.ApplySetsDistinct | backend/app/services/puzzle_service.py:186-200 | with distinct attribute names, each SET attribute holds its value afterwards |
| Storage.ItemOrKey | backend/app/services/image_processor.py:315-324 | update_item on a missing key starts from the key attributes alone (upsert) |
| Storage.StatusOfText | backend/app/services/puzzle_service.py:84 | a record's status attribute is read back as the status written |
| Text.SplitJoin | lambda/puzzle-register/index.py:32 | joining the parts of `split(',')` with the separator gives back the original text |
| Text.StripSpec | lambda/puzzle-register/index.py:32 | `strip()` keeps the stretch between leading and trailing white space and drops only white space |
| Text.StripIdempotent | lambda/puzzle-register/index.py:32 | stripping twice is stripping once |
| Text.LastPartIsSuffix | backend/app/services/puzzle_service.py:148 | `split('.')[-1]` is the suffix after the last dot, or the whole name when there is none |
| Text.Lower | backend/app/services/puzzle_service.py:148 | `lower()` keeps the length and lower-cases each character |
| Text.NatToStringInjective | backend/app/services/image_processor.py:67 | distinct counts render as distinct decimal strings |
| Grid.PieceGridsExact | backend/app/services/image_processor.py:24-30 | every grid in the table has rows × cols equal to its piece count |
| Grid.WideStartBounds | backend/app/services/image_processor.py:77-80 | in the wide case the starting column count lies between the base count and 1.5 times it |
| Grid.TallAlwaysCapped | backend/app/services/image_processor.py:86-89 | in the tall case the factor 1.2/aspect always exceeds 1.5, so the start is always 1.5 times the base rows |
| Grid.Correct | backend/app/services/image_processor.py:83-85 | the correction loop ends at the least divisor of the count that is at or above its start |
| Grid.Corrected | backend/app/services/image_processor.py:81-85 | the corrected dimension and its cofactor multiply to the piece count |
| Grid.GridExact | backend/app/services/image_processor.py:66-97 | a grid exists exactly when the count is in the table, and its rows × cols is the count |
| Grid.GridUnadjusted | backend/app/services/image_processor.py:95-97 | for aspect ratios from 0.67 to 1.5 the table's grid is returned unchanged |
| Grid.GridWide | backend/app/services/image_processor.py:77-85 | a wide image gets the least divisor at or above the scaled start as its column count |
| Grid.GridTall | backend/app/services/image_processor.py:86-94 | a tall image gets the least divisor at or above 1.5 times the base rows as its row count |
| Grid.GridGoldenWide | backend/app/services/image_processor.py:77-85 | 500 pieces of a 6000×2000 image give 10 rows of 50 |
| Grid.GridGoldenPlain | backend/app/services/image_processor.py:95-97 | 300 pieces of a 4000×3000 image give 15 rows of 20 |
| Grid.SpanEmptyIff | backend/app/services/image_processor.py:169-183 | a slice is empty exactly when the axis has no pixels, or has fewer pixels than slices and the slice is not the last |
| Grid.SpansTile | backend/app/services/image_processor.py:170-184 | the spans start at 0, meet end to end, stay inside the image, and the last one absorbs the remainder |
| Grid.RowWidthReaches | backend/app/services/image_processor.py:181-183 | the widths of a row's first k pieces add up to the right edge of the k-th |
| Grid.ColumnHeightReaches | backend/app/services/image_processor.py:182-184 | the heights of a column's first k pieces add up to the bottom edge of the k-th |
| Grid.PiecesCoverImage | backend/app/services/image_processor.py:170-186 | widths across every row sum to the image width and heights down every column to its height |
| Grid.TilingGolden | backend/app/services/image_processor.py:181-184 | the first and last pieces of a 15×20 cut of 4000×3000 are the expected rectangles |
| Grid.CorrectionLoop | backend/app/services/image_processor.py:83-85 | the while loop computes the corrected dimension and its cofactor |
| Grid.CalculateGrid | backend/app/services/image_processor.py:51-111 | calculate_grid fails exactly on unsupported counts and otherwise returns a grid of exactly that many cells |
| ImageProcessor.PieceObjectKeyInjective | backend/app/services/image_processor.py:194 | a piece's object key determines its piece id |
| ImageProcessor.PieceObjectKeyDistinct | backend/app/services/image_processor.py:178-194 | pieces with different ids get different object keys |
| ImageProcessor.DrawnSize | backend/app/services/image_processor.py:176-178 | n id draws for one puzzle give n distinct piece keys |
| ImageProcessor.FirstFailure | backend/app/services/image_processor.py:176-221 | the first cell in row-major order whose crop is empty or whose encode, upload or put fails; every earlier cell succeeds |
| ImageProcessor.EmptyCropBox | backend/app/services/image_processor.py:180-189 | a cell's crop box is empty exactly as EmptyCrop says: narrow image and not the last column, short image and not the last row, or no pixels |
| ImageProcessor.EmptyCropIff | backend/app/services/image_processor.py:169-189 | every crop box has pixels exactly when the image is at least cols pixels wide and rows pixels high; otherwise cell (0, 0) is empty |
| ImageProcessor.StatusUpdate | backend/app/services/image_processor.py:301-344 | the status update with every name aliased (the corrected update) fails exactly when update_item raises; it touches only its own record and never objects or pieces |
| ImageProcessor.FirstReserved | backend/app/services/image_processor.py:303-313 | the first name of a SET list that is a reserved word; none exactly when no name in the list is reserved |
| ImageProcessor.UnaliasedRejection | backend/app/services/image_processor.py:303-324 | as written, an update is rejected, changing nothing, exactly when a name it leaves unaliased is reserved, naming the first; otherwise it is the aliased update |
| ImageProcessor.AsWrittenFaults | backend/app/services/image_processor.py:233-282 | as written, the 'completed' and 'failed' updates always meet DynamoDB's rejection, and every other call meets only its given failure |
| ImageProcessor.AsWrittenProcessing | backend/app/services/image_processor.py:138-138 | the 'processing' update names no reserved word, so as written it is the aliased update with its own failure |
| ImageProcessor.AsWrittenCompleted | backend/app/services/image_processor.py:233-241 | the 'completed' update names `rows` first, so as written it is always rejected, as the aliased update under AsWrittenFaults |
| ImageProcessor.AsWrittenFailed | backend/app/services/image_processor.py:269-282 | the 'failed' update names `error`, so as written it is always rejected, as the aliased update under AsWrittenFaults |
| ImageProcessor.CellsWrittenIssued | backend/app/services/image_processor.py:176-178 | after n cells exactly n ids have been drawn and no puzzle record has changed |
| ImageProcessor.CellsWrittenPieces | backend/app/services/image_processor.py:176-221 | after n cells the pieces table has grown by exactly the n drawn piece keys |
| ImageProcessor.CellsWrittenObjects | backend/app/services/image_processor.py:193-200 | after n cells the bucket has grown by exactly the n piece objects |
| ImageProcessor.CellsWrittenStored | backend/app/services/image_processor.py:176-221 | every cell before the current one has its piece record and object stored |
| ImageProcessor.CellKeysDistinct | backend/app/services/image_processor.py:176-207 | different cells are stored under different piece keys |
| ImageProcessor.CellPieceFields | backend/app/services/image_processor.py:204-217 | a piece record has row == correctRow, col == correctCol, its object key as s3Key, and width and height equal to its crop box, inside the image |
| ImageProcessor.CellFailureEffect | backend/app/services/image_processor.py:186-220 | a failing cell draws one id, writes no record, and leaves an orphan object only when the put_item after the upload fails |
| ImageProcessor.PassFailureGrows | backend/app/services/image_processor.py:176-221 | when cell n fails, the pieces of the n earlier cells stay behind |
| ImageProcessor.StatusSetsApplied | backend/app/services/image_processor.py:303-324 | a status update sets status, updatedAt and each keyword attribute, and keeps every other attribute |
| ImageProcessor.StatusSetsNames | backend/app/services/image_processor.py:303-313 | the update expression names status, updatedAt and the keyword attributes, nothing else |
| ImageProcessor.GridPositive | backend/app/services/image_processor.py:167-171 | a computed grid has positive rows and columns, so the piece size divisions are defined |
| ImageProcessor.SourceSize | backend/app/services/image_processor.py:146-154 | an image that loads exists in the bucket and has positive dimensions |
| ImageProcessor.ImageProcessor.constructor | backend/app/services/image_processor.py:32-49 | the processor works on the given bucket and tables |
| ImageProcessor.ImageProcessor.UpdatePuzzleStatus | backend/app/services/image_processor.py:285-344 | _update_puzzle_status as written: DynamoDB's ValidationException, with nothing changed, when a keyword name is reserved; otherwise it changes only the puzzles table as StatusUpdate says, with an error exactly when update_item raises |
| ImageProcessor.ImageProcessor.CutPiece | backend/app/services/image_processor.py:178-221 | one loop iteration writes the cell's object and record, or fails as CellFailure says |
| ImageProcessor.ImageProcessor.CutPieces | backend/app/services/image_processor.py:174-231 | the nested loops write every cell in row-major order (rows × cols records) or stop at the first failing cell |
| ImageProcessor.ImageProcessor.Attempt | backend/app/services/image_processor.py:136-259 | the try block's effect and result are AttemptOutcome's for the code as written, that is under AsWrittenFaults |
| ImageProcessor.ImageProcessor.SplitImage | backend/app/services/image_processor.py:113-283 | split_image's effect and result are SplitOutcome's for the code as written, that is under AsWrittenFaults |
| SplitImage.PlannedCut | backend/app/services/image_processor.py:146-171 | a cut is planned only for a stored, decodable image and a supported count, with rows × cols equal to the count |
| SplitImage.FirstFailureEnd | backend/app/services/image_processor.py:176-221 | the loops run to the end exactly when no cell fails |
| SplitImage.SplitOkIff | backend/app/services/image_processor.py:136-259 | split_image succeeds exactly when no step fails, the image and count can be cut, and the image has at least one pixel per piece each way |
| SplitImage.AttemptOkIff | backend/app/services/image_processor.py:136-259 | the try block succeeds under the same conditions |
| SplitImage.NoCellFailsIff | backend/app/services/image_processor.py:175-221 | no cell raises exactly when every crop box has pixels and no encode, upload or put_item of the pass fails |
| SplitImage.FirstCellEmpty | backend/app/services/image_processor.py:169-189 | with fewer pixels than pieces, cell (0, 0) is the first to fail, and it fails on Pillow's empty-image error |
| SplitImage.TooFewPixelsFails | backend/app/services/image_processor.py:169-283 | an image with fewer pixels than pieces always fails; with the status updates and download working, the error is the wrapped empty-image message |
| SplitImage.TinyImageFails | backend/app/services/image_processor.py:169-189 | a 5×5 image cannot be cut into 100 pieces |
| SplitImage.SuccessShape | backend/app/services/image_processor.py:233-259 | success returns the summary and leaves the completed update applied after all cells |
| SplitImage.SplitSucceeds | backend/app/services/image_processor.py:253-259 | a success reports status completed and the grid, with totalPieces equal to the count and to rows × cols |
| SplitImage.SplitSucceedsPieces | backend/app/services/image_processor.py:176-221 | a success draws exactly count ids and adds exactly count new piece records |
| SplitImage.SplitSucceedsObjects | backend/app/services/image_processor.py:193-200 | a success adds exactly count new piece objects |
| SplitImage.SplitSucceedsCells | backend/app/services/image_processor.py:176-221 | after a success every cell's record and object are stored |
| SplitImage.CompletedSetsNames | backend/app/services/image_processor.py:234-241 | the completed update sets exactly rows, cols and total_pieces, each once |
| SplitImage.SuccessRecordShape | backend/app/services/image_processor.py:233-241 | the record is the processing update followed by the completed update |
| SplitImage.CompletedRecord | backend/app/services/image_processor.py:234-241 | the completed record has status completed, rows, cols, total_pieces and updatedAt, and keeps the rest |
| SplitImage.SplitSucceedsRecord | backend/app/services/image_processor.py:233-241 | after a success the record says completed with the grid and the piece count, and keeps its other attributes |
| SplitImage.MarkedRecord | backend/app/services/image_processor.py:138 | the first write marks the record processing |
| SplitImage.AttemptProcessingFails | backend/app/services/image_processor.py:138 | when marking processing fails nothing has changed and the ClientError is raised |
| SplitImage.AttemptSourceFails | backend/app/services/image_processor.py:146-167 | a failed download, a missing object, an unreadable image or an unsupported count fail after the processing mark, in that order of checks |
| SplitImage.AttemptPass | backend/app/services/image_processor.py:167-259 | once the cut is planned, the try block either stops at the first failing cell, fails on the completed update, or completes |
| SplitImage.AttemptFailurePuzzles | backend/app/services/image_processor.py:136-259 | a failed attempt leaves the puzzles table as the processing mark left it |
| SplitImage.FailedRecord | backend/app/services/image_processor.py:270 | the failed record has status failed, the error text and updatedAt, and keeps the rest |
| SplitImage.FailureShape | backend/app/services/image_processor.py:261-283 | on failure the record is marked failed with str(e) and the error is re-raised, or the marking's own ClientError escapes |
| SplitImage.SplitFailure | backend/app/services/image_processor.py:261-283 | a failure raises the ClientError itself, or a ValueError starting "Image processing failed: " for any other error; pieces and objects already written stay |
| SplitImage.SplitFailureRecord | backend/app/services/image_processor.py:269-282 | after a failure the record says failed with the error text; other records are untouched |
| SplitImage.SplitLeftProcessing | backend/app/services/image_processor.py:335-344 | when the failed update itself fails, the record stays processing |
| SplitImage.SplitFailsBeforeCutting | backend/app/services/image_processor.py:138-167 | a failure before the loops writes no piece and no object |
| SplitImage.UnsupportedCountFails | backend/app/services/image_processor.py:273-283 | an unsupported count is reported as "Image processing failed: Unsupported piece count: n" |
| SplitImage.MissingSourceFails | backend/app/services/image_processor.py:146-149 | a missing source object raises the S3 ClientError |
| SplitImage.UnreadableSourceFails | backend/app/services/image_processor.py:273-283 | an undecodable image is reported as an image processing ValueError |
| SplitImage.FailingCellShape | backend/app/services/image_processor.py:176-221 | a failing cell leaves the earlier pieces, one extra id drawn, and the matching error |
| SplitImage.SplitStopsAtFailingCell | backend/app/services/image_processor.py:176-221 | when cell n fails, exactly the n earlier pieces are stored, plus an orphan object when its put_item failed |
| SplitImage.SplitFailingCellKeepsEarlier | backend/app/services/image_processor.py:176-221 | every cell before the failing one keeps its record and object |
| SplitImage.SplitFailingCellError | backend/app/services/image_processor.py:261-283 | an encoding failure, an empty crop included, becomes a ValueError with Pillow's message; an upload or put_item failure is re-raised as the ClientError |
| SplitImage.AsWrittenSameCells | backend/app/services/image_processor.py:175-221 | DynamoDB's two rejections change no cell of the pass |
| SplitImage.SplitAsWrittenNeverCompletes | backend/app/services/image_processor.py:113-283 | as written, split_image always raises the ValidationException for `error`; past the processing mark the record stays processing, and with the other calls working every piece is stored first |
| SplitImage.SplitCompletedUpdateFails | backend/app/services/image_processor.py:233-241 | when the completed update fails, all pieces stay and a ClientError escapes |
| SplitImage.SplitKeepsOtherPuzzles | backend/app/services/image_processor.py:113-283 | split_image touches no puzzle record but its own |
| PuzzleService.Decimals | backend/app/services/puzzle_service.py:70 | each count is rendered by str() |
| PuzzleService.InvalidCountMessageText | backend/app/services/puzzle_service.py:67-71 | the message reads "pieceCount must be one of: 100, 300, 500, 1000, 2000" |
| PuzzleService.ValidCountsHaveGrids | backend/app/services/puzzle_service.py:67 | the counts the service accepts are exactly the counts the processor has grids for |
| PuzzleService.CreateRejectsInvalidCount | backend/app/services/puzzle_service.py:67-71 | an unsupported count raises the ValueError before anything is written or an id is drawn |
| PuzzleService.CreateStoresPending | backend/app/services/puzzle_service.py:74-119 | create succeeds exactly when the count is valid and put_item works; the record read back is pending, with createdAt == updatedAt, the count and the name, under a fresh id |
| PuzzleService.CreateTouchesOnlyItsRecord | backend/app/services/puzzle_service.py:74-100 | create adds only its own record, draws one id for a valid count, and changes nothing on failure |
| PuzzleService.CreatesDistinctIds | backend/app/services/puzzle_service.py:74 | two successive creates return different puzzle ids |
| PuzzleService.ListAgreesWithGet | backend/app/services/puzzle_service.py:231-287 | a record is listed for its user exactly when get finds it, and with the same content |
| PuzzleService.ListOnlyOwn | backend/app/services/puzzle_service.py:261-287 | list returns only the user's stored records, and nothing when the query raises |
| PuzzleService.CreatedIsListed | backend/app/services/puzzle_service.py:261-278 | a created puzzle appears in its user's list |
| PuzzleService.UploadRejectsMissing | backend/app/services/puzzle_service.py:143-145 | a missing puzzle, or a failed lookup, raises "Puzzle not found" and changes nothing |
| PuzzleService.UploadFaultChangesNothing | backend/app/services/puzzle_service.py:160-211 | a failed presign or update_item re-raises the ClientError and changes nothing |
| PuzzleService.UploadExtensionSpec | backend/app/services/puzzle_service.py:148 | the extension is the text after the last dot, lower-cased |
| PuzzleService.ContentTypeFor | backend/app/services/puzzle_service.py:150-157 | the content type is image/png for png and image/jpeg for everything else |
| PuzzleService.UploadKeyInjective | backend/app/services/puzzle_service.py:149 | the object key determines both the puzzle id and the extension |
| PuzzleService.UploadSucceeds | backend/app/services/puzzle_service.py:121-229 | upload succeeds exactly when the puzzle exists and both calls work; the URL is for puzzles/id.ext with a 900-second expiry; the record gets fileName, s3Key, status uploaded and updatedAt, and keeps everything else |
| PuzzleService.UploadIgnoresLifecycle | backend/app/services/puzzle_service.py:186-200 | a record that has moved past pending is set back to uploaded, a transition the status comment does not allow |
| PuzzleService.DefaultNameIsJpeg | backend/app/services/puzzle_service.py:148-157 | puzzle.jpg gives extension jpg and image/jpeg |
| PuzzleService.UpperCasePngIsPng | backend/app/services/puzzle_service.py:148-157 | Photo.Final.PNG gives extension png and image/png |
| PuzzleService.OtherNamesAreJpeg | backend/app/services/puzzle_service.py:148-157 | scan (no dot) gives jpg, and anim.gif gives gif; both are served as image/jpeg |
| PuzzleService.DeleteRejectsMissing | backend/app/services/puzzle_service.py:305-307 | deleting a missing puzzle raises "Puzzle not found" and changes nothing |
| PuzzleService.DeleteRemoves | backend/app/services/puzzle_service.py:289-368 | delete succeeds exactly when the puzzle exists and delete_item works; the record is gone, and its image is removed unless that delete failed |
| PuzzleService.DeleteRecordFault | backend/app/services/puzzle_service.py:338-354 | when delete_item fails, the image is already gone, the record stays, and the ClientError escapes |
| PuzzleService.DeleteSparesOtherImages | backend/app/services/puzzle_service.py:309-330 | delete removes no object but the puzzle's own image |
| PuzzleService.PuzzleService.constructor | backend/app/services/puzzle_service.py:24-43 | the service works on the given bucket and table |
| PuzzleService.PuzzleService.GetPuzzle | backend/app/services/puzzle_service.py:231-259 | get_puzzle reads the stored record as GetOutcome says |
| PuzzleService.PuzzleService.ListPuzzles | backend/app/services/puzzle_service.py:261-287 | list_puzzles reads the user's records as ListOutcome says |
| PuzzleService.PuzzleService.CreatePuzzle | backend/app/services/puzzle_service.py:45-119 | create_puzzle changes the table and the id oracle as CreateOutcome says |
| PuzzleService.PuzzleService.GenerateUploadUrl | backend/app/services/puzzle_service.py:121-229 | generate_upload_url changes the table as UploadOutcome says |
| PuzzleService.PuzzleService.DeletePuzzle | backend/app/services/puzzle_service.py:289-368 | delete_puzzle changes the bucket and the table as DeleteOutcome says |
| PuzzleLogic.LegacyContentType | backend/puzzle_logic.py:136 | the legacy content type is "image/" followed by the extension as given |
| PuzzleLogic.LegacyExtensionLower | backend/puzzle_logic.py:126 | the legacy extension lower-cased is the current service's extension |
| PuzzleLogic.UpperCaseJpgLegacy | backend/puzzle_logic.py:126 | photo.JPG keeps the extension JPG as written |
| PuzzleLogic.UpperCaseJpgService | backend/app/services/puzzle_service.py:148-157 | the current service maps photo.JPG to jpg and image/jpeg |
| PuzzleLogic.UploadKeysApart | backend/puzzle_logic.py:127 | different extensions give different object keys for one puzzle |
| PuzzleLogic.NoDotIsImageJpg | backend/puzzle_logic.py:126-136 | without a dot the legacy service sends image/jpg, the current one image/jpeg |
| PuzzleLogic.RaisedAsWrittenLosesCause | backend/puzzle_logic.py:82-86 | as written, the re-raise is not a ClientError and is the same whatever failed |
| PuzzleLogic.RaisedAsWrittenIsNotWrapped | backend/puzzle_logic.py:140-144 | as written, no wrap produces the intended error |
| PuzzleLogic.Wrapped | backend/puzzle_logic.py:166-170 | the intended wrap is a ClientError whose text is the step, ": ", then str(e) |
| PuzzleLogic.WrappedKeepsCause | backend/puzzle_logic.py:82-86 | two wraps of one step are equal exactly when their causes' texts are |
| PuzzleLogic.LegacyCreateAgrees | backend/puzzle_logic.py:36-97 | legacy create changes the table exactly as the current one does and returns the same result, except on a storage error: as written it raises AttributeError, with the intended wrap it raises the wrapped ClientError |
| PuzzleLogic.LegacyUploadAgrees | backend/puzzle_logic.py:99-180 | legacy upload succeeds exactly when the current one does, with a 3600-second expiry, the key puzzles/id.ext and content type image/ext; it changes the same records, identically when the extension is already lower-case; a storage error raises AttributeError as written and the wrapped ClientError of the failed step as intended |
| PuzzleLogic.LegacyUploadRecord | backend/puzzle_logic.py:149-165 | after a legacy upload the record is uploaded, with the key and file name; no other record changes |
| PuzzleLogic.LegacyPuzzleService.constructor | backend/puzzle_logic.py:18-34 | the legacy service works on the given bucket and table |
| PuzzleLogic.LegacyPuzzleService.GetPuzzle | backend/puzzle_logic.py:182-203 | get_puzzle reads like the current service's |
| PuzzleLogic.LegacyPuzzleService.ListPuzzles | backend/puzzle_logic.py:205-225 | list_puzzles reads like the current service's |
| PuzzleLogic.LegacyPuzzleService.CreatePuzzle | backend/puzzle_logic.py:36-97 | create_puzzle changes the table as LegacyCreateOutcome says for the code as written, so a storage error surfaces as AttributeError |
| PuzzleLogic.LegacyPuzzleService.GenerateUploadUrl | backend/puzzle_logic.py:99-180 | generate_upload_url changes the table as LegacyUploadOutcome says for the code as written, so a storage error surfaces as AttributeError |
| PuzzleRegister.AllowedOriginsList | lambda/puzzle-register/index.py:30-32 | the allowed-origin list is never empty, so the fallback at line 138 is unreachable |
| PuzzleRegister.AllowedOriginsSpec | lambda/puzzle-register/index.py:30-32 | the list holds each comma-separated entry, stripped, in order; no entry holds a comma or surrounding white space |
| PuzzleRegister.SingleOrigin | lambda/puzzle-register/index.py:30-32 | a setting with one unpadded origin allows exactly that origin |
| PuzzleRegister.DefaultOriginsList | lambda/puzzle-register/index.py:30 | with ALLOWED_ORIGINS unset only http://localhost:3000 is allowed |
| PuzzleRegister.CorsOriginAllowed | lambda/puzzle-register/index.py:134-138 | the allowed origin is always in the list, and is the request's origin exactly when that is listed; otherwise it is the first entry |
| PuzzleRegister.ResponseHeadersSpec | lambda/puzzle-register/index.py:123-150 | every response has the five fixed CORS headers; with null event headers create_response raises |
| PuzzleRegister.ReplyKinds | lambda/puzzle-register/index.py:57-120 | the handler answers 200 only with a created puzzle; a 500 says "Internal server error" with details exactly when ENVIRONMENT is not prod |
| PuzzleRegister.RequiredFields | lambda/puzzle-register/index.py:59-75 | a missing or falsy pieceCount is reported before a missing or empty puzzleName, and neither writes anything |
| PuzzleRegister.CreateMapped | lambda/puzzle-register/index.py:62-101 | with both fields present the handler's effect is create_puzzle's: success is 200, a ValueError 400 with its text, any other error 500 |
| PuzzleRegister.AnonymousByDefault | lambda/puzzle-register/index.py:64 | a puzzle registered without userId is stored under anonymous |
| PuzzleRegister.NonNumericCountRejected | lambda/puzzle-register/index.py:62-82 | a truthy pieceCount that is not a number is answered 400 with the count message, and nothing is written |
| PuzzleRegister.MalformedBodyCrashes | lambda/puzzle-register/index.py:59-101 | called without a context (a direct call), the handler as written crashes on a body that is not JSON, where the corrected handler answers 400 with the decoder's message; on every other event the two agree |
| PuzzleRegister.RuntimeContextCrashes | lambda/puzzle-register/index.py:48-55 | called by the Lambda runtime, whose context has no `request_id`, the handler as written raises AttributeError on every event and writes nothing, even where the corrected handler answers 200 |
| Schemas.ValidateCreateSpec | backend/app/core/schemas.py:13-33 | a create request is valid exactly when the name has 1 to 100 characters and the count lies in 100..2000; userId defaults to anonymous and is unbounded; a failure names exactly the failing fields |
| Schemas.SchemaAdmitsUnsupportedCount | backend/schemas.py:22-28 | 150 passes the schema's range and is then refused by create_puzzle |
| Schemas.SupportedCountsPassSchema | backend/app/core/schemas.py:22-28 | every count create_puzzle accepts passes the schema |
| Schemas.DefaultUploadIsJpeg | backend/schemas.py:47-58 | without a fileName the upload request asks for puzzle.jpg, that is jpg and image/jpeg; given values are kept |
| Schemas.ValidateErrorSpec | backend/app/core/schemas.py:71-74 | an error response needs its error text; details is None unless given |
| RegisterForm.RuleMessagesDistinct | frontend/src/pages/auth/Register.tsx:28-49 | each password rule has its own message |
| RegisterForm.Utf16Length | frontend/src/pages/auth/Register.tsx:34 | a password's length counts UTF-16 code units: at least its characters, at most twice that |
| RegisterForm.BrokenRuleOrder | frontend/src/pages/auth/Register.tsx:28-49 | each rule is reported exactly when all earlier rules hold and it fails; nothing is reported exactly when the password is acceptable |
| RegisterForm.AcceptedByWitnesses | frontend/src/pages/auth/Register.tsx:33-49 | a confirmed password of 8 or more characters with an upper-case letter, a lower-case letter and a digit is accepted |
| RegisterForm.LengthInCodeUnits | frontend/src/pages/auth/Register.tsx:34-37 | seven ASCII characters are too short, but six and an emoji are long enough |
| RegisterForm.FailureText | frontend/src/pages/auth/Register.tsx:58 | an error's own message is shown when it has one, else the fallback |
| RegisterForm.RegisterPage.constructor | frontend/src/pages/auth/Register.tsx:13-20 | the page starts with empty fields, no messages, not loading, on the sign-up form |
| RegisterForm.RegisterPage.SetEmail | frontend/src/pages/auth/Register.tsx:121 | typing an e-mail address changes only the e-mail field |
| RegisterForm.RegisterPage.SetPassword | frontend/src/pages/auth/Register.tsx:139 | typing a password changes only the password field |
| RegisterForm.RegisterPage.SetConfirmPassword | frontend/src/pages/auth/Register.tsx:160 | typing the confirmation changes only that field |
| RegisterForm.RegisterPage.SetVerificationCode | frontend/src/pages/auth/Register.tsx:197 | typing the code changes only that field |
| RegisterForm.RegisterPage.HandleRegister | frontend/src/pages/auth/Register.tsx:22-62 | both messages are cleared; a broken rule shows its message and nothing is called; otherwise register is called while loading and loading ends false afterwards; success asks for the code, failure shows err.message or the fallback |
| RegisterForm.RegisterPage.HandleConfirm | frontend/src/pages/auth/Register.tsx:64-80 | confirmRegistration is called while loading; success announces completion and schedules the redirect, failure shows the error and keeps the earlier success text |

## Left out

- The identifiers `uuid4` returns are modelled as distinct strings drawn from a counter. Their UUID format is not modelled.
- `datetime.utcnow()` is a `now` parameter, one per operation. In split_image all pieces of one run share that value; the code reads the clock per piece.
- Pillow is left out: decoding, cropping and JPEG encoding at quality 85. An image is its size (or undecodable). Encoding a piece fails on an empty crop with Pillow's "cannot write empty image as JPEG", and otherwise fails only through the fault map. Pixel content is not modelled.
- A pre-signed URL is a record of bucket, key, content type and expiry. The signature and the HTTP upload are not modelled.
- `query` paging and result order are not modelled; `list_puzzles` returns a map keyed by primary key.
- Logging, `print`, and the `environment` constructor argument the services store but never read are left out. Of the Lambda `context`, only whether it is None is modelled, since the handler's log lines read `context.request_id`: the object the AWS runtime passes has no such attribute, so with it the first log line raises AttributeError on every invocation (see Findings); the model's other handler lemmas describe a call with `context` None.
- The texts of library errors (S3 NoSuchKey, Pillow's unreadable image) are fixed constants.
- Grid.CalculateGrid: the float thresholds 1.5 and 0.67 and the factors are compared as exact rationals. At float-rounding boundaries the model may differ from the code.
- ImageProcessor.ReservedWords: only part of DynamoDB's reserved-word list is modelled: the names this code writes that are on it (`status`, `rows`, `error`) and a few common ones. The rejection's text is botocore's usual ClientError form.
- Text.Lower: only ASCII letters are lower-cased. Python's `str.lower()` also lower-cases other Unicode letters, and for 'İ' it changes the length.
- Text.StripSpec: only ASCII white space is stripped. Python's `str.strip()` also strips Unicode white space such as U+3000.
- Grid.CalculateGrid: a zero image width or height raises ZeroDivisionError in the code. The model requires positive dimensions.
- An `s3Key` attribute that is not a string is treated as absent by delete_puzzle.
- The Lambda's module-level reads of S3_BUCKET_NAME, PUZZLES_TABLE_NAME and PIECES_TABLE_NAME are not modelled. They fail at import when unset.
- Lambda inputs that are not modelled:
  - a puzzleName or userId that is not a JSON string (the code would store it as given);
  - a JSON `null` userId;
  - a floating-point pieceCount.
- The Lambda's `json.dumps` serialisation is not modelled; a response body is kept as structured data.
- Pydantic's coercion of inputs (the string "300", the float 300.0) is not modelled; schema inputs arrive typed.
- The browser's own form checks are not modelled: `required` inputs, e-mail syntax and the disabled button.
- Rendering, the two-second redirect itself, and interleavings of the asynchronous handlers are not modelled. Each handler runs to completion with its call's outcome as a parameter.
- Concurrent or duplicate invocations on one puzzle are not modelled. The code has no locking.

## Findings

| source | as written | input that shows it | evidently intended | confidence | as-written member | corrected member |
|---|---|---|---|---|---|---|
| backend/puzzle_logic.py:82-86 | `raise ClientError(f"...: {str(e)}", operation_name=...)` passes a string where botocore's ClientError takes its error-response dictionary; the constructor calls `.get` on it and raises AttributeError. The same holds at lines 140-144 and 166-170 | any failing put_item in create_puzzle | a ClientError whose text names the failed step followed by str(e) | medium, it rests on botocore's constructor signature; not executed | PuzzleLogic.RaisedAsWritten | PuzzleLogic.Wrapped |
| lambda/puzzle-register/index.py:87-96 | the `except ValueError` clause logs `body.get(...)`, but `body` is unbound when `json.loads` at line 59 itself raised, so an UnboundLocalError escapes the handler | an event whose body is `{`, in a call with `context` None | a 400 response carrying the decoder's message | high; not executed | PuzzleRegister.HandlerAsWritten | PuzzleRegister.HandlerOutcome |
| lambda/puzzle-register/index.py:48-55 | the log line before the `try` evaluates `context.request_id if context else None`; the context object the AWS Lambda Python runtime passes is truthy and has `aws_request_id` but no `request_id`, so AttributeError escapes before the body is read. Lines 92 and 109 repeat the expression | any invocation through the Lambda runtime | the request id logged and the event handled | high; not executed | PuzzleRegister.HandlerAsWritten | PuzzleRegister.HandlerOutcome |
| backend/app/services/image_processor.py:303-313 | `_update_puzzle_status` aliases only `status` and appends each keyword as `, {key} = :{key}`; the 'completed' update (line 238) names `rows` and the 'failed' updates (lines 270, 282) name `error`, both DynamoDB reserved words, so DynamoDB rejects both with a ValidationException | any run whose 'processing' update goes through | each keyword aliased as `#key`, so the record ends `completed` or `failed` | medium, it rests on DynamoDB's reserved-word list; not executed | ImageProcessor.StatusUpdateAsWritten | ImageProcessor.StatusUpdate |
