/**
 * The request and response schemas (backend/app/core/schemas.py, and its
 * byte-identical copy backend/schemas.py): declarative field constraints
 * and defaults, modelled as validation functions from the fields a client
 * sent (None when a field is absent) to the model object or the set of
 * fields that failed.
 */
module Schemas {
  import opened Wrappers
  import opened Storage
  import opened PuzzleService

  const MaxNameLength: nat := 100
  const MinPieceCount := 100
  const MaxPieceCount := 2000

  datatype CreateInput = CreateInput(puzzleName: Option<string>, pieceCount: Option<int>, userId: Option<string>)
  datatype CreateRequest = CreateRequest(puzzleName: string, pieceCount: int, userId: string)

  datatype UploadInput = UploadInput(fileName: Option<string>, userId: Option<string>)
  datatype UploadRequest = UploadRequest(fileName: string, userId: string)

  datatype ErrorInput = ErrorInput(error: Option<string>, details: Option<string>)
  datatype ErrorResponse = ErrorResponse(error: string, details: Option<string>)

  /** puzzleName: required, between 1 and 100 characters. */
  predicate NameOk(name: Option<string>)
  {
    name.Some? && 1 <= |name.value| <= MaxNameLength
  }

  /** pieceCount: required, an integer in the closed range 100..2000. */
  predicate CountOk(count: Option<int>)
  {
    count.Some? && MinPieceCount <= count.value <= MaxPieceCount
  }

  /** The fields of a PuzzleCreateRequest that fail validation. */
  function CreateFieldErrors(input: CreateInput): set<string>
  {
    (if NameOk(input.puzzleName) then {} else {"puzzleName"})
    + (if CountOk(input.pieceCount) then {} else {"pieceCount"})
  }

  /** PuzzleCreateRequest(**input): the model object, or every failing field. */
  function ValidateCreate(input: CreateInput): Result<CreateRequest, set<string>>
  {
    var errs := CreateFieldErrors(input);
    if errs != {} then Err(errs)
    else Ok(CreateRequest(input.puzzleName.value, input.pieceCount.value, input.userId.GetOr("anonymous")))
  }

  /**
   * A create request validates exactly when the name has 1 to 100
   * characters and the count lies in 100..2000; it then keeps the fields as
   * sent, with userId 'anonymous' when absent and unbounded otherwise. A
   * failure names exactly the failing fields.
   */
  lemma ValidateCreateSpec(input: CreateInput)
    ensures var r := ValidateCreate(input);
      && (r.Ok? <==> input.puzzleName.Some? && 1 <= |input.puzzleName.value| <= 100
                     && input.pieceCount.Some? && 100 <= input.pieceCount.value <= 2000)
      && (r.Ok? ==> r.value.puzzleName == input.puzzleName.value && r.value.pieceCount == input.pieceCount.value)
      && (r.Ok? && input.userId.None? ==> r.value.userId == "anonymous")
      && (r.Ok? && input.userId.Some? ==> r.value.userId == input.userId.value)
      && (r.Err? ==> ("puzzleName" in r.error <==> !NameOk(input.puzzleName))
                     && ("pieceCount" in r.error <==> !CountOk(input.pieceCount))
                     && r.error <= {"puzzleName", "pieceCount"})
  {
  }

  /**
   * The schema checks a range where the service checks a set: a count of
   * 150 passes validation and is then refused by create_puzzle, which
   * changes nothing.
   */
  lemma SchemaAdmitsUnsupportedCount(w: World, name: string, now: string, f: Faults)
    requires 1 <= |name| <= 100
    ensures ValidateCreate(CreateInput(Some(name), Some(150), None)).Ok?
    ensures var (w', r) := CreateOutcome(w, 150, name, "anonymous", now, f);
      w' == w && r.Err? && r.error.ValueError?
  {
  }

  /** Every count the service supports passes the schema: its range never rejects a valid request. */
  lemma SupportedCountsPassSchema(w: World, pieceCount: int, name: string, userId: string, now: string, f: Faults)
    requires 1 <= |name| <= 100
    requires CreateOutcome(w, pieceCount, name, userId, now, f).1.Ok?
    ensures ValidateCreate(CreateInput(Some(name), Some(pieceCount), Some(userId))) == Ok(CreateRequest(name, pieceCount, userId))
  {
    assert pieceCount in ValidPieceCounts;
  }

  /** UploadUrlRequest(**input): always valid; fileName defaults to 'puzzle.jpg', userId to 'anonymous'. */
  function ValidateUpload(input: UploadInput): UploadRequest
  {
    UploadRequest(input.fileName.GetOr("puzzle.jpg"), input.userId.GetOr("anonymous"))
  }

  /**
   * An upload request without a file name asks for a JPEG: the default
   * name's extension is 'jpg' and its content type image/jpeg; a name that
   * was sent is kept as sent.
   */
  lemma DefaultUploadIsJpeg(input: UploadInput)
    ensures input.fileName.None? ==>
      && UploadExtension(ValidateUpload(input).fileName) == "jpg"
      && ContentTypeFor(UploadExtension(ValidateUpload(input).fileName)) == "image/jpeg"
    ensures input.fileName.Some? ==> ValidateUpload(input).fileName == input.fileName.value
    ensures ValidateUpload(input).userId == (if input.userId.Some? then input.userId.value else "anonymous")
  {
    DefaultNameIsJpeg();
  }

  /** ErrorResponse(**input): `error` is required, `details` defaults to None. */
  function ValidateError(input: ErrorInput): Result<ErrorResponse, set<string>>
  {
    if input.error.None? then Err({"error"}) else Ok(ErrorResponse(input.error.value, input.details))
  }

  /** An error response validates exactly when it has an error text, and has no details unless given. */
  lemma ValidateErrorSpec(input: ErrorInput)
    ensures var r := ValidateError(input);
      && (r.Ok? <==> input.error.Some?)
      && (r.Err? ==> r.error == {"error"})
      && (r.Ok? ==> r.value.error == input.error.value
                    && (r.value.details.Some? <==> input.details.Some?)
                    && (input.details.Some? ==> r.value.details.value == input.details.value))
  {
  }
}
