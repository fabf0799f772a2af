/**
 * The cloud resources both backend services talk to, modelled as values:
 * the S3 bucket (an object map), the puzzles table keyed by
 * (userId, puzzleId), the pieces table, and the process-wide `uuid4`
 * generator. Items are DynamoDB attribute maps; `ApplySets` is the effect of
 * an `update_item` whose UpdateExpression is a list of `SET name = value`.
 */
module Storage {
  import opened Wrappers

  /** A DynamoDB attribute value, as this code writes them. */
  datatype Attr = S(s: string) | N(n: int)

  /** A DynamoDB item: attribute name to value. */
  type Item = map<string, Attr>

  /** Primary key of the puzzles table. */
  datatype PuzzleKey = PuzzleKey(userId: string, puzzleId: string)

  /** Key of a piece record: the puzzle it belongs to and its own id. */
  datatype PieceKey = PieceKey(puzzleId: string, pieceId: string)

  /** A crop box in pixels, as Pillow's `(left, top, right, bottom)`. */
  datatype Rect = Rect(left: int, top: int, right: int, bottom: int)

  /**
   * The content of an S3 object, as far as the core looks at it: an uploaded
   * image file that decodes to `width` x `height` pixels, bytes that are not
   * an image, or the JPEG encoding of a crop of the image stored at `source`.
   */
  datatype Blob =
    | Picture(width: nat, height: nat)
    | Unreadable
    | PieceJpeg(source: string, box: Rect)

  datatype StoredObject = StoredObject(body: Blob, contentType: string)

  /** Pillow's `Image.open(...).size`, or None when Pillow raises. */
  function Decode(b: Blob): (d: Option<(nat, nat)>)
    ensures d.Some? ==> d.value.0 > 0 && d.value.1 > 0
  {
    match b
    case Picture(w, h) => if w > 0 && h > 0 then Some((w, h)) else None
    case Unreadable => None
    case PieceJpeg(_, r) =>
      if r.right > r.left && r.bottom > r.top then Some((r.right - r.left, r.bottom - r.top)) else None
  }

  /**
   * The exceptions the core raises or catches: botocore's `ClientError`,
   * Python's `ValueError`, the errors Pillow raises while decoding or
   * encoding an image, and Python's `AttributeError` (a method called on an
   * object that has none). `message` is `str(e)`.
   */
  datatype Error =
    | ClientError(message: string)
    | ValueError(message: string)
    | ImageError(message: string)
    | AttributeError(message: string)

  /** The values of a puzzle record's `status` attribute. */
  datatype Status = Pending | Uploaded | Processing | Completed | Failed
  {
    function Text(): string
    {
      match this
      case Pending => "pending"
      case Uploaded => "uploaded"
      case Processing => "processing"
      case Completed => "completed"
      case Failed => "failed"
    }
  }

  /** The status stored in an item, if it holds one of the five status texts. */
  function StatusOf(item: Item): (st: Option<Status>)
    ensures st.Some? ==> "status" in item && item["status"] == S(st.value.Text())
  {
    if "status" !in item then None
    else match item["status"]
      case S(t) =>
        if t == "pending" then Some(Pending)
        else if t == "uploaded" then Some(Uploaded)
        else if t == "processing" then Some(Processing)
        else if t == "completed" then Some(Completed)
        else if t == "failed" then Some(Failed)
        else None
      case N(_) => None
  }

  /** An item whose `status` holds a status text reads back as that status. */
  lemma StatusOfText(item: Item, st: Status)
    requires "status" in item && item["status"] == S(st.Text())
    ensures StatusOf(item) == Some(st)
  {
    match st
    case Pending =>
    case Uploaded =>
    case Processing =>
    case Completed =>
    case Failed =>
  }

  /**
   * The lifecycle the designers intended: pending -> uploaded -> processing
   * -> completed | failed. Nothing in the code enforces it.
   */
  predicate IntendedTransition(from: Status, to: Status)
  {
    || (from == Pending && to == Uploaded)
    || (from == Uploaded && to == Processing)
    || (from == Processing && (to == Completed || to == Failed))
  }

  /**
   * Every external call the core makes. A fault plan maps the calls that
   * raise to the text of the error they raise.
   */
  datatype Step =
    // PuzzleService / puzzle_logic
    | GetPuzzleItem | PutPuzzleItem | UpdatePuzzleItem | DeletePuzzleItem | QueryPuzzles
    | PresignUpload | DeleteImageObject
    // ImageProcessor.split_image
    | MarkProcessing | FetchSource | EncodePiece(row: nat, col: nat)
    | PutPieceObject(row: nat, col: nat) | PutPieceItem(row: nat, col: nat)
    | MarkCompleted | MarkFailed

  type Faults = map<Step, string>

  /**
   * The id `uuid4()` hands out as its `n`-th value (0-based). Only its
   * uniqueness matters to the core, so ids are modelled as strings told
   * apart by their length.
   */
  function Uuid(n: nat): (id: string)
    ensures |id| == n + 1
  {
    seq(n + 1, _ => 'u')
  }

  /** `uuid4` never repeats itself. */
  lemma UuidDistinct(a: nat, b: nat)
    requires a != b
    ensures Uuid(a) != Uuid(b)
  {
    assert |Uuid(a)| != |Uuid(b)|;
  }

  /** Attribute names a list of `SET` assignments touches. */
  function Names(sets: seq<(string, Attr)>): set<string>
  {
    set i | 0 <= i < |sets| :: sets[i].0
  }

  /**
   * The item after `update_item` applies `SET n1 = v1, n2 = v2, ...`: each
   * assignment in turn, so a later assignment to a name wins.
   */
  function ApplySets(item: Item, sets: seq<(string, Attr)>): Item
    decreases |sets|
  {
    if sets == [] then item else ApplySets(item[sets[0].0 := sets[0].1], sets[1..])
  }

  /**
   * The named attributes take their new values (the last assignment to a
   * name wins), and all other attributes keep theirs.
   */
  lemma {:induction false} ApplySetsSpec(item: Item, sets: seq<(string, Attr)>)
    ensures ApplySets(item, sets).Keys == item.Keys + Names(sets)
    ensures forall a :: a in item && a !in Names(sets) ==> ApplySets(item, sets)[a] == item[a]
    ensures forall i :: 0 <= i < |sets| && sets[i].0 !in Names(sets[i + 1..]) ==> ApplySets(item, sets)[sets[i].0] == sets[i].1
    decreases |sets|
  {
    if sets != [] {
      var rest := sets[1..];
      ApplySetsSpec(item[sets[0].0 := sets[0].1], rest);
      assert Names(sets) == {sets[0].0} + Names(rest) by {
        forall a | a in Names(sets) ensures a in {sets[0].0} + Names(rest) {
          var i :| 0 <= i < |sets| && sets[i].0 == a;
          if i > 0 { assert rest[i - 1] == sets[i]; }
        }
        forall a | a in Names(rest) ensures a in Names(sets) {
          var i :| 0 <= i < |rest| && rest[i].0 == a;
          assert sets[i + 1] == rest[i];
        }
      }
      forall i | 1 <= i < |sets| ensures sets[i + 1..] == rest[i..] && sets[i] == rest[i - 1] { }
    }
  }

  /** A SET list is applied from its first assignment on. */
  lemma ApplySetsCons(item: Item, a: string, v: Attr, rest: seq<(string, Attr)>)
    ensures ApplySets(item, [(a, v)] + rest) == ApplySets(item[a := v], rest)
  {
    var sets := [(a, v)] + rest;
    assert sets[0] == (a, v) && sets[1..] == rest;
  }

  /** When no name repeats, every assignment of a `SET` list shows in the result. */
  lemma ApplySetsDistinct(item: Item, sets: seq<(string, Attr)>)
    requires forall i, j :: 0 <= i < j < |sets| ==> sets[i].0 != sets[j].0
    ensures forall i :: 0 <= i < |sets| ==> sets[i].0 in ApplySets(item, sets) && ApplySets(item, sets)[sets[i].0] == sets[i].1
  {
    ApplySetsSpec(item, sets);
    forall i | 0 <= i < |sets| ensures sets[i].0 !in Names(sets[i + 1..]) {
      var rest := sets[i + 1..];
      forall a | a in Names(rest) ensures a != sets[i].0 {
        var j :| 0 <= j < |rest| && rest[j].0 == a;
        assert rest[j] == sets[i + 1 + j];
      }
    }
  }

  /**
   * The record `update_item` works on: the stored item, or, since
   * `update_item` creates what is missing, an item holding only the key.
   */
  function ItemOrKey(table: map<PuzzleKey, Item>, key: PuzzleKey): (item: Item)
    ensures key in table ==> item == table[key]
    ensures key !in table ==> item.Keys == {"userId", "puzzleId"}
  {
    if key in table then table[key]
    else map["userId" := S(key.userId), "puzzleId" := S(key.puzzleId)]
  }

  /**
   * `after` is `before` grown by the keys `d`: it holds exactly the keys of
   * `before` and of `d`, and every key of `before` outside `d` keeps its value.
   */
  predicate Grown<K, V(==)>(before: map<K, V>, d: set<K>, after: map<K, V>)
  {
    && after.Keys == before.Keys + d
    && forall key :: key in before && key !in d ==> after[key] == before[key]
  }

  /** Storing one more entry grows a map by one more key. */
  lemma GrownStep<K, V>(before: map<K, V>, d: set<K>, after: map<K, V>, k: K, v: V)
    requires Grown(before, d, after)
    ensures Grown(before, d + {k}, after[k := v])
  {
  }

  /** Everything the backend stores, as one value. */
  datatype World = World(
    objects: map<string, StoredObject>,
    puzzles: map<PuzzleKey, Item>,
    pieces: map<PieceKey, Item>,
    issued: nat)

  /** The S3 bucket, the two DynamoDB tables and the `uuid4` generator. */
  class Backend {
    var objects: map<string, StoredObject>
    var puzzles: map<PuzzleKey, Item>
    var pieces: map<PieceKey, Item>
    var issued: nat

    constructor ()
      ensures objects == map[] && puzzles == map[] && pieces == map[] && issued == 0
    {
      objects, puzzles, pieces, issued := map[], map[], map[], 0;
    }

    function Snapshot(): World
      reads this
    {
      World(objects, puzzles, pieces, issued)
    }

    /** `str(uuid.uuid4())`. */
    method NewUuid() returns (id: string)
      modifies this`issued
      ensures id == Uuid(old(issued)) && issued == old(issued) + 1
    {
      id := Uuid(issued);
      issued := issued + 1;
    }
  }
}
