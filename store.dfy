/**
 * The receipt store and the two request handlers around it: processing a
 * submitted receipt (validate, score, store under a fresh id) and looking
 * up the points of a stored receipt.
 *
 * The id a receipt is stored under is generated by a UUID library in the
 * service; here it is a parameter of ProcessReceipt.
 */
module Store {
  import opened Wrappers
  import opened Conv
  import opened Receipts
  import opened Validator
  import opened Scoring

  /**
   * `strconv.Atoi` with its error ignored, as getReceiptByID reads points:
   * the empty text of a receipt never scored reads as 0, and the text the
   * service writes for a score reads back as that score.
   */
  function PointsOf(r: Receipt): (p: int)
    ensures r.points == "" ==> p == 0
    ensures forall n: int :: r.points == FormatInt(n) ==> p == n
  {
    assert forall n: int :: r.points == FormatInt(n) ==> Atoi(r.points) == Some(n) by {
      forall n: int | r.points == FormatInt(n)
        ensures Atoi(r.points) == Some(n)
      {
        AtoiFormatInt(n);
      }
    }
    match Atoi(r.points)
    case None => 0
    case Some(n) => n
  }

  /** What getReceiptByID answers for an id: the points of the receipt stored under it, or not found. */
  function LookupPoints(receipts: map<string, Receipt>, id: string): (r: Option<int>)
    ensures r.Some? <==> id in receipts
  {
    if id in receipts then Some(PointsOf(receipts[id])) else None
  }

  /** The test receipt the service starts with; its points field is left empty. */
  function Seed(): map<string, Receipt> {
    map["someidhere" := Receipt("test", "2022-01-01", "13:01", [Item("someitem", "10")], "10", "")]
  }

  /** The seeded test receipt reads as 0 points, because its empty points text does not parse. */
  lemma {:induction false} SeededEntryReadsZero()
    ensures LookupPoints(Seed(), "someidhere") == Some(0)
  {
    assert Seed()["someidhere"].points == "";
  }

  /**
   * An accepted receipt as it is stored: unchanged except that its points
   * field holds the decimal text of its points, which reads back as them.
   */
  function Scored(r: Receipt): (s: Receipt)
    requires Validate(r) == Accepted
    ensures s.(points := r.points) == r
    ensures Atoi(s.points) == Some(AcceptedPoints(r))
  {
    AtoiFormatInt(AcceptedPoints(r));
    r.(points := FormatInt(AcceptedPoints(r)))
  }

  /** The points of an accepted receipt; the validator guarantees the date and time are long enough to score. */
  function AcceptedPoints(r: Receipt): int
    requires Validate(r) == Accepted
  {
    AcceptedReceiptIsCanonical(r);
    Points(r)
  }

  /** Storing a scored receipt and looking it up returns its points. */
  lemma {:induction false} StoredPointsReadBack(receipts: map<string, Receipt>, id: string, r: Receipt)
    requires Validate(r) == Accepted
    ensures LookupPoints(receipts[id := Scored(r)], id) == Some(AcceptedPoints(r))
  {
    var s := Scored(r);
    assert receipts[id := s][id] == s;
  }

  /** Storing under one id leaves what every other id reads unchanged. */
  lemma {:induction false} OtherIdsUnchanged(receipts: map<string, Receipt>, id: string, r: Receipt, other: string)
    requires other != id
    ensures LookupPoints(receipts[id := r], other) == LookupPoints(receipts, other)
  {
    assert other in receipts[id := r] <==> other in receipts;
    if other in receipts {
      assert receipts[id := r][other] == receipts[other];
    }
  }

  /** The answer postReceipts sends: the new id, or the validation message. */
  datatype Response = IdResponse(id: string) | ErrorResponse(message: string)

  /** The receipt map of the service, with its two handlers. */
  class ReceiptStore {
    var receipts: map<string, Receipt>

    /** The service starts with the test receipt stored under "someidhere". */
    constructor ()
      ensures receipts == Seed()
      ensures LookupPoints(receipts, "someidhere") == Some(0)
    {
      receipts := Seed();
      SeededEntryReadsZero();
    }

    /** `receipts[id] = r`: stores r under id, replacing whatever was there. */
    method Put(id: string, r: Receipt)
      modifies this
      ensures receipts == old(receipts)[id := r]
    {
      receipts := receipts[id := r];
    }

    /** getReceiptByID: the points of the receipt stored under id, or None for not found. */
    method GetPoints(id: string) returns (points: Option<int>)
      ensures points == LookupPoints(receipts, id)
    {
      if id in receipts {
        var val := receipts[id];
        var n := Atoi(val.points);
        points := Some(if n.Some? then n.value else 0);
      } else {
        points := None;
      }
    }

    /**
     * postReceipts after the request body is decoded: a receipt the
     * validator accepts is scored and stored under id and id is returned;
     * otherwise nothing is stored and the validation message is returned.
     */
    method ProcessReceipt(id: string, r: Receipt) returns (response: Response)
      modifies this
      ensures Validate(r) == Accepted ==>
        response == IdResponse(id) && receipts == old(receipts)[id := Scored(r)]
      ensures Validate(r).Rejected? ==>
        response == ErrorResponse("Validaiton Error: " + Message(Validate(r).problem))
        && receipts == old(receipts)
    {
      var isValid, validationError := ValidateReceipt(r);
      if isValid {
        AcceptedReceiptIsCanonical(r);
        var points := ComputePoints(r);
        Put(id, r.(points := FormatInt(points)));
        response := IdResponse(id);
      } else {
        response := ErrorResponse("Validaiton Error: " + validationError);
      }
    }
  }
}
