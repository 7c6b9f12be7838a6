/**
 * The JSON response wrapper of the modern HTTP layer: a success flag, the
 * data to send and an HTTP status, and the payload that send() encodes.
 */
module ModernJsonResponse {
  import opened Wrappers
  import opened OrderedMaps
  import opened PhpValues

  /** Only the two factories below build one: the constructor is private. */
  datatype JsonResponse = JsonResponse(success: bool, data: Assoc<string, Value>, statusCode: PhpInt)

  const DefaultSuccessStatus: PhpInt := 200
  const DefaultErrorStatus: PhpInt := 400

  /** The two shapes a response can have: a success with any data, or a failure carrying only its message. */
  predicate WellShaped(r: JsonResponse) {
    r.success || (|r.data| == 1 && r.data[0].0 == "error" && r.data[0].1.Str?)
  }

  /** JsonResponse::success. */
  function Success(data: Assoc<string, Value>, statusCode: PhpInt := DefaultSuccessStatus): (r: JsonResponse)
    ensures r.success && r.data == data && r.statusCode == statusCode
    ensures WellShaped(r)
  {
    JsonResponse(true, data, statusCode)
  }

  /** JsonResponse::error. */
  function Error(message: string, statusCode: PhpInt := DefaultErrorStatus): (r: JsonResponse)
    ensures !r.success && r.data == [("error", Str(message))] && r.statusCode == statusCode
    ensures WellShaped(r)
  {
    JsonResponse(false, [("error", Str(message))], statusCode)
  }

  /** The defaults of the two factories. */
  lemma DefaultStatuses(data: Assoc<string, Value>, message: string)
    ensures Success(data).statusCode == 200
    ensures Error(message).statusCode == 400
  {
  }

  /** The spread operator with string keys: each entry is written in order, a later one overwriting an equal key. */
  function SpreadInto(acc: Assoc<string, Value>, rest: Assoc<string, Value>): Assoc<string, Value>
    decreases |rest|
  {
    if rest == [] then acc else SpreadInto(Put(acc, rest[0].0, rest[0].1), rest[1..])
  }

  /** The array send() encodes: the success flag first, then the data entries. */
  function Payload(r: JsonResponse): (p: Assoc<string, Value>)
    ensures |p| >= 1 && p[0].0 == "success"
  {
    SpreadLeadingKey([("success", Bool(r.success))], r.data);
    SpreadInto([("success", Bool(r.success))], r.data)
  }

  /** Spreading never moves the first entry's key. */
  lemma {:induction false} SpreadLeadingKey(acc: Assoc<string, Value>, rest: Assoc<string, Value>)
    requires |acc| >= 1
    ensures |SpreadInto(acc, rest)| >= 1 && SpreadInto(acc, rest)[0].0 == acc[0].0
    decreases |rest|
  {
    if rest != [] {
      SpreadLeadingKey(Put(acc, rest[0].0, rest[0].1), rest[1..]);
    }
  }

  lemma HeadAndRest(rest: Assoc<string, Value>, k: string)
    requires rest != []
    ensures HasKey(rest, k) <==> rest[0].0 == k || HasKey(rest[1..], k)
    ensures Get(rest, k) == if rest[0].0 == k then Some(rest[0].1) else Get(rest[1..], k)
  {
    if HasKey(rest, k) && rest[0].0 != k {
      var i :| 0 <= i < |rest| && rest[i].0 == k;
      assert rest[1..][i - 1].0 == k;
    }
  }

  /** After spreading, a key holds the value the spread array gives it, or else what it held before. */
  lemma {:induction false} SpreadGet(acc: Assoc<string, Value>, rest: Assoc<string, Value>, k: string)
    requires DistinctKeys(rest)
    ensures Get(SpreadInto(acc, rest), k) == if HasKey(rest, k) then Get(rest, k) else Get(acc, k)
    decreases |rest|
  {
    if rest != [] {
      var acc' := Put(acc, rest[0].0, rest[0].1);
      SpreadGet(acc', rest[1..], k);
      PutGet(acc, rest[0].0, rest[0].1, k);
      HeadAndRest(rest, k);
      if rest[0].0 == k {
        assert !HasKey(rest[1..], k);
      }
    }
  }

  /** Spreading keys the array does not have yet appends the entries in order. */
  lemma {:induction false} SpreadFresh(acc: Assoc<string, Value>, rest: Assoc<string, Value>)
    requires DistinctKeys(rest)
    requires forall i :: 0 <= i < |rest| ==> !HasKey(acc, rest[i].0)
    ensures SpreadInto(acc, rest) == acc + rest
    decreases |rest|
  {
    if rest != [] {
      var acc' := acc + [rest[0]];
      assert Put(acc, rest[0].0, rest[0].1) == acc';
      forall i | 0 <= i < |rest[1..]|
        ensures !HasKey(acc', rest[1..][i].0)
      {
        assert rest[1..][i] == rest[i + 1];
        assert !HasKey(acc, rest[i + 1].0) && rest[0].0 != rest[i + 1].0;
      }
      SpreadFresh(acc', rest[1..]);
      assert acc' + rest[1..] == acc + rest;
    }
  }

  /**
   * The payload maps "success" to the flag unless the data itself sets
   * "success", and every other key to its value in the data.
   */
  lemma PayloadGet(r: JsonResponse, k: string)
    requires DistinctKeys(r.data)
    ensures Get(Payload(r), k) ==
      if HasKey(r.data, k) then Get(r.data, k)
      else if k == "success" then Some(Bool(r.success))
      else None
  {
    SpreadGet([("success", Bool(r.success))], r.data, k);
  }

  /** Data without a "success" key is emitted after the flag, entry by entry in its own order. */
  lemma PayloadOfPlainData(r: JsonResponse)
    requires DistinctKeys(r.data) && !HasKey(r.data, "success")
    ensures Payload(r) == [("success", Bool(r.success))] + r.data
  {
    SpreadFresh([("success", Bool(r.success))], r.data);
  }

  /** An error response sends exactly the failed flag and the message. */
  lemma ErrorPayload(message: string, statusCode: PhpInt)
    ensures Payload(Error(message, statusCode)) == [("success", Bool(false)), ("error", Str(message))]
  {
    PayloadOfPlainData(Error(message, statusCode));
  }
}
