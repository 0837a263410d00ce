/**
 * `utils/baseValidator.js`: `runValidation(validations)` runs the chains one
 * at a time against the request, then either answers 400 with the collected
 * errors or hands the request on with `next()`.
 */
module BaseValidator {
  import opened Wrappers
  import opened Validation

  /**
   * One entry of the 400 body. express-validator 7 field errors carry
   * `path` and no `param`, and only grouped (`oneOf`) errors carry
   * `nestedErrors`, so `field` and `nested` are undefined here and
   * `JSON.stringify` leaves them out.
   */
  datatype ErrorRecord = ErrorRecord(field: Option<string>, message: string, kind: string,
                                     nested: Option<seq<FieldError>>, path: string, location: string)

  datatype FailBody = FailBody(status: string, errors: seq<ErrorRecord>)

  /** What the middleware does once every chain has run: answer, or call `next()` once. */
  datatype Outcome = Respond(statusCode: int, body: FailBody) | CallNext

  /** The record one error becomes. */
  function Record(e: FieldError): (r: ErrorRecord)
    ensures r.message == e.msg && r.kind == e.kind
    ensures r.path == PathText(e.path) && r.location == LocationText(e.location)
    ensures r.field.None? && r.nested.None?
  {
    ErrorRecord(None, e.msg, e.kind, None, PathText(e.path), LocationText(e.location))
  }

  /** `errors.array().map(...)`: one record per error, in the order the errors were recorded. */
  function Records(errors: seq<FieldError>): (r: seq<ErrorRecord>)
    ensures |r| == |errors|
    ensures forall i :: 0 <= i < |errors| ==> r[i] == Record(errors[i])
  {
    if errors == [] then [] else [Record(errors[0])] + Records(errors[1..])
  }

  /** The records of two runs of errors are the records of each, one after the other. */
  lemma {:induction false} RecordsAppend(a: seq<FieldError>, b: seq<FieldError>)
    ensures Records(a + b) == Records(a) + Records(b)
  {
    var r, ra, rb := Records(a + b), Records(a), Records(b);
    assert |r| == |ra| + |rb|;
    forall i | 0 <= i < |r|
      ensures r[i] == (ra + rb)[i]
    {
      if i < |a| {
        assert (a + b)[i] == a[i];
      } else {
        assert (a + b)[i] == b[i - |a|];
      }
    }
  }

  /**
   * The middleware `runValidation(validations)` returns, on one request:
   * every chain runs, in list order, on the request the previous one left;
   * then, if any error is recorded, the answer is 400 with `status: 'fail'`
   * and one record per error; otherwise `next()` is called and nothing is sent.
   */
  method RunValidation(validations: seq<Chain>, req: Request) returns (validated: Request, outcome: Outcome)
    ensures validated == RunChains(validations, req)
    ensures outcome.CallNext? <==> validated.errors == []
    ensures outcome.Respond? ==> outcome == Respond(400, FailBody("fail", Records(validated.errors)))
  {
    validated := req;
    var i := 0;
    while i < |validations|
      invariant 0 <= i <= |validations|
      invariant validated == RunChains(validations[..i], req)
    {
      assert validations[..i + 1][..i] == validations[..i];
      validated := RunChain(validations[i], validated);
      i := i + 1;
    }
    assert validations[..i] == validations;
    if validated.errors != [] {
      outcome := Respond(400, FailBody("fail", Records(validated.errors)));
    } else {
      outcome := CallNext;
    }
  }

  /**
   * An error recorded before the chains run (by an earlier middleware on the
   * same request) is still reported, ahead of the new ones: the request goes
   * on only when nothing at all is recorded.
   */
  lemma EarlierErrorsReported(validations: seq<Chain>, req: Request)
    requires req.errors != []
    ensures var r := RunChains(validations, req);
            && |r.errors| >= |req.errors| > 0
            && Records(r.errors)[..|req.errors|] == Records(req.errors)
  {
    RunChainsKeepsErrors(validations, req);
    var errs := RunChains(validations, req).errors;
    PrefixRecords(req.errors, errs);
  }

  /** The records of a prefix of the errors are a prefix of the records. */
  lemma PrefixRecords(before: seq<FieldError>, after: seq<FieldError>)
    requires |after| >= |before| && after[..|before|] == before
    ensures Records(after)[..|before|] == Records(before)
  {
    assert after == before + after[|before|..];
    RecordsAppend(before, after[|before|..]);
  }
}
