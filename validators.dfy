/** core/validators.go: turning the validator library's report into the
    handler-level verdict `(is_valid, {message: [{field: text}, ...]})`. */
module Validators {
  import opened Schemas
  import opened Collaborators

  /** One single-key map per failure, in the validator's order. */
  function FieldMessages(fs: seq<FieldFailure>): (ms: seq<FieldError>)
    ensures |ms| == |fs|
    ensures forall i :: 0 <= i < |fs| ==> ms[i].Keys == {fs[i].field} && ms[i][fs[i].field] == fs[i].message
  {
    if fs == [] then [] else [map[fs[0].field := fs[0].message]] + FieldMessages(fs[1..])
  }

  /** The verdict ValidateSchemas computes, as a value the handlers can use. */
  function SchemaVerdict(report: ValidatorReport): (bool, UnprocessableEntityResponse) {
    match report
    case NoError => (true, UnprocessableEntityResponse([]))
    case Failed(fs) => (false, UnprocessableEntityResponse(FieldMessages(fs)))
  }

  /** ValidateSchemas: valid exactly when the validator reported nothing, and then
      no messages; otherwise every failure becomes one {field: message} map, the
      loop does not stop at the first one, and the validator's order is kept. */
  method ValidateSchemas(report: ValidatorReport) returns (isValid: bool, response: UnprocessableEntityResponse)
    ensures isValid <==> report.NoError?
    ensures isValid ==> response.message == []
    ensures !isValid ==> |response.message| == |report.failures|
    ensures !isValid ==> forall i :: 0 <= i < |report.failures| ==>
      response.message[i] == map[report.failures[i].field := report.failures[i].message]
    ensures (isValid, response) == SchemaVerdict(report)
  {
    var errors: seq<FieldError> := [];
    match report {
      case NoError =>
        return true, UnprocessableEntityResponse([]);
      case Failed(fs) =>
        for i := 0 to |fs|
          invariant errors == FieldMessages(fs[..i])
        {
          assert fs[..i + 1][..i] == fs[..i];
          FieldMessagesSnoc(fs[..i], fs[i]);
          assert fs[..i + 1] == fs[..i] + [fs[i]];
          errors := errors + [map[fs[i].field := fs[i].message]];
        }
        assert fs[..|fs|] == fs;
        return false, UnprocessableEntityResponse(errors);
    }
  }

  /** Appending a failure appends its map: the collection is a plain map over the list. */
  lemma {:induction false} FieldMessagesSnoc(fs: seq<FieldFailure>, f: FieldFailure)
    ensures FieldMessages(fs + [f]) == FieldMessages(fs) + [map[f.field := f.message]]
  {
    if fs == [] {
      assert fs + [f] == [f];
    } else {
      assert (fs + [f])[1..] == fs[1..] + [f];
      FieldMessagesSnoc(fs[1..], f);
    }
  }
}
