/**
 * The request-body checks the POST and PUT routes declare before their
 * handlers run: `check(field, message).not().isEmpty()`, one per required
 * field, whose failures `validationResult(req).array()` gives back all
 * together, in the order the checks are declared.
 */
module Validation {

  /** A request body: field name to string value; an absent key is `undefined`. */
  type Body = map<string, string>

  /** One declared check: the field it reads and the message it reports. */
  datatype Rule = Rule(field: string, message: string)

  /** One entry of `errors.array()`: the offending field and its message. */
  datatype FieldError = FieldError(param: string, msg: string)

  /**
   * The field passes `not().isEmpty()`: it is present and not the empty
   * string (the check does not trim). For a string this is also its
   * JavaScript truthiness, which the handlers test with `if (field)`.
   */
  predicate Present(body: Body, field: string) {
    field in body && body[field] != ""
  }

  /** The body's value for a field, `""` when the field is absent. */
  function Field(body: Body, field: string): (v: string)
    ensures Present(body, field) ==> v == body[field] && v != ""
  {
    if field in body then body[field] else ""
  }

  /** Every declared check passes. */
  predicate Satisfies(body: Body, rules: seq<Rule>) {
    forall i :: 0 <= i < |rules| ==> Present(body, rules[i].field)
  }

  /** `validationResult(req).array()` after running `rules` in order. */
  function Validate(body: Body, rules: seq<Rule>): (errors: seq<FieldError>)
    ensures |errors| <= |rules|
    ensures errors == [] <==> Satisfies(body, rules)
  {
    if rules == [] then []
    else
      var rest := Validate(body, rules[1..]);
      assert Satisfies(body, rules) <==> Present(body, rules[0].field) && Satisfies(body, rules[1..]) by {
        assert forall i :: 1 <= i < |rules| ==> rules[i] == rules[1..][i - 1];
      }
      if Present(body, rules[0].field) then rest
      else [FieldError(rules[0].field, rules[0].message)] + rest
  }

  /** Every failing check contributes its own entry. */
  lemma {:induction false} ValidateReportsEachFailure(body: Body, rules: seq<Rule>, i: nat)
    requires i < |rules| && !Present(body, rules[i].field)
    ensures FieldError(rules[i].field, rules[i].message) in Validate(body, rules)
  {
    if i > 0 {
      ValidateReportsEachFailure(body, rules[1..], i - 1);
    }
  }

  /** Every entry comes from a failing check. */
  lemma {:induction false} ValidateReportsOnlyFailures(body: Body, rules: seq<Rule>, e: FieldError)
    requires e in Validate(body, rules)
    ensures exists i :: 0 <= i < |rules| && rules[i] == Rule(e.param, e.msg) && !Present(body, e.param)
  {
    if rules != [] {
      if e in Validate(body, rules[1..]) {
        ValidateReportsOnlyFailures(body, rules[1..], e);
        var j :| 0 <= j < |rules[1..]| && rules[1..][j] == Rule(e.param, e.msg) && !Present(body, e.param);
        assert rules[j + 1] == Rule(e.param, e.msg);
      } else {
        assert rules[0] == Rule(e.param, e.msg);
      }
    }
  }

  /** No two checks read the same field, as in every route's check list. */
  predicate DistinctFields(rules: seq<Rule>) {
    forall i, j :: 0 <= i < j < |rules| ==> rules[i].field != rules[j].field
  }

  /** With checks on distinct fields, no field is reported twice: one entry per failing check. */
  lemma {:induction false} ValidateNoDuplicates(body: Body, rules: seq<Rule>)
    requires DistinctFields(rules)
    ensures forall i, j :: 0 <= i < j < |Validate(body, rules)| ==>
      Validate(body, rules)[i].param != Validate(body, rules)[j].param
  {
    if rules != [] {
      var tail := rules[1..];
      assert DistinctFields(tail) by {
        forall i, j | 0 <= i < j < |tail| ensures tail[i].field != tail[j].field {
          assert tail[i] == rules[i + 1] && tail[j] == rules[j + 1];
        }
      }
      ValidateNoDuplicates(body, tail);
      var rest := Validate(body, tail);
      if !Present(body, rules[0].field) {
        forall k | 0 <= k < |rest| ensures rest[k].param != rules[0].field {
          ValidateReportsOnlyFailures(body, tail, rest[k]);
          var j :| 0 <= j < |tail| && tail[j] == Rule(rest[k].param, rest[k].msg) && !Present(body, rest[k].param);
          assert tail[j] == rules[j + 1];
        }
      }
    }
  }
}
