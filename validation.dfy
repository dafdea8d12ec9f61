/** ValidateStruct: turns the field errors the validator library reports for a
    request into one message per error and joins them with "; ". Which
    fields fail is decided by the library and is an input here. */
module Validation {
  import opened Common
  import opened Text

  /** One failed rule: the struct field, the rule's tag and its parameter
      (`min=2` has tag "min" and parameter "2"). */
  datatype FieldError = FieldError(field: string, tag: string, param: string)

  const Separator: string := "; "

  /** The message for one failed rule; a tag without its own template gets
      the generic "<field> is invalid". The min and max templates speak of
      characters whatever the field's type. */
  function FieldMessage(e: FieldError): (m: string)
    ensures HasPrefix(m, e.field)
    ensures e.tag !in {"required", "min", "max", "email", "len", "uuid"} ==> m == e.field + " is invalid"
    ensures e.tag in {"min", "max", "len"} ==> HasPrefix(m[|e.field|..], " must be ") && HasSuffix(m, " characters long")
  {
    var f := e.field;
    match e.tag
    case "required" => f + " is required"
    case "min" => f + " must be at least " + e.param + " characters long"
    case "max" => f + " must be at most " + e.param + " characters long"
    case "email" => f + " must be a valid email address"
    case "len" => f + " must be exactly " + e.param + " characters long"
    case "uuid" => f + " must be a valid UUID"
    case _ => f + " is invalid"
  }

  /** One message per error, in the order the validator reported them. */
  function Messages(errors: seq<FieldError>): (ms: seq<string>)
    ensures |ms| == |errors|
    ensures forall i :: 0 <= i < |errors| ==> ms[i] == FieldMessage(errors[i])
  {
    seq(|errors|, i requires 0 <= i < |errors| => FieldMessage(errors[i]))
  }

  /** ValidateStruct: no error gives nil; otherwise the messages of all the
      errors joined with "; ". */
  method ValidateStruct(errors: seq<FieldError>) returns (r: Option<string>)
    ensures r.None? <==> errors == []
    ensures r.Some? ==> r.value == Join(Messages(errors), Separator)
  {
    if errors == [] {
      return None;
    }
    var messages: seq<string> := [];
    var i := 0;
    while i < |errors|
      invariant 0 <= i <= |errors|
      invariant messages == Messages(errors[..i])
    {
      messages := messages + [FieldMessage(errors[i])];
      i := i + 1;
    }
    assert errors[..i] == errors;
    r := Some(Join(messages, Separator));
  }

  /** A field name or parameter that the message format cannot confuse with
      the separator. */
  predicate Plain(e: FieldError) {
    ';' !in e.field && ';' !in e.param
  }

  lemma MessageIsPlain(e: FieldError)
    requires Plain(e)
    ensures ';' !in FieldMessage(e)
  {
  }

  /** The joined text loses nothing: splitting it at "; " gives back exactly
      the per-error messages, in order, as long as no field name or parameter
      contains ';' (true of every request struct of the service). */
  lemma {:induction false} MessagesRecoverable(errors: seq<FieldError>)
    requires |errors| >= 1
    requires forall i :: 0 <= i < |errors| ==> Plain(errors[i])
    ensures Split(Join(Messages(errors), Separator), Separator) == Messages(errors)
  {
    var ms := Messages(errors);
    forall i | 0 <= i < |ms| ensures Separator[0] !in ms[i] {
      MessageIsPlain(errors[i]);
    }
    SplitJoin(ms, Separator);
  }
}
