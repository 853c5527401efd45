/** `check_domain`: the WHOIS answer for one candidate, turned into the pair
    (is_available, expiration_date). The lookup itself is not modelled; its
    answer is an input value. */
module Classifier {
  import opened Dates

  /** The `domain_name` attribute of a parsed record: None, a list of names, or one name. */
  datatype NameField = NNone | NList(names: seq<string>) | NScalar(name: string)

  /** The `expiration_date` attribute: None, a list of dates, or one date. */
  datatype ExpField = ENone | EList(dates: seq<Date>) | EScalar(date: Date)

  /** What the WHOIS collaborator does for one query: raise its not-found error,
      raise anything else, or return a record (`present` is the record's truthiness). */
  datatype WhoisAnswer =
    | NotFound
    | OtherFailure
    | Record(present: bool, domainName: NameField, expiration: ExpField)

  /** The tuple `check_domain` returns. */
  datatype Classification = Classification(isAvailable: bool, expiration: ExpField)

  /** Every date an expiration value carries, in order. */
  function Carried(e: ExpField): seq<Date> {
    match e
    case ENone => []
    case EList(dates) => dates
    case EScalar(date) => [date]
  }

  /** Python truthiness of an expiration value: it holds at least one date. */
  predicate Truthy(e: ExpField)
    ensures Truthy(e) <==> |Carried(e)| > 0
  {
    match e
    case ENone => false
    case EList(dates) => dates != []
    case EScalar(_) => true
  }

  /** The availability test on a returned record: a falsy record, a `domain_name`
      of None or an empty list. An empty string is NOT a sign of availability. */
  predicate LooksUnregistered(present: bool, name: NameField)
    // a falsy record always looks unregistered
    ensures !present ==> LooksUnregistered(present, name)
    // a missing (None) name means available
    ensures present && name.NNone? ==> LooksUnregistered(present, name)
    // a single name, even the empty string, means registered
    ensures present && name.NScalar? ==> !LooksUnregistered(present, name)
    // a list of names means registered exactly when it is non-empty
    ensures present && name.NList? ==> (LooksUnregistered(present, name) <==> |name.names| == 0)
  {
    !present || name == NNone || name == NList([])
  }

  function CheckDomain(answer: WhoisAnswer): (r: Classification)
    // available exactly for not-found and for an unregistered-looking record
    ensures r.isAvailable <==>
      answer.NotFound? || (answer.Record? && LooksUnregistered(answer.present, answer.domainName))
    // an available domain never carries an expiration value
    ensures r.isAvailable ==> r.expiration == ENone
    // any other failure is swallowed and reported as registered without a date
    ensures answer.OtherFailure? ==> r == Classification(false, ENone)
    // a registered record: the first date of a non-empty list ...
    ensures answer.Record? && !r.isAvailable && answer.expiration.EList? && answer.expiration.dates != [] ==>
      r.expiration == EScalar(answer.expiration.dates[0])
    // ... and anything else (None, one date, an empty list) passed through unchanged
    ensures answer.Record? && !r.isAvailable && !(answer.expiration.EList? && answer.expiration.dates != []) ==>
      r.expiration == answer.expiration
    // so the only truthy expiration value that comes out is a single date
    ensures Truthy(r.expiration) ==> r.expiration.EScalar?
  {
    match answer
    case NotFound => Classification(true, ENone)
    case OtherFailure => Classification(false, ENone)
    case Record(present, name, exp) =>
      if LooksUnregistered(present, name) then Classification(true, ENone)
      else
        var e := if exp.EList? && exp.dates != [] then EScalar(exp.dates[0]) else exp;
        Classification(false, e)
  }

  /** The three outcomes the output distinguishes for a candidate. */
  datatype Outcome = Available | RegisteredWithExpiry(date: Date) | RegisteredUnknownExpiry

  /** The intended classification, stated directly on the WHOIS answer:
      not found or no registration name means available; otherwise the first
      (or only) expiration date if there is one; a failure means registered,
      date unknown. */
  function Classify(answer: WhoisAnswer): (o: Outcome)
    ensures o == Available <==>
      answer.NotFound? || (answer.Record? && LooksUnregistered(answer.present, answer.domainName))
    ensures o.RegisteredWithExpiry? ==>
      answer.Record? && |Carried(answer.expiration)| > 0 && o.date == Carried(answer.expiration)[0]
    ensures o == RegisteredUnknownExpiry <==>
      answer.OtherFailure? ||
      (answer.Record? && !LooksUnregistered(answer.present, answer.domainName) && Carried(answer.expiration) == [])
  {
    match answer
    case NotFound => Available
    case OtherFailure => RegisteredUnknownExpiry
    case Record(present, name, exp) =>
      if !present || name.NNone? || (name.NList? && |name.names| == 0) then Available
      else if exp.EScalar? then RegisteredWithExpiry(exp.date)
      else if exp.EList? && |exp.dates| > 0 then RegisteredWithExpiry(exp.dates[0])
      else RegisteredUnknownExpiry
  }

  /** How the reporting loop reads a classification: the flag first, then the
      truthiness of the expiration value. */
  function Interpret(c: Classification): (o: Outcome)
    requires Truthy(c.expiration) ==> c.expiration.EScalar?
    ensures o == Available <==> c.isAvailable
    ensures o.RegisteredWithExpiry? <==> !c.isAvailable && Truthy(c.expiration)
    ensures o.RegisteredWithExpiry? ==> o.date == c.expiration.date
  {
    if c.isAvailable then Available
    else if Truthy(c.expiration) then RegisteredWithExpiry(c.expiration.date)
    else RegisteredUnknownExpiry
  }

  /** The tuple `check_domain` returns, as the loop reads it, is exactly the
      intended outcome: an empty expiration list, although returned as is,
      reads as "no date". */
  lemma InterpretCheckDomain(answer: WhoisAnswer)
    ensures Interpret(CheckDomain(answer)) == Classify(answer)
  {
  }
}
