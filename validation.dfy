/** Field-by-field business rules for creating positions, recording trades
    and entering prices. Each validator checks every field, records at most
    one error per field and never stops at the first failure. */
module Validation {
  import opened Types
  import Calculation

  const MaxPrice: real := 999999.99
  const MaxShares: real := 1000000.0

  datatype Field =
    TickerField | BuyPriceField | OriginalSharesField |
    PositionIdField | SharesSoldField | SellPriceField | PriceField

  datatype ErrorCode = Required | InvalidFormat | OutOfRange | InsufficientShares | DuplicateTicker

  /** Messages are presentation and are not modelled; field and code are. */
  datatype ValidationError = ValidationError(field: Field, code: ErrorCode)

  datatype ValidationResult = ValidationResult(isValid: bool, errors: seq<ValidationError>)

  /** Finite and not NaN. */
  predicate IsValidNumber(n: Num)
    ensures IsValidNumber(n) <==> !(n.NaN? || n.PosInf? || n.NegInf?)
  {
    n.Finite?
  }

  predicate IsUpper(c: char)
  {
    'A' <= c <= 'Z'
  }

  /** The pattern `^[A-Z]{1,5}$`: one to five upper-case ASCII letters. */
  predicate ValidTickerFormat(ticker: string)
    ensures ValidTickerFormat(ticker) ==> ticker != []
  {
    1 <= |ticker| <= 5 && forall i :: 0 <= i < |ticker| ==> IsUpper(ticker[i])
  }

  /** Rank of a field in the order the validators check them. */
  function Rank(f: Field): nat
  {
    match f
    case TickerField => 0
    case BuyPriceField => 1
    case OriginalSharesField => 2
    case PositionIdField => 3
    case SharesSoldField => 4
    case SellPriceField => 5
    case PriceField => 6
  }

  /** Errors appear in checking order, hence at most one per field. */
  predicate FieldsAscending(errors: seq<ValidationError>)
  {
    forall i, j :: 0 <= i < j < |errors| ==> Rank(errors[i].field) < Rank(errors[j].field)
  }

  /** The code of the first error reported for field `f`, if any. */
  function CodeFor(errors: seq<ValidationError>, f: Field): Option<ErrorCode>
  {
    if errors == [] then None
    else if errors[0].field == f then Some(errors[0].code)
    else CodeFor(errors[1..], f)
  }

  function CountOf(o: Option<ErrorCode>): nat
  {
    if o.Some? then 1 else 0
  }

  /** The error a field contributes: none, or one carrying the rule's code. */
  function Report(f: Field, code: Option<ErrorCode>): seq<ValidationError>
  {
    if code.Some? then [ValidationError(f, code.value)] else []
  }

  predicate PriceAcceptable(n: Num)
  {
    n.Finite? && 0.0 < n.value <= MaxPrice
  }

  predicate ShareCountAcceptable(n: Num, max: real)
  {
    n.Finite? && Calculation.IsInteger(n.value) && 0.0 < n.value <= max
  }

  predicate CreateParamsAcceptable(params: CreatePositionParams, existingTickers: seq<string>)
  {
    && ValidTickerFormat(params.ticker)
    && params.ticker !in existingTickers
    && PriceAcceptable(params.buyPrice)
    && ShareCountAcceptable(params.originalShares, MaxShares)
  }

  predicate TradeParamsAcceptable(params: RecordTradeParams, remainingShares: int)
  {
    && ShareCountAcceptable(params.sharesSold, remainingShares as real)
    && PriceAcceptable(params.sellPrice)
  }

  /** Ticker rule: present, then well-formed, then not already held. */
  function TickerRule(ticker: string, existingTickers: seq<string>): (r: Option<ErrorCode>)
    ensures r == Some(Required) <==> ticker == ""
    ensures r == Some(InvalidFormat) <==> ticker != "" && !ValidTickerFormat(ticker)
    ensures r == Some(DuplicateTicker) <==> ValidTickerFormat(ticker) && ticker in existingTickers
    ensures r == None <==> ValidTickerFormat(ticker) && ticker !in existingTickers
  {
    if ticker == "" then Some(Required)
    else if !ValidTickerFormat(ticker) then Some(InvalidFormat)
    else if ticker in existingTickers then Some(DuplicateTicker)
    else None
  }

  /** Price rule, shared by buy price, sell price and price entry. */
  function PriceRule(price: Num): (r: Option<ErrorCode>)
    ensures r == Some(Required) <==> !IsValidNumber(price)
    ensures r == Some(OutOfRange) <==> IsValidNumber(price) && !PriceAcceptable(price)
    ensures r == None <==> PriceAcceptable(price)
  {
    if !IsValidNumber(price) then Some(Required)
    else if price.value <= 0.0 then Some(OutOfRange)
    else if price.value > MaxPrice then Some(OutOfRange)
    else None
  }

  /** Share-count rule for a new position. */
  function OriginalSharesRule(shares: Num): (r: Option<ErrorCode>)
    ensures r == Some(Required) <==> !IsValidNumber(shares)
    ensures r == Some(InvalidFormat) <==> IsValidNumber(shares) && !Calculation.IsInteger(shares.value)
    ensures r == Some(OutOfRange) <==>
      && IsValidNumber(shares) && Calculation.IsInteger(shares.value)
      && (shares.value <= 0.0 || shares.value > MaxShares)
    ensures r == None <==> ShareCountAcceptable(shares, MaxShares)
  {
    if !IsValidNumber(shares) then Some(Required)
    else if !Calculation.IsInteger(shares.value) then Some(InvalidFormat)
    else if shares.value <= 0.0 then Some(OutOfRange)
    else if shares.value > MaxShares then Some(OutOfRange)
    else None
  }

  /** Share-count rule for a sale: no upper limit other than the shares held. */
  function SharesSoldRule(shares: Num, remainingShares: int): (r: Option<ErrorCode>)
    ensures r == Some(Required) <==> !IsValidNumber(shares)
    ensures r == Some(InvalidFormat) <==> IsValidNumber(shares) && !Calculation.IsInteger(shares.value)
    ensures r == Some(OutOfRange) <==>
      IsValidNumber(shares) && Calculation.IsInteger(shares.value) && shares.value <= 0.0
    ensures r == Some(InsufficientShares) <==>
      && IsValidNumber(shares) && Calculation.IsInteger(shares.value)
      && 0.0 < shares.value && shares.value > remainingShares as real
    ensures r == None <==> ShareCountAcceptable(shares, remainingShares as real)
  {
    if !IsValidNumber(shares) then Some(Required)
    else if !Calculation.IsInteger(shares.value) then Some(InvalidFormat)
    else if shares.value <= 0.0 then Some(OutOfRange)
    else if shares.value > remainingShares as real then Some(InsufficientShares)
    else None
  }

  lemma {:induction false} CodeForAbsent(errors: seq<ValidationError>, f: Field)
    requires forall i :: 0 <= i < |errors| ==> errors[i].field != f
    ensures CodeFor(errors, f) == None
  {
    if errors != [] {
      assert errors[0].field != f;
      assert forall i :: 0 <= i < |errors[1..]| ==> errors[1..][i] == errors[i + 1];
      CodeForAbsent(errors[1..], f);
    }
  }

  /** Every error in `errors` is for a field checked after `f`. */
  predicate AllAfter(f: Field, errors: seq<ValidationError>)
  {
    forall i :: 0 <= i < |errors| ==> Rank(f) < Rank(errors[i].field)
  }

  /** Putting a field's report in front of the reports of later-checked
      fields keeps the checking order and gives that field the rule's code. */
  lemma ReportBefore(f: Field, code: Option<ErrorCode>, rest: seq<ValidationError>)
    requires FieldsAscending(rest)
    requires AllAfter(f, rest)
    ensures FieldsAscending(Report(f, code) + rest)
    ensures CodeFor(Report(f, code) + rest, f) == code
    ensures |Report(f, code) + rest| == CountOf(code) + |rest|
  {
    var errors := Report(f, code) + rest;
    if code.Some? {
      assert errors[0].field == f;
      forall i, j | 0 <= i < j < |errors| ensures Rank(errors[i].field) < Rank(errors[j].field) {
        assert errors[j] == rest[j - 1];
        if i > 0 {
          assert errors[i] == rest[i - 1];
        }
      }
    } else {
      assert errors == rest;
      CodeForAbsent(rest, f);
    }
  }

  /** A report for `f` placed in front of reports after `g` stays after `g`
      when `f` is. */
  lemma AllAfterCons(g: Field, f: Field, code: Option<ErrorCode>, rest: seq<ValidationError>)
    requires Rank(g) < Rank(f)
    requires AllAfter(g, rest)
    ensures AllAfter(g, Report(f, code) + rest)
  {
    var errors := Report(f, code) + rest;
    if code.Some? {
      forall i | 0 <= i < |errors| ensures Rank(g) < Rank(errors[i].field) {
        if i > 0 {
          assert errors[i] == rest[i - 1];
        }
      }
    } else {
      assert errors == rest;
    }
  }

  lemma CodeForSkip(f: Field, code: Option<ErrorCode>, rest: seq<ValidationError>, g: Field)
    requires g != f
    ensures CodeFor(Report(f, code) + rest, g) == CodeFor(rest, g)
  {
    if code.Some? {
      assert (Report(f, code) + rest)[1..] == rest;
    } else {
      assert Report(f, code) + rest == rest;
    }
  }

  lemma AppendAssociative(x: seq<ValidationError>, y: seq<ValidationError>, z: seq<ValidationError>)
    ensures x + y + z == x + (y + z)
  {
  }

  /** The report of a single field, on its own. */
  lemma ReportAlone(f: Field, code: Option<ErrorCode>, g: Field)
    requires Rank(g) < Rank(f)
    ensures FieldsAscending(Report(f, code) + [])
    ensures CodeFor(Report(f, code) + [], f) == code
    ensures |Report(f, code) + []| == CountOf(code)
    ensures AllAfter(g, Report(f, code) + [])
  {
    assert Report(f, code) + [] == Report(f, code);
  }

  /** Reports of fields in checking order list each failing field exactly
      once, with its rule's code. */
  lemma ReportsInOrder(f: Field, g: Field, a: Option<ErrorCode>, b: Option<ErrorCode>)
    requires Rank(f) < Rank(g)
    ensures FieldsAscending(Report(f, a) + Report(g, b))
    ensures CodeFor(Report(f, a) + Report(g, b), f) == a
    ensures CodeFor(Report(f, a) + Report(g, b), g) == b
    ensures |Report(f, a) + Report(g, b)| == CountOf(a) + CountOf(b)
  {
    var last := Report(g, b);
    assert FieldsAscending(last) && CodeFor(last, g) == b && |last| == CountOf(b) && AllAfter(f, last) by {
      ReportAlone(g, b, f);
      assert last + [] == last;
    }
    ReportBefore(f, a, last);
    CodeForSkip(f, a, last, g);
  }

  /** Reports of three fields in checking order keep that order. */
  lemma ReportsInOrder3(f: Field, g: Field, h: Field,
                        a: Option<ErrorCode>, b: Option<ErrorCode>, c: Option<ErrorCode>)
    requires Rank(f) < Rank(g) < Rank(h)
    ensures FieldsAscending(Report(f, a) + (Report(g, b) + Report(h, c)))
  {
    var tail := Report(g, b) + Report(h, c);
    assert FieldsAscending(tail) by {
      ReportsInOrder(g, h, b, c);
    }
    assert AllAfter(f, tail) by {
      var last := Report(h, c);
      assert AllAfter(f, last) by {
        ReportAlone(h, c, f);
        assert last + [] == last;
      }
      AllAfterCons(f, g, b, last);
    }
    ReportBefore(f, a, tail);
  }

  /** The code a list headed by one field's report gives each field. */
  lemma CodeForReport(f: Field, code: Option<ErrorCode>, rest: seq<ValidationError>, g: Field)
    ensures CodeFor(Report(f, code) + rest, g) == if code.Some? && g == f then code else CodeFor(rest, g)
  {
    if code.Some? {
      assert (Report(f, code) + rest)[0].field == f;
      assert (Report(f, code) + rest)[1..] == rest;
    } else {
      assert Report(f, code) + rest == rest;
    }
  }

  /** The code two reports of different fields give any field. */
  lemma CodesOfPair(g: Field, h: Field, b: Option<ErrorCode>, c: Option<ErrorCode>, x: Field)
    requires g != h
    ensures CodeFor(Report(g, b) + Report(h, c), x)
      == if x == g && b.Some? then b else if x == h then c else None
  {
    var last := Report(h, c);
    assert last + [] == last;
    CodeForReport(h, c, [], x);
    CodeForReport(g, b, last, x);
  }

  /** The code three reports of different fields give any field. */
  lemma CodesOfTriple(f: Field, g: Field, h: Field,
                      a: Option<ErrorCode>, b: Option<ErrorCode>, c: Option<ErrorCode>, x: Field)
    requires f != g && g != h && f != h
    ensures CodeFor(Report(f, a) + (Report(g, b) + Report(h, c)), x)
      == if x == f && a.Some? then a else if x == g && b.Some? then b else if x == h then c else None
  {
    CodesOfPair(g, h, b, c, x);
    CodeForReport(f, a, Report(g, b) + Report(h, c), x);
  }

  lemma ReportCount(f: Field, code: Option<ErrorCode>)
    ensures |Report(f, code)| == CountOf(code)
  {
  }

  /** Reports of three different fields list each failing field exactly once,
      with its rule's code. */
  lemma ReportCodes3(f: Field, g: Field, h: Field,
                     a: Option<ErrorCode>, b: Option<ErrorCode>, c: Option<ErrorCode>)
    requires f != g && g != h && f != h
    ensures CodeFor(Report(f, a) + (Report(g, b) + Report(h, c)), f) == a
    ensures CodeFor(Report(f, a) + (Report(g, b) + Report(h, c)), g) == b
    ensures CodeFor(Report(f, a) + (Report(g, b) + Report(h, c)), h) == c
    ensures |Report(f, a) + (Report(g, b) + Report(h, c))| == CountOf(a) + CountOf(b) + CountOf(c)
  {
    CodesOfTriple(f, g, h, a, b, c, f);
    CodesOfTriple(f, g, h, a, b, c, g);
    CodesOfTriple(f, g, h, a, b, c, h);
    ReportCount(f, a);
    ReportCount(g, b);
    ReportCount(h, c);
  }

  /** Every failing field of a new position, in checking order. */
  function CreatePositionErrors(params: CreatePositionParams, existingTickers: seq<string>): seq<ValidationError>
  {
    Report(TickerField, TickerRule(params.ticker, existingTickers))
    + (Report(BuyPriceField, PriceRule(params.buyPrice))
       + Report(OriginalSharesField, OriginalSharesRule(params.originalShares)))
  }

  /** Every failing field of a sale from a position holding `remainingShares`. */
  function RecordTradeErrors(params: RecordTradeParams, remainingShares: int): seq<ValidationError>
  {
    Report(SharesSoldField, SharesSoldRule(params.sharesSold, remainingShares))
    + Report(SellPriceField, PriceRule(params.sellPrice))
  }

  /** The errors of a new position list each failing field once, in
      checking order, and there are none exactly for acceptable parameters. */
  lemma CreatePositionErrorsExplained(params: CreatePositionParams, existingTickers: seq<string>)
    ensures var errors := CreatePositionErrors(params, existingTickers);
      && FieldsAscending(errors)
      && CodeFor(errors, TickerField) == TickerRule(params.ticker, existingTickers)
      && CodeFor(errors, BuyPriceField) == PriceRule(params.buyPrice)
      && CodeFor(errors, OriginalSharesField) == OriginalSharesRule(params.originalShares)
      && |errors| == CountOf(TickerRule(params.ticker, existingTickers)) + CountOf(PriceRule(params.buyPrice))
                     + CountOf(OriginalSharesRule(params.originalShares))
      && (errors == [] <==> CreateParamsAcceptable(params, existingTickers))
  {
    ReportsInOrder3(TickerField, BuyPriceField, OriginalSharesField,
                    TickerRule(params.ticker, existingTickers), PriceRule(params.buyPrice),
                    OriginalSharesRule(params.originalShares));
    ReportCodes3(TickerField, BuyPriceField, OriginalSharesField,
                 TickerRule(params.ticker, existingTickers), PriceRule(params.buyPrice),
                 OriginalSharesRule(params.originalShares));
  }

  /** The errors of a sale list each failing field once, in checking order,
      and there are none exactly for an acceptable sale. */
  lemma RecordTradeErrorsExplained(params: RecordTradeParams, remainingShares: int)
    ensures var errors := RecordTradeErrors(params, remainingShares);
      && FieldsAscending(errors)
      && CodeFor(errors, SharesSoldField) == SharesSoldRule(params.sharesSold, remainingShares)
      && CodeFor(errors, SellPriceField) == PriceRule(params.sellPrice)
      && |errors| == CountOf(SharesSoldRule(params.sharesSold, remainingShares)) + CountOf(PriceRule(params.sellPrice))
      && (errors == [] <==> TradeParamsAcceptable(params, remainingShares))
  {
    ReportsInOrder(SharesSoldField, SellPriceField,
                   SharesSoldRule(params.sharesSold, remainingShares), PriceRule(params.sellPrice));
  }

  method ValidateCreatePosition(params: CreatePositionParams, existingTickers: seq<string>)
    returns (r: ValidationResult)
    ensures r.errors == CreatePositionErrors(params, existingTickers)
    ensures r.isValid <==> r.errors == []
    ensures r.isValid <==> CreateParamsAcceptable(params, existingTickers)
    ensures FieldsAscending(r.errors)
    ensures CodeFor(r.errors, TickerField) == TickerRule(params.ticker, existingTickers)
    ensures CodeFor(r.errors, BuyPriceField) == PriceRule(params.buyPrice)
    ensures CodeFor(r.errors, OriginalSharesField) == OriginalSharesRule(params.originalShares)
    ensures |r.errors| == CountOf(CodeFor(r.errors, TickerField)) + CountOf(CodeFor(r.errors, BuyPriceField))
                          + CountOf(CodeFor(r.errors, OriginalSharesField))
  {
    var errors: seq<ValidationError> := [];

    if params.ticker == "" {
      errors := errors + [ValidationError(TickerField, Required)];
    } else if !ValidTickerFormat(params.ticker) {
      errors := errors + [ValidationError(TickerField, InvalidFormat)];
    } else if params.ticker in existingTickers {
      errors := errors + [ValidationError(TickerField, DuplicateTicker)];
    }
    assert errors == Report(TickerField, TickerRule(params.ticker, existingTickers));
    ghost var afterTicker := errors;

    if !IsValidNumber(params.buyPrice) {
      errors := errors + [ValidationError(BuyPriceField, Required)];
    } else if params.buyPrice.value <= 0.0 {
      errors := errors + [ValidationError(BuyPriceField, OutOfRange)];
    } else if params.buyPrice.value > MaxPrice {
      errors := errors + [ValidationError(BuyPriceField, OutOfRange)];
    }
    assert errors == afterTicker + Report(BuyPriceField, PriceRule(params.buyPrice));
    ghost var afterPrice := errors;

    if !IsValidNumber(params.originalShares) {
      errors := errors + [ValidationError(OriginalSharesField, Required)];
    } else if !Calculation.IsInteger(params.originalShares.value) {
      errors := errors + [ValidationError(OriginalSharesField, InvalidFormat)];
    } else if params.originalShares.value <= 0.0 {
      errors := errors + [ValidationError(OriginalSharesField, OutOfRange)];
    } else if params.originalShares.value > MaxShares {
      errors := errors + [ValidationError(OriginalSharesField, OutOfRange)];
    }
    assert errors == afterPrice + Report(OriginalSharesField, OriginalSharesRule(params.originalShares));
    assert errors == CreatePositionErrors(params, existingTickers) by {
      AppendAssociative(Report(TickerField, TickerRule(params.ticker, existingTickers)),
                        Report(BuyPriceField, PriceRule(params.buyPrice)),
                        Report(OriginalSharesField, OriginalSharesRule(params.originalShares)));
    }
    CreatePositionErrorsExplained(params, existingTickers);
    r := ValidationResult(|errors| == 0, errors);
  }

  method ValidateRecordTrade(params: RecordTradeParams, position: Option<Position>)
    returns (r: ValidationResult)
    ensures position.None? ==> r.errors == [ValidationError(PositionIdField, Required)]
    ensures position.Some? ==> r.errors == RecordTradeErrors(params, position.value.remainingShares)
    ensures r.isValid <==> r.errors == []
    ensures r.isValid <==> position.Some? && TradeParamsAcceptable(params, position.value.remainingShares)
    ensures FieldsAscending(r.errors)
    ensures position.Some? ==>
      && CodeFor(r.errors, SharesSoldField) == SharesSoldRule(params.sharesSold, position.value.remainingShares)
      && CodeFor(r.errors, SellPriceField) == PriceRule(params.sellPrice)
      && |r.errors| == CountOf(CodeFor(r.errors, SharesSoldField)) + CountOf(CodeFor(r.errors, SellPriceField))
  {
    var errors: seq<ValidationError> := [];

    if position.None? {
      errors := errors + [ValidationError(PositionIdField, Required)];
      return ValidationResult(false, errors);
    }
    var remaining := position.value.remainingShares;

    if !IsValidNumber(params.sharesSold) {
      errors := errors + [ValidationError(SharesSoldField, Required)];
    } else if !Calculation.IsInteger(params.sharesSold.value) {
      errors := errors + [ValidationError(SharesSoldField, InvalidFormat)];
    } else if params.sharesSold.value <= 0.0 {
      errors := errors + [ValidationError(SharesSoldField, OutOfRange)];
    } else if params.sharesSold.value > remaining as real {
      errors := errors + [ValidationError(SharesSoldField, InsufficientShares)];
    }
    assert errors == Report(SharesSoldField, SharesSoldRule(params.sharesSold, remaining));
    ghost var afterShares := errors;

    if !IsValidNumber(params.sellPrice) {
      errors := errors + [ValidationError(SellPriceField, Required)];
    } else if params.sellPrice.value <= 0.0 {
      errors := errors + [ValidationError(SellPriceField, OutOfRange)];
    } else if params.sellPrice.value > MaxPrice {
      errors := errors + [ValidationError(SellPriceField, OutOfRange)];
    }
    assert errors == afterShares + Report(SellPriceField, PriceRule(params.sellPrice));

    RecordTradeErrorsExplained(params, remaining);
    r := ValidationResult(|errors| == 0, errors);
  }

  method ValidatePriceInput(price: Num) returns (r: ValidationResult)
    ensures r.errors == Report(PriceField, PriceRule(price))
    ensures r.isValid <==> r.errors == []
    ensures r.isValid <==> PriceAcceptable(price)
    ensures CodeFor(r.errors, PriceField) == PriceRule(price)
  {
    var errors: seq<ValidationError> := [];

    if !IsValidNumber(price) {
      errors := errors + [ValidationError(PriceField, Required)];
    } else if price.value <= 0.0 {
      errors := errors + [ValidationError(PriceField, OutOfRange)];
    } else if price.value > MaxPrice {
      errors := errors + [ValidationError(PriceField, OutOfRange)];
    }

    r := ValidationResult(|errors| == 0, errors);
  }

  /** Parameters that pass validation are ones the calculations accept, so
      creating a position never fails after validation. */
  lemma AcceptedParamsCalculate(params: CreatePositionParams, existingTickers: seq<string>)
    requires CreateParamsAcceptable(params, existingTickers)
    ensures Calculation.CalculateSellTargets(params.buyPrice.value, params.originalShares.value).Ok?
    ensures Calculation.CalculateInitialStopLoss(params.buyPrice.value).Ok?
    ensures 0 < params.originalShares.value.Floor <= 1000000
  {
  }

  /** A sale that passes validation leaves a non-negative share count. */
  lemma AcceptedTradeLeavesShares(params: RecordTradeParams, remainingShares: int)
    requires TradeParamsAcceptable(params, remainingShares)
    ensures 0 < params.sharesSold.value.Floor <= remainingShares
    ensures params.sharesSold.value.Floor as real == params.sharesSold.value
  {
  }

  /** The invalid triple of ticker "INVALID123", price -150 and zero shares
      yields exactly three errors, one per field, in checking order. */
  method InvalidTripleReportsEveryField() returns (r: ValidationResult)
    ensures !r.isValid && |r.errors| == 3
    ensures r.errors == [ValidationError(TickerField, InvalidFormat),
                         ValidationError(BuyPriceField, OutOfRange),
                         ValidationError(OriginalSharesField, OutOfRange)]
  {
    r := ValidateCreatePosition(CreatePositionParams("INVALID123", Finite(-150.0), Finite(0.0)), []);
    assert !ValidTickerFormat("INVALID123");
    assert Calculation.IsInteger(0.0);
  }
}
