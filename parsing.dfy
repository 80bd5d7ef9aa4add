/**
 * The two line parsers. `parse_transactions` keeps every `|`-separated line
 * with eight fields whose quantity and unit price parse, and drops the rest
 * without a word; `parse_and_clean_data` applies six checks in order and
 * records, for each line it rejects, the first check that failed.
 */
module Parsing {
  import opened Wrappers
  import opened Collections
  import opened Text
  import opened Transactions

  /** The record built from eight fields whose numbers parsed; the product name loses its commas and outer white space. */
  function Record(fields: seq<string>, quantity: int, unitPrice: real): Transaction
    requires |fields| == 8
  {
    Transaction(fields[0], fields[1], fields[2], Strip(Remove(fields[3], ',')), quantity, unitPrice, fields[6], fields[7])
  }

  /** `int(quantity)`. */
  function QuantityField(fields: seq<string>): Option<int>
    requires |fields| == 8
  {
    ParseInt(fields[4])
  }

  /** `float(unit_price.replace(",", ""))`. */
  function PriceField(fields: seq<string>): Option<real>
    requires |fields| == 8
  {
    ParseFloat(Remove(fields[5], ','))
  }

  /** One line of `parse_transactions`: the record, or `None` when the line is skipped. */
  function ParseLine(line: string): Option<Transaction>
  {
    var fields := Split(line, '|');
    if |fields| != 8 then None
    else
      var q, p := QuantityField(fields), PriceField(fields);
      if q.None? || p.None? then None else Some(Record(fields, q.value, p.value))
  }

  predicate Parses(line: string) { ParseLine(line).Some? }

  /** What `parse_transactions` returns: the records of the lines that parse, in input order. */
  function ParsedLines(lines: seq<string>): seq<Transaction>
  {
    if lines == [] then []
    else
      var last := ParseLine(lines[|lines| - 1]);
      ParsedLines(lines[..|lines| - 1]) + if last.Some? then [last.value] else []
  }

  /** A product name with no comma and no white space at either end. */
  predicate CleanName(name: string)
  {
    ',' !in name && (name == [] || (!IsSpace(name[0]) && !IsSpace(name[|name| - 1])))
  }

  /** The name `Record` stores is clean, whatever the raw field held. */
  lemma RecordNameClean(fields: seq<string>, quantity: int, unitPrice: real)
    requires |fields| == 8
    ensures CleanName(Record(fields, quantity, unitPrice).productName)
  {
    RemoveFacts(fields[3], ',');
    StripFacts(Remove(fields[3], ','));
  }

  /** Every record `parse_transactions` keeps has a clean product name. */
  lemma {:induction false} ParsedNamesClean(lines: seq<string>)
    ensures forall t :: t in ParsedLines(lines) ==> CleanName(t.productName)
  {
    if lines != [] {
      ParsedNamesClean(lines[..|lines| - 1]);
      var fields := Split(lines[|lines| - 1], '|');
      if |fields| == 8 {
        var q, p := QuantityField(fields), PriceField(fields);
        if q.Some? && p.Some? {
          RecordNameClean(fields, q.value, p.value);
        }
      }
    }
  }

  /** `parse_transactions`. */
  method ParseTransactions(rawLines: seq<string>) returns (transactions: seq<Transaction>)
    ensures transactions == ParsedLines(rawLines)
    ensures |transactions| == |Filter(rawLines, Parses)|
    ensures forall t :: t in transactions ==> CleanName(t.productName)
  {
    transactions := [];
    for i := 0 to |rawLines|
      invariant transactions == ParsedLines(rawLines[..i])
    {
      assert rawLines[..i + 1][..i] == rawLines[..i];
      var parts := Split(rawLines[i], '|');
      if |parts| != 8 {
        continue;
      }
      var quantity := ParseInt(parts[4]);
      var unitPrice := ParseFloat(Remove(parts[5], ','));
      if quantity.None? || unitPrice.None? {
        continue;
      }
      transactions := transactions + [Transaction(parts[0], parts[1], parts[2], Strip(Remove(parts[3], ',')),
                                                  quantity.value, unitPrice.value, parts[6], parts[7])];
    }
    assert rawLines[..|rawLines|] == rawLines;
    ParsedLinesCount(rawLines);
    ParsedNamesClean(rawLines);
  }

  /** One record per line that parses, and none for the others. */
  lemma {:induction false} ParsedLinesCount(lines: seq<string>)
    ensures |ParsedLines(lines)| == |Filter(lines, Parses)|
  {
    if lines != [] {
      ParsedLinesCount(lines[..|lines| - 1]);
    }
  }

  /** Parsing line by line: the records of two batches are the records of each, in order. */
  lemma {:induction false} ParsedLinesAppend(a: seq<string>, b: seq<string>)
    ensures ParsedLines(a + b) == ParsedLines(a) + ParsedLines(b)
  {
    if b == [] {
      assert a + b == a;
    } else {
      assert (a + b)[..|a + b| - 1] == a + b[..|b| - 1];
      ParsedLinesAppend(a, b[..|b| - 1]);
    }
  }

  /** The digits of an integer, with a minus sign when it is negative, as Python's `str(n)`. */
  function ShowInt(n: int): string
  {
    if n < 0 then "-" + ShowNat(-n) else ShowNat(n)
  }

  /**
   * Writing a record's fields back out joined by `|` and parsing the line
   * gives the record back, when no field holds a `|`, the product name has
   * no comma and no outer white space, and the price text reads as the price.
   */
  lemma ParseLineRoundTrip(t: Transaction, priceText: string)
    requires forall f :: f in [t.transactionId, t.date, t.productId, t.productName, priceText, t.customerId, t.region] ==> '|' !in f
    requires CleanName(t.productName)
    requires ParseFloat(Remove(priceText, ',')) == Some(t.unitPrice)
    ensures ParseLine(Join([t.transactionId, t.date, t.productId, t.productName, ShowInt(t.quantity), priceText, t.customerId, t.region], '|')) == Some(t)
  {
    var fields := [t.transactionId, t.date, t.productId, t.productName, ShowInt(t.quantity), priceText, t.customerId, t.region];
    FieldsHaveNoBar(t, priceText);
    SplitJoin(fields, '|');
    ShowIntFacts(t.quantity);
    assert QuantityField(fields) == Some(t.quantity);
    assert PriceField(fields) == Some(t.unitPrice);
    ParseLineOfFields(Join(fields, '|'), fields);
    RecordOfFields(t, priceText);
  }

  lemma FieldsHaveNoBar(t: Transaction, priceText: string)
    requires forall f :: f in [t.transactionId, t.date, t.productId, t.productName, priceText, t.customerId, t.region] ==> '|' !in f
    ensures var fields := [t.transactionId, t.date, t.productId, t.productName, ShowInt(t.quantity), priceText, t.customerId, t.region];
      forall i :: 0 <= i < |fields| ==> '|' !in fields[i]
  {
    var fields := [t.transactionId, t.date, t.productId, t.productName, ShowInt(t.quantity), priceText, t.customerId, t.region];
    ShowIntFacts(t.quantity);
    forall i | 0 <= i < 8
      ensures '|' !in fields[i]
    {
      if i != 4 {
        assert fields[i] in [t.transactionId, t.date, t.productId, t.productName, priceText, t.customerId, t.region];
      }
    }
  }

  lemma RecordOfFields(t: Transaction, priceText: string)
    requires CleanName(t.productName)
    ensures Record([t.transactionId, t.date, t.productId, t.productName, ShowInt(t.quantity), priceText, t.customerId, t.region],
                   t.quantity, t.unitPrice) == t
  {
    RemoveAbsent(t.productName, ',');
    StripUnchanged(t.productName);
  }

  lemma ParseLineOfFields(line: string, fields: seq<string>)
    requires Split(line, '|') == fields && |fields| == 8
    requires QuantityField(fields).Some? && PriceField(fields).Some?
    ensures ParseLine(line) == Some(Record(fields, QuantityField(fields).value, PriceField(fields).value))
  {
  }

  /** `int(str(n)) == n`, and `str(n)` holds no `|`. */
  lemma ShowIntFacts(n: int)
    ensures ParseInt(ShowInt(n)) == Some(n)
    ensures '|' !in ShowInt(n)
  {
    ParseIntShowNat(if n < 0 then -n else n);
    DigitsHaveNoBar(ShowInt(n));
  }

  lemma DigitsHaveNoBar(s: string)
    requires s == [] || (s[0] == '-' && AllDigits(s[1..])) || AllDigits(s)
    ensures '|' !in s
  {
    forall i | 0 <= i < |s|
      ensures s[i] != '|'
    {
      if s[0] == '-' && i > 0 {
        assert IsDigit(s[1..][i - 1]);
      } else if s[0] != '-' {
        assert IsDigit(s[i]);
      }
    }
  }

  lemma {:induction false} RemoveAbsent(s: string, c: char)
    requires c !in s
    ensures Remove(s, c) == s
  {
    if s != [] {
      RemoveAbsent(s[1..], c);
      assert [s[0]] + s[1..] == s;
    }
  }

  /** `int()` rejects a word that starts with a letter, such as a column name. */
  lemma ParseIntRejectsWord(w: string)
    requires w != [] && !IsSpace(w[0]) && !IsSpace(w[|w| - 1])
    requires w[0] != '+' && w[0] != '-' && !IsDigit(w[0])
    ensures ParseInt(w) == None
  {
    StripUnchanged(w);
  }

  /**
   * `parse_transactions` has no header check: the header line, whose fifth
   * column is named "Quantity", is dropped only because `int("Quantity")` fails.
   */
  lemma HeaderDoesNotParse(line: string)
    requires |Split(line, '|')| == 8 && Split(line, '|')[4] == "Quantity"
    ensures ParseLine(line) == None
  {
    var w := "Quantity";
    assert w[0] == 'Q' && w[|w| - 1] == 'y';
    ParseIntRejectsWord(w);
  }

  // ---------------------------------------------------------------------------
  // parse_and_clean_data

  const InvalidFieldCount: string := "Invalid field count"
  const BadTransactionId: string := "TransactionID does not start with 'T'"
  const MissingCustomerOrRegion: string := "Missing CustomerID or Region"
  const InvalidNumericFormat: string := "Invalid numeric format"
  const QuantityNotPositive: string := "Quantity \U{2264} 0"
  const PriceNotPositive: string := "UnitPrice \U{2264} 0"

  /** The six rejection reasons, in the order the checks run. */
  const Reasons: seq<string> := [InvalidFieldCount, BadTransactionId, MissingCustomerOrRegion,
                                 InvalidNumericFormat, QuantityNotPositive, PriceNotPositive]

  /** One line of `parse_and_clean_data` (the header line aside): the record, or the reason it is removed. */
  function CleanLine(line: string): Result<Transaction, string>
  {
    var fields := Split(line, '|');
    if |fields| != 8 then Failure(InvalidFieldCount)
    else if !StartsWith(fields[0], "T") then Failure(BadTransactionId)
    else if IsBlank(fields[6]) || IsBlank(fields[7]) then Failure(MissingCustomerOrRegion)
    else
      var q, p := QuantityField(fields), PriceField(fields);
      if q.None? || p.None? then Failure(InvalidNumericFormat)
      else if q.value <= 0 then Failure(QuantityNotPositive)
      else if p.value <= 0.0 then Failure(PriceNotPositive)
      else Success(Record(fields, q.value, p.value))
  }

  /**
   * Check `k` of `parse_and_clean_data` passes on `line`, stated on its own:
   * 0 eight fields, 1 a `T` transaction id, 2 customer and region not blank,
   * 3 quantity and price parse, 4 the quantity is positive, 5 the price is.
   */
  predicate CheckPasses(line: string, k: nat)
    requires k < 6
  {
    var f := Split(line, '|');
    |f| == 8 &&
    match k
    case 0 => true
    case 1 => StartsWith(f[0], "T")
    case 2 => !IsBlank(f[6]) && !IsBlank(f[7])
    case 3 => QuantityField(f).Some? && PriceField(f).Some?
    case 4 => QuantityField(f).Some? ==> QuantityField(f).value > 0
    case _ => PriceField(f).Some? ==> PriceField(f).value > 0.0
  }

  /**
   * A line is removed with reason `k` exactly when check `k` fails and every
   * earlier check passed; it is kept exactly when all six pass.
   */
  lemma CleanLineFirstFailure(line: string)
    ensures CleanLine(line).Success? <==> forall k :: 0 <= k < 6 ==> CheckPasses(line, k)
    ensures forall k :: 0 <= k < 6 ==>
      (CleanLine(line) == Failure(Reasons[k]) <==> !CheckPasses(line, k) && forall j :: 0 <= j < k ==> CheckPasses(line, j))
  {
    assert forall j, k :: 0 <= j < k < 6 ==> Reasons[j] != Reasons[k];
    var f := Split(line, '|');
    if |f| == 8 {
      assert CheckPasses(line, 0);
      assert CheckPasses(line, 1) <==> StartsWith(f[0], "T");
      assert CheckPasses(line, 2) <==> !IsBlank(f[6]) && !IsBlank(f[7]);
      assert CheckPasses(line, 3) <==> QuantityField(f).Some? && PriceField(f).Some?;
      assert CheckPasses(line, 4) <==> (QuantityField(f).Some? ==> QuantityField(f).value > 0);
      assert CheckPasses(line, 5) <==> (PriceField(f).Some? ==> PriceField(f).value > 0.0);
    } else {
      assert !CheckPasses(line, 0);
    }
  }

  /** A kept line is one `parse_transactions` keeps too, with the same record. */
  lemma CleanLineParses(line: string)
    ensures CleanLine(line).Success? ==> ParseLine(line) == Some(CleanLine(line).value)
    ensures ParseLine(line).None? ==> CleanLine(line).Failure?
  {
  }

  /** Kept records have a `T` id, a customer and a region, positive numbers and a comma-free, trimmed name. */
  lemma CleanLineRecord(line: string)
    requires CleanLine(line).Success?
    ensures var t := CleanLine(line).value;
      StartsWith(t.transactionId, "T") && !IsBlank(t.customerId) && !IsBlank(t.region) &&
      t.quantity > 0 && t.unitPrice > 0.0 && CleanName(t.productName)
  {
    var f := Split(line, '|');
    RecordNameClean(f, QuantityField(f).value, PriceField(f).value);
  }

  /** A removed line and why. */
  datatype Rejection = Rejection(line: string, reason: string)

  /** `cleaned_data`, `removed_data` and the two printed counters. */
  datatype Cleaning = Cleaning(cleaned: seq<Transaction>, removed: seq<Rejection>, totalRecords: nat, invalidRecords: nat)

  predicate IsHeaderLine(line: string) { StartsWith(line, "TransactionID") }
  predicate IsRecordLine(line: string) { !IsHeaderLine(line) }

  /** One pass of the loop of `parse_and_clean_data`. */
  function CleanStep(c: Cleaning, line: string): Cleaning
  {
    if IsHeaderLine(line) then c
    else
      match CleanLine(line)
      case Success(t) => c.(cleaned := c.cleaned + [t], totalRecords := c.totalRecords + 1)
      case Failure(reason) =>
        c.(removed := c.removed + [Rejection(line, reason)],
           totalRecords := c.totalRecords + 1, invalidRecords := c.invalidRecords + 1)
  }

  /** The state after the loop of `parse_and_clean_data` has seen `lines`. */
  function CleanAll(lines: seq<string>): Cleaning
  {
    if lines == [] then Cleaning([], [], 0, 0)
    else CleanStep(CleanAll(lines[..|lines| - 1]), lines[|lines| - 1])
  }

  /**
   * `parse_and_clean_data`. The two counters it prints are returned as well,
   * so that what they count can be stated.
   */
  method ParseAndCleanData(lines: seq<string>) returns (cleanedData: seq<Transaction>, removedData: seq<Rejection>, totalRecords: nat, invalidRecords: nat)
    ensures Cleaning(cleanedData, removedData, totalRecords, invalidRecords) == CleanAll(lines)
    ensures totalRecords == |Filter(lines, IsRecordLine)|
    ensures totalRecords == |cleanedData| + invalidRecords && invalidRecords == |removedData|
    ensures forall r :: r in removedData ==> r.reason in Reasons && CleanLine(r.line) == Failure(r.reason)
  {
    cleanedData, removedData, totalRecords, invalidRecords := [], [], 0, 0;
    for i := 0 to |lines|
      invariant Cleaning(cleanedData, removedData, totalRecords, invalidRecords) == CleanAll(lines[..i])
    {
      assert lines[..i + 1][..i] == lines[..i];
      var line := lines[i];
      if StartsWith(line, "TransactionID") {
        continue;
      }
      totalRecords := totalRecords + 1;
      var fields := Split(line, '|');
      if |fields| != 8 {
        invalidRecords := invalidRecords + 1;
        removedData := removedData + [Rejection(line, InvalidFieldCount)];
        continue;
      }
      var productName := Strip(Remove(fields[3], ','));
      if !StartsWith(fields[0], "T") {
        invalidRecords := invalidRecords + 1;
        removedData := removedData + [Rejection(line, BadTransactionId)];
        continue;
      }
      if IsBlank(fields[6]) || IsBlank(fields[7]) {
        invalidRecords := invalidRecords + 1;
        removedData := removedData + [Rejection(line, MissingCustomerOrRegion)];
        continue;
      }
      var quantity := ParseInt(fields[4]);
      var unitPrice := ParseFloat(Remove(fields[5], ','));
      if quantity.None? || unitPrice.None? {
        invalidRecords := invalidRecords + 1;
        removedData := removedData + [Rejection(line, InvalidNumericFormat)];
        continue;
      }
      if quantity.value <= 0 {
        invalidRecords := invalidRecords + 1;
        removedData := removedData + [Rejection(line, QuantityNotPositive)];
        continue;
      }
      if unitPrice.value <= 0.0 {
        invalidRecords := invalidRecords + 1;
        removedData := removedData + [Rejection(line, PriceNotPositive)];
        continue;
      }
      cleanedData := cleanedData + [Transaction(fields[0], fields[1], fields[2], productName,
                                                quantity.value, unitPrice.value, fields[6], fields[7])];
    }
    assert lines[..|lines|] == lines;
    CleanAllCounts(lines);
    CleanAllRemoved(lines);
  }

  /**
   * Every line but the header lines is counted, and lands in exactly one of
   * the two lists: the counters agree with the lists.
   */
  lemma {:induction false} CleanAllCounts(lines: seq<string>)
    ensures var c := CleanAll(lines);
      c.totalRecords == |Filter(lines, IsRecordLine)| &&
      c.totalRecords == |c.cleaned| + c.invalidRecords && c.invalidRecords == |c.removed|
  {
    if lines != [] {
      CleanAllCounts(lines[..|lines| - 1]);
    }
  }

  /** Each removed entry carries its line and the reason that line fails with. */
  lemma {:induction false} CleanAllRemoved(lines: seq<string>)
    ensures forall r :: r in CleanAll(lines).removed ==> r.reason in Reasons && CleanLine(r.line) == Failure(r.reason)
  {
    if lines != [] {
      CleanAllRemoved(lines[..|lines| - 1]);
    }
  }

  /** Each cleaned record is a record of one of the lines, kept by both parsers. */
  lemma {:induction false} CleanAllCleaned(lines: seq<string>)
    ensures forall t :: t in CleanAll(lines).cleaned ==>
      exists line :: line in lines && CleanLine(line) == Success(t) && ParseLine(line) == Some(t)
  {
    if lines != [] {
      var init := lines[..|lines| - 1];
      CleanAllCleaned(init);
      var last := lines[|lines| - 1];
      CleanLineParses(last);
      forall t | t in CleanAll(lines).cleaned
        ensures exists line :: line in lines && CleanLine(line) == Success(t) && ParseLine(line) == Some(t)
      {
        if t in CleanAll(init).cleaned {
          var line :| line in init && CleanLine(line) == Success(t) && ParseLine(line) == Some(t);
          assert line in lines;
        } else {
          assert CleanLine(last) == Success(t);
        }
      }
    }
  }
}
