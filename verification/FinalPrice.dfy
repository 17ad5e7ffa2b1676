/** Reading agreed prices back from the chain's records, whose price field may hold the separator itself. */
module FinalPrice {
  import opened Splitting

  /** The four fields of a record; all parts between the second and the last belong to the price. */
  datatype Fields = Fields(tokenID: string, roundID: string, price: string, decimal: string)

  /** A record's fields; the source indexes four parts whatever their number. */
  function FieldsOf(record: string): Fields
    requires |Split(record, FIELDS)| >= 4
  {
    var parts := Split(record, FIELDS);
    Fields(parts[0], parts[1], Join(parts[2..|parts| - 1], FIELDS), parts[|parts| - 1])
  }

  function Record(f: Fields): string {
    Glue(f.tokenID, Glue(f.roundID, Glue(f.price, f.decimal, FIELDS), FIELDS), FIELDS)
  }

  lemma SplitOfRecord(f: Fields)
    requires FIELDS !in f.tokenID && FIELDS !in f.roundID && FIELDS !in f.decimal
    ensures Split(Record(f), FIELDS) == [f.tokenID] + ([f.roundID] + (Split(f.price, FIELDS) + [f.decimal]))
  {
    SplitPlain(f.tokenID, FIELDS);
    SplitPlain(f.roundID, FIELDS);
    SplitPlain(f.decimal, FIELDS);
    SplitAcross(f.price, f.decimal, FIELDS);
    SplitAcross(f.roundID, Glue(f.price, f.decimal, FIELDS), FIELDS);
    SplitAcross(f.tokenID, Glue(f.roundID, Glue(f.price, f.decimal, FIELDS), FIELDS), FIELDS);
  }

  /** The reading back succeeds for any price, whatever separators it holds. */
  lemma FieldsRecovered(f: Fields)
    requires FIELDS !in f.tokenID && FIELDS !in f.roundID && FIELDS !in f.decimal
    ensures |Split(Record(f), FIELDS)| >= 4 && FieldsOf(Record(f)) == f
  {
    SplitOfRecord(f);
    JoinSplit(f.price, FIELDS);
    EndsAround(f.tokenID, f.roundID, Split(f.price, FIELDS), f.decimal);
  }

  lemma EndsAround(a: string, b: string, middle: seq<string>, last: string)
    ensures var parts := [a] + ([b] + (middle + [last]));
            && parts[0] == a && parts[1] == b && parts[|parts| - 1] == last
            && parts[2..|parts| - 1] == middle
  {
  }

  lemma FourParts(a: string, b: string, middle: seq<string>, last: string)
    requires |middle| >= 1
    ensures Join([a] + ([b] + (middle + [last])), FIELDS) == Glue(a, Glue(b, Glue(Join(middle, FIELDS), last, FIELDS), FIELDS), FIELDS)
  {
    JoinCons(a, [b] + (middle + [last]), FIELDS);
    JoinCons(b, middle + [last], FIELDS);
    JoinAppend(middle, last, FIELDS);
  }

  lemma EndsAndMiddle(parts: seq<string>)
    requires |parts| >= 4
    ensures parts == [parts[0]] + ([parts[1]] + (parts[2..|parts| - 1] + [parts[|parts| - 1]]))
  {
  }

  lemma EndsArePlain(record: string)
    requires |Split(record, FIELDS)| >= 4
    ensures var f := FieldsOf(record); FIELDS !in f.tokenID && FIELDS !in f.roundID && FIELDS !in f.decimal
  {
    SplitHasNoSep(record, FIELDS);
    var parts := Split(record, FIELDS);
    assert parts[0] in parts && parts[1] in parts && parts[|parts| - 1] in parts;
  }

  lemma PartsRecovered(parts: seq<string>, f: Fields)
    requires |parts| >= 4
    requires f == Fields(parts[0], parts[1], Join(parts[2..|parts| - 1], FIELDS), parts[|parts| - 1])
    ensures Record(f) == Join(parts, FIELDS)
  {
    EndsAndMiddle(parts);
    FourParts(parts[0], parts[1], parts[2..|parts| - 1], parts[|parts| - 1]);
  }

  /** Nothing of a record is lost either: its fields put together again are the record. */
  lemma RecordRecovered(record: string)
    requires |Split(record, FIELDS)| >= 4
    ensures Record(FieldsOf(record)) == record
    ensures var f := FieldsOf(record); FIELDS !in f.tokenID && FIELDS !in f.roundID && FIELDS !in f.decimal
  {
    JoinSplit(record, FIELDS);
    EndsArePlain(record);
    PartsRecovered(Split(record, FIELDS), FieldsOf(record));
  }

  // ---- The loop over the records --------------------------------------------------------------

  /** What the source asks of the fields: a 64-bit token, a 32-bit decimal and, if 32 characters long, a base64 price. */
  datatype Syntax = Syntax(isInt64: string -> bool, isInt32: string -> bool, isBase64: string -> bool)

  predicate PriceDecodes(f: Fields, syntax: Syntax) {
    |f.price| == 32 ==> syntax.isBase64(f.price)
  }

  predicate Decodes(f: Fields, syntax: Syntax) {
    PriceDecodes(f, syntax) && syntax.isInt64(f.tokenID) && syntax.isInt32(f.decimal)
  }

  /** Record `n` is the first that cannot be decoded. */
  predicate FirstBad(records: seq<string>, syntax: Syntax, n: nat)
    requires forall i | 0 <= i < |records| :: |Split(records[i], FIELDS)| >= 4
  {
    n < |records| && !Decodes(FieldsOf(records[n]), syntax) && forall i | 0 <= i < n :: Decodes(FieldsOf(records[i]), syntax)
  }

  /**
   The agreed prices of a block, valid if there are any and all can be decoded. An undecodable number
   takes the prices read so far with it; an undecodable price leaves them, though not as valid.
   */
  method ReadFinalPrices(records: seq<string>, syntax: Syntax) returns (prices: seq<Fields>, valid: bool)
    requires forall i | 0 <= i < |records| :: |Split(records[i], FIELDS)| >= 4
    ensures valid <==> records != [] && forall i | 0 <= i < |records| :: Decodes(FieldsOf(records[i]), syntax)
    ensures valid ==> |prices| == |records|
    ensures !valid && records != [] ==>
              exists n: nat :: FirstBad(records, syntax, n) && |prices| == if PriceDecodes(FieldsOf(records[n]), syntax) then 0 else n
    ensures |prices| <= |records| && forall i | 0 <= i < |prices| :: prices[i] == FieldsOf(records[i])
  {
    prices, valid := [], false;
    if |records| == 0 {
      return;
    }
    var n := 0;
    while n < |records|
      invariant n <= |records| && |prices| == n && !valid
      invariant forall i | 0 <= i < n :: prices[i] == FieldsOf(records[i]) && Decodes(prices[i], syntax)
    {
      var parsed := Split(records[n], FIELDS);
      var l := |parsed|;
      ghost var f := FieldsOf(records[n]);
      if l > 4 {
        parsed := parsed[2 := Join(parsed[2..l - 1], FIELDS)];
        parsed := parsed[3 := Split(records[n], FIELDS)[l - 1]];
        parsed := parsed[..4];
      } else {
        assert parsed[2..l - 1] == [parsed[2]];
      }
      assert Fields(parsed[0], parsed[1], parsed[2], parsed[3]) == f;
      if |parsed[2]| == 32 && !syntax.isBase64(parsed[2]) {
        assert FirstBad(records, syntax, n);
        return;
      }
      if !syntax.isInt64(parsed[0]) {
        prices := [];
        assert FirstBad(records, syntax, n);
        return;
      }
      if !syntax.isInt32(parsed[3]) {
        prices := [];
        assert FirstBad(records, syntax, n);
        return;
      }
      prices := prices + [Fields(parsed[0], parsed[1], parsed[2], parsed[3])];
      n := n + 1;
    }
    valid := true;
  }
}
