/**
  The per-resource flow counter (jobflow.go): three `uint64` counts and its
  two read-only selectors, the text rendering and the flow-balance test.
 */
module JobFlows {
  import opened GoWords
  import opened Decimal
  import opened Results

  /**
    Counts of arrival and completion events seen for one resource. `busy`
    is part of the record, but no operation of the registry ever writes it.
   */
  datatype JobFlow = JobFlow(arrivals: uint64, busy: uint64, completions: uint64)
  {
    /** `[arrivals,busy,completions]`, each count in decimal. */
    function String(): string {
      "[" + DecimalString(arrivals) + "," + DecimalString(busy) + "," + DecimalString(completions) + "]"
    }

    /** Flow balance: as many completions as arrivals, whatever `busy` holds. */
    predicate HasJobFlowBalance() {
      arrivals == completions
    }
  }

  /** The zero value of the record (`new(JobFlow)`). */
  const ZeroFlow := JobFlow(0, 0, 0)

  /** Splits text at every comma, keeping empty pieces. */
  function SplitOnComma(s: string): (r: seq<string>)
    ensures |r| >= 1
  {
    if s == [] then [""]
    else
      var rest := SplitOnComma(s[1..]);
      if s[0] == ',' then [""] + rest
      else [[s[0]] + rest[0]] + rest[1..]
  }

  lemma {:induction false} SplitNoComma(x: string)
    requires ',' !in x
    ensures SplitOnComma(x) == [x]
  {
    if x != [] {
      SplitNoComma(x[1..]);
      assert [x[0]] + x[1..] == x;
    }
  }

  lemma {:induction false} SplitFirstComma(x: string, y: string)
    requires ',' !in x
    ensures SplitOnComma(x + "," + y) == [x] + SplitOnComma(y)
  {
    if x == [] {
      assert x + "," + y == [','] + y;
      assert (x + "," + y)[1..] == y;
    } else {
      assert (x + "," + y)[1..] == x[1..] + "," + y;
      SplitFirstComma(x[1..], y);
      assert [x[0]] + x[1..] == x;
    }
  }

  /** A `uint64` written as one or more decimal digits. */
  function ParseUint64(s: string): (r: Option<uint64>)
    ensures r.Some? ==> |s| >= 1 && IsDigits(s) && DigitsValue(s) == r.value
  {
    if |s| >= 1 && IsDigits(s) && DigitsValue(s) < TWO_64 then Some(DigitsValue(s)) else None
  }

  /**
    Reads back a rendered record: `[`, three decimal counts separated by
    commas, `]`. Anything else is refused.
   */
  function ParseJobFlow(s: string): Option<JobFlow> {
    if |s| < 2 || s[0] != '[' || s[|s| - 1] != ']' then None
    else
      var fields := SplitOnComma(s[1..|s| - 1]);
      if |fields| != 3 then None
      else
        match (ParseUint64(fields[0]), ParseUint64(fields[1]), ParseUint64(fields[2]))
        case (Some(a), Some(b), Some(c)) => Some(JobFlow(a, b, c))
        case _ => None
  }

  lemma ParseDecimal(n: uint64)
    ensures ParseUint64(DecimalString(n)) == Some(n)
  {
    DecimalRoundTrip(n);
  }

  /** The rendering loses nothing: reading it back gives the record. */
  lemma StringRoundTrip(f: JobFlow)
    ensures ParseJobFlow(f.String()) == Some(f)
  {
    var da, db, dc := DecimalString(f.arrivals), DecimalString(f.busy), DecimalString(f.completions);
    var s := f.String();
    assert s[1..|s| - 1] == da + "," + (db + "," + dc);
    SplitFirstComma(da, db + "," + dc);
    SplitFirstComma(db, dc);
    SplitNoComma(dc);
    ParseDecimal(f.arrivals);
    ParseDecimal(f.busy);
    ParseDecimal(f.completions);
  }

  /** Distinct records render as distinct text. */
  lemma StringInjective(f: JobFlow, g: JobFlow)
    requires f.String() == g.String()
    ensures f == g
  {
    StringRoundTrip(f);
    StringRoundTrip(g);
  }

  /** The rendering the test expects: eleven arrivals, ten completions. */
  lemma StringExample()
    ensures JobFlow(11, 0, 10).String() == "[11,0,10]"
  {
    assert DecimalString(11) == "11";
    assert DecimalString(10) == "10";
  }

  /** The two records of the balance test. */
  lemma BalanceExamples()
    ensures !JobFlow(11, 0, 10).HasJobFlowBalance()
    ensures JobFlow(10, 0, 10).HasJobFlowBalance()
  {
  }
}
