/**
  The out-of-scope filter a fetch worker runs over the decoded exchange-rate
  records: every record whose mid rate lies strictly outside the band
  [4.5, 4.7] contributes its formatted effective date, in record order.
 */
module Rates {
  import Dates

  /** One record of `summary.Rates`: the mid rate and its effective date. */
  datatype Rate = Rate(mid: real, effectiveDate: Dates.Date)

  const LowerBound: real := 4.5
  const UpperBound: real := 4.7

  /** The worker's test `item.Mid < 4.5 || item.Mid > 4.7`: the mid lies outside the closed band. */
  predicate OutOfScope(r: Rate)
    ensures OutOfScope(r) <==> !(LowerBound <= r.mid <= UpperBound)
  {
    r.mid < LowerBound || r.mid > UpperBound
  }

  /**
    The list the filter loop builds, defined one record at a time from the
    back; it is never longer than the records.
   */
  function FlaggedDates(rates: seq<Rate>): (out: seq<string>)
    ensures |out| <= |rates|
    decreases |rates|
  {
    if rates == [] then []
    else
      var last := rates[|rates| - 1];
      FlaggedDates(rates[..|rates| - 1])
        + (if OutOfScope(last) then [Dates.FormatDate(last.effectiveDate)] else [])
  }

  /**
    Reference definition: the positions of the out-of-scope records, in
    increasing order. A position is listed exactly when its record is out of scope.
   */
  function FlaggedIndices(rates: seq<Rate>): (idx: seq<nat>)
    ensures forall j :: 0 <= j < |idx| ==> idx[j] < |rates|
    ensures forall j, k :: 0 <= j < k < |idx| ==> idx[j] < idx[k]
    ensures forall i :: 0 <= i < |rates| ==> (i in idx <==> OutOfScope(rates[i]))
    decreases |rates|
  {
    if rates == [] then []
    else
      var n := |rates| - 1;
      FlaggedIndices(rates[..n]) + (if OutOfScope(rates[n]) then [n] else [])
  }

  /** The loop of the worker: walk `summary.Rates` and append each flagged date. */
  method CollectOutOfScope(rates: seq<Rate>) returns (rateOutOfScope: seq<string>)
    ensures rateOutOfScope == FlaggedDates(rates)
  {
    rateOutOfScope := [];
    for i := 0 to |rates|
      invariant rateOutOfScope == FlaggedDates(rates[..i])
    {
      var item := rates[i];
      if item.mid < LowerBound || item.mid > UpperBound {
        var date := Dates.FormatDate(item.effectiveDate);
        rateOutOfScope := rateOutOfScope + [date];
      }
      assert rates[..i + 1][..i] == rates[..i];
    }
    assert rates[..|rates|] == rates;
  }

  /** Filtering a concatenation is the concatenation of the filtered parts. */
  lemma {:induction false} FlaggedDatesAppend(a: seq<Rate>, b: seq<Rate>)
    ensures FlaggedDates(a + b) == FlaggedDates(a) + FlaggedDates(b)
    decreases |b|
  {
    if b == [] {
      assert a + b == a;
    } else {
      var n := |b| - 1;
      var tail := if OutOfScope(b[n]) then [Dates.FormatDate(b[n].effectiveDate)] else [];
      assert (a + b)[..|a + b| - 1] == a + b[..n];
      assert (a + b)[|a + b| - 1] == b[n];
      assert FlaggedDates(a + b) == FlaggedDates(a + b[..n]) + tail;
      assert FlaggedDates(b) == FlaggedDates(b[..n]) + tail;
      FlaggedDatesAppend(a, b[..n]);
    }
  }

  /**
    The list holds, in order, the formatted dates of exactly the out-of-scope
    records: its j-th entry is the date of the j-th flagged position.
   */
  lemma {:induction false} FlaggedDatesFollowIndices(rates: seq<Rate>)
    ensures |FlaggedDates(rates)| == |FlaggedIndices(rates)|
    ensures forall j :: 0 <= j < |FlaggedIndices(rates)| ==>
      FlaggedDates(rates)[j] == Dates.FormatDate(rates[FlaggedIndices(rates)[j]].effectiveDate)
    decreases |rates|
  {
    if rates != [] {
      var n := |rates| - 1;
      var prefix := rates[..n];
      FlaggedDatesFollowIndices(prefix);
      var out, idx := FlaggedDates(prefix), FlaggedIndices(prefix);
      var flagged, positions := FlaggedDates(rates), FlaggedIndices(rates);
      var tail := if OutOfScope(rates[n]) then [Dates.FormatDate(rates[n].effectiveDate)] else [];
      assert flagged == out + tail;
      assert positions == idx + (if OutOfScope(rates[n]) then [n] else []);
      forall j | 0 <= j < |positions|
        ensures flagged[j] == Dates.FormatDate(rates[positions[j]].effectiveDate)
      {
        if j < |idx| {
          assert rates[idx[j]] == prefix[idx[j]];
        }
      }
    }
  }

  /**
    A date appears in the list if and only if some out-of-scope record carries it.
   */
  lemma FlaggedDateMembership(rates: seq<Rate>, d: Dates.Date)
    ensures Dates.FormatDate(d) in FlaggedDates(rates)
        <==> exists i :: 0 <= i < |rates| && rates[i].effectiveDate == d && OutOfScope(rates[i])
  {
    FlaggedDatesFollowIndices(rates);
    var out, idx := FlaggedDates(rates), FlaggedIndices(rates);
    if Dates.FormatDate(d) in out {
      var j :| 0 <= j < |out| && out[j] == Dates.FormatDate(d);
      Dates.FormatDateInjective(d, rates[idx[j]].effectiveDate);
      assert rates[idx[j]].effectiveDate == d && OutOfScope(rates[idx[j]]);
    }
    if i :| 0 <= i < |rates| && rates[i].effectiveDate == d && OutOfScope(rates[i]) {
      var j :| 0 <= j < |idx| && idx[j] == i;
      assert out[j] == Dates.FormatDate(d);
    }
  }

  lemma FlaggedDatesLengthStep(rates: seq<Rate>)
    requires rates != []
    ensures |FlaggedDates(rates)| == |FlaggedDates(rates[..|rates| - 1])|
      + (if OutOfScope(rates[|rates| - 1]) then 1 else 0)
  {
  }

  predicate NoneOutOfScope(rates: seq<Rate>) {
    forall i :: 0 <= i < |rates| ==> !OutOfScope(rates[i])
  }

  predicate AllOutOfScope(rates: seq<Rate>) {
    forall i :: 0 <= i < |rates| ==> OutOfScope(rates[i])
  }

  /** Whether all (or none) of the records are out of scope is decided by the prefix and the last record. */
  lemma ScopeOfPrefix(rates: seq<Rate>)
    requires rates != []
    ensures NoneOutOfScope(rates) <==> NoneOutOfScope(rates[..|rates| - 1]) && !OutOfScope(rates[|rates| - 1])
    ensures AllOutOfScope(rates) <==> AllOutOfScope(rates[..|rates| - 1]) && OutOfScope(rates[|rates| - 1])
  {
  }

  /**
    The list is never longer than the input; it is empty exactly when every
    mid lies in the band, and as long as the input exactly when none does.
   */
  lemma {:induction false} FlaggedDatesLength(rates: seq<Rate>)
    ensures |FlaggedDates(rates)| <= |rates|
    ensures |FlaggedDates(rates)| == 0 <==> forall i :: 0 <= i < |rates| ==> !OutOfScope(rates[i])
    ensures |FlaggedDates(rates)| == |rates| <==> forall i :: 0 <= i < |rates| ==> OutOfScope(rates[i])
    decreases |rates|
  {
    if rates != [] {
      FlaggedDatesLength(rates[..|rates| - 1]);
      FlaggedDatesLengthStep(rates);
      ScopeOfPrefix(rates);
      assert NoneOutOfScope(rates) == (forall i :: 0 <= i < |rates| ==> !OutOfScope(rates[i]));
    }
  }

  /** The band is closed: 4.5 and 4.7 are not flagged, 4.499 and 4.701 are. */
  lemma BandEdges(d: Dates.Date)
    ensures FlaggedDates([Rate(4.5, d)]) == [] && FlaggedDates([Rate(4.7, d)]) == []
    ensures FlaggedDates([Rate(4.499, d)]) == [Dates.FormatDate(d)]
    ensures FlaggedDates([Rate(4.701, d)]) == [Dates.FormatDate(d)]
  {
  }

  /** Three records with mids 4.6, 4.4 and 4.8: the last two dates are flagged, in order. */
  lemma ThreeRecordScenario(d1: Dates.Date, d2: Dates.Date, d3: Dates.Date)
    ensures FlaggedDates([Rate(4.6, d1), Rate(4.4, d2), Rate(4.8, d3)])
         == [Dates.FormatDate(d2), Dates.FormatDate(d3)]
  {
    var rs := [Rate(4.6, d1), Rate(4.4, d2), Rate(4.8, d3)];
    assert rs[..2] == [Rate(4.6, d1), Rate(4.4, d2)];
    assert rs[..2][..1] == [Rate(4.6, d1)];
    assert rs[..2][..1][..0] == [];
    assert FlaggedDates(rs[..2][..1]) == [];
    assert FlaggedDates(rs[..2]) == [Dates.FormatDate(d2)];
    assert FlaggedDates(rs) == FlaggedDates(rs[..2]) + [Dates.FormatDate(d3)];
  }
}
