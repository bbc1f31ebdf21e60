/** The bounded history log and the current result of the prediction page:
    committing a prediction (App.tsx, `handleGenerate`, lines 175-194), wiping the
    log (`clearHistory`, lines 239-243), picking an archived entry (line 659) and
    the type filter of the archive view (lines 245-247). */
module History {
  import opened Types
  import opened Sorting

  /** The log keeps at most this many entries (`slice(0, 50)`). */
  const HistoryCap: nat := 50

  /** The reply of the prediction service, or its failure (network, parse or
      `sort` on a missing array all end in the same `catch`). */
  datatype Prediction = Prediction(numbers: seq<int>, specialNumber: Option<int>, analysis: string)
  datatype PredictOutcome = Predicted(prediction: Prediction) | PredictFailed

  /** The entry committed for a prediction: its numbers sorted ascending, the id
      and timestamp supplied by the caller. */
  function NewResult(t: LotteryType, p: Prediction, id: string, now: int): (r: LotteryResult)
    ensures Ascending(r.numbers) && multiset(r.numbers) == multiset(p.numbers)
    ensures r.lotteryType == t && r.specialNumber == p.specialNumber && r.analysis == p.analysis
  {
    LotteryResult(SortAscending(p.numbers), p.specialNumber, now, id, p.analysis, t)
  }

  function Min(a: nat, b: nat): nat {
    if a < b then a else b
  }

  /** `[e, ...h].slice(0, 50)`: the new entry first, then as many of the old ones,
      in their order, as fit under the cap. */
  function Prepend(e: LotteryResult, h: seq<LotteryResult>): (r: seq<LotteryResult>)
    ensures |r| == Min(|h| + 1, HistoryCap)
    ensures r[0] == e
    ensures r[1..] == h[..|r| - 1]
  {
    var all := [e] + h;
    assert all[1..] == h;
    all[..Min(|all|, HistoryCap)]
  }

  /** The log after committing `es` one after another, starting from `h`. */
  function PrependAll(h: seq<LotteryResult>, es: seq<LotteryResult>): seq<LotteryResult>
    decreases |es|
  {
    if es == [] then h else PrependAll(Prepend(es[0], h), es[1..])
  }

  function Reversed(s: seq<LotteryResult>): (r: seq<LotteryResult>)
    ensures |r| == |s|
    ensures forall i :: 0 <= i < |s| ==> r[i] == s[|s| - 1 - i]
  {
    if s == [] then [] else Reversed(s[1..]) + [s[0]]
  }

  /** Any number of commits is one truncation: the log is always the newest
      entries first, followed by the older log, cut to the cap. */
  lemma {:induction false} PrependAllTruncates(h: seq<LotteryResult>, es: seq<LotteryResult>)
    requires |h| <= HistoryCap
    ensures PrependAll(h, es) == (Reversed(es) + h)[..Min(|es| + |h|, HistoryCap)]
    ensures |PrependAll(h, es)| <= HistoryCap
    decreases |es|
  {
    if es == [] {
      assert Reversed(es) + h == h;
    } else {
      var e, rest := es[0], es[1..];
      var h1 := Prepend(e, h);
      PrependAllTruncates(h1, rest);
      var x, y := Reversed(rest), [e] + h;
      var m1 := Min(|y|, HistoryCap);
      assert h1 == y[..m1];
      assert Reversed(es) == x + [e] by {
        assert es == [e] + rest;
        assert Reversed(es) == Reversed(es[1..]) + [es[0]];
      }
      assert Reversed(es) + h == x + y;
      var k := Min(|rest| + |h1|, HistoryCap);
      assert k == Min(|es| + |h|, HistoryCap);
      assert (x + y[..m1])[..k] == (x + y)[..k] by {
        forall i | 0 <= i < k ensures (x + y[..m1])[i] == (x + y)[i] {
          if i >= |x| {
            assert (x + y[..m1])[i] == y[..m1][i - |x|];
          }
        }
      }
    }
  }

  /** The archive filter: every type, or one type only. */
  datatype HistoryFilter = AllTypes | OnlyType(t: LotteryType)

  predicate Matches(f: HistoryFilter, e: LotteryResult) {
    f.AllTypes? || e.lotteryType == f.t
  }

  /** `history.filter(...)` for the chosen filter. */
  function FilterHistory(h: seq<LotteryResult>, f: HistoryFilter): (r: seq<LotteryResult>)
    ensures |r| <= |h|
    ensures forall i :: 0 <= i < |r| ==> Matches(f, r[i])
    ensures forall e :: e in r <==> e in h && Matches(f, e)
    ensures f.AllTypes? ==> r == h
  {
    if h == [] then []
    else (if Matches(f, h[0]) then [h[0]] else []) + FilterHistory(h[1..], f)
  }

  /** The filter keeps the order of the log: filtering a concatenation filters
      each part. With `FilterHistory([e], f)` being `[e]` or `[]`, this fixes the
      result entry by entry. */
  lemma {:induction false} FilterConcat(a: seq<LotteryResult>, b: seq<LotteryResult>, f: HistoryFilter)
    ensures FilterHistory(a + b, f) == FilterHistory(a, f) + FilterHistory(b, f)
  {
    if a == [] {
      assert a + b == b;
    } else {
      assert (a + b)[0] == a[0];
      assert (a + b)[1..] == a[1..] + b;
      FilterConcat(a[1..], b, f);
    }
  }

  /** Filtering is idempotent: a filtered view filtered again is unchanged. */
  lemma {:induction false} FilterTwice(h: seq<LotteryResult>, f: HistoryFilter)
    ensures FilterHistory(FilterHistory(h, f), f) == FilterHistory(h, f)
  {
    if h != [] {
      var head := if Matches(f, h[0]) then [h[0]] else [];
      FilterTwice(h[1..], f);
      FilterConcat(head, FilterHistory(h[1..], f), f);
      if head != [] {
        assert FilterHistory(head, f) == head by {
          assert head[1..] == [];
        }
      }
    }
  }

  /** Each entry of the log occurs in a type-filtered view exactly as often as in
      the log when it has that type, and not at all otherwise. */
  lemma {:induction false} FilterCounts(h: seq<LotteryResult>, f: HistoryFilter, e: LotteryResult)
    ensures multiset(FilterHistory(h, f))[e] == if Matches(f, e) then multiset(h)[e] else 0
  {
    if h != [] {
      assert h == [h[0]] + h[1..];
      FilterCounts(h[1..], f, e);
    }
  }

  /** The page state the prediction flow changes. */
  class Session {
    var history: seq<LotteryResult>
    var currentResult: Option<LotteryResult>

    ghost predicate Valid()
      reads this
    {
      |history| <= HistoryCap
    }

    constructor ()
      ensures Valid() && history == [] && currentResult == None
    {
      history := [];
      currentResult := None;
    }

    /** After the prediction service answers: on success the new entry becomes the
        current result and the head of the log; on failure nothing changes. */
    method Generate(t: LotteryType, outcome: PredictOutcome, id: string, now: int) returns (ok: bool)
      requires Valid()
      modifies this
      ensures Valid()
      ensures ok <==> outcome.Predicted?
      ensures !ok ==> history == old(history) && currentResult == old(currentResult)
      ensures ok ==>
        currentResult == Some(NewResult(t, outcome.prediction, id, now)) &&
        history == Prepend(currentResult.value, old(history))
    {
      if outcome.PredictFailed? {
        ok := false;
        return;
      }
      ok := true;
      var entry := NewResult(t, outcome.prediction, id, now);
      currentResult := Some(entry);
      history := Prepend(entry, history);
    }

    /** The wipe button; `confirmed` is the answer to the confirmation dialog. */
    method ClearHistory(confirmed: bool)
      requires Valid()
      modifies this
      ensures Valid()
      ensures history == if confirmed then [] else old(history)
      ensures currentResult == old(currentResult)
    {
      if confirmed {
        history := [];
      }
    }

    /** Opening an archived entry makes it the current result. */
    method Select(e: LotteryResult)
      requires Valid()
      requires e in history
      modifies this
      ensures Valid()
      ensures currentResult == Some(e) && history == old(history)
    {
      currentResult := Some(e);
    }
  }
}
