/** The session history of ciat.py: `st.session_state.history`, a list of
    records that is created empty when the key is absent, grows by one
    record per evaluation and is emptied by "Clear History". */
module History {
  import opened Wrappers
  import opened Amortization
  import opened Affordability
  import opened Rounding

  /** The two result messages (also shown as the page heading). */
  const AffordableMessage: string := "\U{2705} You can afford this!"
  const NotAffordableMessage: string := "\U{274C} Not affordable right now."

  /** One row of the history table: Time, Result, Leftover, Purchase,
      Monthly EMI. The time stamp is supplied by the caller. */
  datatype Record = Record(time: string, result: string, leftover: real, purchase: real, monthlyEmi: real)

  /** The record appended after an evaluation: the verdict's message, and
      leftover, purchase and (with EMI only) the installment rounded to
      cents; without EMI the installment column holds 0. */
  function MakeRecord(time: string, i: Input, e: Evaluation): (rec: Record)
    ensures rec.time == time
    ensures rec.result == AffordableMessage <==> e.affordable
    ensures !e.affordable ==> rec.result == NotAffordableMessage
    ensures rec.leftover == Round2(e.leftover) && Abs(rec.leftover - e.leftover) <= 0.005
    ensures rec.purchase == Round2(i.purchase) && Abs(rec.purchase - i.purchase) <= 0.005
    ensures i.plan.PayNow? ==> rec.monthlyEmi == 0.0
    ensures i.plan.Emi? ==> rec.monthlyEmi == Round2(e.monthlyEmi)
  {
    Record(time,
           if e.affordable then AffordableMessage else NotAffordableMessage,
           Round2(e.leftover),
           Round2(i.purchase),
           if i.plan.Emi? then Round2(e.monthlyEmi) else 0.0)
  }

  /** The part of the session state this model needs: the "history" key,
      absent (None) until the script first initialises it. */
  class Session {
    var history: Option<seq<Record>>

    /** A new browser session: no history key yet. */
    constructor ()
      ensures history == None
    {
      history := None;
    }

    /** Run on every script run: create the empty list only when the key
        is absent, so an existing history survives re-runs. */
    method InitHistory()
      modifies this
      ensures old(history).None? ==> history == Some([])
      ensures old(history).Some? ==> history == old(history)
    {
      if history.None? {
        history := Some([]);
      }
    }

    /** The "Can I Afford This?" button: evaluate, then append exactly one
        record at the end. When the evaluation raises, nothing is appended. */
    method CheckAffordability(i: Input, time: string) returns (res: Result<Evaluation, ArithError>)
      requires WellFormed(i)
      requires history.Some?
      modifies this
      ensures res == Evaluate(i)
      ensures res.Failure? ==> history == old(history)
      ensures res.Success? ==>
                && history.Some?
                && |history.value| == |old(history).value| + 1
                && history.value[..|old(history).value|] == old(history).value
                && history.value[|old(history).value|] == MakeRecord(time, i, res.value)
    {
      res := Evaluate(i);
      if res.Success? {
        history := Some(history.value + [MakeRecord(time, i, res.value)]);
      }
    }

    /** The "Clear History" button: the list becomes empty. */
    method ClearHistory()
      modifies this
      ensures history == Some([])
    {
      history := Some([]);
    }
  }

  /** A session as the script drives it: two evaluations, then a clear. */
  method ExampleSession() returns (s: Session)
    ensures fresh(s) && s.history == Some([])
  {
    s := new Session();
    s.InitHistory();
    var first := s.CheckAffordability(Input(3000.0, 2000.0, 500.0, 120.0, PayNow), "t1");
    PayNowSurplusExample();
    assert first.Success? && first.value.leftover == 880.0;
    assert s.history.value == [MakeRecord("t1", Input(3000.0, 2000.0, 500.0, 120.0, PayNow), first.value)];
    s.InitHistory();
    assert |s.history.value| == 1;
    var second := s.CheckAffordability(Input(1000.0, 1000.0, 0.0, 1200.0, Emi(12, 0.0)), "t2");
    assert second.Failure? && |s.history.value| == 1;
    s.ClearHistory();
  }
}
