/** The processing state machine of App.tsx: the `state` and `filename`
    variables, the file-selection, settlement and reset transitions, the
    gating of the upload control and the reset button on the status, and
    the empty-data guards of the two CSV exports.

    The remote extraction call is an abstract outcome: either the list of
    transactions it returned, or a failure of any kind. Its settlement is
    one sequential event. */
module App {
  import opened Types
  import Csv

  /** The fixed message stored when extraction fails, whatever the cause. */
  const FailureMessage: string :=
    "Failed to process the document. Please ensure it's a clear image or PDF of a bank statement."

  /** How the one extraction call ended. */
  datatype Outcome = Ok(transactions: seq<Transaction>) | Fail

  /** The application's two state variables: the processing state and the
      chosen file name (`null` is `None`). */
  datatype Session = Session(state: ProcessingState, filename: Option<string>)

  /** The events that change the session. */
  datatype Event = FileSelected(name: string) | Settled(outcome: Outcome) | ResetClicked

  /** The session at start-up: idle, no data, no error, no file. */
  const Initial: Session := Session(ProcessingState(Idle, [], None), None)

  /** One transition. File selection overwrites both variables; settlement
      overwrites the state whatever it currently is; reset clears both. */
  function Step(s: Session, e: Event): Session
  {
    match e
    case FileSelected(name) => Session(ProcessingState(Processing, [], None), Some(name))
    case Settled(Ok(ts)) => Session(ProcessingState(Success, ts, None), s.filename)
    case Settled(Fail) => Session(ProcessingState(Error, [], Some(FailureMessage)), s.filename)
    case ResetClicked => Session(ProcessingState(Idle, [], None), None)
  }

  /** The sessions consecutive events lead to. */
  function Run(s: Session, events: seq<Event>): Session
    decreases |events|
  {
    if |events| == 0 then s else Run(Step(s, events[0]), events[1..])
  }

  /** The combinations the transitions can produce: only an error carries a
      message and it is the fixed one; only a success carries data; an idle
      session has no file and a processing one has a file. */
  predicate Consistent(s: Session)
  {
    var st := s.state;
    (st.error.Some? <==> st.status == Error)
    && (st.status == Error ==> st.error == Some(FailureMessage))
    && (st.status != Success ==> st.data == [])
    && (st.status == Idle ==> s.filename == None)
    && (st.status == Processing ==> s.filename.Some?)
  }

  /** Every transition lands in a consistent session, whatever the session
      before it (settlement included, which does not look at the status). */
  lemma StepConsistent(s: Session, e: Event)
    ensures Consistent(Step(s, e))
  {
  }

  /** Every session reachable from a consistent one is consistent. */
  lemma {:induction false} RunConsistent(s: Session, events: seq<Event>)
    requires Consistent(s)
    ensures Consistent(Run(s, events))
    decreases |events|
  {
    if |events| > 0 {
      StepConsistent(s, events[0]);
      RunConsistent(Step(s, events[0]), events[1..]);
    }
  }

  /** File selection does not depend on the prior session: processing, no
      data, no error, and the new file name. */
  lemma SelectForgetsPrior(s: Session, name: string)
    ensures Step(s, FileSelected(name)).state == ProcessingState(Processing, [], None)
    ensures Step(s, FileSelected(name)).filename == Some(name)
  {
  }

  /** A successful settlement stores exactly the returned list, and a failed
      one stores no data and the fixed message; neither touches the file
      name nor depends on the prior status. */
  lemma SettleOverwrites(s: Session, ts: seq<Transaction>)
    ensures Step(s, Settled(Ok(ts))).state == ProcessingState(Success, ts, None)
    ensures Step(s, Settled(Fail)).state == ProcessingState(Error, [], Some(FailureMessage))
    ensures Step(s, Settled(Ok(ts))).filename == s.filename == Step(s, Settled(Fail)).filename
  {
  }

  /** Reset leads from any session to the initial one. */
  lemma ResetIsInitial(s: Session)
    ensures Step(s, ResetClicked) == Initial
  {
  }

  /** Selecting a file and settling gives success with the returned list
      verbatim, or error with no data. */
  lemma SelectThenSettle(s: Session, name: string, outcome: Outcome)
    ensures var r := Run(s, [FileSelected(name), Settled(outcome)]);
      r.filename == Some(name)
      && (outcome.Ok? ==> r.state.status == Success && r.state.data == outcome.transactions)
      && (outcome.Fail? ==> r.state.status == Error && r.state.data == [] && r.state.error == Some(FailureMessage))
  {
    var es := [FileSelected(name), Settled(outcome)];
    var s1 := Step(s, es[0]);
    assert es[1..] == [Settled(outcome)];
    assert Run(s, es) == Run(s1, es[1..]);
    assert Run(s1, es[1..]) == Run(Step(s1, es[1]), []);
  }

  /** Reset does not cancel the pending call: a settlement arriving after a
      reset during processing still moves the session out of idle. */
  lemma ResetDoesNotStick(s: Session, name: string, outcome: Outcome)
    ensures Run(s, [FileSelected(name), ResetClicked, Settled(outcome)]).state.status != Idle
  {
    var es := [FileSelected(name), ResetClicked, Settled(outcome)];
    var s1 := Step(s, es[0]);
    var s2 := Step(s1, es[1]);
    assert es[1..] == [ResetClicked, Settled(outcome)];
    assert es[1..][1..] == [Settled(outcome)];
    assert Run(s, es) == Run(s1, es[1..]);
    assert Run(s1, es[1..]) == Run(s2, es[1..][1..]);
    assert Run(s2, es[1..][1..]) == Run(Step(s2, es[2]), []);
  }

  /** The upload control is shown only while idle, and the reset button only
      while not idle; settlement is never gated. */
  predicate Offered(s: Session, e: Event)
  {
    match e
    case FileSelected(_) => s.state.status == Idle
    case ResetClicked => s.state.status != Idle
    case Settled(_) => true
  }

  /** Every event of the trace is offered in the session it arrives in. */
  predicate OfferedRun(s: Session, events: seq<Event>)
    decreases |events|
  {
    |events| == 0 || (Offered(s, events[0]) && OfferedRun(Step(s, events[0]), events[1..]))
  }

  /** The number of calls issued and not yet settled along a trace. */
  function Pending(events: seq<Event>): int
  {
    if |events| == 0 then 0
    else (match events[0]
          case FileSelected(_) => 1
          case Settled(_) => -1
          case ResetClicked => 0) + Pending(events[1..])
  }

  /** The gating does not keep a single call in flight: selecting, resetting
      and selecting again are all offered, and leave two calls pending. */
  lemma TwoCallsCanBePending(a: string, b: string)
    ensures OfferedRun(Initial, [FileSelected(a), ResetClicked, FileSelected(b)])
    ensures Pending([FileSelected(a), ResetClicked, FileSelected(b)]) == 2
  {
    var es := [FileSelected(a), ResetClicked, FileSelected(b)];
    assert es[1..] == [ResetClicked, FileSelected(b)];
    assert es[1..][1..] == [FileSelected(b)];
    assert es[1..][1..][1..] == [];
    var s1 := Step(Initial, es[0]);
    var s2 := Step(s1, es[1]);
    assert OfferedRun(Step(s2, es[2]), []);
    assert OfferedRun(s2, es[1..][1..]);
    assert OfferedRun(s1, es[1..]);
    assert Pending(es[1..][1..]) == 1;
    assert Pending(es[1..]) == 1;
  }

  /** The file the download action hands to the browser. */
  datatype CsvDownload = CsvDownload(name: string, mimeType: string, content: string)

  /** The application object: the two state variables the component keeps
      and the handlers that replace them. */
  class StatementApp {
    var state: ProcessingState
    var filename: Option<string>

    /** The current session as a value. */
    function Current(): Session
      reads this
    {
      Session(state, filename)
    }

    ghost predicate Valid()
      reads this
    {
      Consistent(Current())
    }

    constructor ()
      ensures Current() == Initial && Valid()
    {
      state := ProcessingState(Idle, [], None);
      filename := None;
    }

    /** `handleFileSelect` up to the await: record the name, clear the data
        and error, and mark the session as processing. */
    method Select(name: string)
      modifies this
      ensures Current() == Step(old(Current()), FileSelected(name))
      ensures state == ProcessingState(Processing, [], None) && filename == Some(name)
      ensures Valid()
    {
      filename := Some(name);
      state := ProcessingState(Processing, [], None);
    }

    /** `handleFileSelect` after the await: store the returned list on
        success, or no data and the fixed message on failure. The current
        status is not checked. */
    method Settle(outcome: Outcome)
      modifies this
      ensures Current() == Step(old(Current()), Settled(outcome))
      ensures filename == old(filename)
      ensures Valid()
    {
      match outcome
      case Ok(ts) =>
        state := ProcessingState(Success, ts, None);
      case Fail =>
        state := ProcessingState(Error, [], Some(FailureMessage));
    }

    /** `handleReset`: back to idle with no data, no error and no file. */
    method Reset()
      modifies this
      ensures Current() == Step(old(Current()), ResetClicked) == Initial
      ensures Valid()
    {
      state := ProcessingState(Idle, [], None);
      filename := None;
    }

    /** `handleDownloadCSV`: nothing when there is no data; otherwise the
        file `transactions.csv` of type CSV holding the projection of the
        current data. Under the invariant only a successful session has data,
        so outside success nothing is downloaded. */
    method DownloadCsv(amountText: Amount -> string) returns (r: Option<CsvDownload>)
      ensures r.None? <==> |state.data| == 0
      ensures r.Some? ==> r.value == CsvDownload("transactions.csv", "text/csv;charset=utf-8;", Csv.Generate(state.data, amountText))
      ensures Valid() && state.status != Success ==> r.None?
    {
      if |state.data| == 0 {
        return None;
      }
      var content := Csv.Generate(state.data, amountText);
      r := Some(CsvDownload("transactions.csv", "text/csv;charset=utf-8;", content));
    }

    /** `handleCopyCSV`: nothing when there is no data; otherwise the text
        placed on the clipboard, the projection of the current data. Outside
        success, under the invariant, nothing is copied. */
    method CopyCsv(amountText: Amount -> string) returns (r: Option<string>)
      ensures r.None? <==> |state.data| == 0
      ensures r.Some? ==> r.value == Csv.Generate(state.data, amountText)
      ensures Valid() && state.status != Success ==> r.None?
    {
      if |state.data| == 0 {
        return None;
      }
      r := Some(Csv.Generate(state.data, amountText));
    }
  }
}
