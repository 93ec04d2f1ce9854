/** The older twin of the continuous handler: the same state machine over
    the transcripts of an utterance, recording processed results in a set. */
module LegacyProcessor {
  import opened Wrappers
  import opened PyRuntime
  import opened Text
  import opened LegacyResult
  import Handler

  type Transcript = Handler.Transcript

  /** One of the processors: what its `process` returns for a text. */
  type Processor = string -> Result<Option<NlpResult>, Exception>

  /** `execute_skill`: the exception the skill function raises, if any. */
  type Runner = NlpResult -> Option<Exception>

  /** Whether a result runs its skill: it is not in the set, and it is
      complete or the transcript is final. */
  predicate Fires(results: set<NlpResult>, r: NlpResult, t: Transcript)
  {
    r !in results && (r.isComplete || t.isFinal)
  }

  /** The state after `process_next_transcript`, the results whose skills
      ran, in order, and the exception raised, if any. */
  datatype Outcome = Outcome(results: set<NlpResult>, last: nat, fired: seq<NlpResult>, error: Option<Exception>)

  /** Set membership goes through `__hash__` and `__eq__`, that is through
      the key, which is the whole result. */
  function Step(results: set<NlpResult>, last: nat, t: Transcript, procs: seq<Processor>, run: Runner): Outcome
    decreases |procs|
  {
    if procs == [] then Outcome(results, last, [], None)
    else
      match procs[0](t.text)
      case Err(x) => Outcome(results, last, [], Some(x))
      case Ok(None) => Step(results, last, t, procs[1..], run)
      case Ok(Some(r)) =>
        if !Fires(results, r, t) then Step(results, last, t, procs[1..], run)
        else
          match run(r)
          case Some(x) => Outcome(results + {r}, |t.text|, [r], Some(x))
          case None =>
            var o := Step(results + {r}, |t.text|, t, procs[1..], run);
            o.(fired := [r] + o.fired)
  }

  predicate AllComplete(fired: seq<NlpResult>, t: Transcript)
  {
    forall k :: 0 <= k < |fired| ==> fired[k].isComplete || t.isFinal
  }

  /** A processor that finds nothing, or a result that does not run, leaves
      the outcome to the processors after it. */
  lemma StepSkips(results: set<NlpResult>, last: nat, t: Transcript, procs: seq<Processor>, run: Runner)
    requires procs != [] && procs[0](t.text).Ok?
    requires procs[0](t.text).value.Some? ==> !Fires(results, procs[0](t.text).value.value, t)
    ensures Step(results, last, t, procs, run) == Step(results, last, t, procs[1..], run)
  {
  }

  /** A result that runs joins the set before the processors after it are
      asked; an exception from its skill ends the call. */
  lemma StepRuns(results: set<NlpResult>, last: nat, t: Transcript, procs: seq<Processor>, run: Runner, r: NlpResult)
    requires procs != [] && procs[0](t.text) == Ok(Some(r)) && Fires(results, r, t)
    ensures var o := Step(results + {r}, |t.text|, t, procs[1..], run);
      Step(results, last, t, procs, run) ==
        if run(r).Some? then Outcome(results + {r}, |t.text|, [r], run(r)) else o.(fired := [r] + o.fired)
  {
  }

  /** What ran was complete or came from a final transcript, and the set
      gained exactly what ran. */
  lemma {:induction false} StepFires(results: set<NlpResult>, last: nat, t: Transcript, procs: seq<Processor>, run: Runner)
    ensures var o := Step(results, last, t, procs, run);
      && AllComplete(o.fired, t)
      && o.results == results + (set x | x in o.fired)
    decreases |procs|
  {
    if procs != [] {
      match procs[0](t.text)
      case Err(_) =>
      case Ok(None) =>
        StepSkips(results, last, t, procs, run);
        StepFires(results, last, t, procs[1..], run);
      case Ok(Some(r)) =>
        if !Fires(results, r, t) {
          StepSkips(results, last, t, procs, run);
          StepFires(results, last, t, procs[1..], run);
        } else if run(r).Some? {
          assert (set x | x in [r]) == {r};
        } else {
          var rest := Step(results + {r}, |t.text|, t, procs[1..], run);
          StepFires(results + {r}, |t.text|, t, procs[1..], run);
          var fired := [r] + rest.fired;
          assert forall k :: 1 <= k < |fired| ==> fired[k] == rest.fired[k - 1];
          assert (set x | x in fired) == {r} + (set x | x in rest.fired);
        }
    }
  }

  predicate NewAndOnce(results: set<NlpResult>, fired: seq<NlpResult>)
  {
    && (forall k :: 0 <= k < |fired| ==> fired[k] !in results)
    && (forall k, l :: 0 <= k < l < |fired| ==> fired[k] != fired[l])
  }

  /** What ran was not in the set before, and nothing ran twice. */
  lemma {:induction false} StepFiresOnce(results: set<NlpResult>, last: nat, t: Transcript, procs: seq<Processor>, run: Runner)
    ensures NewAndOnce(results, Step(results, last, t, procs, run).fired)
    decreases |procs|
  {
    if procs != [] {
      match procs[0](t.text)
      case Err(_) =>
      case Ok(None) =>
        StepSkips(results, last, t, procs, run);
        StepFiresOnce(results, last, t, procs[1..], run);
      case Ok(Some(r)) =>
        if !Fires(results, r, t) {
          StepSkips(results, last, t, procs, run);
          StepFiresOnce(results, last, t, procs[1..], run);
        } else if run(r).None? {
          var rest := Step(results + {r}, |t.text|, t, procs[1..], run);
          StepFiresOnce(results + {r}, |t.text|, t, procs[1..], run);
          var fired := [r] + rest.fired;
          assert forall k :: 1 <= k < |fired| ==> fired[k] == rest.fired[k - 1];
        }
    }
  }

  /** When nothing runs, nothing changes; when something runs, the offset
      becomes the length of the cut transcript. */
  lemma {:induction false} StepOffset(results: set<NlpResult>, last: nat, t: Transcript, procs: seq<Processor>, run: Runner)
    ensures var o := Step(results, last, t, procs, run);
      && (o.fired == [] ==> o.results == results && o.last == last)
      && (o.fired != [] ==> o.last == |t.text|)
    decreases |procs|
  {
    if procs != [] {
      match procs[0](t.text)
      case Err(_) =>
      case Ok(None) => StepOffset(results, last, t, procs[1..], run);
      case Ok(Some(r)) =>
        if !Fires(results, r, t) {
          StepOffset(results, last, t, procs[1..], run);
        } else if run(r).None? {
          StepOffset(results + {r}, |t.text|, t, procs[1..], run);
        }
    }
  }

  /** The outcome of the processors still to ask, after `done` ran. */
  function Resumed(done: seq<NlpResult>, o: Outcome): (r: Outcome)
    ensures r.results == o.results && r.last == o.last && r.error == o.error
    ensures r.fired == done + o.fired
  {
    o.(fired := done + o.fired)
  }

  lemma ResumedAppend(done: seq<NlpResult>, r: NlpResult, o: Outcome)
    ensures Resumed(done, o.(fired := [r] + o.fired)) == Resumed(done + [r], o)
  {
    assert done + ([r] + o.fired) == done + [r] + o.fired;
  }

  class NaturalLanguageProcessor {
    const processors: seq<Processor>
    var processedResults: set<NlpResult>
    var lastTextLength: nat

    constructor(processors: seq<Processor>)
      ensures this.processors == processors
      ensures processedResults == {} && lastTextLength == 0
    {
      this.processors := processors;
      processedResults := {};
      lastTextLength := 0;
    }

    /** `__enter__`. */
    method Enter()
      modifies this
      ensures processedResults == {} && lastTextLength == 0
    {
      processedResults := {};
      lastTextLength := 0;
    }

    /** `process_single`, which does nothing. */
    method ProcessSingle(transcript: string)
      ensures processedResults == old(processedResults) && lastTextLength == old(lastTextLength)
    {
    }

    /** `_make_record`. */
    method MakeRecord(t: Transcript, r: NlpResult)
      modifies this
      ensures processedResults == old(processedResults) + {r} && lastTextLength == |t.text|
    {
      processedResults := processedResults + {r};
      lastTextLength := |t.text|;
    }

    /** `process_next_transcript`. */
    method ProcessNextTranscript(transcript: Transcript, run: Runner) returns (fired: seq<NlpResult>, error: Option<Exception>)
      modifies this
      ensures var o := Step(old(processedResults), old(lastTextLength), Handler.Preprocess(transcript, old(lastTextLength)), processors, run);
        processedResults == o.results && lastTextLength == o.last && fired == o.fired && error == o.error
    {
      var t := Handler.Preprocess(transcript, lastTextLength);
      ghost var goal := Step(processedResults, lastTextLength, t, processors, run);
      fired := [];
      var i := 0;
      assert processors[0..] == processors;
      while i < |processors|
        invariant 0 <= i <= |processors|
        invariant goal == Resumed(fired, Step(processedResults, lastTextLength, t, processors[i..], run))
      {
        ghost var ps := processors[i..];
        assert ps[0] == processors[i] && ps[1..] == processors[i + 1..];
        var p := processors[i](t.text);
        if p.Err? {
          assert fired + [] == fired;
          return fired, Some(p.error);
        }
        if p.value.Some? && Fires(processedResults, p.value.value, t) {
          var r := p.value.value;
          StepRuns(processedResults, lastTextLength, t, ps, run, r);
          MakeRecord(t, r);
          fired := fired + [r];
          var x := run(r);
          if x.Some? {
            return fired, x;
          }
          ResumedAppend(fired[..|fired| - 1], r, Step(processedResults, lastTextLength, t, processors[i + 1..], run));
          assert fired[..|fired| - 1] + [r] == fired;
        } else {
          StepSkips(processedResults, lastTextLength, t, ps, run);
        }
        i := i + 1;
      }
      assert processors[i..] == [];
      assert fired + [] == fired;
      error := None;
    }
  }
}
