/** The continuous language handler: it follows the transcripts of one
    utterance as speech recognition refines them, and runs a skill once per
    distinct result, as soon as the result is complete or the transcript is
    final. */
module Handler {
  import opened Wrappers
  import opened PyRuntime
  import opened Text
  import opened RegexNlp

  /** A transcript and whether the recogniser has finished the utterance. */
  datatype Transcript = Transcript(text: string, isFinal: bool)

  /** A natural-language processor: what its `process` returns for a text. */
  type Processor = string -> Result<Option<NlpResult>, Exception>

  /** Running the skill of a result: the exception it raises, if any. */
  type Runner = NlpResult -> Option<Exception>

  /** `_preprocess_transcript`: the text not consumed yet, lower-cased. */
  function Preprocess(t: Transcript, last: nat): (r: Transcript)
    ensures r.isFinal == t.isFinal
    ensures |r.text| == if last <= |t.text| then |t.text| - last else 0
    ensures forall i :: 0 <= i < |r.text| ==> r.text[i] == LowerChar(t.text[last + i])
  {
    Transcript(Lower(SliceFrom(t.text, last)), t.isFinal)
  }

  /** Whether a result runs its skill: it is new to the utterance, and
      complete or the transcript is final. */
  predicate Fires(results: seq<NlpResult>, r: NlpResult, t: Transcript)
  {
    !Recorded(results, r) && (r.isComplete || t.isFinal)
  }

  /** The state after `handle_next`, what it ran, and what it raised. */
  datatype Outcome = Outcome(results: seq<NlpResult>, last: nat, fired: seq<NlpResult>, error: Option<Exception>)

  /** `handle_next` over the processors from the first on, for a transcript
      already preprocessed. */
  function Handle(results: seq<NlpResult>, last: nat, t: Transcript, procs: seq<Processor>, run: Runner): Outcome
    decreases |procs|
  {
    if procs == [] then Outcome(results, last, [], None)
    else
      match procs[0](t.text)
      case Err(x) => Outcome(results, last, [], Some(x))
      case Ok(None) => Handle(results, last, t, procs[1..], run)
      case Ok(Some(r)) =>
        if !Fires(results, r, t) then Handle(results, last, t, procs[1..], run)
        else
          match run(r)
          case Some(x) => Outcome(results + [r], |t.text|, [r], Some(x))
          case None =>
            var o := Handle(results + [r], |t.text|, t, procs[1..], run);
            o.(fired := [r] + o.fired)
  }

  /** No two recorded results are equal. */
  predicate Distinct(results: seq<NlpResult>)
  {
    forall i, j :: 0 <= i < j < |results| ==> !SameResult(results[i], results[j])
  }

  /** What runs is recorded, in the order it runs, after what was recorded. */
  lemma {:induction false} HandleRecords(results: seq<NlpResult>, last: nat, t: Transcript, procs: seq<Processor>, run: Runner)
    ensures Handle(results, last, t, procs, run).results == results + Handle(results, last, t, procs, run).fired
    decreases |procs|
  {
    if procs != [] {
      match procs[0](t.text)
      case Err(_) =>
      case Ok(None) => HandleRecords(results, last, t, procs[1..], run);
      case Ok(Some(r)) =>
        if !Fires(results, r, t) {
          HandleRecords(results, last, t, procs[1..], run);
        } else if run(r).None? {
          var o := Handle(results + [r], |t.text|, t, procs[1..], run);
          HandleRecords(results + [r], |t.text|, t, procs[1..], run);
          assert results + [r] + o.fired == results + ([r] + o.fired);
        }
    }
  }

  predicate AllComplete(fired: seq<NlpResult>, t: Transcript)
  {
    forall k :: 0 <= k < |fired| ==> fired[k].isComplete || t.isFinal
  }

  predicate NoneRecorded(results: seq<NlpResult>, fired: seq<NlpResult>)
  {
    forall k :: 0 <= k < |fired| ==> !Recorded(results, fired[k])
  }

  /** A skill runs only for a result that is complete or comes from a final
      transcript. */
  lemma {:induction false} HandleFiresComplete(results: seq<NlpResult>, last: nat, t: Transcript, procs: seq<Processor>, run: Runner)
    ensures AllComplete(Handle(results, last, t, procs, run).fired, t)
    decreases |procs|
  {
    if procs != [] {
      match procs[0](t.text)
      case Err(_) =>
      case Ok(None) =>
        assert Handle(results, last, t, procs, run) == Handle(results, last, t, procs[1..], run);
        HandleFiresComplete(results, last, t, procs[1..], run);
      case Ok(Some(r)) =>
        if !Fires(results, r, t) {
          HandleFiresComplete(results, last, t, procs[1..], run);
        } else if run(r).None? {
          var rest := Handle(results + [r], |t.text|, t, procs[1..], run);
          HandleFiresComplete(results + [r], |t.text|, t, procs[1..], run);
          assert forall k :: 1 <= k < |rest.fired| + 1 ==> ([r] + rest.fired)[k] == rest.fired[k - 1];
        }
    }
  }

  /** A skill runs only for a result equal to nothing recorded before the
      call. */
  lemma {:induction false} HandleFiresNew(results: seq<NlpResult>, last: nat, t: Transcript, procs: seq<Processor>, run: Runner)
    ensures NoneRecorded(results, Handle(results, last, t, procs, run).fired)
    decreases |procs|
  {
    if procs != [] {
      match procs[0](t.text)
      case Err(_) =>
      case Ok(None) =>
        assert Handle(results, last, t, procs, run) == Handle(results, last, t, procs[1..], run);
        HandleFiresNew(results, last, t, procs[1..], run);
      case Ok(Some(r)) =>
        if !Fires(results, r, t) {
          HandleFiresNew(results, last, t, procs[1..], run);
        } else if run(r).None? {
          var rest := Handle(results + [r], |t.text|, t, procs[1..], run);
          HandleFiresNew(results + [r], |t.text|, t, procs[1..], run);
          forall k | 0 <= k < |rest.fired| ensures !Recorded(results, rest.fired[k]) {
            RecordedGrows(results, r, rest.fired[k]);
          }
          var fired := [r] + rest.fired;
          forall k | 0 <= k < |fired| ensures !Recorded(results, fired[k]) {
            if k > 0 {
              assert fired[k] == rest.fired[k - 1];
            }
          }
        }
    }
  }

  /** Recording only results equal to nothing recorded keeps the record free
      of duplicates. */
  lemma {:induction false} HandleDistinct(results: seq<NlpResult>, last: nat, t: Transcript, procs: seq<Processor>, run: Runner)
    requires Distinct(results)
    ensures Distinct(Handle(results, last, t, procs, run).results)
    decreases |procs|
  {
    if procs != [] {
      match procs[0](t.text)
      case Err(_) =>
      case Ok(None) => HandleDistinct(results, last, t, procs[1..], run);
      case Ok(Some(r)) =>
        if !Fires(results, r, t) {
          HandleDistinct(results, last, t, procs[1..], run);
        } else {
          AppendDistinct(results, r);
          if run(r).None? {
            HandleDistinct(results + [r], |t.text|, t, procs[1..], run);
          }
        }
    }
  }

  lemma RecordedGrows(results: seq<NlpResult>, r: NlpResult, x: NlpResult)
    ensures Recorded(results, x) ==> Recorded(results + [r], x)
  {
    if Recorded(results, x) {
      var i :| 0 <= i < |results| && SameResult(results[i], x);
      assert (results + [r])[i] == results[i];
    }
  }

  lemma AppendDistinct(results: seq<NlpResult>, r: NlpResult)
    requires Distinct(results) && !Recorded(results, r)
    ensures Distinct(results + [r])
  {
    var s := results + [r];
    forall i, j | 0 <= i < j < |s| ensures !SameResult(s[i], s[j]) {
      if j == |results| {
        assert s[j] == r && s[i] == results[i];
      } else {
        assert s[i] == results[i] && s[j] == results[j];
      }
    }
  }

  /** When nothing runs, nothing changes. */
  lemma {:induction false} HandleQuiet(results: seq<NlpResult>, last: nat, t: Transcript, procs: seq<Processor>, run: Runner)
    ensures var o := Handle(results, last, t, procs, run);
      o.fired == [] ==> o.results == results && o.last == last
    decreases |procs|
  {
    if procs != [] {
      match procs[0](t.text)
      case Err(_) =>
      case Ok(None) => HandleQuiet(results, last, t, procs[1..], run);
      case Ok(Some(r)) =>
        if !Fires(results, r, t) {
          HandleQuiet(results, last, t, procs[1..], run);
        }
    }
  }

  /** When something runs, the offset becomes the length of the transcript
      as it was matched, that is after the consumed part was cut off. */
  lemma {:induction false} HandleOffset(results: seq<NlpResult>, last: nat, t: Transcript, procs: seq<Processor>, run: Runner)
    ensures var o := Handle(results, last, t, procs, run);
      o.fired != [] ==> o.last == |t.text|
    decreases |procs|
  {
    if procs != [] {
      match procs[0](t.text)
      case Err(_) =>
      case Ok(None) => HandleOffset(results, last, t, procs[1..], run);
      case Ok(Some(r)) =>
        if !Fires(results, r, t) {
          HandleOffset(results, last, t, procs[1..], run);
        } else if run(r).None? {
          HandleOffset(results + [r], |t.text|, t, procs[1..], run);
          HandleQuiet(results + [r], |t.text|, t, procs[1..], run);
        }
    }
  }

  /** Within an utterance a result runs at most once: what runs on a later
      transcript is equal to nothing that ran on an earlier one. */
  lemma NeverTwice(results: seq<NlpResult>, last: nat, t1: Transcript, t2: Transcript, procs: seq<Processor>, run: Runner)
    ensures var o1 := Handle(results, last, t1, procs, run);
      var o2 := Handle(o1.results, o1.last, t2, procs, run);
      forall i, j :: 0 <= i < |o1.fired| && 0 <= j < |o2.fired| ==> !SameResult(o1.fired[i], o2.fired[j])
  {
    var o1 := Handle(results, last, t1, procs, run);
    var o2 := Handle(o1.results, o1.last, t2, procs, run);
    HandleRecords(results, last, t1, procs, run);
    HandleFiresNew(o1.results, o1.last, t2, procs, run);
    forall i, j | 0 <= i < |o1.fired| && 0 <= j < |o2.fired| ensures !SameResult(o1.fired[i], o2.fired[j]) {
      assert o1.results[|results| + i] == o1.fired[i];
      assert !Recorded(o1.results, o2.fired[j]);
    }
  }

  /** A result that the first processor gives and that is new and complete,
      or comes from a final transcript, runs first. */
  lemma FirstFires(results: seq<NlpResult>, last: nat, t: Transcript, procs: seq<Processor>, run: Runner, r: NlpResult)
    requires procs != [] && procs[0](t.text) == Ok(Some(r)) && Fires(results, r, t)
    ensures var o := Handle(results, last, t, procs, run);
      o.fired != [] && o.fired[0] == r && o.last == |t.text|
  {
    if run(r).None? {
      HandleOffset(results + [r], |t.text|, t, procs[1..], run);
      HandleQuiet(results + [r], |t.text|, t, procs[1..], run);
    }
  }

  /** The offset counts characters of the cut transcript, not of the whole
      one: once more than half of a transcript was consumed, running a skill
      moves the offset back, and the next transcript is matched again from
      inside the part already consumed. */
  lemma OffsetCanMoveBack(results: seq<NlpResult>, last: nat, t: Transcript, procs: seq<Processor>, run: Runner)
    requires |t.text| < 2 * last
    ensures var o := Handle(results, last, Preprocess(t, last), procs, run);
      o.fired != [] ==> o.last < last
  {
    HandleOffset(results, last, Preprocess(t, last), procs, run);
  }

  /** A processor that finds nothing, or a result that does not run, leaves
      the outcome to the processors after it. */
  lemma HandleSkips(results: seq<NlpResult>, last: nat, t: Transcript, procs: seq<Processor>, run: Runner)
    requires procs != [] && procs[0](t.text).Ok?
    requires procs[0](t.text).value.Some? ==> !Fires(results, procs[0](t.text).value.value, t)
    ensures Handle(results, last, t, procs, run) == Handle(results, last, t, procs[1..], run)
  {
  }

  /** A result that runs is recorded before the processors after it are
      asked; an exception from its skill ends the call. */
  lemma HandleRuns(results: seq<NlpResult>, last: nat, t: Transcript, procs: seq<Processor>, run: Runner, r: NlpResult)
    requires procs != [] && procs[0](t.text) == Ok(Some(r)) && Fires(results, r, t)
    ensures var o := Handle(results + [r], |t.text|, t, procs[1..], run);
      Handle(results, last, t, procs, run) ==
        if run(r).Some? then Outcome(results + [r], |t.text|, [r], run(r)) else o.(fired := [r] + o.fired)
  {
  }

  class ContinuousLanguageHandler {
    const processors: seq<Processor>
    var processedResults: seq<NlpResult>
    var lastTextLength: nat

    constructor(processors: seq<Processor>)
      ensures this.processors == processors
      ensures processedResults == [] && lastTextLength == 0
    {
      this.processors := processors;
      processedResults := [];
      lastTextLength := 0;
    }

    /** `__enter__`: a new utterance starts with nothing processed. */
    method Enter()
      modifies this
      ensures processedResults == [] && lastTextLength == 0
    {
      processedResults := [];
      lastTextLength := 0;
    }

    /** `_make_record`. */
    method MakeRecord(t: Transcript, r: NlpResult)
      modifies this
      ensures processedResults == old(processedResults) + [r] && lastTextLength == |t.text|
    {
      processedResults := processedResults + [r];
      lastTextLength := |t.text|;
    }

    /** `handle_next`: returns the results whose skills ran, in order, and
        the exception a processor or a skill raised, if any. */
    method HandleNext(transcript: Transcript, run: Runner) returns (fired: seq<NlpResult>, error: Option<Exception>)
      modifies this
      ensures var o := Handle(old(processedResults), old(lastTextLength), Preprocess(transcript, old(lastTextLength)), processors, run);
        processedResults == o.results && lastTextLength == o.last && fired == o.fired && error == o.error
    {
      var t := Preprocess(transcript, lastTextLength);
      ghost var goal := Handle(processedResults, lastTextLength, t, processors, run);
      fired := [];
      var i := 0;
      assert processors[0..] == processors;
      while i < |processors|
        invariant 0 <= i <= |processors|
        invariant var o := Handle(processedResults, lastTextLength, t, processors[i..], run);
          goal == Outcome(o.results, o.last, fired + o.fired, o.error)
      {
        ghost var ps := processors[i..];
        assert ps[0] == processors[i] && ps[1..] == processors[i + 1..];
        var p := processors[i](t.text);
        if p.Err? {
          assert fired + [] == fired;
          return fired, Some(p.error);
        }
        if p.value.Some? && Fires(processedResults, p.value.value, t) {
          var r := p.value.value;
          HandleRuns(processedResults, lastTextLength, t, ps, run, r);
          MakeRecord(t, r);
          fired := fired + [r];
          var x := run(r);
          if x.Some? {
            return fired, x;
          }
          ghost var rest := Handle(processedResults, lastTextLength, t, processors[i + 1..], run).fired;
          assert fired + rest == (fired[..|fired| - 1]) + ([r] + rest);
        } else {
          HandleSkips(processedResults, lastTextLength, t, ps, run);
        }
        i := i + 1;
      }
      assert processors[i..] == [];
      assert fired + [] == fired;
      error := None;
    }
  }
}
