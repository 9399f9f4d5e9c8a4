/**
 * The speech-recognition hook: a transcript that grows by the final results the browser
 * reports, an interim transcript replaced on every result event, and the listening and error
 * flags the recognizer's callbacks set. Browser events are method calls carrying their data.
 */
module SpeechRecognition {
  import opened Wrappers

  /** One entry of `event.results`: the best alternative's text and whether it is final. */
  datatype ResultItem = ResultItem(text: string, isFinal: bool)

  /** The final texts of `rs` in order, each followed by one space. */
  function FinalText(rs: seq<ResultItem>): string {
    if rs == [] then ""
    else
      var r := rs[|rs| - 1];
      FinalText(rs[..|rs| - 1]) + (if r.isFinal then r.text + " " else "")
  }

  /** The non-final texts of `rs` in order, with nothing between them. */
  function InterimText(rs: seq<ResultItem>): string {
    if rs == [] then ""
    else
      var r := rs[|rs| - 1];
      InterimText(rs[..|rs| - 1]) + (if r.isFinal then "" else r.text)
  }

  /** Results without a final one add nothing; any final result adds at least its space. */
  lemma {:induction false} FinalTextEmpty(rs: seq<ResultItem>)
    ensures FinalText(rs) == "" <==> forall i :: 0 <= i < |rs| ==> !rs[i].isFinal
  {
    if rs != [] {
      FinalTextEmpty(rs[..|rs| - 1]);
      assert forall i :: 0 <= i < |rs| - 1 ==> rs[..|rs| - 1][i] == rs[i];
    }
  }

  /** Two batches' final texts in turn are the final text of both. */
  lemma {:induction false} FinalTextAppend(a: seq<ResultItem>, b: seq<ResultItem>)
    ensures FinalText(a + b) == FinalText(a) + FinalText(b)
  {
    if b != [] {
      assert (a + b)[..|a + b| - 1] == a + b[..|b| - 1];
      FinalTextAppend(a, b[..|b| - 1]);
    } else {
      assert a + b == a;
    }
  }

  /** Only final results are recorded, each with one trailing space. */
  lemma {:induction false} FinalTextLength(rs: seq<ResultItem>)
    ensures |FinalText(rs)| == FinalLength(rs)
  {
    if rs != [] {
      FinalTextLength(rs[..|rs| - 1]);
    }
  }

  function FinalLength(rs: seq<ResultItem>): nat {
    if rs == [] then 0
    else FinalLength(rs[..|rs| - 1]) + (if rs[|rs| - 1].isFinal then |rs[|rs| - 1].text| + 1 else 0)
  }

  class Recognizer {
    var transcript: string
    var interimTranscript: string
    var isListening: bool
    var error: Option<string>
    /** Whether the browser offers a speech recognizer. */
    const isSupported: bool

    /** The hook's first render and its set-up effect. */
    constructor (isSupported: bool)
      ensures this.isSupported == isSupported
      ensures transcript == "" && interimTranscript == "" && !isListening
      ensures error == if isSupported then None else Some("Speech recognition is not supported in this browser")
    {
      this.isSupported := isSupported;
      transcript := "";
      interimTranscript := "";
      isListening := false;
      error := if isSupported then None else Some("Speech recognition is not supported in this browser");
    }

    /** `onresult`: reads the results from `resultIndex` on. */
    method OnResult(results: seq<ResultItem>, resultIndex: nat)
      modifies this
      ensures var batch := if resultIndex <= |results| then results[resultIndex..] else [];
              transcript == old(transcript) + FinalText(batch) &&
              interimTranscript == InterimText(batch)
      ensures isListening == old(isListening) && error == old(error)
    {
      var finalText := "";
      var interim := "";
      var i := resultIndex;
      while i < |results|
        invariant resultIndex <= |results| ==> resultIndex <= i <= |results|
        invariant resultIndex > |results| ==> i == resultIndex
        invariant resultIndex <= |results| ==>
                    finalText == FinalText(results[resultIndex..i]) && interim == InterimText(results[resultIndex..i])
        invariant resultIndex > |results| ==> finalText == "" && interim == ""
      {
        assert results[resultIndex..i + 1][..i - resultIndex] == results[resultIndex..i];
        var item := results[i];
        if item.isFinal {
          finalText := finalText + item.text + " ";
        } else {
          interim := interim + item.text;
        }
        i := i + 1;
      }
      if resultIndex <= |results| {
        assert results[resultIndex..i] == results[resultIndex..];
      }
      if finalText != "" {
        transcript := transcript + finalText;
      }
      interimTranscript := interim;
    }

    method OnStart()
      modifies this
      ensures isListening && error == None
      ensures transcript == old(transcript) && interimTranscript == old(interimTranscript)
    {
      isListening := true;
      error := None;
    }

    method OnError(code: string)
      modifies this
      ensures !isListening && error == Some("Speech recognition error: " + code)
      ensures transcript == old(transcript) && interimTranscript == old(interimTranscript)
    {
      error := Some("Speech recognition error: " + code);
      isListening := false;
    }

    method OnEnd()
      modifies this
      ensures !isListening && error == old(error)
      ensures transcript == old(transcript) && interimTranscript == old(interimTranscript)
    {
      isListening := false;
    }

    /**
     * `startListening`; `startThrows` is whether the recognizer's `start` throws. Answers
     * whether `start` was called.
     */
    method StartListening(startThrows: bool) returns (started: bool)
      modifies this
      ensures started <==> isSupported
      ensures !isSupported ==> error == Some("Speech recognition is not supported")
      ensures isSupported && startThrows ==> error == Some("Failed to start speech recognition")
      ensures isSupported && !startThrows ==> error == old(error)
      ensures transcript == old(transcript) && interimTranscript == old(interimTranscript)
      ensures isListening == old(isListening)
    {
      if !isSupported {
        error := Some("Speech recognition is not supported");
        return false;
      }
      if startThrows {
        error := Some("Failed to start speech recognition");
      }
      return true;
    }

    method ResetTranscript()
      modifies this
      ensures transcript == "" && interimTranscript == ""
      ensures isListening == old(isListening) && error == old(error)
    {
      transcript := "";
      interimTranscript := "";
    }
  }
}
