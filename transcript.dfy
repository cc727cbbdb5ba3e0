/**
 * The pure parts of the transcript logic of src/app/page.tsx: the space-joined append used
 * for every committed fragment, the text shown while an interim result is pending, the merge
 * of one speech-recognition result batch into final and interim text, the cyclic mock
 * phrases, and the append of a transcribed upload chunk.
 */
module Transcript {
  import opened JsText

  // ---------------------------------------------------------------------------
  // Committed text

  /**
   * `prev + (prev ? " " : "") + fragment`: append a fragment, separated by one space unless
   * nothing precedes it. The result is one character longer than its parts exactly when there
   * is a separator, and empty only when both parts are; `SpaceAppendExtends` says where each
   * part lands.
   */
  function SpaceAppend(prev: string, fragment: string): (r: string)
    ensures |r| == |prev| + |fragment| + (if prev == "" then 0 else 1)
    ensures r == "" <==> prev == "" && fragment == ""
  {
    prev + (if prev == "" then "" else " ") + fragment
  }

  /** `fragments.join(" ")`: the reference definition of a space-joined transcript. */
  function SpaceJoined(fragments: seq<string>): string
  {
    if fragments == [] then ""
    else if |fragments| == 1 then fragments[0]
    else fragments[0] + " " + SpaceJoined(fragments[1..])
  }

  /** Every fragment has at least one character. */
  predicate AllNonEmpty(fragments: seq<string>)
  {
    forall i :: 0 <= i < |fragments| ==> fragments[i] != ""
  }

  /** A join of non-empty fragments is empty exactly when there are no fragments. */
  lemma {:induction false} SpaceJoinedEmpty(fragments: seq<string>)
    requires AllNonEmpty(fragments)
    ensures SpaceJoined(fragments) == "" <==> fragments == []
  {
    if |fragments| >= 2 {
      assert SpaceJoined(fragments) == fragments[0] + " " + SpaceJoined(fragments[1..]);
    }
  }

  /**
   * Appending with `SpaceAppend` to the join of the fragments committed so far gives the join
   * of those fragments followed by the new one: the committed text is always the space-joined
   * list of final fragments in the order they arrived.
   */
  lemma {:induction false} SpaceAppendJoins(fragments: seq<string>, fragment: string)
    requires AllNonEmpty(fragments)
    ensures SpaceAppend(SpaceJoined(fragments), fragment) == SpaceJoined(fragments + [fragment])
  {
    if |fragments| == 0 {
      assert fragments + [fragment] == [fragment];
    } else if |fragments| == 1 {
      assert fragments + [fragment] == [fragments[0], fragment];
    } else {
      var rest := fragments[1..];
      assert AllNonEmpty(rest);
      SpaceJoinedEmpty(rest);
      SpaceAppendJoins(rest, fragment);
      assert (fragments + [fragment])[1..] == rest + [fragment];
    }
  }

  /**
   * An append only extends the committed text: the old text is a prefix, the fragment is the
   * suffix, and in between is one space, or nothing exactly when the old text was empty.
   */
  lemma SpaceAppendExtends(prev: string, fragment: string)
    ensures var r := SpaceAppend(prev, fragment);
      && prev <= r && r[|r| - |fragment|..] == fragment
      && (prev != "" ==> r[|prev|] == ' ')
  {
  }

  // ---------------------------------------------------------------------------
  // Displayed text

  /**
   * The value shown in the transcript text area: the committed text followed by the pending
   * interim while processing an interim result, the committed text alone otherwise.
   */
  function Displayed(rightText: string, isProcessing: bool, lastTranscript: string): (r: string)
    ensures |rightText| <= |r| && r[..|rightText|] == rightText
    ensures r == rightText <==> !(isProcessing && lastTranscript != "")
    ensures isProcessing && lastTranscript != "" ==> |lastTranscript| <= |r| && r[|r| - |lastTranscript|..] == lastTranscript
  {
    if isProcessing && lastTranscript != "" then SpaceAppend(rightText, lastTranscript) else rightText
  }

  /**
   * While an interim is shown, the display is exactly what the committed text would become if
   * that interim were committed; it is a projection, the committed fragments are unchanged.
   */
  lemma DisplayedPreviewsCommit(fragments: seq<string>, interim: string)
    requires AllNonEmpty(fragments) && interim != ""
    ensures Displayed(SpaceJoined(fragments), true, interim) == SpaceJoined(fragments + [interim])
  {
    SpaceAppendJoins(fragments, interim);
  }

  // ---------------------------------------------------------------------------
  // Merging one `onresult` batch

  /** One entry of `event.results`, reduced to its first alternative. */
  datatype SpeechResult = SpeechResult(isFinal: bool, transcript: string, confidence: real)

  /** The entries `onresult` visits: indices `resultIndex .. results.length - 1`, none if `resultIndex` is past the end. */
  function Window(results: seq<SpeechResult>, resultIndex: nat): seq<SpeechResult>
  {
    if resultIndex <= |results| then results[resultIndex..] else []
  }

  /** The transcripts of the final entries, concatenated in order. */
  function FinalText(rs: seq<SpeechResult>): string
  {
    if rs == [] then ""
    else FinalText(rs[..|rs| - 1]) + (if rs[|rs| - 1].isFinal then rs[|rs| - 1].transcript else "")
  }

  /** The transcripts of the non-final entries, concatenated in order. */
  function InterimText(rs: seq<SpeechResult>): string
  {
    if rs == [] then ""
    else InterimText(rs[..|rs| - 1]) + (if rs[|rs| - 1].isFinal then "" else rs[|rs| - 1].transcript)
  }

  /** `Math.max(a, b)` on numbers that are not NaN. */
  function Max(a: real, b: real): real
  {
    if a >= b then a else b
  }

  /**
   * The confidence `onresult` reports for a batch: the largest confidence of a final entry,
   * starting from 0; entries that are not final play no part.
   */
  function BestFinalConfidence(rs: seq<SpeechResult>): (b: real)
    ensures b >= 0.0
    ensures forall i :: 0 <= i < |rs| && rs[i].isFinal ==> rs[i].confidence <= b
    ensures b == 0.0 || exists i :: 0 <= i < |rs| && rs[i].isFinal && rs[i].confidence == b
  {
    if rs == [] then 0.0
    else
      var prefix := rs[..|rs| - 1];
      var b := BestFinalConfidence(prefix);
      assert forall i :: 0 <= i < |prefix| ==> prefix[i] == rs[i];
      if rs[|rs| - 1].isFinal then Max(b, rs[|rs| - 1].confidence) else b
  }

  /**
   * The loop of `onresult`: walk `[resultIndex, results.length)` once, appending each final
   * transcript to the final text, each other transcript to the interim text, and keeping the
   * largest final confidence.
   */
  method MergeBatch(results: seq<SpeechResult>, resultIndex: nat)
    returns (finalText: string, interimText: string, bestConfidence: real)
    ensures finalText == FinalText(Window(results, resultIndex))
    ensures interimText == InterimText(Window(results, resultIndex))
    ensures bestConfidence == BestFinalConfidence(Window(results, resultIndex))
  {
    finalText, interimText, bestConfidence := "", "", 0.0;
    var i := resultIndex;
    while i < |results|
      invariant resultIndex <= i <= |results| || (i == resultIndex && resultIndex > |results|)
      invariant i <= |results| ==> finalText == FinalText(results[resultIndex..i])
      invariant i <= |results| ==> interimText == InterimText(results[resultIndex..i])
      invariant i <= |results| ==> bestConfidence == BestFinalConfidence(results[resultIndex..i])
      invariant resultIndex > |results| ==> finalText == interimText == "" && bestConfidence == 0.0
    {
      var r := results[i];
      assert results[resultIndex..i + 1] == results[resultIndex..i] + [r];
      MergeStep(results[resultIndex..i], r);
      if r.isFinal {
        finalText := finalText + r.transcript;
        bestConfidence := Max(bestConfidence, r.confidence);
      } else {
        interimText := interimText + r.transcript;
      }
      i := i + 1;
    }
    if resultIndex <= |results| {
      assert results[resultIndex..i] == Window(results, resultIndex);
    }
  }

  /** How one more entry changes the three summaries of a batch. */
  lemma MergeStep(rs: seq<SpeechResult>, r: SpeechResult)
    ensures FinalText(rs + [r]) == FinalText(rs) + (if r.isFinal then r.transcript else "")
    ensures InterimText(rs + [r]) == InterimText(rs) + (if r.isFinal then "" else r.transcript)
    ensures BestFinalConfidence(rs + [r])
      == if r.isFinal then Max(BestFinalConfidence(rs), r.confidence) else BestFinalConfidence(rs)
  {
    assert (rs + [r])[..|rs|] == rs;
  }

  /** The candidates whose finality is `final`, in their original order. */
  function Filter(rs: seq<SpeechResult>, final: bool): (r: seq<SpeechResult>)
    ensures forall i :: 0 <= i < |r| ==> r[i].isFinal == final
  {
    if rs == [] then []
    else Filter(rs[..|rs| - 1], final) + (if rs[|rs| - 1].isFinal == final then [rs[|rs| - 1]] else [])
  }

  /** All transcripts of the entries, concatenated in order. */
  function AllText(rs: seq<SpeechResult>): string
  {
    if rs == [] then "" else AllText(rs[..|rs| - 1]) + rs[|rs| - 1].transcript
  }

  lemma {:induction false} AllTextAppend(rs: seq<SpeechResult>, more: seq<SpeechResult>)
    ensures AllText(rs + more) == AllText(rs) + AllText(more)
    decreases |more|
  {
    if more == [] {
      assert rs + more == rs;
    } else {
      var init, last := more[..|more| - 1], more[|more| - 1];
      AllTextAppend(rs, init);
      var joined := rs + more;
      assert joined[..|joined| - 1] == rs + init && joined[|joined| - 1] == last;
      assert AllText(joined) == AllText(rs + init) + last.transcript;
      assert AllText(more) == AllText(init) + last.transcript;
    }
  }

  /** The final text is the transcripts of exactly the final candidates, in order. */
  lemma {:induction false} FinalTextIsFinals(rs: seq<SpeechResult>)
    ensures FinalText(rs) == AllText(Filter(rs, true))
  {
    if rs != [] {
      var init, last := rs[..|rs| - 1], rs[|rs| - 1];
      FinalTextIsFinals(init);
      AllTextAppend(Filter(init, true), if last.isFinal then [last] else []);
      assert AllText([last]) == last.transcript by { assert [last][..0] == []; }
    }
  }

  /** The interim text is the transcripts of exactly the non-final candidates, in order. */
  lemma {:induction false} InterimTextIsNonFinals(rs: seq<SpeechResult>)
    ensures InterimText(rs) == AllText(Filter(rs, false))
  {
    if rs != [] {
      var init, last := rs[..|rs| - 1], rs[|rs| - 1];
      InterimTextIsNonFinals(init);
      AllTextAppend(Filter(init, false), if last.isFinal then [] else [last]);
      assert AllText([last]) == last.transcript by { assert [last][..0] == []; }
    }
  }

  /** Every candidate of the batch lands in exactly one of the two groups. */
  lemma {:induction false} FilterPartitions(rs: seq<SpeechResult>)
    ensures multiset(Filter(rs, true)) + multiset(Filter(rs, false)) == multiset(rs)
  {
    if rs != [] {
      var init, last := rs[..|rs| - 1], rs[|rs| - 1];
      FilterPartitions(init);
      assert multiset(rs) == multiset(init) + multiset{last} by {
        assert rs == init + [last];
      }
      if last.isFinal {
        assert Filter(rs, true) == Filter(init, true) + [last];
        assert Filter(rs, false) == Filter(init, false);
      } else {
        assert Filter(rs, true) == Filter(init, true);
        assert Filter(rs, false) == Filter(init, false) + [last];
      }
    }
  }

  // ---------------------------------------------------------------------------
  // Mock phrases

  /** `MOCK_TRANSCRIPTS`: the ten sample phrases the simulator cycles through. */
  const MockTranscripts: seq<string> := [
    "Hello, this is a test of the speech recognition system.",
    "The quick brown fox jumps over the lazy dog.",
    "Lorem ipsum dolor sit amet, consectetur adipiscing elit.",
    "Testing one two three, can you hear me clearly?",
    "This is a simulation of continuous speech input.",
    "The weather is beautiful today, isn't it?",
    "I'm debugging the speech-to-text functionality.",
    "Please continue with the next test phrase.",
    "The microphone is working perfectly in simulation mode.",
    "This helps me test without speaking constantly."
  ]

  /** `MOCK_TRANSCRIPTS[index % MOCK_TRANSCRIPTS.length]`: the phrase a tick emits at mock index `index`. */
  function MockPhrase(index: nat): (r: string)
    ensures r in MockTranscripts && r != ""
  {
    MockTranscripts[index % |MockTranscripts|]
  }

  /** The phrases repeat with period ten: the tick ten places later emits the same phrase. */
  lemma MockPhrasesCycle(index: nat)
    ensures MockPhrase(index + 10) == MockPhrase(index)
  {
    assert (index + 10) % 10 == index % 10;
  }

  // ---------------------------------------------------------------------------
  // Upload chunk results

  /**
   * The committed text after an upload chunk returns `text`, as written in `sendOpenAIChunk`:
   * any non-empty `text` is trimmed and appended, even when trimming leaves nothing. It agrees
   * with the corrected rule `ChunkAppend` except after some text, on a non-empty chunk that is
   * all white space, where it leaves one space dangling.
   */
  function ChunkAppendAsWritten(prev: string, text: string): (r: string)
    ensures prev <= r
    ensures r != ChunkAppend(prev, text) <==> prev != "" && text != "" && AllTrimmable(text)
    ensures r != ChunkAppend(prev, text) ==> r == ChunkAppend(prev, text) + " "
  {
    if text != "" then SpaceAppend(prev, Trim(text)) else prev
  }

  /** A white-space-only chunk leaves a dangling separator after "Hello". */
  lemma WhitespaceChunkAddsDanglingSpace()
    ensures ChunkAppendAsWritten("Hello", " ") == "Hello "
  {
    var space := " ";
    assert forall k {:trigger IsTrimmable(space[k])} :: 0 <= k < |space| ==> IsTrimmable(space[k]) by {
      assert IsTrimmable(space[0]);
    }
    assert Trim(space) == "";
  }

  /** The committed text after an upload chunk returns `text`: its trimmed text is appended when it has any. */
  function ChunkAppend(prev: string, text: string): (r: string)
    ensures Trim(text) == "" ==> r == prev
    ensures Trim(text) != "" ==> r == SpaceAppend(prev, Trim(text))
  {
    if Trim(text) != "" then SpaceAppend(prev, Trim(text)) else prev
  }

  /** A chunk never leaves the committed text ending in white space unless it already did. */
  lemma ChunkAppendKeepsCleanEnd(prev: string, text: string)
    requires prev == "" || !IsTrimmable(prev[|prev| - 1])
    ensures var r := ChunkAppend(prev, text); r == "" || !IsTrimmable(r[|r| - 1])
  {
    CleanEndAppend(prev, Trim(text));
  }

  /** Appending a fragment that does not end in white space leaves no white space at the end. */
  lemma CleanEndAppend(prev: string, fragment: string)
    requires prev == "" || !IsTrimmable(prev[|prev| - 1])
    requires fragment == "" || !IsTrimmable(fragment[|fragment| - 1])
    ensures var r := if fragment != "" then SpaceAppend(prev, fragment) else prev;
      r == "" || !IsTrimmable(r[|r| - 1])
  {
    if fragment != "" {
      var r := SpaceAppend(prev, fragment);
      assert r[|r| - 1] == fragment[|fragment| - 1];
    }
  }
}
