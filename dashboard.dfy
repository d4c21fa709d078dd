/** The `Dashboard` component's state and the handlers that change it.  The file
    read, the HTTP requests, `alert` and the console are outside the model: the
    handlers receive the file's text and the outcome of each request. */
module Dashboard {
  import opened Wrappers
  import opened Seqs
  import opened Vcf
  import opened Chunker
  import opened Batch
  import opened Annotation
  import opened Selection

  /** Descriptors per request to the annotation service. */
  const CHUNK_SIZE := 200

  /** The message shown when a request fails. */
  const FETCH_ERROR := "Failed to fetch data from API. Please try again."

  /** The outcome of one request: its result array, or `None` when it threw. */
  type Outcome = Option<seq<AnnotationResult>>

  class DashboardState {
    var apiResponse: seq<AnnotationResult>
    var selectedRows: seq<int>
    var loading: bool
    var error: Option<string>

    /** `selectedRows` is a `Set`: no index twice. */
    ghost predicate Valid()
      reads this
    {
      Distinct(selectedRows)
    }

    /** The initial `useState` values. */
    constructor ()
      ensures Valid()
      ensures apiResponse == [] && selectedRows == [] && !loading && error == None
    {
      apiResponse := [];
      selectedRows := [];
      loading := false;
      error := None;
    }

    /** The table is rendered when nothing is loading, no error is set and there are results. */
    predicate TableVisible()
      reads this
    {
      !loading && error.None? && |apiResponse| > 0
    }

    /** The state `postToApi` leaves behind, given the results shown before the
        call and the outcome of each request: all results in order when every
        request succeeds; the earlier results and the error message when one fails. */
    ghost predicate Settled(before: seq<AnnotationResult>, outcomes: seq<Outcome>)
      reads this
    {
      && !loading
      && (Accumulate(outcomes).Some? ==> apiResponse == Accumulate(outcomes).value && error == None)
      && (Accumulate(outcomes).None? ==> apiResponse == before && error == Some(FETCH_ERROR))
    }

    /** `postToApi`: sends the batches one after another, stops at the first
        failure, and publishes the accumulated results only when all succeeded.
        `posted` lists the request bodies sent, in order. */
    method PostToApi(variants: seq<string>, outcomes: seq<Outcome>) returns (posted: seq<seq<string>>)
      requires Valid()
      requires |outcomes| == |Chunks(variants, CHUNK_SIZE)|
      modifies this`apiResponse, this`loading, this`error
      ensures Valid() && selectedRows == old(selectedRows)
      ensures Settled(old(apiResponse), outcomes)
      ensures |posted| <= |outcomes| && posted == Chunks(variants, CHUNK_SIZE)[..|posted|]
      ensures FirstFailure(outcomes).None? ==> posted == Chunks(variants, CHUNK_SIZE) && Flatten(posted) == variants
      ensures FirstFailure(outcomes).Some? ==> |posted| == FirstFailure(outcomes).value + 1
      ensures Accumulate(outcomes).None? ==> !TableVisible()
    {
      var variantChunks := ChunkArray(variants, CHUNK_SIZE);
      loading := true;
      error := None;
      var allResponses: seq<AnnotationResult> := [];
      var i := 0;
      var failed := false;
      while i < |variantChunks| && !failed
        invariant 0 <= i <= |variantChunks|
        invariant loading && error == None && apiResponse == old(apiResponse)
        invariant !failed ==> Accumulate(outcomes[..i]) == Some(allResponses)
        invariant !failed ==> forall j :: 0 <= j < i ==> outcomes[j].Some?
        invariant failed ==> 0 < i && FirstFailure(outcomes) == Some(i - 1)
        decreases |variantChunks| - i
      {
        AccumulateStep(outcomes, i);
        if outcomes[i].None? {
          failed := true;
        } else {
          allResponses := allResponses + outcomes[i].value;
        }
        i := i + 1;
      }
      posted := variantChunks[..i];
      if failed {
        AccumulateFails(outcomes, i - 1);
        error := Some(FETCH_ERROR);
      } else {
        assert outcomes[..i] == outcomes;
        apiResponse := allResponses;
      }
      loading := false;
      AccumulateSucceeds(outcomes);
    }

    /** The `reader.onload` handler: extracts the descriptors from the file's
        text and submits them, or alerts (`alerted`) and changes nothing when
        there are none. */
    method HandleFileText(text: string, outcomes: seq<Outcome>) returns (alerted: bool, posted: seq<seq<string>>)
      requires Valid()
      requires |outcomes| == |Chunks(Extract(text), CHUNK_SIZE)|
      modifies this`apiResponse, this`loading, this`error
      ensures Valid() && selectedRows == old(selectedRows)
      ensures alerted <==> Extract(text) == []
      ensures alerted ==> posted == [] && apiResponse == old(apiResponse) &&
                          loading == old(loading) && error == old(error)
      ensures !alerted ==> Settled(old(apiResponse), outcomes) && 0 < |posted| <= |outcomes| &&
                           posted == Chunks(Extract(text), CHUNK_SIZE)[..|posted|]
      ensures !alerted && FirstFailure(outcomes).None? ==>
                posted == Chunks(Extract(text), CHUNK_SIZE) && Flatten(posted) == Extract(text)
      ensures !alerted && FirstFailure(outcomes).Some? ==> |posted| == FirstFailure(outcomes).value + 1
    {
      var variants := ParseVcfToJson(text);
      if |variants| > 0 {
        alerted := false;
        posted := PostToApi(variants, outcomes);
        ChunkCount(variants, CHUNK_SIZE);
        if FirstFailure(outcomes).None? {
          assert |posted| == |Chunks(variants, CHUNK_SIZE)|;
        }
      } else {
        alerted := true;
        posted := [];
      }
    }

    /** `toggleRowSelection(index)`. */
    method ToggleRowSelection(index: int)
      requires Valid()
      modifies this`selectedRows
      ensures Valid()
      ensures selectedRows == Toggle(old(selectedRows), index)
      ensures index in selectedRows <==> index !in old(selectedRows)
      ensures forall y :: y != index ==> (y in selectedRows <==> y in old(selectedRows))
    {
      selectedRows := Toggle(selectedRows, index);
    }

    /** The header checkbox: select every row when checked, none when cleared. */
    method SelectAllChanged(checked: bool)
      modifies this`selectedRows
      ensures Valid()
      ensures checked ==> selectedRows == AllIndices(|apiResponse|)
      ensures checked ==> forall i :: i in selectedRows <==> 0 <= i < |apiResponse|
      ensures !checked ==> selectedRows == []
    {
      if checked {
        selectedRows := AllIndices(|apiResponse|);
        AllIndicesMembers(|apiResponse|);
      } else {
        selectedRows := [];
      }
    }

    /** `generateReport`: the selected results handed to the report generator. */
    method GenerateReport() returns (selectedData: seq<Option<AnnotationResult>>)
      ensures |selectedData| == |selectedRows|
      ensures forall k :: 0 <= k < |selectedRows| ==>
                (selectedData[k].Some? <==> 0 <= selectedRows[k] < |apiResponse|)
      ensures forall k :: 0 <= k < |selectedRows| && selectedData[k].Some? ==>
                selectedData[k].value == apiResponse[selectedRows[k]]
    {
      selectedData := SelectedData(selectedRows, apiResponse);
      forall k | 0 <= k < |selectedRows| {
        SelectedDataAt(selectedRows, apiResponse, k);
      }
    }

    /** `generateSummarize`: the selected results handed to the summary generator. */
    method GenerateSummarize() returns (selectedData: seq<Option<AnnotationResult>>)
      ensures |selectedData| == |selectedRows|
      ensures forall k :: 0 <= k < |selectedRows| ==>
                (selectedData[k].Some? <==> 0 <= selectedRows[k] < |apiResponse|)
      ensures forall k :: 0 <= k < |selectedRows| && selectedData[k].Some? ==>
                selectedData[k].value == apiResponse[selectedRows[k]]
    {
      selectedData := SelectedData(selectedRows, apiResponse);
      forall k | 0 <= k < |selectedRows| {
        SelectedDataAt(selectedRows, apiResponse, k);
      }
    }
  }
}
