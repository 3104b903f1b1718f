/**
 * Loading traces from the X-Ray BatchGetTraces API: converting an API
 * trace (segment documents as JSON text) into a `Trace`, and the paged
 * batch loop that merges every returned trace into a map keyed by trace
 * id, first write wins.
 *
 * The backend is a function from the requested ids and the round number
 * to the pages of that round; the JSON decoder of one segment document
 * is a function too. Termination of the batch loop depends on the
 * backend, so the model runs at most `maxRounds` rounds and reports
 * `Unfinished` when the backend still lists unprocessed ids after them.
 */
module XrayTrace {
  import opened Wrappers
  import opened Xray

  /** A trace as the API returns it: each segment is a JSON document. */
  datatype ApiTrace = ApiTrace(id: Option<string>, duration: Option<int>, limitExceeded: Option<bool>,
                               documents: seq<string>)

  /** One page of a BatchGetTraces response. */
  datatype Page = Page(traces: seq<ApiTrace>, unprocessedTraceIds: seq<string>)

  function ResolveMessage(decodeError: string): string
  {
    "failed to resolve segment document: failed to decode segment document: " + decodeError
  }

  function LoadMessage(traceId: string): string
  {
    "failed to load trace details for trace id: " + traceId
  }

  function GetTracesMessage(e: string): string
  {
    "failed to get Traces: " + e
  }

  /** The segments of `docs` in order, or the error of the first document that fails to decode. */
  function DecodeAll(decode: string -> Result<Segment, string>, docs: seq<string>): Result<seq<Segment>, string>
  {
    if docs == [] then Ok([])
    else
      match DecodeAll(decode, docs[..|docs| - 1])
      case Err(e) => Err(e)
      case Ok(segs) =>
        match decode(docs[|docs| - 1])
        case Err(e) => Err(ResolveMessage(e))
        case Ok(s) => Ok(segs + [s])
  }

  /** `TraceFromApiResponse` as a value: the trace with its decoded segments. */
  function FromApi(decode: string -> Result<Segment, string>, t: ApiTrace): Result<Trace, string>
  {
    match DecodeAll(decode, t.documents)
    case Err(e) => Err(e)
    case Ok(segs) => Ok(Trace(t.id, t.duration, t.limitExceeded, segs))
  }

  /**
   * Decoding succeeds iff every document decodes; then there is one
   * segment per document, in order; otherwise the error is that of the
   * first document that fails.
   */
  lemma {:induction false} DecodeAllSpec(decode: string -> Result<Segment, string>, docs: seq<string>)
    ensures DecodeAll(decode, docs).Ok? <==> forall i :: 0 <= i < |docs| ==> decode(docs[i]).Ok?
    ensures DecodeAll(decode, docs).Ok? ==>
      |DecodeAll(decode, docs).value| == |docs| &&
      forall i :: 0 <= i < |docs| ==> DecodeAll(decode, docs).value[i] == decode(docs[i]).value
    ensures DecodeAll(decode, docs).Err? ==>
      exists i :: 0 <= i < |docs| && decode(docs[i]).Err? &&
        DecodeAll(decode, docs).error == ResolveMessage(decode(docs[i]).error) &&
        (forall j :: 0 <= j < i ==> decode(docs[j]).Ok?)
  {
    if docs != [] {
      var n := |docs| - 1;
      DecodeAllSpec(decode, docs[..n]);
      assert forall i :: 0 <= i < n ==> docs[..n][i] == docs[i];
    }
  }

  /** `TraceFromApiResponse`: decodes the segment documents one by one. */
  method TraceFromApiResponse(decode: string -> Result<Segment, string>, t: ApiTrace) returns (r: Result<Trace, string>)
    ensures r == FromApi(decode, t)
    ensures r.Ok? ==> r.value.id == t.id && r.value.duration == t.duration &&
                      r.value.limitExceeded == t.limitExceeded && |r.value.segments| == |t.documents|
  {
    var segments := [];
    var i := 0;
    while i < |t.documents|
      invariant i <= |t.documents|
      invariant DecodeAll(decode, t.documents[..i]) == Ok(segments)
    {
      assert t.documents[..i + 1][..i] == t.documents[..i];
      var segment := decode(t.documents[i]);
      if segment.Err? {
        DecodeSticky(decode, t.documents, i + 1);
        return Err(ResolveMessage(segment.error));
      }
      segments := segments + [segment.value];
      i := i + 1;
    }
    assert t.documents[..i] == t.documents;
    r := Ok(Trace(t.id, t.duration, t.limitExceeded, segments));
    DecodeAllSpec(decode, t.documents);
  }

  /** Once a prefix of the documents fails, so do all the documents, with the same error. */
  lemma {:induction false} DecodeSticky(decode: string -> Result<Segment, string>, docs: seq<string>, i: nat)
    requires i <= |docs| && DecodeAll(decode, docs[..i]).Err?
    ensures DecodeAll(decode, docs) == DecodeAll(decode, docs[..i])
    decreases |docs|
  {
    if i < |docs| {
      var n := |docs| - 1;
      assert docs[..n][..i] == docs[..i];
      DecodeSticky(decode, docs[..n], i);
    } else {
      assert docs[..i] == docs;
    }
  }

  /** `aws.ToString` of the trace id: absent ids read as "". */
  function Key(t: ApiTrace): string
  {
    UnwrapOr(t.id, "")
  }

  /**
   * The traces of one page merged into `m` in order: a trace that fails
   * to convert aborts with its id, and a trace id already in the map keeps
   * its earlier trace.
   */
  function MergeTraces(decode: string -> Result<Segment, string>, m: map<string, Trace>, ts: seq<ApiTrace>)
    : Result<map<string, Trace>, string>
  {
    if ts == [] then Ok(m)
    else
      match MergeTraces(decode, m, ts[..|ts| - 1])
      case Err(e) => Err(e)
      case Ok(m') =>
        var t := ts[|ts| - 1];
        match FromApi(decode, t)
        case Err(_) => Err(LoadMessage(Key(t)))
        case Ok(tr) => Ok(if Key(t) in m' then m' else m'[Key(t) := tr])
  }

  lemma {:induction false} MergeSticky(decode: string -> Result<Segment, string>, m: map<string, Trace>,
                                       ts: seq<ApiTrace>, i: nat)
    requires i <= |ts| && MergeTraces(decode, m, ts[..i]).Err?
    ensures MergeTraces(decode, m, ts) == MergeTraces(decode, m, ts[..i])
    decreases |ts|
  {
    if i < |ts| {
      var n := |ts| - 1;
      assert ts[..n][..i] == ts[..i];
      MergeSticky(decode, m, ts[..n], i);
    } else {
      assert ts[..i] == ts;
    }
  }

  /** Once an id is in the map, merging more traces never replaces its value. */
  lemma {:induction false} MergeKeeps(decode: string -> Result<Segment, string>, m: map<string, Trace>, ts: seq<ApiTrace>)
    requires MergeTraces(decode, m, ts).Ok?
    ensures forall k :: k in m ==> k in MergeTraces(decode, m, ts).value && MergeTraces(decode, m, ts).value[k] == m[k]
  {
    if ts != [] {
      MergeKeeps(decode, m, ts[..|ts| - 1]);
    }
  }

  /**
   * Every id the merge adds belongs to a returned trace: the first trace
   * in the page with that id, converted.
   */
  lemma {:induction false} MergeFirstWins(decode: string -> Result<Segment, string>, m: map<string, Trace>,
                                          ts: seq<ApiTrace>, k: string)
    requires MergeTraces(decode, m, ts).Ok? && k in MergeTraces(decode, m, ts).value && k !in m
    ensures exists i :: 0 <= i < |ts| && Key(ts[i]) == k &&
                        FromApi(decode, ts[i]) == Ok(MergeTraces(decode, m, ts).value[k]) &&
                        (forall j :: 0 <= j < i ==> Key(ts[j]) != k)
  {
    var n := |ts| - 1;
    var prev := MergeTraces(decode, m, ts[..n]);
    assert forall j :: 0 <= j < n ==> ts[..n][j] == ts[j];
    if k in prev.value {
      MergeFirstWins(decode, m, ts[..n], k);
    } else {
      assert Key(ts[n]) == k;
      forall j | 0 <= j < n ensures Key(ts[j]) != k {
        if Key(ts[j]) == k {
          MergeContainsKey(decode, m, ts[..n], j);
        }
      }
    }
  }

  /** A successful merge holds the id of every trace it saw. */
  lemma {:induction false} MergeContainsKey(decode: string -> Result<Segment, string>, m: map<string, Trace>,
                                            ts: seq<ApiTrace>, j: nat)
    requires MergeTraces(decode, m, ts).Ok? && j < |ts|
    ensures Key(ts[j]) in MergeTraces(decode, m, ts).value
  {
    var n := |ts| - 1;
    if j < n {
      assert ts[..n][j] == ts[j];
      MergeContainsKey(decode, m, ts[..n], j);
    }
  }

  /** The merge fails iff some trace fails to convert, and names the first such trace's id. */
  lemma {:induction false} MergeFails(decode: string -> Result<Segment, string>, m: map<string, Trace>, ts: seq<ApiTrace>)
    ensures MergeTraces(decode, m, ts).Err? <==> exists i :: 0 <= i < |ts| && FromApi(decode, ts[i]).Err?
    ensures MergeTraces(decode, m, ts).Err? ==>
      exists i :: 0 <= i < |ts| && FromApi(decode, ts[i]).Err? && MergeTraces(decode, m, ts).error == LoadMessage(Key(ts[i])) &&
        (forall j :: 0 <= j < i ==> FromApi(decode, ts[j]).Ok?)
  {
    if ts != [] {
      var n := |ts| - 1;
      MergeFails(decode, m, ts[..n]);
      assert forall i :: 0 <= i < n ==> ts[..n][i] == ts[i];
    }
  }

  /** The inner loop of `Get` over the traces of one page. */
  method MergeInto(decode: string -> Result<Segment, string>, m: map<string, Trace>, ts: seq<ApiTrace>)
    returns (r: Result<map<string, Trace>, string>)
    ensures r == MergeTraces(decode, m, ts)
  {
    var traceMap := m;
    var i := 0;
    while i < |ts|
      invariant i <= |ts|
      invariant MergeTraces(decode, m, ts[..i]) == Ok(traceMap)
    {
      assert ts[..i + 1][..i] == ts[..i];
      var traceObject := TraceFromApiResponse(decode, ts[i]);
      if traceObject.Err? {
        MergeSticky(decode, m, ts, i + 1);
        return Err(LoadMessage(Key(ts[i])));
      }
      if Key(ts[i]) !in traceMap {
        traceMap := traceMap[Key(ts[i]) := traceObject.value];
      }
      i := i + 1;
    }
    assert ts[..i] == ts;
    return Ok(traceMap);
  }

  /** The state the batch loop carries between pages: the map so far and the last page's unprocessed ids. */
  datatype Progress = Progress(traces: map<string, Trace>, unprocessed: seq<string>)

  /** One round of pages: a page error aborts, otherwise each page's traces are merged in order. */
  function RunPages(decode: string -> Result<Segment, string>, st: Progress, pages: seq<Result<Page, string>>)
    : Result<Progress, string>
  {
    if pages == [] then Ok(st)
    else
      match RunPages(decode, st, pages[..|pages| - 1])
      case Err(e) => Err(e)
      case Ok(st') =>
        match pages[|pages| - 1]
        case Err(e) => Err(GetTracesMessage(e))
        case Ok(p) =>
          match MergeTraces(decode, st'.traces, p.traces)
          case Err(e) => Err(e)
          case Ok(m) => Ok(Progress(m, p.unprocessedTraceIds))
  }

  lemma {:induction false} RunPagesSticky(decode: string -> Result<Segment, string>, st: Progress,
                                          pages: seq<Result<Page, string>>, i: nat)
    requires i <= |pages| && RunPages(decode, st, pages[..i]).Err?
    ensures RunPages(decode, st, pages) == RunPages(decode, st, pages[..i])
    decreases |pages|
  {
    if i < |pages| {
      var n := |pages| - 1;
      assert pages[..n][..i] == pages[..i];
      RunPagesSticky(decode, st, pages[..n], i);
    } else {
      assert pages[..i] == pages;
    }
  }

  /** The outcome of `Get`: the trace map, the error, or a backend that had not finished after the rounds allowed. */
  datatype Fetched = Fetched(traces: map<string, Trace>) | Failed(message: string) | Unfinished

  /**
   * The batch loop as a value: while ids stay unprocessed, another round
   * re-sends the original ids; at most `fuel` more rounds are run.
   */
  function Rounds(decode: string -> Result<Segment, string>, backend: (seq<string>, nat) -> seq<Result<Page, string>>,
                  ids: seq<string>, round: nat, fuel: nat, st: Progress): Fetched
    decreases fuel
  {
    if st.unprocessed == [] then Fetched(st.traces)
    else if fuel == 0 then Unfinished
    else
      match RunPages(decode, st, backend(ids, round))
      case Err(e) => Failed(e)
      case Ok(st') => Rounds(decode, backend, ids, round + 1, fuel - 1, st')
  }

  /** One round: the pages the backend returns for the original ids, in order. */
  method RunRound(decode: string -> Result<Segment, string>, pages: seq<Result<Page, string>>, st: Progress)
    returns (r: Result<Progress, string>)
    ensures r == RunPages(decode, st, pages)
  {
    var traceMap := st.traces;
    var unprocessed := st.unprocessed;
    var i := 0;
    while i < |pages|
      invariant i <= |pages|
      invariant RunPages(decode, st, pages[..i]) == Ok(Progress(traceMap, unprocessed))
    {
      assert pages[..i + 1][..i] == pages[..i];
      if pages[i].Err? {
        RunPagesSticky(decode, st, pages, i + 1);
        return Err(GetTracesMessage(pages[i].error));
      }
      unprocessed := pages[i].value.unprocessedTraceIds;
      var merged := MergeInto(decode, traceMap, pages[i].value.traces);
      if merged.Err? {
        RunPagesSticky(decode, st, pages, i + 1);
        return Err(merged.error);
      }
      traceMap := merged.value;
      i := i + 1;
    }
    assert pages[..i] == pages;
    return Ok(Progress(traceMap, unprocessed));
  }

  /**
   * `Get`: an empty id list needs no call; otherwise rounds of pages are
   * fetched for the full original id list until the last page of a round
   * leaves nothing unprocessed.
   */
  method Get(decode: string -> Result<Segment, string>, backend: (seq<string>, nat) -> seq<Result<Page, string>>,
             traceIds: seq<string>, maxRounds: nat)
    returns (r: Fetched)
    ensures r == Rounds(decode, backend, traceIds, 0, maxRounds, Progress(map[], traceIds))
    ensures traceIds == [] ==> r == Fetched(map[])
  {
    var unprocessed := traceIds;
    var traceMap := map[];
    var round := 0;
    while |unprocessed| > 0
      invariant round <= maxRounds
      invariant Rounds(decode, backend, traceIds, 0, maxRounds, Progress(map[], traceIds)) ==
                Rounds(decode, backend, traceIds, round, maxRounds - round, Progress(traceMap, unprocessed))
      decreases maxRounds - round
    {
      if round == maxRounds {
        return Unfinished;
      }
      var progress := RunRound(decode, backend(traceIds, round), Progress(traceMap, unprocessed));
      if progress.Err? {
        return Failed(progress.error);
      }
      traceMap, unprocessed := progress.value.traces, progress.value.unprocessed;
      round := round + 1;
    }
    return Fetched(traceMap);
  }

  /** The trace ids on the successful pages of one round. */
  ghost function Returned(pages: seq<Result<Page, string>>): set<string>
  {
    set i, j | 0 <= i < |pages| && pages[i].Ok? && 0 <= j < |pages[i].value.traces| :: Key(pages[i].value.traces[j])
  }

  /**
   * Across the pages of a round, an id once in the map keeps its value,
   * and every new id is that of a returned trace.
   */
  lemma {:induction false} RunPagesSpec(decode: string -> Result<Segment, string>, st: Progress, pages: seq<Result<Page, string>>)
    requires RunPages(decode, st, pages).Ok?
    ensures var m := RunPages(decode, st, pages).value.traces;
      (forall k :: k in st.traces ==> k in m && m[k] == st.traces[k]) &&
      (forall k :: k in m && k !in st.traces ==> k in Returned(pages))
  {
    if pages != [] {
      var n := |pages| - 1;
      var prev := RunPages(decode, st, pages[..n]);
      RunPagesSpec(decode, st, pages[..n]);
      var p := pages[n].value;
      MergeKeeps(decode, prev.value.traces, p.traces);
      var m := RunPages(decode, st, pages).value.traces;
      forall k | k in m && k !in st.traces ensures k in Returned(pages) {
        if k in prev.value.traces {
          assert k in Returned(pages[..n]);
          var i, j :| 0 <= i < n && pages[..n][i].Ok? && 0 <= j < |pages[..n][i].value.traces| &&
                      k == Key(pages[..n][i].value.traces[j]);
          assert pages[..n][i] == pages[i];
        } else {
          MergeFirstWins(decode, prev.value.traces, p.traces, k);
          var j :| 0 <= j < |p.traces| && Key(p.traces[j]) == k;
          assert pages[n].Ok? && k == Key(pages[n].value.traces[j]);
        }
      }
    }
  }

  /**
   * Over all rounds of `Get`: the value first stored for an id is never
   * replaced, and every id in the result is that of a trace the backend
   * returned in one of the rounds run.
   */
  lemma {:induction false} RoundsSpec(decode: string -> Result<Segment, string>,
                                      backend: (seq<string>, nat) -> seq<Result<Page, string>>,
                                      ids: seq<string>, round: nat, fuel: nat, st: Progress)
    requires Rounds(decode, backend, ids, round, fuel, st).Fetched?
    ensures var m := Rounds(decode, backend, ids, round, fuel, st).traces;
      (forall k :: k in st.traces ==> k in m && m[k] == st.traces[k]) &&
      (forall k :: k in m && k !in st.traces ==> exists r :: round <= r < round + fuel && k in Returned(backend(ids, r)))
    decreases fuel
  {
    if st.unprocessed != [] {
      var st' := RunPages(decode, st, backend(ids, round)).value;
      RunPagesSpec(decode, st, backend(ids, round));
      RoundsSpec(decode, backend, ids, round + 1, fuel - 1, st');
    }
  }

  /** So a fetch from the empty map holds only ids the backend returned. */
  lemma GetReturnsOnlyReturned(decode: string -> Result<Segment, string>,
                               backend: (seq<string>, nat) -> seq<Result<Page, string>>,
                               ids: seq<string>, maxRounds: nat, k: string)
    requires Rounds(decode, backend, ids, 0, maxRounds, Progress(map[], ids)).Fetched?
    requires k in Rounds(decode, backend, ids, 0, maxRounds, Progress(map[], ids)).traces
    ensures exists r :: 0 <= r < maxRounds && k in Returned(backend(ids, r))
  {
    RoundsSpec(decode, backend, ids, 0, maxRounds, Progress(map[], ids));
  }
}
