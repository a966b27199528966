/** How the output of a `command/exec` process is capped and reported. */
module CommandOutput {
  import opened Prelude

  type Bytes = seq<bv8>

  const CHUNK_SIZE_HINT: nat := 64 * 1024

  datatype Delta = Delta(bytes: Bytes, capReached: bool)

  function Flat(chunks: seq<Bytes>): Bytes {
    if chunks == [] then [] else Flat(chunks[..|chunks| - 1]) + chunks[|chunks| - 1]
  }

  function DeltaBytes(deltas: seq<Delta>): Bytes {
    if deltas == [] then [] else DeltaBytes(deltas[..|deltas| - 1]) + deltas[|deltas| - 1].bytes
  }

  /** How much of a stream of `total` bytes is reported. */
  function Kept(total: nat, cap: Option<nat>): nat {
    match cap case Some(c) => Min(c, total) case None => total
  }

  /** The part of a chunk that still fits, after `seen` reported bytes. */
  function Fitting(chunk: Bytes, seen: nat, cap: Option<nat>): (r: Bytes)
    ensures r <= chunk
    ensures cap.None? ==> r == chunk
    ensures cap.Some? && seen <= cap.value ==> seen + |r| == Min(cap.value, seen + |chunk|)
  {
    match cap
    case Some(c) => chunk[..Min(if c < seen then 0 else c - seen, |chunk|)]
    case None => chunk
  }

  function NextDelta(seen: nat, chunk: Bytes, cap: Option<nat>): Delta {
    var bytes := Fitting(chunk, seen, cap);
    Delta(bytes, cap == Some(seen + |bytes|))
  }

  predicate Full(deltas: seq<Delta>) { deltas != [] && deltas[|deltas| - 1].capReached }

  /** Parts of the stream are taken until the cap is reached: the deltas they give rise to. */
  function Report(parts: seq<Bytes>, cap: Option<nat>): seq<Delta> {
    if parts == [] then []
    else
      var before := Report(parts[..|parts| - 1], cap);
      if Full(before) then before
      else before + [NextDelta(|DeltaBytes(before)|, parts[|parts| - 1], cap)]
  }

  lemma DeltaPush(ds: seq<Delta>, d: Delta)
    ensures DeltaBytes(ds + [d]) == DeltaBytes(ds) + d.bytes
  {
    assert (ds + [d])[..|ds|] == ds;
  }

  lemma FlatPush(chunks: seq<Bytes>, c: Bytes)
    ensures Flat(chunks + [c]) == Flat(chunks) + c
  {
    assert (chunks + [c])[..|chunks|] == chunks;
  }

  /** What holds of the deltas while a stream is being reported. */
  ghost predicate Reporting(ds: seq<Delta>, stream: Bytes, cap: Option<nat>) {
    && DeltaBytes(ds) <= stream
    && (cap.Some? ==> |DeltaBytes(ds)| <= cap.value)
    && (!Full(ds) ==> DeltaBytes(ds) == stream)
    && (ds != [] ==> (Full(ds) <==> cap == Some(|DeltaBytes(ds)|)))
    && (forall i | 0 <= i < |ds| - 1 :: !ds[i].capReached)
  }

  lemma ReportingStep(ds: seq<Delta>, stream: Bytes, chunk: Bytes, cap: Option<nat>)
    requires Reporting(ds, stream, cap) && !Full(ds)
    ensures Reporting(ds + [NextDelta(|DeltaBytes(ds)|, chunk, cap)], stream + chunk, cap)
  {
    var bytes := Fitting(chunk, |stream|, cap);
    DeltaPush(ds, NextDelta(|stream|, chunk, cap));
    assert stream + bytes <= stream + chunk;
    assert |bytes| == |chunk| ==> bytes == chunk;
  }

  lemma {:induction false} ReportReporting(parts: seq<Bytes>, cap: Option<nat>)
    ensures Reporting(Report(parts, cap), Flat(parts), cap)
  {
    if parts != [] {
      var init, chunk := parts[..|parts| - 1], parts[|parts| - 1];
      ReportReporting(init, cap);
      if Full(Report(init, cap)) {
        assert Flat(init) <= Flat(parts);
      } else {
        ReportingStep(Report(init, cap), Flat(init), chunk, cap);
      }
    }
  }

  lemma ReportingIsPrefix(ds: seq<Delta>, stream: Bytes, cap: Option<nat>)
    requires Reporting(ds, stream, cap)
    ensures DeltaBytes(ds) == stream[..Kept(|stream|, cap)]
  {
  }

  /** However the stream is cut, the reported bytes are a beginning of the stream of exactly
      the capped length; only the last delta can say that the cap was reached, and it says
      so exactly when it was. */
  lemma {:induction false} ReportIsCappedPrefix(parts: seq<Bytes>, cap: Option<nat>)
    ensures DeltaBytes(Report(parts, cap)) == Flat(parts)[..Kept(|Flat(parts)|, cap)]
    ensures forall i | 0 <= i < |Report(parts, cap)| - 1 :: !Report(parts, cap)[i].capReached
    ensures Report(parts, cap) != [] ==> (Full(Report(parts, cap)) <==> cap == Some(|DeltaBytes(Report(parts, cap))|))
  {
    ReportReporting(parts, cap);
    ReportingIsPrefix(Report(parts, cap), Flat(parts), cap);
  }

  /** How the stream was cut plays no part in what is reported. */
  lemma {:induction false} ReportIgnoresChunking(parts: seq<Bytes>, others: seq<Bytes>, cap: Option<nat>)
    requires Flat(parts) == Flat(others)
    ensures DeltaBytes(Report(parts, cap)) == DeltaBytes(Report(others, cap))
  {
    ReportIsCappedPrefix(parts, cap);
    ReportIsCappedPrefix(others, cap);
  }

  // ----- the reporting task -----

  lemma {:induction false} FlatPrefix(chunks: seq<Bytes>, n: nat)
    requires n <= |chunks|
    ensures Flat(chunks[..n]) <= Flat(chunks)
    decreases |chunks| - n
  {
    if n < |chunks| {
      assert chunks[..n + 1][..n] == chunks[..n];
      FlatPrefix(chunks, n + 1);
    } else {
      assert chunks[..n] == chunks;
    }
  }

  lemma ReportPush(parts: seq<Bytes>, chunk: Bytes, cap: Option<nat>)
    requires !Full(Report(parts, cap))
    ensures Report(parts + [chunk], cap) == Report(parts, cap) + [NextDelta(|DeltaBytes(Report(parts, cap))|, chunk, cap)]
  {
    assert (parts + [chunk])[..|parts|] == parts;
  }

  /** Once the cap is reached the rest of the stream does not matter. */
  lemma FullIsEnough(parts: seq<Bytes>, stream: Bytes, cap: Option<nat>)
    requires Flat(parts) <= stream && (Full(Report(parts, cap)) || Flat(parts) == stream)
    ensures stream[..Kept(|stream|, cap)] == Flat(parts)[..Kept(|Flat(parts)|, cap)]
  {
    ReportReporting(parts, cap);
  }

  /** The beginning of a stream, within the cap; all that the cap allows unless cut short. */
  ghost predicate IsReport(bytes: Bytes, stream: Bytes, cap: Option<nat>, cutShort: bool) {
    && bytes <= stream && |bytes| <= Kept(|stream|, cap)
    && (!cutShort ==> bytes == stream[..Kept(|stream|, cap)])
  }

  /** What the parts read so far give is a report of the stream. */
  lemma ReportSoFar(chunks: seq<Bytes>, next: nat, parts: seq<Bytes>, cap: Option<nat>, cutShort: bool)
    requires next <= |chunks| && Flat(parts) == Flat(chunks[..next])
    requires cutShort || Full(Report(parts, cap)) || next == |chunks|
    ensures IsReport(DeltaBytes(Report(parts, cap)), Flat(chunks), cap, cutShort)
  {
    FlatPrefix(chunks, next);
    ReportIsCappedPrefix(parts, cap);
    assert chunks[..|chunks|] == chunks;
    if !cutShort { FullIsEnough(parts, Flat(chunks), cap); }
  }

  /** Takes the next chunk and, while it is small, the chunks already waiting behind it. */
  method ReadSome(chunks: seq<Bytes>, from: nat) returns (chunk: Bytes, next: nat)
    requires from < |chunks|
    ensures from < next <= |chunks| && Flat(chunks[..next]) == Flat(chunks[..from]) + chunk
    ensures next == from + 1 || |chunk| - |chunks[next - 1]| < CHUNK_SIZE_HINT
  {
    chunk := chunks[from];
    next := from + 1;
    assert chunks[..next][..from] == chunks[..from];
    var ready: bool := *;
    while |chunk| < CHUNK_SIZE_HINT && next < |chunks| && ready
      invariant from < next <= |chunks| && Flat(chunks[..next]) == Flat(chunks[..from]) + chunk
      invariant next == from + 1 || |chunk| - |chunks[next - 1]| < CHUNK_SIZE_HINT
    {
      assert chunks[..next + 1][..next] == chunks[..next];
      chunk := chunk + chunks[next];
      next := next + 1;
      ready := *;
    }
  }

  /** Cuts a chunk to the room left; without a cap nothing is counted. */
  method CapChunk(chunk: Bytes, observed: nat, cap: Option<nat>, ghost seen: nat) returns (delta: Delta, total: nat)
    requires cap.Some? ==> observed == seen
    ensures delta == NextDelta(seen, chunk, cap)
    ensures cap.Some? ==> total == seen + |delta.bytes|
  {
    var capped := chunk;
    total := observed;
    if cap.Some? {
      capped := chunk[..Min(if cap.value < observed then 0 else cap.value - observed, |chunk|)];
      total := observed + |capped|;
    }
    delta := Delta(capped, cap == Some(total));
  }

  /** Reads chunks until the channel closes, the drain timeout fires or the cap is reached;
      `fires(k)` says whether the timeout has fired when the task waits for the time `k`.
      With a process to notify the kept bytes go out as deltas; without streaming they are
      buffered; streaming with no process to notify loses them. */
  method ReportOutput(chunks: seq<Bytes>, streamOutput: bool, processId: Option<string>, cap: Option<nat>,
                      fires: nat -> bool)
    returns (deltas: seq<Delta>, buffer: Bytes, timedOut: bool)
    ensures timedOut ==> exists k | 0 <= k <= |chunks| :: fires(k)
    ensures fires(0) ==> timedOut && deltas == [] && buffer == []
    ensures streamOutput ==> buffer == []
    ensures !streamOutput || processId.None? ==> deltas == []
    ensures !streamOutput || processId.Some? ==> IsReport(DeltaBytes(deltas) + buffer, Flat(chunks), cap, timedOut)
    ensures forall i | 0 <= i < |deltas| - 1 :: !deltas[i].capReached
    ensures deltas != [] ==> (Full(deltas) <==> cap == Some(|DeltaBytes(deltas)|))
  {
    deltas, buffer, timedOut := [], [], false;
    ghost var parts: seq<Bytes> := [];
    ghost var report: seq<Delta> := [];
    var observed := 0;
    var next := 0;
    var waits: nat := 0;
    var capReached := false;
    while !capReached
      invariant next <= |chunks| && Flat(parts) == Flat(chunks[..next])
      invariant report == Report(parts, cap)
      invariant deltas == if streamOutput && processId.Some? then report else []
      invariant buffer == if streamOutput then [] else DeltaBytes(report)
      invariant capReached <==> Full(report)
      invariant cap.Some? ==> observed == |DeltaBytes(report)|
      invariant !timedOut && waits <= next && (waits > 0 ==> !fires(0))
      invariant waits == 0 ==> report == []
      decreases |chunks| - next, !capReached
    {
      timedOut := fires(waits);
      if timedOut { break; }
      waits := waits + 1;
      if next == |chunks| { break; }
      var chunk;
      chunk, next := ReadSome(chunks, next);
      ReportPush(parts, chunk, cap);
      FlatPush(parts, chunk);
      parts := parts + [chunk];
      var delta;
      delta, observed := CapChunk(chunk, observed, cap, |DeltaBytes(report)|);
      DeltaPush(report, delta);
      report := report + [delta];
      if streamOutput && processId.Some? {
        deltas := deltas + [delta];
      } else if !streamOutput {
        buffer := buffer + delta.bytes;
      }
      capReached := delta.capReached;
    }
    ReportSoFar(chunks, next, parts, cap, timedOut);
    ReportIsCappedPrefix(parts, cap);
    assert DeltaBytes(deltas) + buffer == if streamOutput && processId.None? then [] else DeltaBytes(report);
  }

  // ----- where the bytes go -----

  datatype Output = Output(deltas: seq<Delta>, buffer: Bytes, timedOut: bool)

  /** Starting a command and reporting one of its streams. Streaming needs a process id
      chosen by the client, and a terminal always streams; so of every command that may
      start each kept byte goes to the deltas or to the final buffer, never to both and
      never to neither. */
  method StartAndReport(processId: Option<string>, tty: bool, streamStdin: bool, streamOutput: bool,
                        chunks: seq<Bytes>, cap: Option<nat>, fires: nat -> bool)
    returns (r: Option<Output>)
    ensures r.None? <==> processId.None? && (tty || streamStdin || streamOutput)
    ensures r.Some? ==> if tty || streamOutput then r.value.buffer == [] else r.value.deltas == []
    ensures r.Some? && r.value.timedOut ==> exists k | 0 <= k <= |chunks| :: fires(k)
    ensures r.Some? ==> IsReport(DeltaBytes(r.value.deltas) + r.value.buffer, Flat(chunks), cap, r.value.timedOut)
  {
    if processId == None && (tty || streamStdin || streamOutput) { return None; }
    var deltas, buffer, timedOut := ReportOutput(chunks, tty || streamOutput, processId, cap, fires);
    return Some(Output(deltas, buffer, timedOut));
  }
}
