/**
 The two pumps of one execution: each reads its stream chunk by chunk, decodes incrementally, appends
 to the shared capture and publishes what was kept. The reads of the two pumps interleave freely.
 */
module OutputPumps {
  import opened Utf8
  import opened OutputCaptures

  /** One iteration of a pump's loop; an empty chunk is the end of its stream. */
  datatype Read = Read(kind: Kind, chunk: Bytes)

  /** What the pumps of one execution have built up. */
  datatype Pipe = Pipe(outBuffer: Bytes, errBuffer: Bytes, capture: Capture, outLive: seq<Text>, errLive: seq<Text>)

  function Idle(maxBytes: nat): Pipe {
    Pipe([], [], Start(maxBytes), [], [])
  }

  function Buffer(p: Pipe, kind: Kind): Bytes {
    if kind == Stdout then p.outBuffer else p.errBuffer
  }

  function Live(p: Pipe, kind: Kind): seq<Text> {
    if kind == Stdout then p.outLive else p.errLive
  }

  // ---------------------------------------------------------------- one read

  function NewText(buffer: Bytes, chunk: Bytes): Text {
    if chunk == [] then DecodeAll(buffer) else Decode(buffer + chunk).text
  }

  function NewBuffer(buffer: Bytes, chunk: Bytes): Bytes {
    if chunk == [] then [] else Decode(buffer + chunk).rest
  }

  function NewCapture(s: Capture, kind: Kind, text: Text): Capture {
    if text == [] then s else Append(s, kind, text)
  }

  function NewLive(live: seq<Text>, s: Capture, text: Text): seq<Text> {
    if text == [] || Kept(s, text) == [] then live else live + [Kept(s, text)]
  }

  function Step(p: Pipe, r: Read): Pipe {
    var text := NewText(Buffer(p, r.kind), r.chunk);
    var buffer, live := NewBuffer(Buffer(p, r.kind), r.chunk), NewLive(Live(p, r.kind), p.capture, text);
    var p' := p.(capture := NewCapture(p.capture, r.kind, text));
    if r.kind == Stdout then p'.(outBuffer := buffer, outLive := live)
    else p'.(errBuffer := buffer, errLive := live)
  }

  function After(maxBytes: nat, script: seq<Read>): Pipe {
    if script == [] then Idle(maxBytes) else Step(After(maxBytes, script[..|script| - 1]), script[|script| - 1])
  }

  class OutputPump {
    const kind: Kind
    const capture: OutputCapture
    const decoder: IncrementalDecoder
    var live: seq<Text>

    constructor (kind: Kind, capture: OutputCapture)
      ensures this.kind == kind && this.capture == capture && fresh(decoder)
      ensures decoder.buffer == [] && live == []
    {
      this.kind, this.capture := kind, capture;
      decoder := new IncrementalDecoder();
      live := [];
    }

    /** The body of the read loop; `done` ends it. */
    method OnRead(chunk: Bytes) returns (done: bool)
      modifies this, capture, decoder
      ensures done == (chunk == [])
      ensures decoder.buffer == NewBuffer(old(decoder.buffer), chunk)
      ensures capture.View() == NewCapture(old(capture.View()), kind, NewText(old(decoder.buffer), chunk))
      ensures live == NewLive(old(live), old(capture.View()), NewText(old(decoder.buffer), chunk))
    {
      assert decoder.buffer + [] == decoder.buffer;
      var text := decoder.DecodeChunk(chunk, chunk == []);
      if text != [] {
        var kept := capture.AppendText(kind, text);
        if kept != [] {
          live := live + [kept];
        }
      }
      done := chunk == [];
    }
  }

  /** Both pumps over one shared capture, with the reads in the given order. */
  method RunPumps(out: OutputPump, err: OutputPump, script: seq<Read>)
    requires out.kind == Stdout && err.kind == Stderr && out.capture == err.capture && out.decoder != err.decoder
    requires out.decoder.buffer == [] && err.decoder.buffer == [] && out.live == [] && err.live == []
    requires out.capture.View() == Start(out.capture.maxBytes)
    modifies out, err, out.capture, out.decoder, err.decoder
    ensures Pipe(out.decoder.buffer, err.decoder.buffer, out.capture.View(), out.live, err.live)
            == After(out.capture.maxBytes, script)
  {
    var i := 0;
    while i < |script|
      invariant 0 <= i <= |script|
      invariant Pipe(out.decoder.buffer, err.decoder.buffer, out.capture.View(), out.live, err.live)
                == After(out.capture.maxBytes, script[..i])
    {
      assert script[..i + 1][..i] == script[..i];
      if script[i].kind == Stdout {
        var _ := out.OnRead(script[i].chunk);
      } else {
        var _ := err.OnRead(script[i].chunk);
      }
      i := i + 1;
    }
    assert script[..i] == script;
  }

  // ---------------------------------------------------------------- live output

  lemma LiveGains(live: seq<Text>, s: Capture, text: Text)
    ensures Concat(NewLive(live, s, text)) == Concat(live) + if text == [] then [] else Kept(s, text)
  {
    ConcatSnoc(live, Kept(s, text));
  }

  lemma CaptureGains(s: Capture, kind: Kind, text: Text, other: Kind)
    ensures Output(NewCapture(s, kind, text), other)
            == Output(s, other) + if kind == other && text != [] then Kept(s, text) else []
  {
    AppendOutput(s, kind, text, other);
  }

  lemma LiveStep(p: Pipe, r: Read, kind: Kind)
    requires Concat(Live(p, kind)) == Output(p.capture, kind)
    ensures Concat(Live(Step(p, r), kind)) == Output(Step(p, r).capture, kind)
  {
    var text := NewText(Buffer(p, r.kind), r.chunk);
    LiveGains(Live(p, r.kind), p.capture, text);
    CaptureGains(p.capture, r.kind, text, kind);
  }

  /** Whatever the interleaving, the published chunks of a stream concatenate to exactly the text the
      result will hold for it. */
  lemma {:induction false} LiveAgreesWithResult(maxBytes: nat, script: seq<Read>, kind: Kind)
    ensures Concat(Live(After(maxBytes, script), kind)) == Output(After(maxBytes, script).capture, kind)
  {
    if script != [] {
      LiveAgreesWithResult(maxBytes, script[..|script| - 1], kind);
      LiveStep(After(maxBytes, script[..|script| - 1]), script[|script| - 1], kind);
    }
  }

  /** Only text is published: no chunk is empty. */
  lemma {:induction false} LiveIsText(maxBytes: nat, script: seq<Read>, kind: Kind)
    ensures [] !in Live(After(maxBytes, script), kind)
  {
    if script != [] {
      LiveIsText(maxBytes, script[..|script| - 1], kind);
    }
  }

  // ---------------------------------------------------------------- what the pumps offer

  /** Everything decoded so far, in arrival order. */
  function OfferedBy(script: seq<Read>): seq<Glyph> {
    if script == [] then []
    else
      var before, r := script[..|script| - 1], script[|script| - 1];
      OfferedBy(before) + Tag(r.kind, NewText(Pending(before, r.kind), r.chunk))
  }

  /** What the decoder of one stream keeps back. */
  function Pending(script: seq<Read>, kind: Kind): Bytes {
    if script == [] then []
    else
      var before, r := script[..|script| - 1], script[|script| - 1];
      if r.kind == kind then NewBuffer(Pending(before, kind), r.chunk) else Pending(before, kind)
  }

  lemma {:induction false} BufferIsPending(maxBytes: nat, script: seq<Read>, kind: Kind)
    ensures Buffer(After(maxBytes, script), kind) == Pending(script, kind)
  {
    if script != [] {
      BufferIsPending(maxBytes, script[..|script| - 1], kind);
      BufferIsPending(maxBytes, script[..|script| - 1], script[|script| - 1].kind);
    }
  }

  /** The capture holds exactly what the pumps decoded, cut at the cap. */
  lemma {:induction false} PumpsExact(maxBytes: nat, script: seq<Read>)
    ensures After(maxBytes, script).capture.maxBytes == maxBytes
    ensures Exact(After(maxBytes, script).capture, OfferedBy(script))
  {
    if script != [] {
      var before, r := script[..|script| - 1], script[|script| - 1];
      PumpsExact(maxBytes, before);
      BufferIsPending(maxBytes, before, r.kind);
      var text := NewText(Pending(before, r.kind), r.chunk);
      if text != [] {
        ExactStep(After(maxBytes, before).capture, OfferedBy(before), r.kind, text);
      } else {
        assert OfferedBy(before) + Tag(r.kind, text) == OfferedBy(before);
      }
    }
  }

  // ---------------------------------------------------------------- independence of the chunking

  /** The bytes a stream delivered, however they were cut. */
  function BytesOf(script: seq<Read>, kind: Kind): Bytes {
    if script == [] then []
    else BytesOf(script[..|script| - 1], kind) + if script[|script| - 1].kind == kind then script[|script| - 1].chunk else []
  }

  /** A pump stops at the end of its stream. */
  ghost predicate Orderly(script: seq<Read>) {
    forall i, j :: 0 <= i < j < |script| && script[i].kind == script[j].kind ==> script[i].chunk != []
  }

  ghost predicate Ended(script: seq<Read>, kind: Kind) {
    exists i :: 0 <= i < |script| && script[i] == Read(kind, [])
  }

  /** One more read of a stream not yet at its end. */
  lemma ReadExtends(bytes: Bytes, chunk: Bytes)
    ensures chunk != [] ==> Decode(bytes).text + NewText(Decode(bytes).rest, chunk) == Decode(bytes + chunk).text
    ensures chunk != [] ==> NewBuffer(Decode(bytes).rest, chunk) == Decode(bytes + chunk).rest
    ensures chunk == [] ==> Decode(bytes).text + NewText(Decode(bytes).rest, chunk) == DecodeAll(bytes)
  {
    if chunk == [] {
      DecodeAllSplit(bytes, []);
      assert bytes + [] == bytes && Decode(bytes).rest + [] == Decode(bytes).rest;
    } else {
      DecodeSplit(bytes, chunk);
    }
  }

  lemma EndedBefore(script: seq<Read>, kind: Kind)
    requires script != []
    ensures Ended(script, kind) <==> Ended(script[..|script| - 1], kind) || script[|script| - 1] == Read(kind, [])
  {
    var before := script[..|script| - 1];
    if Ended(before, kind) {
      var i :| 0 <= i < |before| && before[i] == Read(kind, []);
      assert script[i] == Read(kind, []);
    }
    if Ended(script, kind) && script[|script| - 1] != Read(kind, []) {
      var i :| 0 <= i < |script| && script[i] == Read(kind, []);
      assert before[i] == Read(kind, []);
    }
  }

  /** What one stream has contributed, in terms of its bytes alone. */
  ghost predicate TextSoFar(script: seq<Read>, kind: Kind) {
    var text, bytes := Project(OfferedBy(script), kind), BytesOf(script, kind);
    && (Ended(script, kind) ==> text == DecodeAll(bytes))
    && (!Ended(script, kind) ==> text == Decode(bytes).text && Pending(script, kind) == Decode(bytes).rest)
  }

  lemma ProjectOffered(script: seq<Read>, kind: Kind)
    requires script != []
    ensures var before, r := script[..|script| - 1], script[|script| - 1];
            Project(OfferedBy(script), kind) == Project(OfferedBy(before), kind)
              + if r.kind == kind then NewText(Pending(before, r.kind), r.chunk) else []
  {
    var before, r := script[..|script| - 1], script[|script| - 1];
    var text := NewText(Pending(before, r.kind), r.chunk);
    ProjectConcat(OfferedBy(before), Tag(r.kind, text), kind);
    ProjectTag(r.kind, text, kind);
  }

  /** Each stream's decoded text is that of its bytes, whatever the chunks and the other stream. */
  lemma {:induction false} OfferedIsText(script: seq<Read>, kind: Kind)
    requires Orderly(script)
    ensures TextSoFar(script, kind)
  {
    if script != [] {
      var before, r := script[..|script| - 1], script[|script| - 1];
      OfferedIsText(before, kind);
      ProjectOffered(script, kind);
      EndedBefore(script, kind);
      if r.kind == kind {
        assert !Ended(before, kind);
        ReadExtends(BytesOf(before, kind), r.chunk);
      }
      assert BytesOf(before, kind) + [] == BytesOf(before, kind);
    }
  }

  ghost predicate Only(script: seq<Read>, kind: Kind) {
    forall i :: 0 <= i < |script| && script[i].kind != kind ==> script[i].chunk == []
  }

  lemma {:induction false} SilentPending(script: seq<Read>, kind: Kind, other: Kind)
    requires Only(script, kind) && other != kind
    ensures Pending(script, other) == []
  {
    if script != [] {
      SilentPending(script[..|script| - 1], kind, other);
    }
  }

  /** A stream that delivers no bytes offers nothing. */
  lemma {:induction false} SilentStream(script: seq<Read>, kind: Kind)
    requires Only(script, kind)
    ensures OfferedBy(script) == Tag(kind, Project(OfferedBy(script), kind))
  {
    if script != [] {
      var before, r := script[..|script| - 1], script[|script| - 1];
      SilentStream(before, kind);
      var sofar, text := Project(OfferedBy(before), kind), NewText(Pending(before, r.kind), r.chunk);
      if r.kind == kind {
        ProjectOffered(script, kind);
        TagConcat(kind, sofar, text);
      } else {
        SilentPending(before, kind, r.kind);
        assert text == [];
        assert OfferedBy(script) == OfferedBy(before);
      }
    }
  }

  lemma {:induction false} TagConcat(kind: Kind, a: Text, b: Text)
    ensures Tag(kind, a + b) == Tag(kind, a) + Tag(kind, b)
  {
    if a == [] {
      assert a + b == b;
    } else {
      assert (a + b)[1..] == a[1..] + b;
      TagConcat(kind, a[1..], b);
    }
  }

  /** Chunking independence: for one output stream, any two ways of cutting the same bytes into reads
      (in the middle of a character, too) give the same captured text and the same truncated flag,
      namely the longest whole-character prefix of the decoded bytes that fits the cap. */
  lemma {:induction false} ChunkingIndependence(maxBytes: nat, script: seq<Read>, kind: Kind)
    requires Orderly(script) && Only(script, kind) && Ended(script, kind)
    ensures var text, s := DecodeAll(BytesOf(script, kind)), After(maxBytes, script).capture;
            && Output(s, kind) == Fit(text, maxBytes)
            && (s.truncated <==> |Encode(text)| > maxBytes)
  {
    var text := DecodeAll(BytesOf(script, kind));
    PumpsExact(maxBytes, script);
    OfferedIsText(script, kind);
    SilentStream(script, kind);
    TagFacts(kind, text, maxBytes);
    ProjectTag(kind, Fit(text, maxBytes), kind);
  }

  lemma EncodeCons(c: Scalar, text: Text)
    ensures Encode([c] + text) == EncodeOne(c) + Encode(text)
  {
    assert ([c] + text)[1..] == text;
  }

  lemma {:induction false} SizeSplits(gs: seq<Glyph>)
    ensures Size(gs) == |Encode(Project(gs, Stdout))| + |Encode(Project(gs, Stderr))|
  {
    if gs != [] {
      SizeSplits(gs[1..]);
      EncodeCons(gs[0].c, Project(gs[1..], gs[0].kind));
      assert [] + Project(gs[1..], if gs[0].kind == Stdout then Stderr else Stdout)
             == Project(gs[1..], if gs[0].kind == Stdout then Stderr else Stdout);
    }
  }

  lemma {:induction false} ExactMeans(s: Capture, gs: seq<Glyph>)
    requires Exact(s, gs)
    ensures s.truncated <==> |Encode(Project(gs, Stdout))| + |Encode(Project(gs, Stderr))| > s.maxBytes
    ensures !s.truncated ==> Output(s, Stdout) == Project(gs, Stdout) && Output(s, Stderr) == Project(gs, Stderr)
  {
    SizeSplits(gs);
    if Size(gs) <= s.maxBytes {
      FitGoesOn(gs, [], s.maxBytes);
      assert gs + [] == gs;
    }
  }

  lemma {:induction false} EndedText(script: seq<Read>, kind: Kind)
    requires Orderly(script) && Ended(script, kind)
    ensures Project(OfferedBy(script), kind) == DecodeAll(BytesOf(script, kind))
  {
    OfferedIsText(script, kind);
  }

  /** With both streams at their end, neither the chunks nor the interleaving decides whether output
      was cut: only the total size does, and if nothing was cut both texts are complete. */
  lemma {:induction false} TruncationIndependence(maxBytes: nat, script: seq<Read>)
    requires Orderly(script) && Ended(script, Stdout) && Ended(script, Stderr)
    ensures var out, err := DecodeAll(BytesOf(script, Stdout)), DecodeAll(BytesOf(script, Stderr));
            var s := After(maxBytes, script).capture;
            && (s.truncated <==> |Encode(out)| + |Encode(err)| > maxBytes)
            && (!s.truncated ==> Output(s, Stdout) == out && Output(s, Stderr) == err)
  {
    PumpsExact(maxBytes, script);
    ExactMeans(After(maxBytes, script).capture, OfferedBy(script));
    EndedText(script, Stdout);
    EndedText(script, Stderr);
  }
}
