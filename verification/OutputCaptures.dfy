/**
 The shared, byte-capped capture of a job's two output streams.
 */
module OutputCaptures {
  import opened Utf8

  datatype Kind = Stdout | Stderr

  /** The fields of `_OutputCapture`: the kept pieces of each stream, in order. */
  datatype Capture = Capture(maxBytes: nat, stdout: seq<Text>, stderr: seq<Text>, used: nat, truncated: bool)

  function Start(maxBytes: nat): Capture {
    Capture(maxBytes, [], [], 0, false)
  }

  function Output(s: Capture, kind: Kind): Text {
    Concat(if kind == Stdout then s.stdout else s.stderr)
  }

  /** decode("utf-8", "ignore"): drop what is ill-formed or incomplete. */
  function DecodeIgnore(bs: Bytes): Text {
    if bs == [] || Scan(bs).Partial? then []
    else (if Scan(bs).Whole? then [Scan(bs).c] else []) + DecodeIgnore(bs[Scan(bs).n..])
  }

  /** The portion of `text` that `append` keeps. */
  function Kept(s: Capture, text: Text): Text {
    if s.used >= s.maxBytes then []
    else if |Encode(text)| > s.maxBytes - s.used then DecodeIgnore(Encode(text)[..s.maxBytes - s.used])
    else text
  }

  function Append(s: Capture, kind: Kind, text: Text): Capture {
    if s.used >= s.maxBytes then s.(truncated := true)
    else
      var piece, over := Kept(s, text), |Encode(text)| > s.maxBytes - s.used;
      Capture(s.maxBytes,
              if kind == Stdout then s.stdout + [piece] else s.stdout,
              if kind == Stdout then s.stderr else s.stderr + [piece],
              if over then s.maxBytes else s.used + |Encode(text)|,
              s.truncated || over)
  }

  class OutputCapture {
    const maxBytes: nat
    var stdout: seq<Text>
    var stderr: seq<Text>
    var used: nat
    var truncated: bool

    function View(): Capture
      reads this
    {
      Capture(maxBytes, stdout, stderr, used, truncated)
    }

    constructor (maxBytes: nat)
      ensures View() == Start(maxBytes)
    {
      this.maxBytes := maxBytes;
      stdout, stderr, used, truncated := [], [], 0, false;
    }

    method AppendText(kind: Kind, text: Text) returns (kept: Text)
      modifies this
      ensures View() == Append(old(View()), kind, text) && kept == Kept(old(View()), text)
    {
      if used >= maxBytes {
        truncated := true;
        return [];
      }
      var encoded, room := Encode(text), maxBytes - used;
      kept := text;
      if |encoded| > room {
        kept := DecodeIgnore(encoded[..room]);
        used := maxBytes;
        truncated := true;
      } else {
        used := used + |encoded|;
      }
      if kind == Stdout {
        stdout := stdout + [kept];
      } else {
        stderr := stderr + [kept];
      }
    }
  }

  // ---------------------------------------------------------------- cutting at a character boundary

  /** The longest prefix made of whole characters that fits into `room` bytes. */
  function Fit(text: Text, room: nat): Text {
    if text == [] || |EncodeOne(text[0])| > room then []
    else [text[0]] + Fit(text[1..], room - |EncodeOne(text[0])|)
  }

  /** Cutting the bytes and dropping the broken tail is cutting at a character boundary. */
  lemma {:induction false} CutIsFit(text: Text, room: nat)
    requires room <= |Encode(text)|
    ensures DecodeIgnore(Encode(text)[..room]) == Fit(text, room)
  {
    if text != [] && room > 0 {
      var one, later := EncodeOne(text[0]), Encode(text[1..]);
      var cut := Encode(text)[..room];
      if |one| <= room {
        assert cut == one + later[..room - |one|];
        ScanWhole(text[0], later[..room - |one|]);
        assert cut[|one|..] == later[..room - |one|];
        CutIsFit(text[1..], room - |one|);
      } else {
        assert cut == one[..room];
        ScanCut(text[0], room);
      }
    }
  }

  lemma {:induction false} FitIsLongest(text: Text, room: nat, k: nat)
    requires k <= |text|
    ensures Fit(text, room) <= text && |Encode(Fit(text, room))| <= room
    ensures |Encode(text[..k])| <= room <==> k <= |Fit(text, room)|
  {
    if text != [] {
      if |EncodeOne(text[0])| <= room {
        FitIsLongest(text[1..], room - |EncodeOne(text[0])|, if k == 0 then 0 else k - 1);
      }
      if k > 0 {
        assert text[..k][1..] == text[1..][..k - 1];
      }
    }
  }

  // ---------------------------------------------------------------- exactness

  /** A character together with the stream it came from. */
  datatype Glyph = Glyph(kind: Kind, c: Scalar)

  /** One call of `append`. */
  datatype Item = Item(kind: Kind, text: Text)

  function Tag(kind: Kind, text: Text): seq<Glyph> {
    if text == [] then [] else [Glyph(kind, text[0])] + Tag(kind, text[1..])
  }

  function Project(gs: seq<Glyph>, kind: Kind): Text {
    if gs == [] then []
    else (if gs[0].kind == kind then [gs[0].c] else []) + Project(gs[1..], kind)
  }

  function Size(gs: seq<Glyph>): nat {
    if gs == [] then 0 else |EncodeOne(gs[0].c)| + Size(gs[1..])
  }

  /** The longest prefix of a mixed sequence that fits into `room` bytes. */
  function FitAll(gs: seq<Glyph>, room: nat): seq<Glyph> {
    if gs == [] || |EncodeOne(gs[0].c)| > room then []
    else [gs[0]] + FitAll(gs[1..], room - |EncodeOne(gs[0].c)|)
  }

  lemma SizeCons(g: Glyph, gs: seq<Glyph>, k: nat)
    requires 0 < k <= |gs| + 1
    ensures Size(([g] + gs)[..k]) == |EncodeOne(g.c)| + Size(gs[..k - 1])
  {
    assert ([g] + gs)[..k] == [g] + gs[..k - 1];
    assert ([g] + gs[..k - 1])[1..] == gs[..k - 1];
  }

  lemma {:induction false} FitAllIsLongest(gs: seq<Glyph>, room: nat, k: nat)
    requires k <= |gs|
    ensures FitAll(gs, room) <= gs && Size(FitAll(gs, room)) <= room
    ensures Size(gs[..k]) <= room <==> k <= |FitAll(gs, room)|
  {
    if gs != [] {
      var g, rest, width := gs[0], gs[1..], |EncodeOne(gs[0].c)|;
      assert gs == [g] + rest;
      if k > 0 {
        SizeCons(g, rest, k);
      }
      if width <= room {
        FitAllIsLongest(rest, room - width, if k == 0 then 0 else k - 1);
        FitCons(g, FitAll(rest, room - width), room, width);
      }
    }
  }

  lemma {:induction false} TagFacts(kind: Kind, text: Text, room: nat)
    ensures Size(Tag(kind, text)) == |Encode(text)|
    ensures FitAll(Tag(kind, text), room) == Tag(kind, Fit(text, room))
  {
    if text != [] {
      TagFacts(kind, text[1..], if |EncodeOne(text[0])| <= room then room - |EncodeOne(text[0])| else room);
      assert Tag(kind, text)[1..] == Tag(kind, text[1..]);
    }
  }

  lemma {:induction false} ProjectTag(kind: Kind, text: Text, other: Kind)
    ensures Project(Tag(kind, text), other) == if kind == other then text else []
  {
    if text != [] {
      ProjectTag(kind, text[1..], other);
      assert Tag(kind, text)[1..] == Tag(kind, text[1..]);
    }
  }

  lemma ProjectCons(g: Glyph, gs: seq<Glyph>, kind: Kind)
    ensures Project([g] + gs, kind) == (if g.kind == kind then [g.c] else []) + Project(gs, kind)
  {
    assert ([g] + gs)[1..] == gs;
  }

  lemma {:induction false} ProjectConcat(a: seq<Glyph>, b: seq<Glyph>, kind: Kind)
    ensures Project(a + b, kind) == Project(a, kind) + Project(b, kind)
  {
    if a == [] {
      assert a + b == b;
    } else {
      var g, rest := a[0], a[1..];
      assert a == [g] + rest && a + b == [g] + (rest + b);
      ProjectCons(g, rest, kind);
      ProjectCons(g, rest + b, kind);
      ProjectConcat(rest, b, kind);
      var front: Text, p, q := if g.kind == kind then [g.c] else [], Project(rest, kind), Project(b, kind);
      assert (front + p) + q == front + (p + q);
    }
  }

  lemma {:induction false} SizeConcat(a: seq<Glyph>, b: seq<Glyph>)
    ensures Size(a + b) == Size(a) + Size(b)
  {
    if a == [] {
      assert a + b == b;
    } else {
      assert (a + b)[1..] == a[1..] + b;
      SizeConcat(a[1..], b);
    }
  }

  lemma FitCons(g: Glyph, gs: seq<Glyph>, room: nat, width: nat)
    requires width == |EncodeOne(g.c)|
    ensures Size([g] + gs) == width + Size(gs)
    ensures width <= room ==> FitAll([g] + gs, room) == [g] + FitAll(gs, room - width)
  {
    assert ([g] + gs)[1..] == gs;
  }

  /** As long as everything fits, everything is kept. */
  lemma {:induction false} FitGoesOn(a: seq<Glyph>, b: seq<Glyph>, room: nat)
    requires Size(a) <= room
    ensures FitAll(a + b, room) == a + FitAll(b, room - Size(a))
  {
    if a == [] {
      assert a + b == b;
    } else {
      var g, rest, width := a[0], a[1..], |EncodeOne(a[0].c)|;
      assert a == [g] + rest && a + b == [g] + (rest + b);
      FitCons(g, rest, room, width);
      FitCons(g, rest + b, room, width);
      FitGoesOn(rest, b, room - width);
    }
  }

  /** Once something does not fit, nothing after it is kept. */
  lemma {:induction false} FitStops(a: seq<Glyph>, b: seq<Glyph>, room: nat)
    requires Size(a) > room
    ensures FitAll(a + b, room) == FitAll(a, room)
  {
    assert (a + b)[1..] == a[1..] + b;
    if |EncodeOne(a[0].c)| <= room {
      FitStops(a[1..], b, room - |EncodeOne(a[0].c)|);
    }
  }

  lemma {:induction false} ConcatSnoc<T>(parts: seq<seq<T>>, last: seq<T>)
    ensures Concat(parts + [last]) == Concat(parts) + last
  {
    if parts == [] {
      assert parts + [last] == [last];
      assert Concat([last]) == last + Concat([last][1..]);
    } else {
      assert (parts + [last])[1..] == parts[1..] + [last];
      ConcatSnoc(parts[1..], last);
    }
  }

  /** Everything offered, in arrival order. */
  function Offered(items: seq<Item>): seq<Glyph> {
    if items == [] then []
    else Offered(items[..|items| - 1]) + Tag(items[|items| - 1].kind, items[|items| - 1].text)
  }

  function After(maxBytes: nat, items: seq<Item>): Capture {
    if items == [] then Start(maxBytes)
    else Append(After(maxBytes, items[..|items| - 1]), items[|items| - 1].kind, items[|items| - 1].text)
  }

  /** The state of the capture is a function of what has been offered. */
  ghost predicate Exact(s: Capture, offered: seq<Glyph>) {
    && (forall kind :: Output(s, kind) == Project(FitAll(offered, s.maxBytes), kind))
    && s.used == (if Size(offered) <= s.maxBytes then Size(offered) else s.maxBytes)
    && (s.truncated <==> Size(offered) > s.maxBytes)
  }

  /** What one append adds to its stream. */
  lemma AppendOutput(s: Capture, kind: Kind, text: Text, other: Kind)
    ensures Output(Append(s, kind, text), other) == Output(s, other) + if kind == other then Kept(s, text) else []
  {
    ConcatSnoc(if other == Stdout then s.stdout else s.stderr, Kept(s, text));
  }

  lemma KeptIsFit(s: Capture, text: Text)
    requires s.used < s.maxBytes
    ensures Kept(s, text) == Fit(text, s.maxBytes - s.used)
  {
    var room := s.maxBytes - s.used;
    if |Encode(text)| > room {
      CutIsFit(text, room);
    } else {
      FitIsLongest(text, room, |text|);
      assert text[..|text|] == text;
    }
  }

  /** What is kept of an append is what the mixed prefix gains, in the room that is left. */
  lemma KeptIsGain(s: Capture, offered: seq<Glyph>, kind: Kind, text: Text)
    requires Exact(s, offered) && Size(offered) <= s.maxBytes && text != []
    ensures FitAll(Tag(kind, text), s.maxBytes - s.used) == Tag(kind, Kept(s, text))
  {
    var room := s.maxBytes - s.used;
    TagFacts(kind, text, room);
    if s.used < s.maxBytes {
      KeptIsFit(s, text);
    }
  }

  lemma FitWhole(offered: seq<Glyph>, room: nat)
    requires Size(offered) <= room
    ensures FitAll(offered, room) == offered
  {
    FitGoesOn(offered, [], room);
    assert offered + [] == offered;
  }

  lemma RoomLeft(offered: seq<Glyph>, kind: Kind, more: seq<Glyph>, maxBytes: nat, kept: Text, k: Kind)
    requires Size(offered) <= maxBytes && FitAll(more, maxBytes - Size(offered)) == Tag(kind, kept)
    ensures Project(FitAll(offered + more, maxBytes), k) == Project(offered, k) + if kind == k then kept else []
  {
    FitGoesOn(offered, more, maxBytes);
    ProjectConcat(offered, Tag(kind, kept), k);
    ProjectTag(kind, kept, k);
  }

  lemma ExactOutput(s: Capture, offered: seq<Glyph>, kind: Kind, text: Text, k: Kind)
    requires Exact(s, offered) && text != []
    ensures Output(Append(s, kind, text), k) == Project(FitAll(offered + Tag(kind, text), s.maxBytes), k)
  {
    AppendOutput(s, kind, text, k);
    if Size(offered) > s.maxBytes {
      FitStops(offered, Tag(kind, text), s.maxBytes);
    } else {
      FitWhole(offered, s.maxBytes);
      KeptIsGain(s, offered, kind, text);
      RoomLeft(offered, kind, Tag(kind, text), s.maxBytes, Kept(s, text), k);
    }
  }

  lemma ExactStep(s: Capture, offered: seq<Glyph>, kind: Kind, text: Text)
    requires Exact(s, offered) && text != []
    ensures Exact(Append(s, kind, text), offered + Tag(kind, text))
  {
    SizeConcat(offered, Tag(kind, text));
    TagFacts(kind, text, 0);
    assert |Encode(text)| > 0;
    forall k ensures Output(Append(s, kind, text), k) == Project(FitAll(offered + Tag(kind, text), s.maxBytes), k) {
      ExactOutput(s, offered, kind, text, k);
    }
  }

  /** Capture exactness: whatever non-empty texts the two streams offer, in whatever order, what is
      kept is the longest whole-character prefix (in arrival order) of at most `maxBytes` bytes, each
      stream is its projection, and `truncated` says exactly whether more than that was offered. */
  lemma {:induction false} CaptureExact(maxBytes: nat, items: seq<Item>)
    requires forall i :: 0 <= i < |items| ==> items[i].text != []
    ensures After(maxBytes, items).maxBytes == maxBytes && Exact(After(maxBytes, items), Offered(items))
  {
    if items != [] {
      var init, last := items[..|items| - 1], items[|items| - 1];
      CaptureExact(maxBytes, init);
      ExactStep(After(maxBytes, init), Offered(init), last.kind, last.text);
    }
  }
}
