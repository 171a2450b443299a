/**
 * The two filename rules: sanitizeFilename of api/src/middleware/validator.ts, which vets names on
 * the way in, and _safe_basename of worker/sandbox/executor.py, which vets them again before a
 * file is written.
 */
module Filenames {
  import opened RedisModel

  const MAX_NAME: nat := 255

  function Slashed(name: string): (s: string)
    ensures |s| == |name|
    ensures forall i :: 0 <= i < |s| ==> s[i] == if name[i] == '\\' then '/' else name[i]
  {
    seq(|name|, i requires 0 <= i < |name| => if name[i] == '\\' then '/' else name[i])
  }

  predicate AsciiAlnum(c: char) {
    'A' <= c <= 'Z' || 'a' <= c <= 'z' || '0' <= c <= '9'
  }

  // Unicode's str.isalnum is a parameter; only its ASCII part is fixed.
  ghost predicate IsAlnum(alnum: char -> bool) {
    forall c: char :: c < 128 as char ==>
      (alnum(c) <==> 48 <= c as int <= 57 || 65 <= c as int <= 90 || 97 <= c as int <= 122)
  }

  predicate Plain(c: char) {
    AsciiAlnum(c) || c == '.' || c == '_' || c == '-'
  }

  // /^[A-Za-z0-9._-]+$/ on a non-empty name
  predicate AllPlain(b: string) {
    forall i :: 0 <= i < |b| ==> Plain(b[i])
  }

  predicate AllWordy(alnum: char -> bool, b: string) {
    forall i :: 0 <= i < |b| ==> alnum(b[i]) || b[i] == '.' || b[i] == '_' || b[i] == '-'
  }

  predicate AllAscii(b: string) {
    forall i :: 0 <= i < |b| ==> b[i] < 128 as char
  }

  lemma PlainIsWordyAscii(alnum: char -> bool, b: string)
    requires IsAlnum(alnum)
    ensures AllPlain(b) <==> AllWordy(alnum, b) && AllAscii(b)
  {
    if AllPlain(b) {
      forall i | 0 <= i < |b| ensures b[i] < 128 as char && (alnum(b[i]) || b[i] == '.' || b[i] == '_' || b[i] == '-') {
        assert Plain(b[i]);
      }
    }
    if AllWordy(alnum, b) && AllAscii(b) {
      forall i | 0 <= i < |b| ensures Plain(b[i]) {
        assert b[i] < 128 as char;
      }
    }
  }

  // ---- the API's rule ---------------------------------------------------------------------------

  // split('/'): always at least one piece.
  function Split(s: string): (pieces: seq<string>)
    ensures |pieces| > 0
  {
    if s == "" then [""] else Extended(Split(s[..|s| - 1]), s[|s| - 1])
  }

  // The pieces after one more character.
  function Extended(pieces: seq<string>, c: char): (more: seq<string>)
    requires |pieces| > 0
    ensures |more| > 0
  {
    var last := |pieces| - 1;
    if c == '/' then pieces + [""] else pieces[..last] + [pieces[last] + [c]]
  }

  function Last(pieces: seq<string>): string
    requires |pieces| > 0
  {
    pieces[|pieces| - 1]
  }

  // filter(Boolean)
  function NonEmpty(pieces: seq<string>): seq<string> {
    if pieces == [] then []
    else
      var last := |pieces| - 1;
      NonEmpty(pieces[..last]) + (if pieces[last] == "" then [] else [pieces[last]])
  }

  // pop() ?? ''
  function LastSegment(s: string): string {
    var pieces := NonEmpty(Split(s));
    if pieces == [] then "" else pieces[|pieces| - 1]
  }

  function SanitizeFilename(name: string): Option<string> {
    if '\0' in name then None
    else
      var base := LastSegment(Slashed(name));
      if base == "" || base == "." || base == ".." then None
      else if !AllPlain(base) then None
      else if |base| > MAX_NAME then None
      else Some(base)
  }

  // ---- the worker's rule -------------------------------------------------------------------------

  function LastSlash(s: string): (r: int)
    ensures -1 <= r < |s|
    ensures r >= 0 ==> s[r] == '/'
    ensures forall i :: r < i < |s| ==> s[i] != '/'
  {
    if s == "" then -1
    else if s[|s| - 1] == '/' then |s| - 1
    else LastSlash(s[..|s| - 1])
  }

  function Basename(s: string): string {
    s[LastSlash(s) + 1..]
  }

  function SafeBasename(alnum: char -> bool, name: string): Option<string> {
    if '\0' in name then None
    else
      var base := Basename(Slashed(name));
      if base == "" || base == "." || base == ".." then None
      else if !AllWordy(alnum, base) then None
      else if |base| > MAX_NAME then None
      else Some(base)
  }

  // ---- where the API's segment comes from ----------------------------------------------------------

  lemma LastSlashIs(s: string, r: int)
    requires -1 <= r < |s|
    requires r >= 0 ==> s[r] == '/'
    requires forall i :: r < i < |s| ==> s[i] != '/'
    ensures LastSlash(s) == r
  {}

  lemma BasenameStep(s: string)
    ensures Basename(s) == if s == "" || s[|s| - 1] == '/' then "" else Basename(s[..|s| - 1]) + [s[|s| - 1]]
  {}

  // What follows the last separator, read from the back.
  function Tail(s: string): string {
    if s == "" || s[|s| - 1] == '/' then "" else Tail(s[..|s| - 1]) + [s[|s| - 1]]
  }

  lemma {:induction false} TailIsBasename(s: string)
    ensures Tail(s) == Basename(s)
  {
    BasenameStep(s);
    if s != "" && s[|s| - 1] != '/' {
      TailIsBasename(s[..|s| - 1]);
    }
  }

  lemma ExtendedLast(pieces: seq<string>, c: char)
    requires |pieces| > 0
    ensures Last(Extended(pieces, c)) == if c == '/' then "" else Last(pieces) + [c]
  {}

  lemma {:induction false} LastPiece(s: string)
    ensures Last(Split(s)) == Tail(s)
  {
    if s != "" {
      LastPiece(s[..|s| - 1]);
      ExtendedLast(Split(s[..|s| - 1]), s[|s| - 1]);
    }
  }

  lemma NonEmptySnoc(pieces: seq<string>, last: string)
    ensures NonEmpty(pieces + [last]) == NonEmpty(pieces) + (if last == "" then [] else [last])
  {
    assert (pieces + [last])[..|pieces|] == pieces;
  }

  // What filter and pop make of one more character.
  lemma ExtendedSegment(pieces: seq<string>, c: char)
    requires |pieces| > 0
    ensures c == '/' ==> NonEmpty(Extended(pieces, c)) == NonEmpty(pieces)
    ensures c != '/' ==> var more := NonEmpty(Extended(pieces, c)); more != [] && Last(more) == Last(pieces) + [c]
  {
    var last := |pieces| - 1;
    if c == '/' {
      NonEmptySnoc(pieces, "");
    } else {
      NonEmptySnoc(pieces[..last], pieces[last] + [c]);
    }
  }

  // Trailing separators are skipped; without them the segment is what basename gives.
  lemma LastSegmentStep(s: string)
    requires s != ""
    ensures s[|s| - 1] == '/' ==> LastSegment(s) == LastSegment(s[..|s| - 1])
    ensures s[|s| - 1] != '/' ==> LastSegment(s) == Basename(s)
  {
    var before, c := Split(s[..|s| - 1]), s[|s| - 1];
    assert Split(s) == Extended(before, c);
    ExtendedSegment(before, c);
    if c != '/' {
      LastPiece(s[..|s| - 1]);
      TailIsBasename(s);
    }
  }

  // b is a whole path segment of s: it starts after a separator or at the front, has none inside,
  // and only separators follow it.
  ghost predicate FinalSegment(s: string, b: string, from: nat, to: nat) {
    && from < to <= |s|
    && b == s[from..to]
    && (from == 0 || s[from - 1] == '/')
    && (forall i :: 0 <= i < |b| ==> b[i] != '/')
    && (forall i :: to <= i < |s| ==> s[i] == '/')
  }

  ghost predicate Ends(s: string, b: string) {
    exists from: nat, to: nat :: FinalSegment(s, b, from, to)
  }

  lemma SegmentExtends(s: string, b: string, from: nat, to: nat)
    requires s != "" && s[|s| - 1] == '/' && FinalSegment(s[..|s| - 1], b, from, to)
    ensures FinalSegment(s, b, from, to)
  {
    assert s[from..to] == s[..|s| - 1][from..to];
    assert from > 0 ==> s[from - 1] == s[..|s| - 1][from - 1];
    forall i | to <= i < |s| ensures s[i] == '/' {
      assert i < |s| - 1 ==> s[i] == s[..|s| - 1][i];
    }
  }

  lemma SegmentToEnd(s: string, b: string, from: nat)
    requires from < |s| && (from == 0 || s[from - 1] == '/') && b == s[from..]
    requires forall i :: from <= i < |s| ==> s[i] != '/'
    ensures FinalSegment(s, b, from, |s|)
  {
    assert s[from..|s|] == s[from..];
    forall i | 0 <= i < |b| ensures b[i] != '/' {
      assert b[i] == s[from + i];
    }
  }

  lemma BasenameIsSegment(s: string)
    requires s != "" && s[|s| - 1] != '/'
    ensures FinalSegment(s, Basename(s), LastSlash(s) + 1, |s|)
  {
    SegmentToEnd(s, Basename(s), LastSlash(s) + 1);
  }

  lemma {:induction false} LastSegmentFound(s: string)
    ensures LastSegment(s) != "" ==> Ends(s, LastSegment(s))
  {
    if s != "" {
      LastSegmentStep(s);
      if s[|s| - 1] == '/' {
        LastSegmentFound(s[..|s| - 1]);
        var b := LastSegment(s);
        if b != "" {
          var from: nat, to: nat :| FinalSegment(s[..|s| - 1], b, from, to);
          SegmentExtends(s, b, from, to);
        }
      } else {
        BasenameIsSegment(s);
      }
    }
  }

  lemma SegmentAtEnd(s: string, b: string, from: nat)
    requires FinalSegment(s, b, from, |s|)
    ensures s[|s| - 1] != '/' && Basename(s) == b
  {
    forall i | from <= i < |s| ensures s[i] != '/' {
      assert s[i] == b[i - from];
    }
    LastSlashIs(s, from - 1);
  }

  lemma {:induction false} SegmentIsLast(s: string, b: string, from: nat, to: nat)
    requires FinalSegment(s, b, from, to)
    ensures LastSegment(s) == b
  {
    LastSegmentStep(s);
    if to == |s| {
      SegmentAtEnd(s, b, from);
    } else {
      var init := s[..|s| - 1];
      assert init[from..to] == b;
      SegmentIsLast(init, b, from, to);
    }
  }

  // ---- what each rule accepts ----------------------------------------------------------------------

  // A name that stays inside the directory it is created in.
  ghost predicate Confined(b: string) {
    && 0 < |b| <= 255
    && b != "." && b != ".."
    && forall i :: 0 <= i < |b| ==> b[i] != '/' && b[i] != '\\' && b[i] != '\0'
  }

  ghost predicate PlainName(b: string) {
    Confined(b) && AllPlain(b)
  }

  // The API returns b exactly when b is a plain, confined name and the final segment of the path.
  lemma SanitizeExact(name: string, b: string)
    ensures SanitizeFilename(name) == Some(b) <==> '\0' !in name && PlainName(b) && Ends(Slashed(name), b)
  {
    var s := Slashed(name);
    LastSegmentFound(s);
    if Ends(s, b) {
      var from: nat, to: nat :| FinalSegment(s, b, from, to);
      SegmentIsLast(s, b, from, to);
    }
  }

  // The worker never returns a name that leaves the directory, even for inputs the API never vetted.
  lemma WorkerConfined(alnum: char -> bool, name: string)
    requires IsAlnum(alnum)
    ensures SafeBasename(alnum, name).Some? ==> Confined(SafeBasename(alnum, name).value)
  {
    var s := Slashed(name);
    var b := Basename(s);
    if SafeBasename(alnum, name).Some? {
      forall i | 0 <= i < |b| ensures b[i] != '/' && b[i] != '\\' && b[i] != '\0' {
        assert b[i] == s[LastSlash(s) + 1 + i];
        assert name[LastSlash(s) + 1 + i] in name;
      }
    }
  }

  // ---- agreement -------------------------------------------------------------------------------------

  ghost predicate TrailingSeparator(name: string) {
    name != "" && (name[|name| - 1] == '/' || name[|name| - 1] == '\\')
  }

  // Without a trailing separator the two segments are the same; with one the worker's is empty.
  lemma SegmentsCompare(name: string)
    ensures !TrailingSeparator(name) ==> LastSegment(Slashed(name)) == Basename(Slashed(name))
    ensures TrailingSeparator(name) ==> Basename(Slashed(name)) == ""
  {
    var s := Slashed(name);
    if s != "" {
      assert s[|s| - 1] == '/' <==> TrailingSeparator(name);
      LastSegmentStep(s);
    }
  }

  // Where the API accepts, the worker returns the same name, except that a trailing separator makes
  // it refuse.
  lemma ApiThenWorker(alnum: char -> bool, name: string)
    requires IsAlnum(alnum) && SanitizeFilename(name).Some?
    ensures SafeBasename(alnum, name) == if TrailingSeparator(name) then None else SanitizeFilename(name)
  {
    SegmentsCompare(name);
    PlainIsWordyAscii(alnum, LastSegment(Slashed(name)));
  }

  // The same raw string, the two rules apart: the API drops a trailing separator, the worker's rule
  // refuses the name.  In the service the worker is given what the API made of it, and accepts that.
  lemma TrailingSeparatorDiffers(alnum: char -> bool, b: string)
    requires IsAlnum(alnum) && PlainName(b)
    ensures SanitizeFilename(b + "/") == Some(b)
    ensures SafeBasename(alnum, b + "/") == None
    ensures SafeBasename(alnum, b) == Some(b)
  {
    var raw := b + "/";
    assert Slashed(raw) == raw;
    assert raw[0..|b|] == b;
    assert FinalSegment(raw, b, 0, |b|);
    SanitizeExact(raw, b);
    ApiThenWorker(alnum, raw);
    SanitizedIsFixed(alnum, raw);
  }

  lemma TrailingSeparatorExample(alnum: char -> bool)
    requires IsAlnum(alnum)
    ensures SanitizeFilename("a/") == Some("a") && SafeBasename(alnum, "a/") == None && SafeBasename(alnum, "a") == Some("a")
  {
    assert PlainName("a") && "a/" == "a" + "/";
    TrailingSeparatorDiffers(alnum, "a");
  }

  // Where the worker accepts, the API does too unless the name uses letters outside ASCII.
  lemma WorkerThenApi(alnum: char -> bool, name: string)
    requires IsAlnum(alnum) && SafeBasename(alnum, name).Some?
    ensures var b := SafeBasename(alnum, name).value;
            SanitizeFilename(name) == if AllAscii(b) then Some(b) else None
  {
    SegmentsCompare(name);
    PlainIsWordyAscii(alnum, Basename(Slashed(name)));
  }

  // What the API hands on is a fixed point of both rules: vetting it again changes nothing.
  lemma SanitizedIsFixed(alnum: char -> bool, name: string)
    requires IsAlnum(alnum) && SanitizeFilename(name).Some?
    ensures var b := SanitizeFilename(name).value;
            SafeBasename(alnum, b) == Some(b) && SanitizeFilename(b) == Some(b)
  {
    var b := SanitizeFilename(name).value;
    SanitizeExact(name, b);
    assert Slashed(b) == b;
    assert FinalSegment(b, b, 0, |b|);
    SanitizeExact(b, b);
    ApiThenWorker(alnum, b);
  }
}
