/** Recovering the answer and its cited pages from the model's raw output text
    (`POST` in `src/app/api/chat/route.ts`): the trailing `SOURCES_JSON=` line,
    its one-brace JSON repair, the reply stripping and the "sfa" annotation
    fallback. `JSON.parse` is an oracle; the two regular expressions are
    specified directly as searches over the text. */
module Citations {
  import opened Wrappers
  import opened Text

  /** A cited PDF page. */
  datatype Citation = Citation(fileName: string, page: int)

  /** What `JSON.parse` yields, reduced to what the route inspects: the `sources`
      array, or `None` when the value is falsy or its `sources` is not an array. */
  datatype Parsed = Parsed(sources: Option<seq<Citation>>)

  /** `JSON.parse` as an oracle: `None` when it throws. */
  type Parser = string -> Option<Parsed>

  /** An entry of `textContent.annotations`: not an object, or an object with a
      `type` and a `filename` that is a string (`Some`) or not (`None`). */
  datatype Annotation = NotAnObject | Annotation(kind: string, filename: Option<string>)

  /** The reply with the sources the route returns. */
  datatype Extracted = Extracted(reply: string, sources: seq<Citation>)

  const Marker: string := "SOURCES_JSON="

  predicate MarkerAt(s: string, i: nat) {
    OccursAt(s, Marker, i)
  }

  /** The marker does not overlap itself: no proper suffix of it is also a prefix. */
  lemma MarkerNoBorder()
    ensures NoBorder(Marker)
  {
    forall d | 0 < d < |Marker| ensures Marker[d..] != Marker[..|Marker| - d] {
      var k := if d == 6 then 1 else if d == 9 then 2 else 0;
      if d == 1 { assert Marker[d..][k] != Marker[..|Marker| - d][k]; }
      else if d == 2 { assert Marker[d..][k] != Marker[..|Marker| - d][k]; }
      else if d == 3 { assert Marker[d..][k] != Marker[..|Marker| - d][k]; }
      else if d == 4 { assert Marker[d..][k] != Marker[..|Marker| - d][k]; }
      else if d == 5 { assert Marker[d..][k] != Marker[..|Marker| - d][k]; }
      else if d == 6 { assert Marker[d..][k] != Marker[..|Marker| - d][k]; }
      else if d == 7 { assert Marker[d..][k] != Marker[..|Marker| - d][k]; }
      else if d == 8 { assert Marker[d..][k] != Marker[..|Marker| - d][k]; }
      else if d == 9 { assert Marker[d..][k] != Marker[..|Marker| - d][k]; }
      else if d == 10 { assert Marker[d..][k] != Marker[..|Marker| - d][k]; }
      else if d == 11 { assert Marker[d..][k] != Marker[..|Marker| - d][k]; }
      else { assert Marker[d..][k] != Marker[..|Marker| - d][k]; }
    }
  }

  // ----- the sources-line regex: marker, blanks, optional backtick, lazy `{...}` group, optional backtick, blanks, end -----

  /** What the regex allows after the closing brace: an optional backtick, then whitespace to the end. */
  predicate TailOk(t: string) {
    AllSpace(t) || (|t| > 0 && t[0] == '`' && AllSpace(t[1..]))
  }

  /** What the regex allows between the marker and the opening brace: whitespace, then an optional backtick. */
  predicate Gap(g: string) {
    AllSpace(g) || (|g| > 0 && g[|g| - 1] == '`' && AllSpace(g[..|g| - 1]))
  }

  /** The regex matches at `p`, with its JSON group spanning positions `b` to `e` inclusive. */
  ghost predicate RegexMatchAt(s: string, p: nat, b: nat, e: nat) {
    && MarkerAt(s, p) && p + |Marker| <= b < e < |s|
    && s[b] == '{' && Gap(s[p + |Marker|..b])
    && s[e] == '}' && TailOk(s[e + 1..])
  }

  /** The closing brace of a sources line: the last non-blank character, or the one before a final backtick. */
  function BlobEnd(s: string): (e: Option<nat>)
    ensures e.Some? ==> e.value < |s| && s[e.value] == '}' && TailOk(s[e.value + 1..])
  {
    var k := |s| - TrailingSpace(s);
    if k > 0 && s[k - 1] == '}' then
      Some(k - 1)
    else if k > 1 && s[k - 1] == '`' && s[k - 2] == '}' then
      assert s[k - 1..][1..] == s[k..];
      Some(k - 2)
    else None
  }

  /** At most one brace of `s` can end a sources line, and `BlobEnd` finds it. */
  lemma BlobEndUnique(s: string, k: nat)
    requires k < |s| && s[k] == '}' && TailOk(s[k + 1..])
    ensures BlobEnd(s) == Some(k)
  {
    var n := TrailingSpace(s);
    SpaceSlice(s, |s| - n, |s|);
    if AllSpace(s[k + 1..]) {
      SpaceSlice(s, k + 1, |s|);
    } else {
      assert s[k + 1..][1..] == s[k + 2..];
      SpaceSlice(s, k + 2, |s|);
    }
  }

  /** The opening brace for the marker at `p`: after its whitespace and an optional backtick. */
  function BlobStart(s: string, p: nat): Option<nat>
    requires MarkerAt(s, p)
  {
    var q := p + |Marker|;
    var w := q + LeadingSpace(s[q..]);
    if w < |s| && s[w] == '{' then Some(w)
    else if w + 1 < |s| && s[w] == '`' && s[w + 1] == '{' then Some(w + 1)
    else None
  }

  /** `BlobStart` finds exactly the brace the regex can reach from the marker. */
  lemma BlobStartSpec(s: string, p: nat, b: nat)
    requires MarkerAt(s, p) && p + |Marker| <= b < |s|
    ensures BlobStart(s, p) == Some(b) <==> s[b] == '{' && Gap(s[p + |Marker|..b])
  {
    var q := p + |Marker|;
    var t := s[q..];
    var w := q + LeadingSpace(t);
    SpaceSlice(t, 0, LeadingSpace(t));
    assert forall k :: q <= k < w ==> IsSpace(s[k]) by {
      forall k | q <= k < w ensures IsSpace(s[k]) { assert s[k] == t[k - q]; }
    }
    assert w < |s| ==> !IsSpace(s[w]) by {
      if w < |s| { assert s[w] == t[w - q]; }
    }
    if AllSpace(s[q..b]) {
      SpaceSlice(s, q, b);
    } else if |s[q..b]| > 0 && s[q..b][|s[q..b]| - 1] == '`' && AllSpace(s[q..b][..|s[q..b]| - 1]) {
      assert s[q..b][..|s[q..b]| - 1] == s[q..b - 1];
      SpaceSlice(s, q, b - 1);
    }
    if BlobStart(s, p) == Some(b) {
      if b == w {
        assert s[q..b] == s[q..w];
        assert AllSpace(s[q..w]);
      } else {
        assert s[q..b][..|s[q..b]| - 1] == s[q..w];
        assert AllSpace(s[q..w]);
      }
    }
  }

  /** The leftmost marker at or after `from` whose opening brace precedes the closing brace `e`. */
  function MatchFrom(s: string, e: nat, from: nat): (p: Option<nat>)
    decreases |s| - from
    ensures p.Some? ==> from <= p.value && MarkerAt(s, p.value) && BlobStart(s, p.value).Some? && BlobStart(s, p.value).value < e
  {
    if from + |Marker| > |s| then None
    else if MarkerAt(s, from) && BlobStart(s, from).Some? && BlobStart(s, from).value < e then Some(from)
    else MatchFrom(s, e, from + 1)
  }

  /** A suitable marker at `k` is found, at `k` or earlier. */
  lemma {:induction false} MatchFromFinds(s: string, e: nat, from: nat, k: nat)
    requires from <= k && MarkerAt(s, k) && BlobStart(s, k).Some? && BlobStart(s, k).value < e
    ensures MatchFrom(s, e, from).Some? && MatchFrom(s, e, from).value <= k
    decreases k - from
  {
    if from < k && !(MarkerAt(s, from) && BlobStart(s, from).Some? && BlobStart(s, from).value < e) {
      MatchFromFinds(s, e, from + 1, k);
    }
  }

  /** Where the regex matched: the marker and the JSON group `start..end` (inclusive). */
  datatype SourcesMatch = SourcesMatch(marker: nat, start: nat, end: nat)

  /** The first match of the sources-line regex in `s`, if any. */
  function SourcesLine(s: string): (m: Option<SourcesMatch>)
    ensures m.Some? ==> m.value.start <= m.value.end < |s|
  {
    match BlobEnd(s)
    case None => None
    case Some(e) =>
      match MatchFrom(s, e, 0)
      case None => None
      case Some(p) => Some(SourcesMatch(p, BlobStart(s, p).value, e))
  }

  /** `SourcesLine` is the regex's first match: it is a match, every match starts at or after it,
      and a match at the same marker has the same JSON group. */
  lemma SourcesLineIsFirstMatch(s: string)
    ensures SourcesLine(s).Some? ==> RegexMatchAt(s, SourcesLine(s).value.marker, SourcesLine(s).value.start, SourcesLine(s).value.end)
    ensures forall p, b, e :: RegexMatchAt(s, p, b, e) ==>
      && SourcesLine(s).Some? && SourcesLine(s).value.marker <= p
      && (p == SourcesLine(s).value.marker ==> b == SourcesLine(s).value.start && e == SourcesLine(s).value.end)
  {
    if SourcesLine(s).Some? {
      var m := SourcesLine(s).value;
      BlobStartSpec(s, m.marker, m.start);
    }
    forall p, b, e | RegexMatchAt(s, p, b, e)
      ensures SourcesLine(s).Some? && SourcesLine(s).value.marker <= p
      ensures p == SourcesLine(s).value.marker ==> b == SourcesLine(s).value.start && e == SourcesLine(s).value.end
    {
      NoMatchBefore(s, p, b, e);
    }
  }

  /** A match of the regex at `p`: the found line starts at or before `p`, and at `p` it is that match. */
  lemma NoMatchBefore(s: string, p: nat, b: nat, e: nat)
    requires RegexMatchAt(s, p, b, e)
    ensures SourcesLine(s).Some? && SourcesLine(s).value.marker <= p
    ensures p == SourcesLine(s).value.marker ==> b == SourcesLine(s).value.start && e == SourcesLine(s).value.end
  {
    BlobEndUnique(s, e);
    BlobStartSpec(s, p, b);
    MatchFromFinds(s, e, 0, p);
  }

  // ----- the reply: everything from an optional newline and the first marker on is removed, then the rest trimmed -----

  /** The first marker at or after `from`. */
  function FirstMarkerFrom(s: string, from: nat): (m: Option<nat>)
    decreases |s| - from
    ensures m.Some? ==> from <= m.value && MarkerAt(s, m.value)
  {
    if from + |Marker| > |s| then None
    else if MarkerAt(s, from) then Some(from)
    else FirstMarkerFrom(s, from + 1)
  }

  /** No marker starts between `from` and the one `FirstMarkerFrom` finds. */
  lemma {:induction false} FirstMarkerIsFirst(s: string, from: nat, k: nat)
    requires from <= k && MarkerAt(s, k)
    ensures FirstMarkerFrom(s, from).Some? && FirstMarkerFrom(s, from).value <= k
    decreases |s| - from
  {
    if from < k && !MarkerAt(s, from) {
      FirstMarkerIsFirst(s, from + 1, k);
    }
  }

  /** Where the replace cuts: at the first marker, or one earlier when a newline precedes it. */
  function CutPoint(s: string): (c: nat)
    ensures c <= |s|
  {
    match FirstMarkerFrom(s, 0)
    case None => |s|
    case Some(m) => if m > 0 && s[m - 1] == '\n' then m - 1 else m
  }

  /** No marker fits before the cut. */
  lemma CutBeforeEveryMarker(s: string, k: nat)
    requires MarkerAt(s, k)
    ensures CutPoint(s) < k + |Marker|
  {
    FirstMarkerIsFirst(s, 0, k);
  }

  /** The reply once the sources line is accepted: the text before the first marker, trimmed. */
  function StrippedReply(s: string): string {
    Trim(s[..CutPoint(s)])
  }

  /** The stripped reply never shows the marker. */
  lemma StrippedReplyHasNoMarker(s: string)
    ensures !Contains(StrippedReply(s), Marker)
  {
    var c := CutPoint(s);
    var b := TrimBounds(s[..c]);
    assert StrippedReply(s) == s[..c][b.0..b.1];
    assert s[..c][b.0..b.1] == s[b.0..b.1];
    forall t | 0 <= t <= |s[b.0..b.1]| ensures !OccursAt(s[b.0..b.1], Marker, t) {
      NoMarkerBeforeCut(s, b.0, b.1, t);
    }
  }

  /** A piece of the text that ends at or before the cut holds no marker. */
  lemma NoMarkerBeforeCut(s: string, lo: nat, hi: nat, t: nat)
    requires lo <= hi <= CutPoint(s)
    ensures !OccursAt(s[lo..hi], Marker, t)
  {
    OccursInSlice(s, Marker, lo, hi, t);
    if MarkerAt(s, lo + t) {
      CutBeforeEveryMarker(s, lo + t);
    }
  }

  // ----- parsing with the one-brace repair -----

  /** The outcome of the two `JSON.parse` attempts. */
  datatype ParseOutcome = Threw | ParsedOk(sources: Option<seq<Citation>>)

  /** Parse `json`; if that throws, drop one character when it ends in `}}` and parse once more. */
  function ParseBlob(json: string, parse: Parser): ParseOutcome {
    match parse(json)
    case Some(v) => ParsedOk(v.sources)
    case None =>
      var retry := if EndsWith(json, "}}") then json[..|json| - 1] else json;
      match parse(retry)
      case Some(v) => ParsedOk(v.sources)
      case None => Threw
  }

  /** A blob with one brace too many, which parses once it is dropped, reads as the well-formed blob. */
  lemma RepairRecovers(json: string, parse: Parser)
    requires |json| > 0 && json[|json| - 1] == '}'
    requires parse(json + "}").None? && parse(json).Some?
    ensures ParseBlob(json + "}", parse) == ParseBlob(json, parse) == ParsedOk(parse(json).value.sources)
  {
    var j := json + "}";
    assert j[|j| - 2..] == "}}";
    assert j[..|j| - 1] == json;
  }

  // ----- the "sfa" annotation fallback -----

  /** A file citation whose file name is a string that contains "sfa" in any ASCII case. */
  predicate IsSfaCitation(a: Annotation) {
    a.Annotation? && a.kind == "file_citation" && a.filename.Some? && Contains(Lower(a.filename.value), "sfa")
  }

  /** The index of the first sfa citation among the annotations. */
  function FindSfa(anns: seq<Annotation>): (i: Option<nat>)
    ensures i.Some? ==> i.value < |anns| && IsSfaCitation(anns[i.value])
  {
    if |anns| == 0 then None
    else if IsSfaCitation(anns[0]) then Some(0)
    else match FindSfa(anns[1..])
      case None => None
      case Some(k) => Some(k + 1)
  }

  /** `FindSfa` finds the first sfa citation: none comes before the one it returns. */
  lemma {:induction false} FindSfaIsFirst(anns: seq<Annotation>, k: nat)
    requires k < |anns| && IsSfaCitation(anns[k])
    ensures FindSfa(anns).Some? && FindSfa(anns).value <= k
  {
    if k > 0 && !IsSfaCitation(anns[0]) {
      assert anns[1..][k - 1] == anns[k];
      FindSfaIsFirst(anns[1..], k - 1);
    }
  }

  /** When nothing was cited and the annotations are an array, cite page 1 of the first sfa file. */
  function SfaFallback(sources: seq<Citation>, annotations: Option<seq<Annotation>>): (r: seq<Citation>)
    ensures |sources| == 0 && annotations.Some? && FindSfa(annotations.value).Some? ==>
      r == [Citation(annotations.value[FindSfa(annotations.value).value].filename.value, 1)]
    ensures |sources| > 0 || annotations.None? || FindSfa(annotations.value).None? ==> r == sources
  {
    if |sources| == 0 && annotations.Some? then
      match FindSfa(annotations.value)
      case Some(i) => [Citation(annotations.value[i].filename.value, 1)]
      case None => sources
    else sources
  }

  // ----- the whole extraction -----

  /** The trimmed JSON group of a match. */
  function JsonGroup(text: string, m: SourcesMatch): string
    requires m.start <= m.end < |text|
  {
    Trim(text[m.start..m.end + 1])
  }

  /** How the sources line's JSON parses, when there is a sources line. */
  function LineOutcome(text: string, parse: Parser): Option<ParseOutcome> {
    OutcomeAt(text, SourcesLine(text), parse)
  }

  /** How the JSON group of `line` parses, if there is a line. */
  function OutcomeAt(text: string, line: Option<SourcesMatch>, parse: Parser): Option<ParseOutcome>
    requires line.Some? ==> line.value.start <= line.value.end < |text|
  {
    match line
    case None => None
    case Some(m) => Some(ParseBlob(JsonGroup(text, m), parse))
  }

  /** The reply and sources for a given outcome: only a successful parse strips the text and cites sources. */
  function Decide(text: string, outcome: Option<ParseOutcome>, annotations: Option<seq<Annotation>>): Extracted {
    if outcome.Some? && outcome.value.ParsedOk? then
      Extracted(StrippedReply(text), SfaFallback(outcome.value.sources.GetOr([]), annotations))
    else
      Extracted(text, SfaFallback([], annotations))
  }

  /** What the route makes of the model's text `text` with its `annotations`. */
  function Extraction(text: string, annotations: Option<seq<Annotation>>, parse: Parser): Extracted {
    Decide(text, LineOutcome(text, parse), annotations)
  }

  /** Lines 150-183 of the route, step by step: `reply` and `sources` are reassigned as the
      match, the two parses and the fallback succeed; a second parse failure skips the stripping. */
  method ExtractReply(text: string, annotations: Option<seq<Annotation>>, parse: Parser)
    returns (reply: string, sources: seq<Citation>)
    ensures Extracted(reply, sources) == Extraction(text, annotations, parse)
    ensures SourcesLine(text).None? ==> reply == text
  {
    reply := text;
    sources := [];
    var line := SourcesLine(text);
    if line.Some? {
      var jsonStr := JsonGroup(text, line.value);
      ghost var outcome := ParseBlob(jsonStr, parse);
      var threw := false;
      var parsed := parse(jsonStr);
      if parsed.Some? {
        if parsed.value.sources.Some? {
          sources := parsed.value.sources.value;
        }
      } else {
        if EndsWith(jsonStr, "}}") {
          jsonStr := jsonStr[..|jsonStr| - 1];
        }
        var parsed2 := parse(jsonStr);
        if parsed2.Some? {
          if parsed2.value.sources.Some? {
            sources := parsed2.value.sources.value;
          }
        } else {
          threw := true;
        }
      }
      assert threw == outcome.Threw? && (!threw ==> sources == outcome.sources.GetOr([]));
      if !threw {
        reply := StrippedReply(text);
      }
    }
    sources := SfaFallback(sources, annotations);
  }

  /** Text with no sources line is returned verbatim, and only the sfa fallback can cite anything. */
  lemma NoSourcesLine(text: string, annotations: Option<seq<Annotation>>, parse: Parser)
    requires forall p, b, e :: !RegexMatchAt(text, p, b, e)
    ensures Extraction(text, annotations, parse) == Extracted(text, SfaFallback([], annotations))
  {
    SourcesLineIsFirstMatch(text);
  }

  /** The answer `body` followed by a sources line: the marker, a gap, the JSON `json` and an allowed tail. */
  function WithSourcesLine(body: string, gap: string, json: string, tail: string): string {
    body + Marker + (gap + json + tail)
  }

  /** The pieces of a trailing sources line sit where they were put. */
  lemma TrailingLinePieces(body: string, gap: string, json: string, tail: string)
    requires |json| >= 2
    ensures var raw := WithSourcesLine(body, gap, json, tail);
      var p := |body|;
      var b := p + |Marker| + |gap|;
      var e := b + |json| - 1;
      && raw[p..p + |Marker|] == Marker && raw[p + |Marker|..b] == gap && raw[b..e + 1] == json
      && raw[e + 1..] == tail && raw[b] == json[0] && raw[e] == json[|json| - 1]
  {
    var raw := WithSourcesLine(body, gap, json, tail);
    var b := |body| + |Marker| + |gap|;
    assert raw == body + Marker + gap + json + tail;
    assert raw[b..] == json + tail;
  }

  /** A match at the first marker is the one the regex reports. */
  lemma MatchAtFirstMarker(s: string, p: nat, b: nat, e: nat)
    requires RegexMatchAt(s, p, b, e) && FirstMarkerFrom(s, 0) == Some(p)
    ensures SourcesLine(s) == Some(SourcesMatch(p, b, e))
  {
    NoMatchBefore(s, p, b, e);
    FirstMarkerIsFirst(s, 0, SourcesLine(s).value.marker);
  }

  /** The regex matches a trailing sources line at its marker, with exactly `json` as its group. */
  lemma TrailingLineIsMatch(body: string, gap: string, json: string, tail: string)
    requires Gap(gap) && TailOk(tail)
    requires |json| >= 2 && json[0] == '{' && json[|json| - 1] == '}'
    ensures var b := |body| + |Marker| + |gap|;
      RegexMatchAt(WithSourcesLine(body, gap, json, tail), |body|, b, b + |json| - 1)
  {
    TrailingLinePieces(body, gap, json, tail);
  }

  /** The regex found its match at marker `p` with JSON group `b..e`. */
  predicate FoundAt(s: string, p: nat, b: nat, e: nat) {
    SourcesLine(s).Some? && SourcesLine(s).value.marker == p && SourcesLine(s).value.start == b && SourcesLine(s).value.end == e
  }

  /** A match right after a marker-free answer is the one the regex reports. */
  lemma MatchAfterBody(s: string, body: string, rest: string, b: nat, e: nat)
    requires s == body + Marker + rest && !Contains(body, Marker) && RegexMatchAt(s, |body|, b, e)
    ensures FoundAt(s, |body|, b, e)
  {
    FirstMarkerAfterBody(body, rest);
    MatchAtFirstMarker(s, |body|, b, e);
  }

  /** The regex finds a trailing sources line at its marker, with exactly `json` as its group. */
  lemma TrailingLineMatch(body: string, gap: string, json: string, tail: string)
    requires !Contains(body, Marker) && Gap(gap) && TailOk(tail)
    requires |json| >= 2 && json[0] == '{' && json[|json| - 1] == '}'
    ensures FoundAt(WithSourcesLine(body, gap, json, tail), |body|, |body| + |Marker| + |gap|, |body| + |Marker| + |gap| + |json| - 1)
  {
    var b := |body| + |Marker| + |gap|;
    TrailingLineIsMatch(body, gap, json, tail);
    MatchAfterBody(WithSourcesLine(body, gap, json, tail), body, gap + json + tail, b, b + |json| - 1);
  }

  /** In the answer followed by a sources line, the first marker is the line's own. */
  lemma FirstMarkerAfterBody(body: string, rest: string)
    requires !Contains(body, Marker)
    ensures FirstMarkerFrom(body + Marker + rest, 0) == Some(|body|)
  {
    var raw := body + Marker + rest;
    var p := |body|;
    assert raw[p..p + |Marker|] == Marker;
    assert MarkerAt(raw, p);
    MarkerNoBorder();
    FirstMarkerIsFirst(raw, 0, p);
    var first := FirstMarkerFrom(raw, 0).value;
    if first < p {
      NoEarlierOccurrence(body, Marker, rest, first);
    }
  }

  /** The cut lands on the marker, or on the newline just before it. */
  lemma CutAtMarker(body: string, rest: string)
    requires FirstMarkerFrom(body + Marker + rest, 0) == Some(|body|)
    ensures var c := CutPoint(body + Marker + rest);
      if |body| > 0 && body[|body| - 1] == '\n' then c == |body| - 1 else c == |body|
  {
    var raw := body + Marker + rest;
    if |body| > 0 {
      assert raw[|body| - 1] == body[|body| - 1];
    }
  }

  /** Cutting at the marker leaves the answer. */
  lemma CutBeforeMarker(body: string, rest: string)
    requires CutPoint(body + Marker + rest) == |body|
    ensures StrippedReply(body + Marker + rest) == Trim(body)
  {
    var raw := body + Marker + rest;
    assert raw[..|body|] == body;
  }

  /** Cutting at the newline before the marker leaves the answer without that newline, which trims the same. */
  lemma CutBeforeNewline(body: string, rest: string)
    requires |body| > 0 && body[|body| - 1] == '\n'
    requires CutPoint(body + Marker + rest) == |body| - 1
    ensures StrippedReply(body + Marker + rest) == Trim(body)
  {
    var raw := body + Marker + rest;
    var x := body[..|body| - 1];
    assert raw[..|body| - 1] == x;
    assert body == x + "\n";
    TrimDropsNewline(x);
  }

  /** With a trailing sources line, the replace cuts the answer `body` (and perhaps its final newline) out. */
  lemma TrailingLineReply(body: string, rest: string)
    requires !Contains(body, Marker)
    ensures StrippedReply(body + Marker + rest) == Trim(body)
  {
    FirstMarkerAfterBody(body, rest);
    CutAtMarker(body, rest);
    if |body| > 0 && body[|body| - 1] == '\n' {
      CutBeforeNewline(body, rest);
    } else {
      CutBeforeMarker(body, rest);
    }
  }

  /** A line whose JSON group is already trimmed parses exactly that group. */
  lemma OutcomeOfGroup(s: string, m: SourcesMatch, json: string, parse: Parser)
    requires m.start <= m.end < |s| && s[m.start..m.end + 1] == json && Trim(json) == json
    ensures OutcomeAt(s, Some(m), parse) == Some(ParseBlob(json, parse))
  {
  }

  /** Once the regex has found its line with JSON group `json`, the extraction depends only on how `json` parses. */
  lemma OutcomeOfFound(s: string, p: nat, b: nat, e: nat, json: string, parse: Parser)
    requires FoundAt(s, p, b, e) && e < |s| && s[b..e + 1] == json
    requires |json| >= 2 && json[0] == '{' && json[|json| - 1] == '}'
    ensures LineOutcome(s, parse) == Some(ParseBlob(json, parse))
  {
    TrimUnique(json, 0, |json|);
    OutcomeOfGroup(s, SourcesLine(s).value, json, parse);
  }

  /** The JSON of a trailing sources line sits right after the marker and the gap. */
  lemma JsonInLine(body: string, gap: string, json: string, tail: string)
    ensures var b := |body| + |Marker| + |gap|;
      WithSourcesLine(body, gap, json, tail)[b..b + |json|] == json
  {
    var b := |body| + |Marker| + |gap|;
    assert WithSourcesLine(body, gap, json, tail) == (body + Marker + gap) + (json + tail);
  }

  /** The extraction for a known outcome and stripped reply. */
  lemma ExtractionVia(s: string, json: string, reply: string, annotations: Option<seq<Annotation>>, parse: Parser)
    requires LineOutcome(s, parse) == Some(ParseBlob(json, parse)) && StrippedReply(s) == reply
    ensures ParseBlob(json, parse).Threw? ==>
      Extraction(s, annotations, parse) == Extracted(s, SfaFallback([], annotations))
    ensures ParseBlob(json, parse).ParsedOk? ==>
      Extraction(s, annotations, parse) == Extracted(reply, SfaFallback(ParseBlob(json, parse).sources.GetOr([]), annotations))
  {
  }

  /** A trailing sources line is found with exactly `json` as its group; if either parse succeeds the reply is
      the trimmed answer, and if both throw the text is kept whole. */
  lemma TrailingLine(body: string, gap: string, json: string, tail: string,
                     annotations: Option<seq<Annotation>>, parse: Parser)
    requires !Contains(body, Marker) && Gap(gap) && TailOk(tail)
    requires |json| >= 2 && json[0] == '{' && json[|json| - 1] == '}'
    ensures ParseBlob(json, parse).Threw? ==>
      Extraction(WithSourcesLine(body, gap, json, tail), annotations, parse) ==
      Extracted(WithSourcesLine(body, gap, json, tail), SfaFallback([], annotations))
    ensures ParseBlob(json, parse).ParsedOk? ==>
      Extraction(WithSourcesLine(body, gap, json, tail), annotations, parse) ==
      Extracted(Trim(body), SfaFallback(ParseBlob(json, parse).sources.GetOr([]), annotations))
  {
    TrailingOutcome(body, gap, json, tail, parse);
    TrailingLineReply(body, gap + json + tail);
    ExtractionVia(WithSourcesLine(body, gap, json, tail), json, Trim(body), annotations, parse);
  }

  /** A trailing sources line's JSON is what gets parsed. */
  lemma TrailingOutcome(body: string, gap: string, json: string, tail: string, parse: Parser)
    requires !Contains(body, Marker) && Gap(gap) && TailOk(tail)
    requires |json| >= 2 && json[0] == '{' && json[|json| - 1] == '}'
    ensures LineOutcome(WithSourcesLine(body, gap, json, tail), parse) == Some(ParseBlob(json, parse))
  {
    var b := |body| + |Marker| + |gap|;
    JsonInLine(body, gap, json, tail);
    TrailingLineMatch(body, gap, json, tail);
    OutcomeOfFound(WithSourcesLine(body, gap, json, tail), |body|, b, b + |json| - 1, json, parse);
  }

  /** A well-formed trailing line whose JSON has a `sources` array: those are the sources
      (unless the array is empty and the sfa fallback applies), and the reply is the trimmed answer. */
  lemma WellFormedLine(body: string, gap: string, json: string, tail: string,
                       sources: seq<Citation>, annotations: Option<seq<Annotation>>, parse: Parser)
    requires !Contains(body, Marker) && Gap(gap) && TailOk(tail)
    requires |json| >= 2 && json[0] == '{' && json[|json| - 1] == '}'
    requires parse(json) == Some(Parsed(Some(sources)))
    ensures Extraction(WithSourcesLine(body, gap, json, tail), annotations, parse) ==
      Extracted(Trim(body), SfaFallback(sources, annotations))
    ensures |sources| > 0 ==> Extraction(WithSourcesLine(body, gap, json, tail), annotations, parse).sources == sources
  {
    TrailingLine(body, gap, json, tail, annotations, parse);
  }

  /** JSON with one closing brace too many that parses once it is dropped gives the same reply and
      sources as the well-formed line. */
  lemma RepairedLine(body: string, gap: string, json: string, tail: string,
                     annotations: Option<seq<Annotation>>, parse: Parser)
    requires !Contains(body, Marker) && Gap(gap) && TailOk(tail)
    requires |json| >= 2 && json[0] == '{' && json[|json| - 1] == '}'
    requires parse(json + "}").None? && parse(json).Some?
    ensures Extraction(WithSourcesLine(body, gap, json + "}", tail), annotations, parse) ==
      Extraction(WithSourcesLine(body, gap, json, tail), annotations, parse)
  {
    var j := json + "}";
    TrailingLine(body, gap, j, tail, annotations, parse);
    TrailingLine(body, gap, json, tail, annotations, parse);
    RepairRecovers(json, parse);
  }

  /** JSON that fails both parses leaves the raw text, marker line included, as the reply. */
  lemma UnparsableLine(body: string, gap: string, json: string, tail: string,
                       annotations: Option<seq<Annotation>>, parse: Parser)
    requires !Contains(body, Marker) && Gap(gap) && TailOk(tail)
    requires |json| >= 2 && json[0] == '{' && json[|json| - 1] == '}'
    requires parse(json).None?
    requires parse(if EndsWith(json, "}}") then json[..|json| - 1] else json).None?
    ensures Extraction(WithSourcesLine(body, gap, json, tail), annotations, parse) ==
      Extracted(WithSourcesLine(body, gap, json, tail), SfaFallback([], annotations))
  {
    TrailingLine(body, gap, json, tail, annotations, parse);
  }

  /** JSON that parses without a `sources` array cites nothing, yet the reply is still stripped. */
  lemma LineWithoutSources(body: string, gap: string, json: string, tail: string,
                           annotations: Option<seq<Annotation>>, parse: Parser)
    requires !Contains(body, Marker) && Gap(gap) && TailOk(tail)
    requires |json| >= 2 && json[0] == '{' && json[|json| - 1] == '}'
    requires parse(json) == Some(Parsed(None))
    ensures Extraction(WithSourcesLine(body, gap, json, tail), annotations, parse) ==
      Extracted(Trim(body), SfaFallback([], annotations))
  {
    TrailingLine(body, gap, json, tail, annotations, parse);
  }
}
