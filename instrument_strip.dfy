/**
 * src/components/InstrumentStrip.tsx: the instrument read-out under the lab
 * notes. A reading such as `COHERENCE: 82% | VIABILITY: HIGH` is split into
 * named segments, each with a percentage when its value is digits and `%`.
 */
module InstrumentStrip {
  import opened Wrappers
  import opened Text

  datatype Segment = Segment(name: string, value: string, percent: Option<nat>)

  /** What the strip shows: the brew banner, or gauges (placeholders when there is no reading). */
  datatype StripView = BrewAuthorized | Gauges(segments: seq<Segment>, isEmpty: bool)

  const Placeholder: Segment := Segment("\U{2014}", "\U{2014}", None)
  const PlaceholderSegments: seq<Segment> := [Placeholder, Placeholder]
  const MinGaugeWidth := 2

  /** `value.match(/^(\d+)%$/)`, read with `parseInt(match[1], 10)`. */
  function MatchPercent(value: string): (r: Option<nat>)
    ensures r.Some? <==> |value| >= 2 && value[|value| - 1] == '%' && AllDigits(value[..|value| - 1])
    ensures r.Some? ==> r.value == DecimalValue(value[..|value| - 1])
  {
    if |value| >= 2 && value[|value| - 1] == '%' && AllDigits(value[..|value| - 1])
    then Some(DecimalValue(value[..|value| - 1]))
    else None
  }

  /** What every parsed segment satisfies. */
  predicate WellFormed(seg: Segment) {
    seg.name != [] && seg.value != [] && IsTrimmed(seg.name) && IsTrimmed(seg.value) &&
    ':' !in seg.name && seg.percent == MatchPercent(seg.value)
  }

  /** A segment that can be written back into a reading: no `|` in its name or value. */
  predicate Renderable(seg: Segment) {
    WellFormed(seg) && '|' !in seg.name && '|' !in seg.value
  }

  /** One `|`-piece through trim, `filter(Boolean)` and the segment callback. */
  function ParsePiece(piece: string): (r: Option<Segment>)
    ensures r.Some? ==> WellFormed(r.value)
    ensures r.Some? <==>
      var seg := Trim(piece);
      IndexOf(seg, ':').Some? &&
      Trim(seg[..IndexOf(seg, ':').value]) != [] && Trim(seg[IndexOf(seg, ':').value + 1..]) != []
    ensures r.Some? ==>
      var seg := Trim(piece);
      var colon := IndexOf(seg, ':').value;
      r.value.name == Trim(seg[..colon]) && r.value.value == Trim(seg[colon + 1..])
  {
    var seg := Trim(piece);
    if seg == [] then None
    else
      match IndexOf(seg, ':')
      case None => None
      case Some(colon) =>
        var name := Trim(seg[..colon]);
        var value := Trim(seg[colon + 1..]);
        assert ':' !in seg[..colon];
        TrimAbsent(seg[..colon], ':');
        if name == [] || value == [] then None
        else Some(Segment(name, value, MatchPercent(value)))
  }

  /** A piece with no `:` yields no segment. */
  lemma ColonlessPieceDropped(piece: string)
    requires ':' !in piece
    ensures ParsePiece(piece) == None
  {
    TrimAbsent(piece, ':');
  }

  /** A piece that is blank after trimming yields no segment. */
  lemma BlankPieceDropped(piece: string)
    requires AllWhitespace(piece)
    ensures ParsePiece(piece) == None
  {
    TrimPadded(piece, [], []);
    assert piece + [] + [] == piece;
  }

  function ParsePieces(pieces: seq<string>): (r: seq<Segment>)
    ensures |r| <= |pieces|
    ensures forall i :: 0 <= i < |r| ==> WellFormed(r[i])
  {
    if pieces == [] then []
    else
      var head := ParsePiece(pieces[0]);
      (if head.Some? then [head.value] else []) + ParsePieces(pieces[1..])
  }

  /** `parseReading(raw)`. */
  function ParseReading(raw: string): (r: seq<Segment>)
    ensures |r| <= |Split(raw, '|')|
    ensures forall i :: 0 <= i < |r| ==> WellFormed(r[i])
  {
    ParsePieces(Split(raw, '|'))
  }

  /** The segments a piece contributes: its own, or none. */
  function PieceSegments(piece: string): seq<Segment> {
    if ParsePiece(piece).Some? then [ParsePiece(piece).value] else []
  }

  lemma ParsePiecesCons(pieces: seq<string>)
    requires pieces != []
    ensures ParsePieces(pieces) == PieceSegments(pieces[0]) + ParsePieces(pieces[1..])
  {
  }

  lemma {:induction false} ParsePiecesAppend(a: seq<string>, b: seq<string>)
    ensures ParsePieces(a + b) == ParsePieces(a) + ParsePieces(b)
  {
    if a == [] {
      assert a + b == b;
    } else {
      assert (a + b)[0] == a[0];
      assert (a + b)[1..] == a[1..] + b;
      ParsePiecesCons(a + b);
      ParsePiecesCons(a);
      ParsePiecesAppend(a[1..], b);
      var h := PieceSegments(a[0]);
      AppendAssoc(h, ParsePieces(a[1..]), ParsePieces(b));
    }
  }

  /** A lone piece gives its own segment, or nothing when the callback returns `null`. */
  lemma ParsePiecesSingle(piece: string)
    ensures ParsePieces([piece]) == if ParsePiece(piece).Some? then [ParsePiece(piece).value] else []
  {
    assert [piece][1..] == [];
  }

  /** A reading without `|` is one piece. */
  lemma {:induction false} ParseReadingSinglePiece(raw: string)
    requires '|' !in raw
    ensures ParseReading(raw) == if ParsePiece(raw).Some? then [ParsePiece(raw).value] else []
  {
    assert Split(raw, '|') == [raw] by {
      SplitJoin([raw], '|');
      assert Join([raw], "|") == raw;
    }
    ParsePiecesSingle(raw);
  }

  /** Segments keep input order: the segments of `a|b` are those of `a` followed by those of `b`. */
  lemma ParseReadingAppend(a: string, b: string)
    ensures ParseReading(a + "|" + b) == ParseReading(a) + ParseReading(b)
  {
    SplitAppend(a, b, '|');
    ParsePiecesAppend(Split(a, '|'), Split(b, '|'));
  }

  /** A `|`-piece without a colon between two others is skipped. */
  lemma ParseReadingSkipsNoise(a: string, noise: string, b: string)
    requires ':' !in noise && '|' !in noise
    ensures ParseReading(a + "|" + noise + "|" + b) == ParseReading(a) + ParseReading(b)
  {
    var rest := noise + "|" + b;
    assert a + "|" + noise + "|" + b == a + "|" + rest;
    ParseReadingAppend(a, rest);
    ParseReadingAppend(noise, b);
    ParseReadingSinglePiece(noise);
    ColonlessPieceDropped(noise);
    assert ParseReading(noise) == [];
    assert ParseReading(rest) == ParseReading(b);
  }

  /** A reading written as `NAME: value` pieces joined by `|`. */
  function RenderPieces(segs: seq<Segment>): (r: seq<string>)
    ensures |r| == |segs|
    ensures forall i :: 0 <= i < |segs| ==> r[i] == segs[i].name + ": " + segs[i].value
  {
    if segs == [] then [] else [segs[0].name + ": " + segs[0].value] + RenderPieces(segs[1..])
  }

  function RenderReading(segs: seq<Segment>): string {
    Join(RenderPieces(segs), "|")
  }

  lemma ParseRenderedPiece(seg: Segment)
    requires Renderable(seg)
    ensures '|' !in seg.name + ": " + seg.value
    ensures ParsePiece(seg.name + ": " + seg.value) == Some(seg)
  {
    var piece := seg.name + ": " + seg.value;
    var n := |seg.name|;
    assert piece[0] == seg.name[0] && piece[|piece| - 1] == seg.value[|seg.value| - 1];
    assert Trim(piece) == piece by {
      TrimPadded([], piece, []);
      assert [] + piece + [] == piece;
    }
    assert piece[..n] == seg.name;
    assert piece[n + 1..] == " " + seg.value + [];
    assert IndexOf(piece, ':') == Some(n) by {
      IndexOfAt(piece, ':', n);
    }
    assert Trim(seg.name) == seg.name by {
      TrimPadded([], seg.name, []);
      assert [] + seg.name + [] == seg.name;
    }
    assert Trim(piece[n + 1..]) == seg.value by {
      TrimPadded(" ", seg.value, []);
    }
  }

  lemma {:induction false} ParseRenderedPieces(segs: seq<Segment>)
    requires forall i :: 0 <= i < |segs| ==> Renderable(segs[i])
    ensures forall i :: 0 <= i < |segs| ==> '|' !in RenderPieces(segs)[i]
    ensures ParsePieces(RenderPieces(segs)) == segs
  {
    forall i | 0 <= i < |segs| ensures '|' !in RenderPieces(segs)[i] {
      ParseRenderedPiece(segs[i]);
    }
    if segs != [] {
      var pieces := RenderPieces(segs);
      ParseRenderedPiece(segs[0]);
      assert pieces[1..] == RenderPieces(segs[1..]);
      ParsePiecesCons(pieces);
      assert PieceSegments(pieces[0]) == [segs[0]];
      ParseRenderedPieces(segs[1..]);
      assert [segs[0]] + segs[1..] == segs;
    }
  }

  /** Rendering well-formed segments and parsing the text gives the same segments back. */
  lemma ReadingRoundTrip(segs: seq<Segment>)
    requires forall i :: 0 <= i < |segs| ==> Renderable(segs[i])
    ensures ParseReading(RenderReading(segs)) == segs
  {
    ParseRenderedPieces(segs);
    if segs != [] {
      SplitJoin(RenderPieces(segs), '|');
    }
  }

  /** The strip's content for a reading and the brew-ready flag. */
  function StripContent(reading: Option<string>, brewReady: bool): (v: StripView)
    ensures brewReady <==> v.BrewAuthorized?
    ensures !brewReady && (reading.None? || reading.value == []) ==> v == Gauges(PlaceholderSegments, true)
    ensures !brewReady && reading.Some? && reading.value != [] ==> v == Gauges(ParseReading(reading.value), false)
  {
    if brewReady then BrewAuthorized
    else
      match reading
      case Some(text) => if text != [] then Gauges(ParseReading(text), false) else Gauges(PlaceholderSegments, true)
      case None => Gauges(PlaceholderSegments, true)
  }

  /** `Math.max(percent, 2)`: the fill width, never below 2 and never below the percentage. */
  function GaugeWidth(percent: nat): (w: nat)
    ensures w >= MinGaugeWidth && w >= percent
    ensures w == MinGaugeWidth || w == percent
  {
    if percent > MinGaugeWidth then percent else MinGaugeWidth
  }
}
