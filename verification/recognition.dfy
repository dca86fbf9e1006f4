/**
 * The recognition flow at the end of a stroke, the pure part: the crop
 * rectangle sent to the recognizer, `String.prototype.trim` of the reply and the
 * choice of the annotation placed under the stroke.
 */
module Recognition {
  import opened Common
  import opened Stroke

  /** White space and line terminators as `String.prototype.trim` strips them. */
  predicate IsSpace(c: char)
  {
    c == '\t' || c == '\n' || c == '\U{000B}' || c == '\U{000C}' || c == '\r' || c == ' ' ||
    c == '\U{00A0}' || c == '\U{1680}' || ('\U{2000}' <= c <= '\U{200A}') ||
    c == '\U{2028}' || c == '\U{2029}' || c == '\U{202F}' || c == '\U{205F}' ||
    c == '\U{3000}' || c == '\U{FEFF}'
  }

  /** `s` with its leading white space removed: a suffix of `s` that starts with a non-space. */
  function TrimStart(s: string): (r: string)
    ensures |r| <= |s| && r == s[|s| - |r|..]
    ensures forall k :: 0 <= k < |s| - |r| ==> IsSpace(s[k])
    ensures r == [] || !IsSpace(r[0])
    decreases |s|
  {
    if |s| > 0 && IsSpace(s[0]) then TrimStart(s[1..]) else s
  }

  /** `s` with its trailing white space removed: a prefix of `s` that ends with a non-space. */
  function TrimEnd(s: string): (r: string)
    ensures |r| <= |s| && r == s[..|r|]
    ensures forall k :: |r| <= k < |s| ==> IsSpace(s[k])
    ensures r == [] || !IsSpace(r[|r| - 1])
    decreases |s|
  {
    if |s| > 0 && IsSpace(s[|s| - 1]) then TrimEnd(s[..|s| - 1]) else s
  }

  /** `String.prototype.trim`. */
  function Trim(s: string): (r: string)
    ensures |r| <= |s|
    ensures r != [] ==> !IsSpace(r[0]) && !IsSpace(r[|r| - 1])
  {
    TrimEnd(TrimStart(s))
  }

  /**
   * What trimming means: the result is the middle of `s`, everything around it is
   * white space, and it is empty or starts and ends with a non-space character.
   */
  lemma {:induction false} TrimIsCore(s: string)
    ensures exists i, j :: 0 <= i <= j <= |s| && Trim(s) == s[i..j] &&
                           (forall k :: 0 <= k < i ==> IsSpace(s[k])) &&
                           (forall k :: j <= k < |s| ==> IsSpace(s[k]))
    ensures Trim(s) != [] ==> !IsSpace(Trim(s)[0]) && !IsSpace(Trim(s)[|Trim(s)| - 1])
  {
    var i, j := TrimBounds(s);
  }

  /** The positions in `s` where its trimmed middle starts and ends. */
  lemma {:induction false} TrimBounds(s: string) returns (i: nat, j: nat)
    ensures i <= j <= |s| && Trim(s) == s[i..j]
    ensures forall k :: 0 <= k < i ==> IsSpace(s[k])
    ensures forall k :: j <= k < |s| ==> IsSpace(s[k])
  {
    var t := TrimStart(s);
    i := |s| - |t|;
    assert t == s[i..];
    TrimEndOfSuffix(s, i);
    j := i + |TrimEnd(s[i..])|;
    calc {
      Trim(s);
      TrimEnd(t);
      TrimEnd(s[i..]);
      s[i..j];
    }
  }

  /** Trimming the end of the suffix `s[i..]` leaves a slice of `s` followed only by white space. */
  lemma {:induction false} TrimEndOfSuffix(s: string, i: nat)
    requires i <= |s|
    ensures var j := i + |TrimEnd(s[i..])|;
            j <= |s| && TrimEnd(s[i..]) == s[i..j] &&
            forall k :: j <= k < |s| ==> IsSpace(s[k])
  {
    var t := s[i..];
    var j := i + |TrimEnd(t)|;
    assert TrimEnd(t) == s[i..j];
    forall k | j <= k < |s|
      ensures IsSpace(s[k])
    {
      assert s[k] == t[k - i];
    }
  }

  /** The reply trims to nothing exactly when every character of it is white space. */
  lemma {:induction false} TrimEmptyIffBlank(s: string)
    ensures Trim(s) == [] <==> forall k :: 0 <= k < |s| ==> IsSpace(s[k])
  {
    var t := TrimStart(s);
    if Trim(s) != [] && t != [] {
      assert !IsSpace(s[|s| - |t|]);
    }
  }

  /** Trimming twice is trimming once. */
  lemma {:induction false} TrimIdempotent(s: string)
    ensures Trim(Trim(s)) == Trim(s)
  {
    var t := Trim(s);
    TrimIsCore(s);
    if t != [] {
      assert TrimStart(t) == t;
      assert TrimEnd(t) == t;
    }
  }

  /**
   * What the recognizer handed back. `Replied(text)` is a response whose JSON body
   * was read (`text` is its `text` member, `None` when absent or empty, as in the
   * collaborator's `{error}` reply); `Threw` is any exception on the way (the crop
   * encoding, the request, a body that is not JSON).
   */
  datatype Outcome = Replied(text: Option<string>) | Threw

  /** An editable text box of the overlay, at logical position `(x, y)`. */
  datatype Annotation = Annotation(x: real, y: real, text: string)

  const DemoText: string := "Texto detectado\U{2026}"
  const NoText: string := "(sin texto)"
  const OcrError: string := "(error OCR)"

  /** The annotation sits this far below the stroke's box. */
  const AnnotationOffset: real := 10.0

  /** The margin the crop adds around the stroke's box. */
  const CropMargin: real := 18.0

  /** The text shown for a recognizer outcome in the remote mode. */
  function OutcomeText(o: Outcome): (t: string)
    ensures o.Threw? ==> t == OcrError
    ensures o.Replied? ==> t == (if o.text.Some? && Trim(o.text.value) != [] then Trim(o.text.value) else NoText)
  {
    match o
    case Threw => OcrError
    case Replied(reply) =>
      var text := Trim(match reply case Some(s) => s case None => "");
      if text != [] then text else NoText
  }

  /** A reply holding a visible character is shown trimmed; a blank or missing one shows the placeholder. */
  lemma ReplyText(reply: string)
    ensures (exists k :: 0 <= k < |reply| && !IsSpace(reply[k])) ==>
              OutcomeText(Replied(Some(reply))) == Trim(reply) &&
              !IsSpace(Trim(reply)[0]) && !IsSpace(Trim(reply)[|Trim(reply)| - 1])
    ensures (forall k :: 0 <= k < |reply| ==> IsSpace(reply[k])) ==>
              OutcomeText(Replied(Some(reply))) == NoText
  {
    TrimEmptyIffBlank(reply);
    TrimIsCore(reply);
  }

  /**
   * The annotation made when a stroke ends, by recognition mode: `demo` fabricates
   * a placeholder, `azure` shows the recognizer's outcome, any other mode makes none.
   * Every annotation is placed at the box's lower-left corner, 10 units down.
   */
  function Recognize(autotext: string, b: Box, o: Outcome): (r: Option<Annotation>)
    ensures r.Some? <==> autotext == "demo" || autotext == "azure"
    ensures r.Some? ==> r.value.x == b.minX && r.value.y == b.maxY + AnnotationOffset
    ensures r.Some? ==> r.value.text != []
    ensures autotext == "demo" ==> r.value.text == DemoText
    ensures autotext == "azure" ==> r.value.text == OutcomeText(o)
  {
    if autotext == "demo" then
      Some(Annotation(b.minX, b.maxY + AnnotationOffset, DemoText))
    else if autotext == "azure" then
      Some(Annotation(b.minX, b.maxY + AnnotationOffset, OutcomeText(o)))
    else
      None
  }

  /** `Math.ceil` on exact reals. */
  function Ceil(r: real): (n: int)
    ensures r <= n as real < r + 1.0
  {
    -((-r).Floor)
  }

  /** The rectangle of the surface copied for recognition, in logical units. */
  datatype CropRect = CropRect(x: int, y: int, w: real, h: real)

  /**
   * The rectangle arithmetic of `cropBox`: the box widened by `margin` on every
   * side (and 20 more units at the bottom), its corner rounded down and clamped to
   * the surface's origin, its size rounded up and cut at the surface's far edges.
   */
  function CropBox(b: Box, margin: real, surfaceW: real, surfaceH: real): (r: CropRect)
    ensures 0 <= r.x && 0 <= r.y
    ensures r.x as real + r.w <= surfaceW && r.y as real + r.h <= surfaceH
    ensures r.x as real <= Max(0.0, b.minX - margin) < r.x as real + 1.0
    ensures r.y as real <= Max(0.0, b.minY - margin) < r.y as real + 1.0
    ensures r.x as real + r.w == surfaceW || r.x as real + r.w > b.maxX + margin - 1.0
    ensures r.y as real + r.h == surfaceH || r.y as real + r.h > b.maxY + margin + 20.0 - 1.0
    ensures r.w <= Ceil((b.maxX - b.minX) + margin * 2.0) as real
    ensures r.w == Ceil((b.maxX - b.minX) + margin * 2.0) as real || r.x as real + r.w == surfaceW
    ensures r.h <= Ceil((b.maxY - b.minY) + margin * 2.0 + 20.0) as real
    ensures r.h == Ceil((b.maxY - b.minY) + margin * 2.0 + 20.0) as real || r.y as real + r.h == surfaceH
  {
    var x := if 0 <= (b.minX - margin).Floor then (b.minX - margin).Floor else 0;
    var y := if 0 <= (b.minY - margin).Floor then (b.minY - margin).Floor else 0;
    var w := Min(surfaceW - x as real, Ceil((b.maxX - b.minX) + margin * 2.0) as real);
    var h := Min(surfaceH - y as real, Ceil((b.maxY - b.minY) + margin * 2.0 + 20.0) as real);
    CropRect(x, y, w, h)
  }

  /**
   * For a stroke drawn on the surface and a margin of at least one unit, the crop
   * holds the whole stroke and has no negative size.
   */
  lemma CropCoversStroke(b: Box, margin: real, surfaceW: real, surfaceH: real)
    requires b.WellFormed() && margin >= 1.0
    requires 0.0 <= b.minX && b.maxX <= surfaceW && 0.0 <= b.minY && b.maxY <= surfaceH
    ensures var r := CropBox(b, margin, surfaceW, surfaceH);
            r.x as real <= b.minX && b.maxX <= r.x as real + r.w &&
            r.y as real <= b.minY && b.maxY <= r.y as real + r.h &&
            0.0 <= r.w && 0.0 <= r.h
  {
  }
}
