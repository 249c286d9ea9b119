/** The popover geometry of src/Pin.js: where content of a given size is
    placed next to a target rectangle, on one of four sides, anchored and
    aligned, and clamped into the window. Positions, anchors and alignments
    are the strings the source compares against; any other string is
    reported with the TypeError the source throws. Coordinates are reals. */
module Pin {

  import opened Wrappers

  /** The fields `anchorRect` copies from a bounding rectangle. */
  datatype Rect = Rect(top: real, right: real, bottom: real, left: real, width: real, height: real)

  /** Content or window dimensions. */
  datatype Size = Size(width: real, height: real)

  /** `errInvalidType(kind)(key)`: the TypeError for an unknown key. */
  datatype PinError = InvalidKey(kind: string, key: string)

  /** The message of the TypeError. */
  function ErrorMessage(e: PinError): (r: string)
    ensures |r| > 8 + |e.kind| && r[..8 + |e.kind|] == "Invalid " + e.kind
    ensures |r| > |e.kind| + 11 && r[|r| - |e.kind| - 11..] == " is not a " + e.kind + "."
  {
    var tail := " is not a " + e.kind + ".";
    var r := "Invalid " + e.kind + ": " + e.key + tail;
    assert r == ("Invalid " + e.kind) + (": " + e.key + tail);
    assert r[|r| - |tail|..] == tail;
    r
  }

  // ---------------------------------------------------------------------
  // Positions
  // ---------------------------------------------------------------------

  /** The four keys of `Position`. */
  predicate IsPosition(p: string)
  {
    p == "top" || p == "bottom" || p == "left" || p == "right"
  }

  /** `isVertical[position]`, where a missing key reads as undefined (false). */
  predicate IsVertical(position: string)
  {
    position == "top" || position == "bottom"
  }

  /** `isHorizontal[position]`, where a missing key reads as undefined (false). */
  predicate IsHorizontal(position: string)
  {
    position == "left" || position == "right"
  }

  /** `inverseOf(position)`: the opposite side; undefined for other keys. */
  function InverseOf(position: string): (r: Option<string>)
    ensures r.Some? <==> IsPosition(position)
    ensures r.Some? ==> IsPosition(r.value) && r.value != position
  {
    if position == "top" then Some("bottom")
    else if position == "bottom" then Some("top")
    else if position == "left" then Some("right")
    else if position == "right" then Some("left")
    else None
  }

  /** The opposite of the opposite side is the side itself, on the same axis. */
  lemma InverseInvolution(position: string)
    requires IsPosition(position)
    ensures InverseOf(InverseOf(position).value) == Some(position)
    ensures IsVertical(InverseOf(position).value) == IsVertical(position)
  {
  }

  /** Each of the four positions lies on exactly one axis; any other key on none. */
  lemma AxesPartitionPositions(position: string)
    ensures IsPosition(position) ==> IsVertical(position) == !IsHorizontal(position)
    ensures !IsPosition(position) ==> !IsVertical(position) && !IsHorizontal(position)
  {
  }

  // ---------------------------------------------------------------------
  // Anchoring and alignment
  // ---------------------------------------------------------------------

  /** `anchorRect`: the target, with the two edges across the position's axis
      shifted by half the content's size, forward for `start` and backward
      for `end`. An unknown position is treated as horizontal. */
  function AnchorRect(target: Rect, content: Size, position: string, anchor: string): (r: Result<Rect, PinError>)
    ensures anchor == "middle" ==> r == Ok(target)
    ensures anchor !in {"start", "middle", "end"} ==> r == Err(InvalidKey("anchor", anchor))
    ensures r.Ok? ==> r.value.width == target.width && r.value.height == target.height
    ensures r.Ok? && IsVertical(position) ==>
      r.value.top == target.top && r.value.bottom == target.bottom &&
      r.value.left - target.left == r.value.right - target.right ==
        (if anchor == "start" then 0.5 * content.width else if anchor == "end" then -0.5 * content.width else 0.0)
    ensures r.Ok? && !IsVertical(position) ==>
      r.value.left == target.left && r.value.right == target.right &&
      r.value.top - target.top == r.value.bottom - target.bottom ==
        (if anchor == "start" then 0.5 * content.height else if anchor == "end" then -0.5 * content.height else 0.0)
  {
    if IsVertical(position) then
      if anchor == "start" then
        Ok(target.(left := target.left + 0.5 * content.width, right := target.right + 0.5 * content.width))
      else if anchor == "middle" then Ok(target)
      else if anchor == "end" then
        Ok(target.(left := target.left - 0.5 * content.width, right := target.right - 0.5 * content.width))
      else Err(InvalidKey("anchor", anchor))
    else
      if anchor == "start" then
        Ok(target.(top := target.top + 0.5 * content.height, bottom := target.bottom + 0.5 * content.height))
      else if anchor == "middle" then Ok(target)
      else if anchor == "end" then
        Ok(target.(top := target.top - 0.5 * content.height, bottom := target.bottom - 0.5 * content.height))
      else Err(InvalidKey("anchor", anchor))
  }

  /** `getXPosition`: the content's left edge. Above or below the target the
      alignment decides; beside it the content sits just left of or just
      right of the target. */
  function GetXPosition(target: Rect, content: Size, position: string, alignment: string): (r: Result<real, PinError>)
    ensures IsVertical(position) && alignment == "start" ==> r == Ok(target.left)
    ensures IsVertical(position) && alignment == "middle" ==>
      r == Ok((target.left + target.right) / 2.0 - content.width / 2.0)
    ensures IsVertical(position) && alignment == "end" ==> r == Ok(target.right - content.width)
    ensures IsVertical(position) && alignment !in {"start", "middle", "end"} ==>
      r == Err(InvalidKey("alignment", alignment))
    ensures position == "left" ==> r == Ok(target.left - content.width)
    ensures position == "right" ==> r == Ok(target.right)
    ensures !IsPosition(position) ==> r == Err(InvalidKey("position", position))
  {
    if IsVertical(position) then
      if alignment == "start" then Ok(target.left)
      else if alignment == "middle" then Ok((target.left + target.right) / 2.0 - content.width / 2.0)
      else if alignment == "end" then Ok(target.right - content.width)
      else Err(InvalidKey("alignment", alignment))
    else if position == "left" then Ok(target.left - content.width)
    else if position == "right" then Ok(target.right)
    else Err(InvalidKey("position", position))
  }

  /** `getYPosition`: the content's top edge, the same rule on the other axis. */
  function GetYPosition(target: Rect, content: Size, position: string, alignment: string): (r: Result<real, PinError>)
  {
    if IsHorizontal(position) then
      if alignment == "start" then Ok(target.top)
      else if alignment == "middle" then Ok((target.top + target.bottom) / 2.0 - content.height / 2.0)
      else if alignment == "end" then Ok(target.bottom - content.height)
      else Err(InvalidKey("alignment", alignment))
    else if position == "top" then Ok(target.top - content.height)
    else if position == "bottom" then Ok(target.bottom)
    else Err(InvalidKey("position", position))
  }

  /** Mirroring a rectangle in its diagonal swaps the two axes. */
  function Transpose(r: Rect): Rect
  {
    Rect(r.left, r.bottom, r.right, r.top, r.height, r.width)
  }

  function TransposeSize(s: Size): Size
  {
    Size(s.height, s.width)
  }

  /** The side a position becomes in the mirrored picture. */
  function MirrorPosition(position: string): string
  {
    if position == "top" then "left"
    else if position == "bottom" then "right"
    else if position == "left" then "top"
    else if position == "right" then "bottom"
    else position
  }

  /** `getYPosition` is `getXPosition` seen in the mirror, errors included. */
  lemma YIsMirroredX(target: Rect, content: Size, position: string, alignment: string)
    ensures GetYPosition(target, content, position, alignment) ==
      GetXPosition(Transpose(target), TransposeSize(content), MirrorPosition(position), alignment)
  {
  }

  /** `clampRectangle(position, length, min, max)`: the position moved at
      least to `min`, then at most to `max - length`. */
  function ClampRectangle(position: real, length: real, min: real, max: real): (r: real)
    ensures r <= max - length
    ensures max - length >= min ==> min <= r
    ensures min <= position <= max - length ==> r == position
    ensures position < min <= max - length ==> r == min
    ensures position > max - length || min > max - length ==> r == max - length
    ensures r == position || r == min || r == max - length
  {
    var atLeast := if position >= min then position else min;
    if atLeast <= max - length then atLeast else max - length
  }

  /** `getPosition`: the content's left and top, anchored, aligned and then
      clamped into the window; the anchor defaults to `middle`. Anchoring is
      checked first, then the x and then the y position. */
  function GetPosition(target: Rect, content: Size, window: Size, position: string, alignment: string,
                       anchor: Option<string>): (r: Result<(real, real), PinError>)
    ensures r.Ok? && content.width <= window.width ==> 0.0 <= r.value.0 <= window.width - content.width
    ensures r.Ok? && content.height <= window.height ==> 0.0 <= r.value.1 <= window.height - content.height
    ensures r.Ok? ==> r.value.0 <= window.width - content.width && r.value.1 <= window.height - content.height
  {
    var a := if anchor.None? then "middle" else anchor.value;
    match AnchorRect(target, content, position, a)
    case Err(e) => Err(e)
    case Ok(anchored) =>
      match GetXPosition(anchored, content, position, alignment)
      case Err(e) => Err(e)
      case Ok(x) =>
        match GetYPosition(anchored, content, position, alignment)
        case Err(e) => Err(e)
        case Ok(y) => Ok((ClampRectangle(x, content.width, 0.0, window.width),
                          ClampRectangle(y, content.height, 0.0, window.height)))
  }

  /** Only an unknown key fails `getPosition`, and the anchor is blamed first. */
  lemma GetPositionErrors(target: Rect, content: Size, window: Size, position: string, alignment: string, anchor: string)
    ensures IsPosition(position) && anchor in {"start", "middle", "end"} && alignment in {"start", "middle", "end"} ==>
      GetPosition(target, content, window, position, alignment, Some(anchor)).Ok?
    ensures anchor !in {"start", "middle", "end"} ==>
      GetPosition(target, content, window, position, alignment, Some(anchor)) == Err(InvalidKey("anchor", anchor))
    ensures anchor in {"start", "middle", "end"} && !IsPosition(position) ==>
      GetPosition(target, content, window, position, alignment, Some(anchor)) == Err(InvalidKey("position", position))
    ensures anchor in {"start", "middle", "end"} && IsPosition(position) && alignment !in {"start", "middle", "end"} ==>
      GetPosition(target, content, window, position, alignment, Some(anchor)) == Err(InvalidKey("alignment", alignment))
  {
    if anchor in {"start", "middle", "end"} {
      YIsMirroredX(AnchorRect(target, content, position, anchor).value, content, position, alignment);
    }
  }

  // ---------------------------------------------------------------------
  // Fitting
  // ---------------------------------------------------------------------

  /** `doesContentFit`: the content, placed without anchoring or clamping,
      stays inside the window on the three sides other than the one facing
      the target. */
  function DoesContentFit(target: Rect, content: Size, window: Size, position: string, alignment: string): (r: Result<bool, PinError>)
  {
    match GetXPosition(target, content, position, alignment)
    case Err(e) => Err(e)
    case Ok(x) =>
      match GetYPosition(target, content, position, alignment)
      case Err(e) => Err(e)
      case Ok(y) =>
        var leftBound := x >= 0.0;
        var rightBound := x + content.width <= window.width;
        var topBound := y >= 0.0;
        var bottomBound := y + content.height <= window.height;
        if position == "left" then Ok(leftBound && topBound && bottomBound)
        else if position == "right" then Ok(rightBound && topBound && bottomBound)
        else if position == "top" then Ok(leftBound && rightBound && topBound)
        else if position == "bottom" then Ok(leftBound && rightBound && bottomBound)
        else Err(InvalidKey("position", position))
  }

  /** Content that fits above or below the target is not moved sideways by
      `getPosition`'s clamping (with the default anchor); content that fits
      beside the target is not moved up or down. */
  lemma FitMeansNoClamp(target: Rect, content: Size, window: Size, position: string, alignment: string)
    requires DoesContentFit(target, content, window, position, alignment) == Ok(true)
    ensures var p := GetPosition(target, content, window, position, alignment, None);
      p.Ok? &&
      (IsVertical(position) ==> p.value.0 == GetXPosition(target, content, position, alignment).value) &&
      (IsHorizontal(position) ==> p.value.1 == GetYPosition(target, content, position, alignment).value)
  {
  }

  /** Each position checks exactly its three bounds: for example content on
      the left must clear the window's left, top and bottom edges, whatever
      happens on the right. */
  lemma FitBounds(target: Rect, content: Size, window: Size, position: string, alignment: string)
    requires IsPosition(position) && alignment in {"start", "middle", "end"}
    ensures var x := GetXPosition(target, content, position, alignment).value;
      var y := GetYPosition(target, content, position, alignment).value;
      var fits := DoesContentFit(target, content, window, position, alignment);
      fits.Ok? &&
      (fits.value <==>
        (position != "right" ==> x >= 0.0) &&
        (position != "left" ==> x + content.width <= window.width) &&
        (position != "bottom" ==> y >= 0.0) &&
        (position != "top" ==> y + content.height <= window.height))
  {
    YIsMirroredX(target, content, position, alignment);
  }
}
