/** Conversion between the normalised wire records (fractions of an image's
    width and height) and pixel-space rectangles. The JSON text itself is
    abstracted: parsing is given as a `Parsed` value and printing yields the
    record sequence. */
module Protocol {
  import opened Types

  /** A normalised record: every field is a fraction of the image size. */
  datatype T = T(x: real, y: real, w: real, h: real)

  /** One element of a parsed JSON array, as far as the conversion looks at
      it: a record, or `null`, whose field access throws. */
  datatype Item = Record(t: T) | Null

  /** The outcome of parsing the text: a syntax error, a JSON value that is
      not an array (so `map` throws), or an array of elements. */
  datatype Parsed = Fail | NotArray | Arr(items: seq<Item>)

  /** The pixel rectangle of one record: x and w are scaled by the image
      width, y and h by the image height; the rectangle is not selected. */
  function ToPixel(t: T, image: Size): Rect {
    Rect(Point(t.x * image.w, t.y * image.h), Size(t.w * image.w, t.h * image.h), false)
  }

  /** The normalised record of one rectangle: the inverse scaling; the
      selection flag is dropped. */
  function ToRecord(r: Rect, image: Size): T
    requires image.w != 0.0 && image.h != 0.0
  {
    T(r.topLeft.x / image.w, r.topLeft.y / image.h, r.size.w / image.w, r.size.h / image.h)
  }

  /** Every element of the array is a record (none is `null`). */
  predicate AllRecords(items: seq<Item>) {
    forall i :: 0 <= i < |items| ==> items[i].Record?
  }

  /** `arr.map(...)` over the parsed array: None when some element makes the
      mapping throw, otherwise the rectangles in the same order. */
  function MapItems(items: seq<Item>, image: Size): (r: Option<seq<Rect>>)
    ensures r.Some? <==> AllRecords(items)
    ensures r.Some? ==> |r.value| == |items|
    ensures r.Some? ==> forall i :: 0 <= i < |items| ==> r.value[i] == ToPixel(items[i].t, image)
  {
    if items == [] then Some([])
    else
      match items[0]
      case Null => None
      case Record(t) =>
        match MapItems(items[1..], image)
        case None => None
        case Some(rest) => Some([ToPixel(t, image)] + rest)
  }

  /** `fromJson`: the converted rectangles when the text is an array whose
      every element converts; the empty sequence on any failure, never a
      partial result. */
  function FromJson(p: Parsed, image: Size): (rs: seq<Rect>)
    ensures p.Arr? && AllRecords(p.items) ==>
              |rs| == |p.items| && forall i :: 0 <= i < |rs| ==> rs[i] == ToPixel(p.items[i].t, image)
    ensures !(p.Arr? && AllRecords(p.items)) ==> rs == []
  {
    match p
    case Fail => []
    case NotArray => []
    case Arr(items) =>
      match MapItems(items, image)
      case None => []
      case Some(rects) => rects
  }

  /** `toJson`: one record per rectangle, in the same order. */
  function ToJson(rects: seq<Rect>, image: Size): (ts: seq<T>)
    requires image.w != 0.0 && image.h != 0.0
    ensures |ts| == |rects|
    ensures forall i :: 0 <= i < |rects| ==> ts[i] == ToRecord(rects[i], image)
  {
    if rects == [] then [] else [ToRecord(rects[0], image)] + ToJson(rects[1..], image)
  }

  /** Printing a record sequence as JSON text and parsing that text back
      gives an array of those records. */
  function Wire(ts: seq<T>): Parsed {
    Arr(seq(|ts|, i requires 0 <= i < |ts| => Record(ts[i])))
  }

  /** The rectangles with their selection flag cleared. */
  function Deselected(rects: seq<Rect>): seq<Rect> {
    seq(|rects|, i requires 0 <= i < |rects| => rects[i].(selected := false))
  }

  /** One record scaled to pixels and back is the record itself. */
  lemma RecordRoundTrip(t: T, image: Size)
    requires image.w != 0.0 && image.h != 0.0
    ensures ToRecord(ToPixel(t, image), image) == t
  {
  }

  /** One rectangle scaled to a record and back keeps its four numbers and
      loses its selection. */
  lemma RectRoundTrip(r: Rect, image: Size)
    requires image.w != 0.0 && image.h != 0.0
    ensures ToPixel(ToRecord(r, image), image) == r.(selected := false)
  {
  }

  /** A text that does not parse, or that parses to something other than an
      array, yields no rectangles. */
  lemma FromJsonFailSoft(p: Parsed, image: Size)
    requires p.Fail? || p.NotArray?
    ensures FromJson(p, image) == []
  {
  }

  /** One `null` anywhere in the array discards the whole result, including
      the elements before it that did convert. */
  lemma FromJsonNoPartialResult(items: seq<Item>, k: nat, image: Size)
    requires k < |items| && items[k].Null?
    ensures FromJson(Arr(items), image) == []
  {
  }

  /** The empty array yields no rectangles. */
  lemma FromJsonEmptyArray(image: Size)
    ensures FromJson(Arr([]), image) == []
  {
  }

  /** `toJson` does not look at the selection flag. */
  lemma ToJsonIgnoresSelected(a: seq<Rect>, b: seq<Rect>, image: Size)
    requires image.w != 0.0 && image.h != 0.0
    requires |a| == |b|
    requires forall i :: 0 <= i < |a| ==> a[i].topLeft == b[i].topLeft && a[i].size == b[i].size
    ensures ToJson(a, image) == ToJson(b, image)
  {
  }

  /** Records converted to pixels and back are the records themselves. */
  lemma RecordsRoundTrip(ts: seq<T>, image: Size)
    requires image.w != 0.0 && image.h != 0.0
    ensures ToJson(FromJson(Wire(ts), image), image) == ts
  {
    var p := Wire(ts);
    assert AllRecords(p.items);
    var back := ToJson(FromJson(p, image), image);
    forall i | 0 <= i < |ts| ensures back[i] == ts[i] {
      RecordRoundTrip(ts[i], image);
    }
  }

  /** Rectangles written out and read back keep every coordinate, in order,
      and come back unselected. */
  lemma RectsRoundTrip(rects: seq<Rect>, image: Size)
    requires image.w != 0.0 && image.h != 0.0
    ensures FromJson(Wire(ToJson(rects, image)), image) == Deselected(rects)
  {
    var p := Wire(ToJson(rects, image));
    assert AllRecords(p.items);
    var back := FromJson(p, image);
    forall i | 0 <= i < |rects| ensures back[i] == Deselected(rects)[i] {
      RectRoundTrip(rects[i], image);
    }
  }
}
