/** `parse_emb_text`: turn one fetched embedding cell into a vector, into nothing (a
    NULL cell), or into a parse error. What JSON decoding, `float()`, UTF-8 decoding and
    numpy's array conversion make of a given input is foreign code, so it is given by
    the `Parsers` oracles; the case dispatch and the comma-split fallback are modelled. */
module EmbText {
  import opened Outcomes
  import opened Text

  type Vec = seq<real>

  /** A value a driver may hand back for the embedding column. `isTuple` tells a tuple
      from a list; a bytearray is a `BytesCell`. */
  datatype Cell =
    | NullCell
    | NumberCell(number: real)
    | BytesCell(bytes: seq<bv8>)
    | TextCell(text: string)
    | ListCell(items: seq<Cell>, isTuple: bool)
    | OtherCell(typeName: string)

  /** The foreign conversions the parser calls:
      `jsonArray(t)` is `np.array(json.loads(t), dtype=float)` when neither raises;
      `parseFloat(t)` is `float(t)` when it does not raise;
      `decodeUtf8(b)` is `b.decode('utf-8', errors='ignore')`, which never raises;
      `listArray(xs)` is `np.array(xs, dtype=float)` when it does not raise. */
  datatype Parsers = Parsers(
    jsonArray: string -> Option<Vec>,
    parseFloat: string -> Option<real>,
    decodeUtf8: seq<bv8> -> string,
    listArray: seq<Cell> -> Option<Vec>)

  /** The `ValueError`s the parser raises: text that is neither JSON nor comma-separated
      numbers (the message shows at most its first 200 characters), a cell of a type it
      does not handle, and a list or tuple numpy cannot convert. */
  datatype ParseError = Unparseable(shown: string) | UnknownFormat | NotNumeric

  datatype ParseOutcome = NoVector | Parsed(vec: Vec) | Failed(error: ParseError)

  const ShownLimit := 200

  /** `float(i)` for every piece, in order; `None` as soon as one piece is rejected. */
  function AllFloats(pieces: seq<string>, p: Parsers): (r: Option<Vec>)
    ensures r.Some? <==> forall k :: 0 <= k < |pieces| ==> p.parseFloat(pieces[k]).Some?
    ensures r.Some? ==> (
      && |r.value| == |pieces|
      && forall k :: 0 <= k < |pieces| ==> r.value[k] == p.parseFloat(pieces[k]).value)
    decreases |pieces|
  {
    if pieces == [] then Some([])
    else
      match p.parseFloat(pieces[0])
      case None => None
      case Some(x) =>
        match AllFloats(pieces[1..], p)
        case None => None
        case Some(xs) => Some([x] + xs)
  }

  /** The fallback for text that is not JSON: strip it, split on commas, and convert
      each piece with `float`. */
  function CommaSeparated(t: string, p: Parsers): Option<Vec> {
    AllFloats(Split(Strip(t), ','), p)
  }

  /** The first `ShownLimit` characters, as `x[:200]` takes them. */
  function Shown(t: string): (r: string)
    ensures |r| == (if |t| < ShownLimit then |t| else ShownLimit)
    ensures StartsWith(t, r)
  {
    if |t| <= ShownLimit then t else t[..ShownLimit]
  }

  /** The string branch: JSON first, then the comma split, else the error. */
  function ParseText(t: string, p: Parsers): (r: ParseOutcome)
    ensures r != NoVector
    ensures p.jsonArray(t).Some? ==> r == Parsed(p.jsonArray(t).value)
    ensures p.jsonArray(t).None? && CommaSeparated(t, p).Some? ==> r == Parsed(CommaSeparated(t, p).value)
    ensures r.Failed? <==> p.jsonArray(t).None? && CommaSeparated(t, p).None?
    ensures r.Failed? ==> r.error == Unparseable(Shown(t))
  {
    match p.jsonArray(t)
    case Some(v) => Parsed(v)
    case None =>
      match CommaSeparated(t, p)
      case Some(v) => Parsed(v)
      case None => Failed(Unparseable(Shown(t)))
  }

  /** `parse_emb_text(x)`. */
  function ParseEmbText(x: Cell, p: Parsers): (r: ParseOutcome)
    ensures r == NoVector <==> x == NullCell
    ensures x.BytesCell? ==> r == ParseText(p.decodeUtf8(x.bytes), p)
    ensures x.TextCell? ==> r == ParseText(x.text, p)
    ensures x.ListCell? ==> (r.Parsed? <==> p.listArray(x.items).Some?)
    ensures x.ListCell? && r.Parsed? ==> r.vec == p.listArray(x.items).value
    ensures x.ListCell? && !r.Parsed? ==> r == Failed(NotNumeric)
    ensures x.NumberCell? || x.OtherCell? ==> r == Failed(UnknownFormat)
  {
    match x
    case NullCell => NoVector
    case BytesCell(b) => ParseText(p.decodeUtf8(b), p)
    case TextCell(t) => ParseText(t, p)
    case ListCell(items, _) =>
      (match p.listArray(items)
       case Some(v) => Parsed(v)
       case None => Failed(NotNumeric))
    case _ => Failed(UnknownFormat)
  }

  /** Text that is not JSON but whose comma-separated pieces all convert parses to
      those numbers, one per piece and in order. */
  lemma CommaFallback(t: string, p: Parsers)
    requires p.jsonArray(t).None?
    requires forall k :: 0 <= k < |Split(Strip(t), ',')| ==> p.parseFloat(Split(Strip(t), ',')[k]).Some?
    ensures var pieces := Split(Strip(t), ',');
      && ParseText(t, p).Parsed?
      && |ParseText(t, p).vec| == |pieces|
      && forall k :: 0 <= k < |pieces| ==> ParseText(t, p).vec[k] == p.parseFloat(pieces[k]).value
  {
  }

  /** The pieces the fallback converts join back, with commas, to the stripped text. */
  lemma CommaPiecesCoverText(t: string)
    ensures Join(Split(Strip(t), ','), ',') == Strip(t)
  {
    JoinSplit(Strip(t), ',');
  }

  /** Text whose stripped form is empty is never a comma list: the single empty piece
      goes to `float("")`, and unless that converts the text is unparseable. */
  lemma BlankTextNeedsJson(t: string, p: Parsers)
    requires Strip(t) == "" && p.jsonArray(t).None? && p.parseFloat("").None?
    ensures ParseEmbText(TextCell(t), p) == Failed(Unparseable(Shown(t)))
  {
    assert Split("", ',') == [""];
  }
}
