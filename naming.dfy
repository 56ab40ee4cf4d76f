/** The naming convention the file names follow, read backwards from the
    decoder: a technique of a scroll is written as `d`, the scroll character,
    the scroll's fields at fixed positions (or a number for the scrolls keyed
    by number), and an optional trailing `z` that asks for a reset. Decoding
    such a name gives back the scroll, the record key and the reset flag. */
module Naming {
  import opened Wrappers
  import opened StemCodec
  import opened Taxonomy
  import opened Catalog
  import opened KeyBuilder

  /** A technique as a file name designates it, by the shape of its scroll. */
  datatype Technique =
    | Numbered(scroll: string, digits: string)
    | SetNumbered(scroll: string, setCode: char, number: char)
    | ArmedNumbered(weapon: string, number: char)
    | Drill(drillType: string, number: char)
    | FlowLetter(flow: char, letter: char)
    | Entering(direction: string, number: char)

  predicate AllDigits(s: string) {
    forall j :: 0 <= j < |s| ==> IsDigit(s[j])
  }

  /** The names that the convention can produce: known scroll and sub-table
      names, a number made of digits, and a last field that cannot be taken
      for the reset marker. */
  predicate Wellformed(t: Technique) {
    match t
    case Numbered(scroll, digits) => scroll in SimpleScrolls && digits != [] && AllDigits(digits)
    case SetNumbered(scroll, _, number) => scroll in BasicWeaponScrolls && number != 'z'
    case ArmedNumbered(weapon, number) => weapon in WeaponCodes && number != 'z'
    case Drill(drillType, number) => drillType in KdmCodes && number != 'z'
    case FlowLetter(_, letter) => letter != 'z'
    case Entering(direction, number) => direction in GoshinCodes && number != 'z'
  }

  function ScrollOf(t: Technique): string {
    match t
    case Numbered(scroll, _) => scroll
    case SetNumbered(scroll, _, _) => scroll
    case ArmedNumbered(_, _) => "advanced_weapons"
    case Drill(_, _) => "kdm"
    case FlowLetter(_, _) => "shime"
    case Entering(_, _) => "goshin"
  }

  /** The characters after the scroll character. */
  function Payload(t: Technique): string
    requires Wellformed(t)
  {
    match t
    case Numbered(_, digits) => digits
    case SetNumbered(_, setCode, number) => [setCode, number]
    case ArmedNumbered(weapon, number) => [WeaponCodes[weapon], number]
    case Drill(drillType, number) => [KdmCodes[drillType], number]
    case FlowLetter(flow, letter) => [flow, letter]
    case Entering(direction, number) => [GoshinCodes[direction], number]
  }

  /** The record the technique is stored as, as attribute conditions. */
  function KeyOf(t: Technique): Filter {
    match t
    case Numbered(_, digits) => [Condition("Number", digits)]
    case SetNumbered(_, setCode, number) => [Condition("Set", [setCode]), Condition("Number", [number])]
    case ArmedNumbered(weapon, number) => [Condition("Weapon", weapon), Condition("Number", [number])]
    case Drill(drillType, number) => [Condition("DrillType", drillType), Condition("Number", [number])]
    case FlowLetter(flow, letter) => [Condition("GroundFlowNumber", [flow]), Condition("Letter", [letter])]
    case Entering(direction, number) => [Condition("Enter", direction), Condition("Number", [number])]
  }

  /** The stem once the leading `d` is removed. */
  function Stem(t: Technique, reset: bool): string
    requires Wellformed(t)
  {
    assert ScrollOf(t) in ScrollCodes;
    [ScrollCodes[ScrollOf(t)]] + Payload(t) + (if reset then "z" else "")
  }

  /** The file name stem (the last path segment without its extension). */
  function FileStem(t: Technique, reset: bool): string
    requires Wellformed(t)
  {
    "d" + Stem(t, reset)
  }

  /** Removing the art character gives the stem back. */
  lemma RemoveArtChar(t: Technique, reset: bool)
    requires Wellformed(t)
    ensures StartsWith(FileStem(t, reset), 'd')
    ensures RemoveChar(FileStem(t, reset), 0) == Stem(t, reset)
  {
    var f := FileStem(t, reset);
    assert RemoveChar(f, 0) == f[1..];
  }

  /** A number followed by the optional marker is keyed on that number. */
  lemma SimpleKeyOfNumber(code: char, digits: string, marker: string)
    requires digits != [] && AllDigits(digits)
    requires marker == [] || marker == "z"
    ensures SimpleTableKey([code] + digits + marker) == Ok([Condition("Number", digits)])
  {
    var stem := [code] + digits + marker;
    assert RemoveChar(stem, 0) == digits + marker;
    FirstDigitRunOfNumber(digits, marker);
  }

  /** The stem's scroll character decodes to the technique's scroll, and the
      stem ends in `z` exactly when a reset was asked for. */
  lemma DecodeScrollAndReset(t: Technique, reset: bool)
    requires Wellformed(t)
    ensures GetScrollId(Stem(t, reset)[0]) == Some(ScrollOf(t))
    ensures EndsWith(Stem(t, reset), 'z') <==> reset
  {
    var stem := Stem(t, reset);
    assert ScrollOf(t) in ScrollCodes;
    ScrollCodesRoundTrip(ScrollOf(t));
    assert stem[0] == ScrollCodes[ScrollOf(t)];
    var body := [ScrollCodes[ScrollOf(t)]] + Payload(t);
    assert stem == body + (if reset then "z" else "");
    assert body[|body| - 1] != 'z' by {
      if t.Numbered? {
        assert body[|body| - 1] == t.digits[|t.digits| - 1];
      }
    }
    if !reset {
      assert stem == body;
    }
  }

  /** The key a technique's stem derives, scroll shape by scroll shape. */
  lemma DecodeKeyNumbered(t: Technique, reset: bool)
    requires Wellformed(t) && t.Numbered?
    ensures DeriveKey(ScrollOf(t), Stem(t, reset)) == Ok(KeyOf(t))
  {
    var stem := Stem(t, reset);
    SimpleKeyOfNumber(stem[0], t.digits, if reset then "z" else "");
  }

  lemma DecodeKeySetNumbered(t: Technique, reset: bool)
    requires Wellformed(t) && t.SetNumbered?
    ensures DeriveKey(ScrollOf(t), Stem(t, reset)) == Ok(KeyOf(t))
  {
    var stem := Stem(t, reset);
    assert stem[1] == t.setCode && stem[2] == t.number;
  }

  lemma DecodeKeyArmed(t: Technique, reset: bool)
    requires Wellformed(t) && t.ArmedNumbered?
    ensures DeriveKey(ScrollOf(t), Stem(t, reset)) == Ok(KeyOf(t))
  {
    var stem := Stem(t, reset);
    WeaponCodesRoundTrip(t.weapon);
    assert stem[1] == WeaponCodes[t.weapon] && stem[2] == t.number;
  }

  lemma DecodeKeyDrill(t: Technique, reset: bool)
    requires Wellformed(t) && t.Drill?
    ensures DeriveKey(ScrollOf(t), Stem(t, reset)) == Ok(KeyOf(t))
  {
    var stem := Stem(t, reset);
    KdmCodesRoundTrip(t.drillType);
    assert stem[1] == KdmCodes[t.drillType] && stem[2] == t.number;
  }

  lemma DecodeKeyFlowLetter(t: Technique, reset: bool)
    requires Wellformed(t) && t.FlowLetter?
    ensures DeriveKey(ScrollOf(t), Stem(t, reset)) == Ok(KeyOf(t))
  {
    var stem := Stem(t, reset);
    assert stem[1] == t.flow && stem[2] == t.letter;
  }

  lemma DecodeKeyEntering(t: Technique, reset: bool)
    requires Wellformed(t) && t.Entering?
    ensures DeriveKey(ScrollOf(t), Stem(t, reset)) == Ok(KeyOf(t))
  {
    var stem := Stem(t, reset);
    GoshinCodesRoundTrip(t.direction);
    assert stem[1] == GoshinCodes[t.direction] && stem[2] == t.number;
  }

  /** The decoder inverts the naming convention: the scroll character names
      the technique's scroll, the scroll's key derivation gives the
      technique's key, and the stem ends in `z` exactly when a reset was
      asked for. */
  lemma DecodeInvertsNaming(t: Technique, reset: bool)
    requires Wellformed(t)
    ensures GetScrollId(Stem(t, reset)[0]) == Some(ScrollOf(t))
    ensures DeriveKey(ScrollOf(t), Stem(t, reset)) == Ok(KeyOf(t))
    ensures EndsWith(Stem(t, reset), 'z') <==> reset
  {
    DecodeScrollAndReset(t, reset);
    match t
    case Numbered(_, _) => DecodeKeyNumbered(t, reset);
    case SetNumbered(_, _, _) => DecodeKeySetNumbered(t, reset);
    case ArmedNumbered(_, _) => DecodeKeyArmed(t, reset);
    case Drill(_, _) => DecodeKeyDrill(t, reset);
    case FlowLetter(_, _) => DecodeKeyFlowLetter(t, reset);
    case Entering(_, _) => DecodeKeyEntering(t, reset);
  }
}
