/** Per-scroll key derivation: each `handle_*` function builds an
    attribute-equality filter from fixed positions of the stem (the stem
    here still starts with the scroll character) or from its first run of
    digits, and `handle_scroll` picks the builder by scroll name and takes the
    first record the filter selects. */
module KeyBuilder {
  import opened Wrappers
  import opened Errors
  import opened StemCodec
  import opened Taxonomy
  import opened Catalog

  predicate IsDigit(c: char) {
    '0' <= c <= '9'
  }

  /** Index of the first digit of s, or |s| when s has none. */
  function FirstDigitIndex(s: string): (i: nat)
    ensures i <= |s|
    ensures forall j :: 0 <= j < i ==> !IsDigit(s[j])
    ensures i < |s| ==> IsDigit(s[i])
  {
    if s == [] || IsDigit(s[0]) then 0 else 1 + FirstDigitIndex(s[1..])
  }

  /** Length of the run of digits s starts with. */
  function DigitRunLength(s: string): (n: nat)
    ensures n <= |s|
    ensures forall j :: 0 <= j < n ==> IsDigit(s[j])
    ensures n < |s| ==> !IsDigit(s[n])
  {
    if s == [] || !IsDigit(s[0]) then 0 else 1 + DigitRunLength(s[1..])
  }

  /** d is the run of digits of s that starts at i, preceded only by
      non-digits and not followed by a digit. */
  predicate IsFirstDigitRun(s: string, i: nat, d: string) {
    && d != []
    && i + |d| <= |s|
    && s[i..i + |d|] == d
    && (forall j :: 0 <= j < |d| ==> IsDigit(d[j]))
    && (forall j :: 0 <= j < i ==> !IsDigit(s[j]))
    && (i + |d| == |s| || !IsDigit(s[i + |d|]))
  }

  /** `re.findall(r'\d+', s)[0]`, or None where that indexing fails. */
  function FirstDigitRun(s: string): (r: Option<string>)
    ensures r.None? <==> forall j :: 0 <= j < |s| ==> !IsDigit(s[j])
    ensures r.Some? ==> IsFirstDigitRun(s, FirstDigitIndex(s), r.value)
  {
    var i := FirstDigitIndex(s);
    if i == |s| then None
    else
      var n := DigitRunLength(s[i..]);
      assert forall j :: 0 <= j < n ==> s[i..][j] == s[i + j];
      Some(s[i..i + n])
  }

  /** A number written in digits and followed by a non-digit (or nothing) is
      the first run of digits. */
  lemma FirstDigitRunOfNumber(number: string, rest: string)
    requires number != [] && forall j :: 0 <= j < |number| ==> IsDigit(number[j])
    requires rest == [] || !IsDigit(rest[0])
    ensures FirstDigitRun(number + rest) == Some(number)
  {
    var s := number + rest;
    assert IsDigit(s[0]);
    assert FirstDigitIndex(s) == 0;
    var n := DigitRunLength(s);
    assert s[0..] == s;
    assert forall j :: 0 <= j < |number| ==> s[j] == number[j];
    assert |number| < |s| ==> s[|number|] == rest[0];
    assert n == |number|;
    assert s[..|number|] == number;
  }

  /** `handle_simple_table_model`: the key is `Number` equal to the first run
      of digits after the scroll character; there is none to key on when no
      digit follows it. */
  function SimpleTableKey(stem: string): (r: Result<Filter, Error>)
    ensures r.Err? <==> forall j :: 1 <= j < |stem| ==> !IsDigit(stem[j])
    ensures r.Err? ==> r.error == NoItemNumber(stem)
    ensures r.Ok? ==> |stem| > 1 && FirstDigitRun(stem[1..]).Some?
    ensures r.Ok? ==> forall item :: Satisfies(item, r.value) <==>
                        HasAttr(item, "Number", FirstDigitRun(stem[1..]).value)
  {
    var itemStem := RemoveChar(stem, 0);
    assert stem != [] ==> itemStem == stem[1..];
    assert forall j :: 1 <= j < |stem| ==> stem[j] == itemStem[j - 1];
    match FirstDigitRun(itemStem)
    case None => Err(NoItemNumber(stem))
    case Some(number) =>
      SatisfiesSingle(Condition("Number", number));
      Ok([Condition("Number", number)])
  }

  /** `handle_basic_weapons`: the key is `Set` equal to the character after
      the scroll character and `Number` equal to the one after that. */
  function BasicWeaponsKey(stem: string): (r: Result<Filter, Error>)
    ensures r.Ok? <==> |stem| >= 3
    ensures r.Err? ==> r.error.StemTooShort?
    ensures r.Ok? ==> forall item :: Satisfies(item, r.value) <==>
                        HasAttr(item, "Set", [stem[1]]) && HasAttr(item, "Number", [stem[2]])
  {
    var itemStem := RemoveChar(stem, 0);
    if |itemStem| < 1 then Err(StemTooShort(itemStem, 0))
    else if |itemStem| < 2 then Err(StemTooShort(itemStem, 1))
    else
      SatisfiesPair(Condition("Set", [itemStem[0]]), Condition("Number", [itemStem[1]]));
      Ok([Condition("Set", [itemStem[0]]), Condition("Number", [itemStem[1]])])
  }

  /** `handle_advanced_weapons`: the weapon decoded from `stem[1]` and the
      number `stem[2]`. */
  function AdvancedWeaponsKey(stem: string): (r: Result<Filter, Error>)
    ensures r.Ok? <==> |stem| >= 3 && stem[1] in "tfur"
    ensures |stem| >= 2 && stem[1] !in "tfur" ==> r == Err(UnknownWeaponCode(stem[1]))
    ensures r.Err? ==> r.error.StemTooShort? || r.error.UnknownWeaponCode?
    ensures r.Ok? ==> forall item :: Satisfies(item, r.value) <==>
                        HasAttr(item, "Weapon", WeaponTable[stem[1]]) && HasAttr(item, "Number", [stem[2]])
  {
    if |stem| < 2 then Err(StemTooShort(stem, 1))
    else match GetWeaponId(stem[1])
      case None => Err(UnknownWeaponCode(stem[1]))
      case Some(weapon) =>
        if |stem| < 3 then Err(StemTooShort(stem, 2))
        else
          SatisfiesPair(Condition("Weapon", weapon), Condition("Number", [stem[2]]));
          Ok([Condition("Weapon", weapon), Condition("Number", [stem[2]])])
  }

  /** `handle_kdm`: the drill type decoded from `stem[1]` and the number
      `stem[2]`. */
  function KdmKey(stem: string): (r: Result<Filter, Error>)
    ensures r.Ok? <==> |stem| >= 3 && stem[1] in "pkiu"
    ensures |stem| >= 2 && stem[1] !in "pkiu" ==> r == Err(UnknownDrillCode(stem[1]))
    ensures r.Err? ==> r.error.StemTooShort? || r.error.UnknownDrillCode?
    ensures r.Ok? ==> forall item :: Satisfies(item, r.value) <==>
                        HasAttr(item, "DrillType", KdmTable[stem[1]]) && HasAttr(item, "Number", [stem[2]])
  {
    if |stem| < 2 then Err(StemTooShort(stem, 1))
    else match GetKdmId(stem[1])
      case None => Err(UnknownDrillCode(stem[1]))
      case Some(drillType) =>
        if |stem| < 3 then Err(StemTooShort(stem, 2))
        else
          SatisfiesPair(Condition("DrillType", drillType), Condition("Number", [stem[2]]));
          Ok([Condition("DrillType", drillType), Condition("Number", [stem[2]])])
  }

  /** `handle_shime`: the ground flow number `stem[1]` and the letter
      `stem[2]`. */
  function ShimeKey(stem: string): (r: Result<Filter, Error>)
    ensures r.Ok? <==> |stem| >= 3
    ensures r.Err? ==> r.error.StemTooShort?
    ensures r.Ok? ==> forall item :: Satisfies(item, r.value) <==>
                        HasAttr(item, "GroundFlowNumber", [stem[1]]) && HasAttr(item, "Letter", [stem[2]])
  {
    if |stem| < 2 then Err(StemTooShort(stem, 1))
    else if |stem| < 3 then Err(StemTooShort(stem, 2))
    else
      SatisfiesPair(Condition("GroundFlowNumber", [stem[1]]), Condition("Letter", [stem[2]]));
      Ok([Condition("GroundFlowNumber", [stem[1]]), Condition("Letter", [stem[2]])])
  }

  /** `handle_goshin`: the entering direction decoded from `stem[1]` and the
      number `stem[2]`. */
  function GoshinKey(stem: string): (r: Result<Filter, Error>)
    ensures r.Ok? <==> |stem| >= 3 && stem[1] in "io"
    ensures |stem| >= 2 && stem[1] !in "io" ==> r == Err(UnknownDirectionCode(stem[1]))
    ensures r.Err? ==> r.error.StemTooShort? || r.error.UnknownDirectionCode?
    ensures r.Ok? ==> forall item :: Satisfies(item, r.value) <==>
                        HasAttr(item, "Enter", GoshinTable[stem[1]]) && HasAttr(item, "Number", [stem[2]])
  {
    if |stem| < 2 then Err(StemTooShort(stem, 1))
    else match GetGoshinId(stem[1])
      case None => Err(UnknownDirectionCode(stem[1]))
      case Some(direction) =>
        if |stem| < 3 then Err(StemTooShort(stem, 2))
        else
          SatisfiesPair(Condition("Enter", direction), Condition("Number", [stem[2]]));
          Ok([Condition("Enter", direction), Condition("Number", [stem[2]])])
  }

  /** The six ways a scroll's records are keyed; the fifteen `handle_<scroll>`
      wrappers each forward to one of them. */
  datatype KeyShape = SimpleTable | BasicWeapons | AdvancedWeapons | Kdm | Shime | Goshin

  /** The scrolls keyed on the first number in the stem. */
  const SimpleScrolls: set<string> := {
    "basic_yawara", "advanced_yawara", "exercises", "oku", "basic_nage",
    "advanced_nage", "aikijutsu_nage", "shinin"}

  /** The scrolls keyed on a set and a number. */
  const BasicWeaponScrolls: set<string> := {"basic_stick", "basic_knife", "basic_handgun"}

  /** The branch `handle_scroll`'s chain takes for the scroll, as the key
      shape the branch's wrapper forwards to. There is a branch for exactly
      the fifteen names of the scroll table. */
  function HandlerOf(scroll: string): (r: Option<KeyShape>)
    ensures r.Some? <==> scroll in ScrollCodes
    ensures r == Some(SimpleTable) <==> scroll in SimpleScrolls
    ensures r == Some(BasicWeapons) <==> scroll in BasicWeaponScrolls
    ensures r == Some(AdvancedWeapons) <==> scroll == "advanced_weapons"
    ensures r == Some(Kdm) <==> scroll == "kdm"
    ensures r == Some(Shime) <==> scroll == "shime"
    ensures r == Some(Goshin) <==> scroll == "goshin"
  {
    if scroll == "basic_yawara" then Some(SimpleTable)
    else if scroll == "advanced_yawara" then Some(SimpleTable)
    else if scroll == "exercises" then Some(SimpleTable)
    else if scroll == "basic_stick" then Some(BasicWeapons)
    else if scroll == "basic_knife" then Some(BasicWeapons)
    else if scroll == "basic_handgun" then Some(BasicWeapons)
    else if scroll == "advanced_weapons" then Some(AdvancedWeapons)
    else if scroll == "kdm" then Some(Kdm)
    else if scroll == "oku" then Some(SimpleTable)
    else if scroll == "shime" then Some(Shime)
    else if scroll == "basic_nage" then Some(SimpleTable)
    else if scroll == "advanced_nage" then Some(SimpleTable)
    else if scroll == "aikijutsu_nage" then Some(SimpleTable)
    else if scroll == "shinin" then Some(SimpleTable)
    else if scroll == "goshin" then Some(Goshin)
    else None
  }

  /** The filter a key shape builds from the stem. */
  function KeyFor(shape: KeyShape, stem: string): Result<Filter, Error> {
    match shape
    case SimpleTable => SimpleTableKey(stem)
    case BasicWeapons => BasicWeaponsKey(stem)
    case AdvancedWeapons => AdvancedWeaponsKey(stem)
    case Kdm => KdmKey(stem)
    case Shime => ShimeKey(stem)
    case Goshin => GoshinKey(stem)
  }

  /** The filter of `handle_scroll`'s branch for the scroll, or the "Unknown
      scroll" failure of its last branch. No key shape fails that way, so the
      failure means exactly that the scroll has no branch. */
  function DeriveKey(scroll: string, stem: string): (r: Result<Filter, Error>)
    ensures r.Err? && r.error.UnknownScroll? <==> scroll !in ScrollCodes
    ensures r.Err? && r.error.UnknownScroll? ==> r.error.scroll == scroll
  {
    match HandlerOf(scroll)
    case None => Err(UnknownScroll(scroll))
    case Some(shape) => KeyFor(shape, stem)
  }

  /** `handle_scroll`: the position of the first record the scroll's filter
      selects. It fails with the key's error, or with NoMatchingRecord when
      no record is selected; several matches are not an error. */
  function HandleScroll(scroll: string, stem: string, items: seq<Item>): (r: Result<nat, Error>)
    ensures r.Ok? ==> DeriveKey(scroll, stem).Ok?
    ensures r.Ok? ==> r.value < |items| && Satisfies(items[r.value], DeriveKey(scroll, stem).value)
    ensures r.Ok? ==> forall j :: 0 <= j < r.value ==> !Satisfies(items[j], DeriveKey(scroll, stem).value)
    ensures r == Err(NoMatchingRecord) <==>
              DeriveKey(scroll, stem).Ok? &&
              forall j :: 0 <= j < |items| ==> !Satisfies(items[j], DeriveKey(scroll, stem).value)
    ensures DeriveKey(scroll, stem).Err? ==> r == Err(DeriveKey(scroll, stem).error)
    ensures (DeriveKey(scroll, stem).Ok? &&
             exists j :: 0 <= j < |items| && Satisfies(items[j], DeriveKey(scroll, stem).value)) ==> r.Ok?
  {
    match DeriveKey(scroll, stem)
    case Err(e) => Err(e)
    case Ok(filter) =>
      match FirstMatch(items, filter)
      case None => Err(NoMatchingRecord)
      case Some(slot) => Ok(slot)
  }

  /** The lookup reads only the records' attributes: two tables whose
      records agree in attributes position by position give the same
      answer. */
  lemma HandleScrollReadsAttributes(scroll: string, stem: string, xs: seq<Item>, ys: seq<Item>)
    requires |xs| == |ys|
    requires forall i :: 0 <= i < |xs| ==> xs[i].attributes == ys[i].attributes
    ensures HandleScroll(scroll, stem, xs) == HandleScroll(scroll, stem, ys)
  {
    if DeriveKey(scroll, stem).Ok? {
      FirstMatchReadsAttributes(xs, ys, DeriveKey(scroll, stem).value);
    }
  }

  /** Every scroll `get_scroll_id` can return has a branch in `handle_scroll`,
      so the "Unknown scroll" failure cannot follow a successful decode. */
  lemma ScrollIdsAreHandled(c: char, stem: string, items: seq<Item>)
    requires GetScrollId(c).Some?
    ensures DeriveKey(GetScrollId(c).value, stem) != Err(UnknownScroll(GetScrollId(c).value))
    ensures HandleScroll(GetScrollId(c).value, stem, items) != Err(UnknownScroll(GetScrollId(c).value))
  {
  }
}
