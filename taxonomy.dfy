/** The closed code tables of the file-name grammar: the scroll character
    and the three sub-tables (weapon, kdm drill, goshin entering direction),
    each with the inverse table of the naming convention that produced the
    file names, and the table-name prefix derived from a scroll name. */
module Taxonomy {
  import opened Wrappers
  import StemCodec

  /** `get_scroll_id`'s table: the character after the leading 'd'. */
  const ScrollTable: map<char, string> := map[
    'n' := "basic_nage", 'g' := "goshin", 's' := "shime", 't' := "basic_stick",
    'f' := "basic_knife", 'u' := "basic_handgun", 'k' := "kdm", 'o' := "oku",
    'i' := "shinin", 'v' := "advanced_nage", 'j' := "aikijutsu_nage",
    'a' := "advanced_weapons", 'y' := "basic_yawara", 'd' := "advanced_yawara",
    'x' := "exercises"]

  /** The naming convention's side: the character each scroll is written as. */
  const ScrollCodes: map<string, char> := map[
    "basic_nage" := 'n', "goshin" := 'g', "shime" := 's', "basic_stick" := 't',
    "basic_knife" := 'f', "basic_handgun" := 'u', "kdm" := 'k', "oku" := 'o',
    "shinin" := 'i', "advanced_nage" := 'v', "aikijutsu_nage" := 'j',
    "advanced_weapons" := 'a', "basic_yawara" := 'y', "advanced_yawara" := 'd',
    "exercises" := 'x']

  /** `get_weapon_id`'s table. */
  const WeaponTable: map<char, string> :=
    map['t' := "stick", 'f' := "knife", 'u' := "handgun", 'r' := "rifle"]

  const WeaponCodes: map<string, char> :=
    map["stick" := 't', "knife" := 'f', "handgun" := 'u', "rifle" := 'r']

  /** `get_kdm_id`'s table. */
  const KdmTable: map<char, string> :=
    map['p' := "punch", 'k' := "kick", 'i' := "kick_defense", 'u' := "punch_defense"]

  const KdmCodes: map<string, char> :=
    map["punch" := 'p', "kick" := 'k', "kick_defense" := 'i', "punch_defense" := 'u']

  /** `get_goshin_id`'s table. */
  const GoshinTable: map<char, string> := map['i' := "inside", 'o' := "outside"]

  const GoshinCodes: map<string, char> := map["inside" := 'i', "outside" := 'o']

  /** `get_scroll_id(c)`: defined on exactly fifteen characters, and the name
      it gives is written back as c by the naming convention. */
  function GetScrollId(c: char): (r: Option<string>)
    ensures r.Some? <==> c in "ngstfukoivjaydx"
    ensures r.Some? ==> r.value in ScrollCodes && ScrollCodes[r.value] == c
  {
    if c in ScrollTable then Some(ScrollTable[c]) else None
  }

  /** `get_weapon_id(c)`: defined on exactly four characters. */
  function GetWeaponId(c: char): (r: Option<string>)
    ensures r.Some? <==> c in "tfur"
    ensures r.Some? ==> r.value in WeaponCodes && WeaponCodes[r.value] == c
  {
    if c in WeaponTable then Some(WeaponTable[c]) else None
  }

  /** `get_kdm_id(c)`: defined on exactly four characters. */
  function GetKdmId(c: char): (r: Option<string>)
    ensures r.Some? <==> c in "pkiu"
    ensures r.Some? ==> r.value in KdmCodes && KdmCodes[r.value] == c
  {
    if c in KdmTable then Some(KdmTable[c]) else None
  }

  /** `get_goshin_id(c)`: defined on exactly two characters. */
  function GetGoshinId(c: char): (r: Option<string>)
    ensures r.Some? <==> c in "io"
    ensures r.Some? ==> r.value in GoshinCodes && GoshinCodes[r.value] == c
  {
    if c in GoshinTable then Some(GoshinTable[c]) else None
  }

  /** Every scroll name of the naming convention decodes from its own
      character: with GetScrollId's ensures, the scroll table is a bijection. */
  lemma ScrollCodesRoundTrip(n: string)
    requires n in ScrollCodes
    ensures GetScrollId(ScrollCodes[n]) == Some(n)
  {
  }

  lemma WeaponCodesRoundTrip(n: string)
    requires n in WeaponCodes
    ensures GetWeaponId(WeaponCodes[n]) == Some(n)
  {
  }

  lemma KdmCodesRoundTrip(n: string)
    requires n in KdmCodes
    ensures GetKdmId(KdmCodes[n]) == Some(n)
  {
  }

  lemma GoshinCodesRoundTrip(n: string)
    requires n in GoshinCodes
    ensures GetGoshinId(GoshinCodes[n]) == Some(n)
  {
  }

  /** The name prefix `get_db_table_name_for_scroll` looks the table up by:
      the scroll name lengthened with "_model", in camel case. */
  function TableNamePrefix(scroll: string): (r: string)
    ensures r == StemCodec.ConvertToCamelCase(scroll) + "Model"
  {
    StemCodec.CamelCaseWithModel(scroll);
    StemCodec.ConvertToCamelCase(scroll + "_model")
  }
}
