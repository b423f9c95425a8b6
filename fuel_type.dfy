/** The closed enumeration of fuel types reported by the generation-mix feed,
    with the lowercase tags used for them on the wire. */
module FuelTypes {
  import opened Wrappers

  datatype FuelType = GAS | COAL | BIOMASS | NUCLEAR | HYDRO | WIND | SOLAR | IMPORTS | OTHER

  /** The enum constants in declaration order. */
  const AllFuels: seq<FuelType> := [GAS, COAL, BIOMASS, NUCLEAR, HYDRO, WIND, SOLAR, IMPORTS, OTHER]

  /** Position of a constant in the declaration (Java's `ordinal()`). */
  function Ordinal(f: FuelType): (n: nat)
    ensures n < |AllFuels| && AllFuels[n] == f
  {
    match f
    case GAS => 0
    case COAL => 1
    case BIOMASS => 2
    case NUCLEAR => 3
    case HYDRO => 4
    case WIND => 5
    case SOLAR => 6
    case IMPORTS => 7
    case OTHER => 8
  }

  /** The constant's Java name. */
  function Name(f: FuelType): string
  {
    match f
    case GAS => "GAS"
    case COAL => "COAL"
    case BIOMASS => "BIOMASS"
    case NUCLEAR => "NUCLEAR"
    case HYDRO => "HYDRO"
    case WIND => "WIND"
    case SOLAR => "SOLAR"
    case IMPORTS => "IMPORTS"
    case OTHER => "OTHER"
  }

  /** The JSON tag the constant is (de)serialised as. */
  function Tag(f: FuelType): string
  {
    match f
    case GAS => "gas"
    case COAL => "coal"
    case BIOMASS => "biomass"
    case NUCLEAR => "nuclear"
    case HYDRO => "hydro"
    case WIND => "wind"
    case SOLAR => "solar"
    case IMPORTS => "imports"
    case OTHER => "other"
  }

  /** Deserialisation of a tag; an unknown tag is rejected. */
  function FromTag(s: string): (r: Option<FuelType>)
    ensures r.Some? ==> Tag(r.value) == s
  {
    if s == "gas" then Some(GAS)
    else if s == "coal" then Some(COAL)
    else if s == "biomass" then Some(BIOMASS)
    else if s == "nuclear" then Some(NUCLEAR)
    else if s == "hydro" then Some(HYDRO)
    else if s == "wind" then Some(WIND)
    else if s == "solar" then Some(SOLAR)
    else if s == "imports" then Some(IMPORTS)
    else if s == "other" then Some(OTHER)
    else None
  }

  function LowerChar(c: char): char
  {
    if 'A' <= c <= 'Z' then (c as int + 32) as char else c
  }

  /** ASCII lowercasing, all that the tags need. */
  function Lower(s: string): (r: string)
    ensures |r| == |s|
  {
    seq(|s|, i requires 0 <= i < |s| => LowerChar(s[i]))
  }

  /** There are exactly nine constants, each listed once, in declaration order. */
  lemma AllFuelsComplete()
    ensures |AllFuels| == 9
    ensures forall i, j :: 0 <= i < j < |AllFuels| ==> AllFuels[i] != AllFuels[j]
    ensures forall f: FuelType :: f in AllFuels
    ensures forall i :: 0 <= i < |AllFuels| ==> Ordinal(AllFuels[i]) == i
  {
    forall f: FuelType ensures f in AllFuels {
      assert AllFuels[Ordinal(f)] == f;
    }
  }

  /** Every tag is the lowercase form of the constant's name. */
  lemma TagIsLowercaseName(f: FuelType)
    ensures Tag(f) == Lower(Name(f))
  {
    var n, t := Name(f), Tag(f);
    assert |t| == |n|;
    forall i | 0 <= i < |n| ensures t[i] == LowerChar(n[i]) {
      match f
      case GAS =>
      case COAL =>
      case BIOMASS =>
      case NUCLEAR =>
      case HYDRO =>
      case WIND =>
      case SOLAR =>
      case IMPORTS =>
      case OTHER =>
    }
  }

  /** Decoding the tag of a constant gives the constant back, so the tag mapping is injective. */
  lemma TagRoundTrip(f: FuelType)
    ensures FromTag(Tag(f)) == Some(f)
  {
  }

  lemma TagInjective(f: FuelType, g: FuelType)
    requires Tag(f) == Tag(g)
    ensures f == g
  {
    TagRoundTrip(f);
    TagRoundTrip(g);
  }
}
