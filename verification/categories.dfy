/** Category remapping: a vendor class token is looked up in the table of the
    chosen target style. The lookup yields an id, an explicit "ignore" (`None`
    in the table) or a failure. */
module Categories {
  import opened Outcomes

  const A2d2Style: string := "a2d2"
  const CityscapesStyle: string := "cityscapes"

  /** The fourteen vendor tokens, listed in the order of their native ids. */
  const A2d2Tokens: seq<string> := [
    "Pedestrian", "Cyclist", "MotorBiker", "Car", "VanSUV", "Truck", "Bus",
    "UtilityVehicle", "Trailer", "CaravanTransporter", "EmergencyVehicle",
    "Motorcycle", "Bicycle", "Animal"
  ]

  /** The tokens that the Cityscapes table maps to `None`. */
  const IgnoredTokens: set<string> :=
    {"UtilityVehicle", "Trailer", "CaravanTransporter", "EmergencyVehicle", "Animal"}

  /** Native label space: every token has an id. */
  const CategoryA2d2Idx: map<string, int> := map[
    "Pedestrian" := 0,
    "Cyclist" := 1,
    "MotorBiker" := 2,
    "Car" := 3,
    "VanSUV" := 4,
    "Truck" := 5,
    "Bus" := 6,
    "UtilityVehicle" := 7,
    "Trailer" := 8,
    "CaravanTransporter" := 9,
    "EmergencyVehicle" := 10,
    "Motorcycle" := 11,
    "Bicycle" := 12,
    "Animal" := 13
  ]

  /** Cityscapes label space: `None` marks a token to ignore. */
  const CategoryCityscapesIdx: map<string, Option<int>> := map[
    "Pedestrian" := Some(24),
    "Cyclist" := Some(25),
    "MotorBiker" := Some(25),
    "Car" := Some(26),
    "VanSUV" := Some(26),
    "Truck" := Some(27),
    "Bus" := Some(28),
    "Motorcycle" := Some(32),
    "Bicycle" := Some(33),
    "UtilityVehicle" := None,
    "Trailer" := None,
    "CaravanTransporter" := None,
    "EmergencyVehicle" := None,
    "Animal" := None
  ]

  datatype CategoryEntry = CategoryEntry(id: int, name: string)

  /** The COCO category list written for the Cityscapes style. */
  const CategoriesCityscapes: seq<CategoryEntry> := [
    CategoryEntry(24, "person"),
    CategoryEntry(25, "rider"),
    CategoryEntry(26, "car"),
    CategoryEntry(27, "truck"),
    CategoryEntry(28, "bus"),
    CategoryEntry(31, "train"),
    CategoryEntry(32, "motorcycle"),
    CategoryEntry(33, "bicycle")
  ]

  /** `conv_category`: the style is checked first; a token missing from the
      table is a `KeyError`, never an ignore. */
  function ConvCategory(token: string, style: string): (r: Result<Option<int>>)
    ensures style != A2d2Style && style != CityscapesStyle ==> r == Failure(InvalidTarget(style))
    ensures r.Failure? && (style == A2d2Style || style == CityscapesStyle) ==> r.error == KeyError(token)
    ensures style == A2d2Style ==> (r.Success? <==> token in CategoryA2d2Idx) && (r.Success? ==> r.value.Some?)
    ensures style == CityscapesStyle ==> (r.Success? <==> token in CategoryCityscapesIdx)
  {
    if style == A2d2Style then
      if token in CategoryA2d2Idx then Success(Some(CategoryA2d2Idx[token])) else Failure(KeyError(token))
    else if style == CityscapesStyle then
      if token in CategoryCityscapesIdx then Success(CategoryCityscapesIdx[token]) else Failure(KeyError(token))
    else
      Failure(InvalidTarget(style))
  }

  /** `gen_cat_entries`: only the Cityscapes table exists; the native style is
      an unimplemented placeholder. */
  function GenCatEntries(style: string): (r: Result<seq<CategoryEntry>>)
    ensures r.Success? <==> style == CityscapesStyle
    ensures style == A2d2Style ==> r == Failure(NotImplemented)
    ensures style != A2d2Style && style != CityscapesStyle ==> r == Failure(InvalidTarget(style))
  {
    if style == A2d2Style then Failure(NotImplemented)
    else if style == CityscapesStyle then Success(CategoriesCityscapes)
    else Failure(InvalidTarget(style))
  }

  /** Both tables are keyed by exactly the fourteen vendor tokens. */
  lemma TablesKeyedByTokens()
    ensures |A2d2Tokens| == 14
    ensures CategoryA2d2Idx.Keys == set t | t in A2d2Tokens
    ensures CategoryCityscapesIdx.Keys == set t | t in A2d2Tokens
  {
  }

  /** Native style: token i of the list is known and gets id i. */
  lemma A2d2IdsByPosition()
    ensures forall i :: 0 <= i < |A2d2Tokens| ==> ConvCategory(A2d2Tokens[i], A2d2Style) == Success(Some(i))
  {
  }

  /** Native style: the 14 tokens are distinct, their ids are exactly 0..13
      with no two tokens sharing one, and no token is ignored. */
  lemma A2d2LookupIsBijective()
    ensures forall i, j :: 0 <= i < j < |A2d2Tokens| ==> A2d2Tokens[i] != A2d2Tokens[j]
    ensures forall t :: t in CategoryA2d2Idx ==> 0 <= CategoryA2d2Idx[t] < 14 && ConvCategory(t, A2d2Style).value.Some?
    ensures forall t, u :: t in CategoryA2d2Idx && u in CategoryA2d2Idx && CategoryA2d2Idx[t] == CategoryA2d2Idx[u] ==> t == u
  {
    TablesKeyedByTokens();
    A2d2IdsByPosition();
    forall t | t in CategoryA2d2Idx
      ensures exists i :: 0 <= i < |A2d2Tokens| && A2d2Tokens[i] == t && CategoryA2d2Idx[t] == i
    {
      assert t in set u | u in A2d2Tokens;
      var i :| 0 <= i < |A2d2Tokens| && A2d2Tokens[i] == t;
      assert ConvCategory(A2d2Tokens[i], A2d2Style) == Success(Some(i));
    }
  }

  /** Cityscapes style: a known token is ignored exactly when it is one of the
      five listed, and every id it does produce is in the category list. */
  lemma CityscapesLookup(token: string)
    requires token in A2d2Tokens
    ensures ConvCategory(token, CityscapesStyle).Success?
    ensures ConvCategory(token, CityscapesStyle).value.None? <==> token in IgnoredTokens
    ensures ConvCategory(token, CityscapesStyle).value.Some? ==>
              exists c :: c in CategoriesCityscapes && c.id == ConvCategory(token, CityscapesStyle).value.value
  {
  }

  /** A token outside the tables fails with a lookup error in both styles; it
      is never treated as an ignore. */
  lemma UnknownTokenFails(token: string, style: string)
    requires token !in A2d2Tokens
    requires style == A2d2Style || style == CityscapesStyle
    ensures ConvCategory(token, style) == Failure(KeyError(token))
  {
  }
}
