/** The category normaliser of lib/categories.ts: five display groups, each
    owning a list of the fine-grained labels sellers are stored with, and the
    colour palette of each group. */
module Categories {
  import opened Nullable
  import JsText

  datatype Group = Beauty | Fashion | Kids | Living | Food

  /** `CATEGORY_GROUPS`: the keys of `CATEGORY_MAP` in declaration order. */
  const Groups: seq<Group> := [Beauty, Fashion, Kids, Living, Food]

  /** The label of the reserved bucket for posts in no group. */
  const OtherName: string := "기타"

  /** The label of the pseudo-group that selects every post. */
  const AllName: string := "all"

  function GroupName(g: Group): string {
    match g
    case Beauty => "뷰티"
    case Fashion => "패션"
    case Kids => "육아"
    case Living => "생활"
    case Food => "식품"
  }

  /** `CATEGORY_MAP[g]`: the stored labels that display as group `g`. */
  function SubLabels(g: Group): seq<string> {
    match g
    case Beauty => ["뷰티", "스킨케어", "메이크업", "향수"]
    case Fashion => ["패션", "의류", "신발", "가방", "액세서리"]
    case Kids => ["육아", "유아", "완구", "아동복"]
    case Living => ["생활", "리빙", "가전", "인테리어", "주방"]
    case Food => ["식품", "과일", "정육", "수산", "간식"]
  }

  /** `isInCategoryGroup(category, g)`: a null or empty label is in no group. */
  function IsInGroup(category: Option<string>, g: Group): (r: bool)
    ensures r ==> Truthy(category)
    ensures category == Some(GroupName(g)) ==> r
  {
    assert GroupName(g) == SubLabels(g)[0];
    Truthy(category) && category.value in SubLabels(g)
  }

  lemma GroupsListed(g: Group)
    ensures g in Groups
  {
    match g
    case Beauty =>
    case Fashion =>
    case Kids =>
    case Living =>
    case Food =>
  }

  /** The first group of `gs` whose list holds `c`. */
  function FindOwner(c: string, gs: seq<Group>): (r: Option<Group>)
    ensures r.Some? ==> r.value in gs && c in SubLabels(r.value)
    ensures r.None? ==> forall i :: 0 <= i < |gs| ==> c !in SubLabels(gs[i])
  {
    if gs == [] then None
    else if c in SubLabels(gs[0]) then Some(gs[0])
    else FindOwner(c, gs[1..])
  }

  /** `getCategoryGroup(category)`: the group whose list holds the category, or
      `None` for a null, empty or unlisted category. */
  function GroupOf(category: Option<string>): (r: Option<Group>)
    ensures r.Some? ==> IsInGroup(category, r.value)
    ensures r.None? ==> forall g :: !IsInGroup(category, g)
  {
    if !Truthy(category) then None
    else
      var r := FindOwner(category.value, Groups);
      assert r.None? ==> forall g :: !IsInGroup(category, g) by {
        forall g ensures r.None? ==> !IsInGroup(category, g) {
          GroupsListed(g);
          var i :| 0 <= i < |Groups| && Groups[i] == g;
        }
      }
      r
  }

  /** No stored category belongs to two groups. */
  lemma SubLabelsDisjoint(g1: Group, g2: Group, c: string)
    requires c in SubLabels(g1) && c in SubLabels(g2)
    ensures g1 == g2
  {
    if g1 != g2 {
      match g1
      case Beauty =>
      case Fashion =>
      case Kids =>
      case Living =>
      case Food =>
    }
  }

  /** Each group lists its own name, so a post may be stored with the group name. */
  lemma GroupListsOwnName(g: Group)
    ensures GroupName(g) in SubLabels(g)
    ensures GroupOf(Some(GroupName(g))) == Some(g)
  {
    var c := GroupName(g);
    assert c == SubLabels(g)[0];
    var r := GroupOf(Some(c));
    if r.Some? {
      SubLabelsDisjoint(r.value, g, c);
    }
  }

  /** Lookup and membership agree: a category is in group `g` exactly when its
      group is `g`; it is in no group exactly when it has none. */
  lemma GroupOfMembership(category: Option<string>, g: Group)
    ensures GroupOf(category) == Some(g) <==> IsInGroup(category, g)
    ensures GroupOf(category) == None <==> forall h :: !IsInGroup(category, h)
  {
    var r := GroupOf(category);
    if IsInGroup(category, g) && r.Some? {
      SubLabelsDisjoint(r.value, g, category.value);
    }
  }

  /** A null or empty category has no group and belongs to none. */
  lemma NullLabelHasNoGroup(g: Group)
    ensures GroupOf(None) == None && GroupOf(Some("")) == None
    ensures !IsInGroup(None, g) && !IsInGroup(Some(""), g)
  {
  }

  /** The keys of `CATEGORY_COLORS`. */
  datatype ColorKey = AllKey | GroupKey(group: Group) | OtherKey

  function ColorKeyName(k: ColorKey): string {
    match k
    case AllKey => AllName
    case GroupKey(g) => GroupName(g)
    case OtherKey => OtherName
  }

  /** `name in CATEGORY_COLORS`, restricted to the object's own keys. */
  function ColorKeyNamed(name: string): (r: Option<ColorKey>)
    ensures r.Some? ==> ColorKeyName(r.value) == name
    ensures r.None? ==> forall k :: ColorKeyName(k) != name
  {
    if name == AllName then Some(AllKey)
    else if name == OtherName then Some(OtherKey)
    else if name == "뷰티" then Some(GroupKey(Beauty))
    else if name == "패션" then Some(GroupKey(Fashion))
    else if name == "육아" then Some(GroupKey(Kids))
    else if name == "생활" then Some(GroupKey(Living))
    else if name == "식품" then Some(GroupKey(Food))
    else None
  }

  /** The Tailwind classes of one colour family. */
  datatype Palette = Palette(bg: string, bgLight: string, text: string, border: string,
                             borderAccent: string, hover: string)

  /** The Tailwind colour family of each key. */
  function Family(k: ColorKey): string {
    match k
    case AllKey => "violet"
    case GroupKey(Beauty) => "rose"
    case GroupKey(Fashion) => "indigo"
    case GroupKey(Kids) => "amber"
    case GroupKey(Living) => "emerald"
    case GroupKey(Food) => "orange"
    case OtherKey => "slate"
  }

  /** `CATEGORY_COLORS[k]`: every entry uses the same shades of its family. */
  function Colors(k: ColorKey): Palette {
    var f := Family(k);
    Palette("bg-" + f + "-500", "bg-" + f + "-50", "text-" + f + "-700",
            "border-" + f + "-200", "border-l-" + f + "-400", "hover:bg-" + f + "-100")
  }

  /** Different keys have different palettes. */
  lemma ColorsInjective(k1: ColorKey, k2: ColorKey)
    requires Colors(k1) == Colors(k2)
    ensures k1 == k2
  {
    var f1 := Family(k1);
    var f2 := Family(k2);
    assert f1 == Colors(k1).bg[3..|Colors(k1).bg| - 4];
    assert f2 == Colors(k2).bg[3..|Colors(k2).bg| - 4];
  }

  /** `getCategoryColor(category)` for labels that are not inherited property names. */
  function CategoryColor(category: Option<string>): (r: Palette)
    ensures exists k :: r == Colors(k)
    ensures r == Colors(AllKey) <==> category == Some(AllName)
  {
    forall k | Colors(k) == Colors(AllKey) ensures k == AllKey {
      ColorsInjective(k, AllKey);
    }
    if !Truthy(category) then Colors(OtherKey)
    else match ColorKeyNamed(category.value)
      case Some(k) => Colors(k)
      case None =>
        match GroupOf(category)
        case Some(g) => Colors(GroupKey(g))
        case None => Colors(OtherKey)
  }

  /** A null or empty label takes the palette of the reserved bucket. */
  lemma ColorOfNull(category: Option<string>)
    requires !Truthy(category)
    ensures CategoryColor(category) == Colors(OtherKey)
  {
  }

  /** A colour key (`all`, a group name or the reserved bucket) names its own palette. */
  lemma ColorOfKey(k: ColorKey)
    ensures CategoryColor(Some(ColorKeyName(k))) == Colors(k)
  {
    ColorKeyNameInjective(k);
  }

  /** A stored label takes the palette of its group. */
  lemma ColorOfSubLabel(category: Option<string>, g: Group)
    requires IsInGroup(category, g)
    ensures CategoryColor(category) == Colors(GroupKey(g))
  {
    GroupOfMembership(category, g);
    NoListHoldsAllOrOther(g);
    var named := ColorKeyNamed(category.value);
    if named.Some? && named.value.GroupKey? {
      GroupListsOwnName(named.value.group);
      SubLabelsDisjoint(g, named.value.group, category.value);
    }
  }

  lemma NoListHoldsAllOrOther(g: Group)
    ensures AllName !in SubLabels(g) && OtherName !in SubLabels(g)
  {
    match g
    case Beauty =>
    case Fashion =>
    case Kids =>
    case Living =>
    case Food =>
  }

  /** A label that is neither a colour key nor in any group takes the palette
      of the reserved bucket. */
  lemma ColorOfUnknown(category: Option<string>)
    requires Truthy(category)
    requires forall k :: ColorKeyName(k) != category.value
    requires forall g :: !IsInGroup(category, g)
    ensures CategoryColor(category) == Colors(OtherKey)
  {
    GroupOfMembership(category, Beauty);
  }

  lemma ColorKeyNameInjective(k: ColorKey)
    ensures ColorKeyNamed(ColorKeyName(k)) == Some(k)
  {
    var r := ColorKeyNamed(ColorKeyName(k));
    match k
    case AllKey =>
    case OtherKey =>
    case GroupKey(g) =>
      match g
      case Beauty =>
      case Fashion =>
      case Kids =>
      case Living =>
      case Food =>
  }

  /** What `getCategoryColor` returns once inherited property names are
      counted: `name in CATEGORY_COLORS` also holds for "toString" and the
      other names every object inherits, and the lookup then yields the
      inherited member instead of a palette. */
  datatype ColorLookup = Colours(palette: Palette) | InheritedMember(name: string)

  /** `getCategoryColor(category)` as written, with JavaScript's `in` operator. */
  function CategoryColorAsWritten(category: Option<string>): (r: ColorLookup)
    ensures Truthy(category) && category.value in JsText.InheritedPropertyNames ==> r.InheritedMember?
    ensures !(Truthy(category) && category.value in JsText.InheritedPropertyNames) ==> r == Colours(CategoryColor(category))
  {
    if Truthy(category) && category.value in JsText.InheritedPropertyNames then InheritedMember(category.value)
    else Colours(CategoryColor(category))
  }

  /** A seller category "toString" gets no palette from the code as written,
      while the intended lookup gives it the palette of the reserved bucket. */
  lemma InheritedNameGetsNoPalette()
    ensures CategoryColorAsWritten(Some("toString")) == InheritedMember("toString")
    ensures CategoryColor(Some("toString")) == Colors(OtherKey)
  {
    var category := Some("toString");
    assert GroupOf(category) == None by {
      forall g ensures !IsInGroup(category, g) {
        match g
        case Beauty =>
        case Fashion =>
        case Kids =>
        case Living =>
        case Food =>
      }
    }
  }

  /** The examples the source's tests pin down. */
  lemma KnownLabels()
    ensures GroupOf(Some("스킨케어")) == Some(Beauty)
    ensures GroupOf(Some("뷰티")) == Some(Beauty)
    ensures GroupOf(Some("과일")) == Some(Food)
    ensures !IsInGroup(Some("스킨케어"), Fashion)
    ensures IsInGroup(Some("의류"), Fashion)
  {
    assert "스킨케어" == SubLabels(Beauty)[1];
    GroupOfMembership(Some("스킨케어"), Beauty);
    GroupListsOwnName(Beauty);
    assert "과일" == SubLabels(Food)[1];
    GroupOfMembership(Some("과일"), Food);
    assert "의류" == SubLabels(Fashion)[1];
    if IsInGroup(Some("스킨케어"), Fashion) {
      SubLabelsDisjoint(Beauty, Fashion, "스킨케어");
    }
  }

  /** `CATEGORY_GROUPS` lists every group exactly once, in declaration order. */
  lemma GroupsAreTheKeys()
    ensures forall g :: g in Groups
    ensures forall i, j :: 0 <= i < j < |Groups| ==> Groups[i] != Groups[j]
    ensures forall i :: 0 <= i < |Groups| ==> GroupName(Groups[i]) == ["뷰티", "패션", "육아", "생활", "식품"][i]
  {
    forall g ensures g in Groups {
      GroupsListed(g);
    }
  }
}
