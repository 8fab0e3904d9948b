/** The category helpers of `utils.js`: the fixed table of expense
    categories, `getCategoryClass`, `getCategoryEmoji` and
    `getAllCategories`. */
module Categories {
  import opened Wrappers
  import opened Lookup

  /** What the table stores for one category: a CSS class and an emoji
      (`class` is a Dafny keyword, hence `cssClass`). */
  datatype CategoryStyle = CategoryStyle(cssClass: string, emoji: string)

  const GENERAL_CLASS: string := "general"
  const MONEY_BAG: string := "\U{1F4B0}"

  /** `CATEGORY_MAP`, in declaration order. */
  const CATEGORY_MAP: seq<(string, CategoryStyle)> := [
    ("Housing", CategoryStyle("housing", "\U{1F3E0}")),
    ("Travel", CategoryStyle("travel", "\U{2708}\U{FE0F}")),
    ("Surf", CategoryStyle("surf", "\U{1F3C4}")),
    ("Yoga", CategoryStyle("yoga", "\U{1F9D8}")),
    ("Pet Care (Waffles)", CategoryStyle("waffles", "\U{1F436}")),
    ("Dining", CategoryStyle("dining", "\U{1F37D}\U{FE0F}")),
    ("Medical", CategoryStyle("medical", "\U{1FA7A}")),
    ("Auto", CategoryStyle("auto", "\U{1F697}")),
    ("Gifts (Kids)", CategoryStyle("gifts", "\U{1F381}")),
    ("Insurance", CategoryStyle("insurance", "\U{1F6E1}\U{FE0F}")),
    ("Utilities", CategoryStyle("utilities", "\U{26A1}")),
    ("Groceries", CategoryStyle("groceries", "\U{1F6D2}")),
    ("Entertainment", CategoryStyle("entertainment", "\U{1F3AC}")),
    ("General", CategoryStyle(GENERAL_CLASS, MONEY_BAG))
  ]

  /** Each category is declared once, and no class or emoji is empty. */
  lemma CategoryTableWellFormed()
    ensures UniqueKeys(CATEGORY_MAP)
    ensures forall i :: 0 <= i < |CATEGORY_MAP| ==> CATEGORY_MAP[i].1.cssClass != "" && CATEGORY_MAP[i].1.emoji != ""
  {
  }

  /** True when `category` is one of the declared categories. */
  predicate IsKnownCategory(category: string) {
    exists i :: 0 <= i < |CATEGORY_MAP| && CATEGORY_MAP[i].0 == category
  }

  /** `getCategoryClass`: the declared class, or "general" for any other
      input. */
  function CategoryClass(category: string): (cssClass: string)
    ensures forall i :: 0 <= i < |CATEGORY_MAP| && CATEGORY_MAP[i].0 == category ==> cssClass == CATEGORY_MAP[i].1.cssClass
    ensures !IsKnownCategory(category) ==> cssClass == GENERAL_CLASS
  {
    CategoryTableWellFormed();
    match Find(CATEGORY_MAP, category)
    case Some(style) => if style.cssClass != "" then style.cssClass else GENERAL_CLASS
    case None => GENERAL_CLASS
  }

  /** `getCategoryEmoji`: the declared emoji, or the money bag for any
      other input. */
  function CategoryEmoji(category: string): (emoji: string)
    ensures forall i :: 0 <= i < |CATEGORY_MAP| && CATEGORY_MAP[i].0 == category ==> emoji == CATEGORY_MAP[i].1.emoji
    ensures !IsKnownCategory(category) ==> emoji == MONEY_BAG
  {
    CategoryTableWellFormed();
    match Find(CATEGORY_MAP, category)
    case Some(style) => if style.emoji != "" then style.emoji else MONEY_BAG
    case None => MONEY_BAG
  }

  /** `getAllCategories`: the fourteen category names in declaration
      order, each of them known to the two lookups. */
  function AllCategories(): (names: seq<string>)
    ensures |names| == 14
    ensures names[0] == "Housing" && names[13] == "General"
    ensures forall i :: 0 <= i < |names| ==> IsKnownCategory(names[i])
    ensures forall i :: 0 <= i < |names| ==> CategoryClass(names[i]) == CATEGORY_MAP[i].1.cssClass
    ensures forall i, j :: 0 <= i < j < |names| ==> names[i] != names[j]
  {
    CategoryTableWellFormed();
    seq(|CATEGORY_MAP|, i requires 0 <= i < |CATEGORY_MAP| => CATEGORY_MAP[i].0)
  }
}
