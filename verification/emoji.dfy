/**
 * `getItemEmoji` (public/assets/js/menu.js and its twin in
 * public/assets/js/cart-render.js): the emoji of the first key, in the table's
 * order, that occurs in the lower-cased dish name, or a plate when none does.
 */
module Emoji {
  import opened Text

  /** One row of an emoji table: a lower-case key and its emoji. */
  datatype Row = Row(key: string, emoji: string)

  /** The fork-and-knife-with-plate emoji shown when no key matches. */
  const Default: string := "\U{1F37D}\U{FE0F}"

  /** The table of menu.js, in its declaration order. */
  const MenuTable: seq<Row> := [
    Row("tom yum", "\U{1F372}"), Row("pad thai", "\U{1F35C}"), Row("green curry", "\U{1F35B}"),
    Row("mango sticky rice", "\U{1F96D}"), Row("spring roll", "\U{1F32F}"), Row("som tam", "\U{1F957}"),
    Row("thai iced tea", "\U{1F9CB}"), Row("massaman", "\U{1F35B}"), Row("pad see ew", "\U{1F35C}"),
    Row("curry", "\U{1F372}"), Row("pad", "\U{1F364}"), Row("tom", "\U{1F963}"),
    Row("salad", "\U{1F957}"), Row("rice", "\U{1F35A}"), Row("noodle", "\U{1F35C}"),
    Row("soup", "\U{1F372}"), Row("dessert", "\U{1F370}"), Row("drink", "\U{1F964}")
  ]

  /** The longer table of cart-render.js, in its declaration order. */
  const CartTable: seq<Row> := [
    Row("tom yum", "\U{1F372}"), Row("pad thai", "\U{1F35C}"), Row("green curry", "\U{1F35B}"),
    Row("mango sticky rice", "\U{1F96D}"), Row("spring roll", "\U{1F32F}"), Row("papaya salad", "\U{1F957}"),
    Row("som tam", "\U{1F957}"), Row("thai iced tea", "\U{1F9CB}"), Row("coconut", "\U{1F965}"),
    Row("chicken", "\U{1F357}"), Row("beef", "\U{1F969}"), Row("pork", "\U{1F416}"),
    Row("shrimp", "\U{1F364}"), Row("fish", "\U{1F41F}"), Row("rice", "\U{1F35A}"),
    Row("noodle", "\U{1F35C}"), Row("soup", "\U{1F963}"), Row("salad", "\U{1F957}"),
    Row("dessert", "\U{1F367}"), Row("drink", "\U{1F964}"), Row("beer", "\U{1F37A}"),
    Row("wine", "\U{1F377}"), Row("cocktail", "\U{1F379}"), Row("massaman", "\U{1F35B}"),
    Row("pad see ew", "\U{1F35C}"), Row("curry", "\U{1F372}"), Row("pad", "\U{1F364}"),
    Row("tom", "\U{1F963}")
  ]

  /** Row `i` is the first whose key occurs in `name`. */
  predicate FirstKeyIn(table: seq<Row>, name: string, i: int) {
    0 <= i < |table| && Contains(name, table[i].key)
    && forall j :: 0 <= j < i ==> !Contains(name, table[j].key)
  }

  /** The first-match scan over the table's rows. */
  function Lookup(table: seq<Row>, name: string): (r: string)
    ensures forall i :: FirstKeyIn(table, name, i) ==> r == table[i].emoji
    ensures (forall i :: 0 <= i < |table| ==> !Contains(name, table[i].key)) ==> r == Default
  {
    if table == [] then Default
    else if Contains(name, table[0].key) then table[0].emoji
    else
      var r := Lookup(table[1..], name);
      assert forall i :: FirstKeyIn(table, name, i) ==> FirstKeyIn(table[1..], name, i - 1);
      r
  }

  /** `getItemEmoji(name)` with the given table. */
  function ItemEmoji(table: seq<Row>, name: string): (r: string)
    ensures forall i :: FirstKeyIn(table, ToLower(name), i) ==> r == table[i].emoji
    ensures (forall i :: 0 <= i < |table| ==> !Contains(ToLower(name), table[i].key)) ==> r == Default
  {
    Lookup(table, ToLower(name))
  }

  /**
   * Order matters: "Green Curry" also contains the key "curry", but the earlier
   * key "green curry" decides, so the menu shows the green-curry emoji rather
   * than the generic curry bowl.
   */
  lemma GreenCurry()
    ensures Contains(ToLower("Green Curry"), "curry")
    ensures ItemEmoji(MenuTable, "Green Curry") == "\U{1F35B}"
    ensures ItemEmoji(MenuTable, "Green Curry") != "\U{1F372}"
  {
    LowerGreenCurry();
    GreenCurryText();
    GreenCurryKey("green curry");
  }

  /** What the lower-cased name contains, and the two letters it lacks. */
  lemma GreenCurryText()
    ensures Contains("green curry", "curry") && Contains("green curry", "green curry")
    ensures 't' !in "green curry" && 'p' !in "green curry"
  {
    OccursContains("green curry", "curry", 6);
    OccursContains("green curry", "green curry", 0);
  }

  /**
   * In any name that includes "green curry" but has no 't' and no 'p', row 2
   * of the menu table is the first key found.
   */
  lemma GreenCurryKey(lower: string)
    requires Contains(lower, "green curry") && 't' !in lower && 'p' !in lower
    ensures FirstKeyIn(MenuTable, lower, 2)
  {
    MenuTableHead();
    MissingFirstChar(lower, "tom yum");
    MissingFirstChar(lower, "pad thai");
  }

  lemma MenuTableHead()
    ensures MenuTable[0].key == "tom yum" && MenuTable[1].key == "pad thai"
    ensures MenuTable[2] == Row("green curry", "\U{1F35B}") && |MenuTable| == 18
  {
  }

  lemma LowerGreenCurry()
    ensures ToLower("Green Curry") == "green curry"
  {
    var s := "Green Curry";
    assert LowerChar(s[0]) == 'g' && LowerChar(s[6]) == 'c';
  }

  /** A key whose first character never occurs in `s` is not contained in it. */
  lemma {:induction false} MissingFirstChar(s: string, sub: string)
    requires sub != [] && sub[0] !in s
    ensures !Contains(s, sub)
    decreases |s|
  {
    if s != [] {
      assert s[0] != sub[0];
      MissingFirstChar(s[1..], sub);
    }
  }
}
