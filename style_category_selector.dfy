/** The category-driven style selector of web/js/style_category_selector.js:
    a style combo box that offers only the styles of the selected category
    and remembers, per category, the style last chosen there. */
module StyleCategorySelector {

  /** The style options for `category`: `"none"` followed by the category's
      styles, or `"none"` alone for a category that is not known. */
  function Options(stylesByCategory: map<string, seq<string>>, category: string): (r: seq<string>)
    ensures |r| >= 1 && r[0] == "none"
    ensures category in stylesByCategory ==> r[1..] == stylesByCategory[category]
    ensures category !in stylesByCategory ==> r == ["none"]
  {
    if category in stylesByCategory then ["none"] + stylesByCategory[category] else ["none"]
  }

  /** The default `fillStyleWidget` returns: the second option when there is
      one (the first style of the category), `"none"` otherwise. */
  function DefaultStyle(options: seq<string>): string
    requires |options| >= 1
  {
    options[if |options| >= 2 then 1 else 0]
  }

  /** The selector's state: the category last switched to, the remembered
      style per category, the style combo's value and its options. */
  datatype Selection = Selection(oldCategory: string, selected: map<string, string>, style: string, options: seq<string>)

  /** `onCategoryChange(newCategory)` on a state: the current style is
      remembered under the old category, the options are refilled, and the
      style becomes the one remembered for the new category, if any, or the
      new default. */
  function Change(s: Selection, stylesByCategory: map<string, seq<string>>, newCategory: string): (r: Selection)
    ensures r.selected.Keys == s.selected.Keys + {s.oldCategory}
  {
    var selected := s.selected[s.oldCategory := s.style];
    var options := Options(stylesByCategory, newCategory);
    var style := if newCategory in selected then selected[newCategory] else DefaultStyle(options);
    Selection(newCategory, selected, style, options)
  }

  /** The user picks a style in the combo box. */
  function Pick(s: Selection, style: string): Selection {
    s.(style := style)
  }

  /** A first visit to a category selects its first style, or `"none"` for
      an empty or unknown category. */
  lemma FirstVisitSelectsDefault(s: Selection, stylesByCategory: map<string, seq<string>>, c: string)
    requires c != s.oldCategory && c !in s.selected
    ensures var r := Change(s, stylesByCategory, c);
            r.style == (if c in stylesByCategory && stylesByCategory[c] != [] then stylesByCategory[c][0] else "none") &&
            r.oldCategory == c
  {
    var options := Options(stylesByCategory, c);
    if c in stylesByCategory && stylesByCategory[c] != [] {
      assert options[1] == options[1..][0];
    }
  }

  /** Switching from A to B, choosing anything in B, and switching back to A
      restores the style that was selected in A. */
  lemma SwitchBackRestores(s: Selection, stylesByCategory: map<string, seq<string>>, b: string, inB: string)
    requires b != s.oldCategory
    ensures var back := Change(Pick(Change(s, stylesByCategory, b), inB), stylesByCategory, s.oldCategory);
            back.style == s.style && back.oldCategory == s.oldCategory &&
            back.options == Options(stylesByCategory, s.oldCategory)
  {
    var there := Pick(Change(s, stylesByCategory, b), inB);
    assert there.selected[s.oldCategory] == s.style;
  }

  /** Switching to the category already selected keeps the current style. */
  lemma SameCategoryKeepsStyle(s: Selection, stylesByCategory: map<string, seq<string>>)
    ensures Change(s, stylesByCategory, s.oldCategory).style == s.style
  {
  }

  /** The remembered styles only grow: a category once left keeps a
      remembered style, the latest one chosen there. */
  lemma RememberedOnLeave(s: Selection, stylesByCategory: map<string, seq<string>>, c: string)
    ensures var r := Change(s, stylesByCategory, c);
            s.oldCategory in r.selected && r.selected[s.oldCategory] == s.style &&
            forall k :: k in s.selected && k != s.oldCategory ==> k in r.selected && r.selected[k] == s.selected[k]
  {
  }

  /** The selector object: the fields `init` sets on `self` and the parts of
      the two widgets it touches. */
  class Selector {
    var stylesByCategory: map<string, seq<string>>
    var oldCategory: string
    var selected: map<string, string>
    /** `styleWidget.value`. */
    var style: string
    /** `styleWidget.options.values`. */
    var options: seq<string>
    /** Whether the category widget had a callback function before `init`. */
    var hasOriginalCallback: bool
    /** The calls made to that original callback: the value passed and the
        style value at that moment. */
    var forwarded: seq<(string, string)>

    function Value(): Selection
      reads this
    {
      Selection(oldCategory, selected, style, options)
    }

    /** `init(self, categoryWidget, styleWidget, stylesByCategory)`: the
        options are filled for the current category; the style value is left
        as it was. */
    constructor Init(category: string, style: string, stylesByCategory: map<string, seq<string>>,
                     hasOriginalCallback: bool)
      ensures Value() == Selection(category, map[], style, Options(stylesByCategory, category))
      ensures this.stylesByCategory == stylesByCategory
      ensures this.hasOriginalCallback == hasOriginalCallback && forwarded == []
    {
      this.stylesByCategory := stylesByCategory;
      this.oldCategory := category;
      this.selected := map[];
      this.style := style;
      this.hasOriginalCallback := hasOriginalCallback;
      this.forwarded := [];
      new;
      var _ := FillStyleWidget(category);
    }

    /** `fillStyleWidget(self, category)`: sets the options and returns the
        default style. */
    method FillStyleWidget(category: string) returns (default: string)
      modifies this
      ensures options == Options(stylesByCategory, category)
      ensures default == DefaultStyle(options)
      ensures stylesByCategory == old(stylesByCategory) && oldCategory == old(oldCategory)
      ensures selected == old(selected) && style == old(style)
      ensures hasOriginalCallback == old(hasOriginalCallback) && forwarded == old(forwarded)
    {
      if category !in stylesByCategory {
        options := ["none"];
        return "none";
      }
      var styles := ["none"];
      var catStyles := stylesByCategory[category];
      var i := 0;
      while i < |catStyles|
        invariant i <= |catStyles|
        invariant styles == ["none"] + catStyles[..i]
      {
        styles := styles + [catStyles[i]];
        i := i + 1;
      }
      assert catStyles[..i] == catStyles;
      options := styles;
      default := styles[if |styles| >= 2 then 1 else 0];
    }

    /** `onCategoryChange(self, newCategory)`. */
    method OnCategoryChange(newCategory: string)
      modifies this
      ensures Value() == Change(old(Value()), stylesByCategory, newCategory)
      ensures stylesByCategory == old(stylesByCategory)
      ensures hasOriginalCallback == old(hasOriginalCallback) && forwarded == old(forwarded)
    {
      selected := selected[oldCategory := style];
      oldCategory := newCategory;
      var default := FillStyleWidget(newCategory);
      if newCategory in selected {
        default := selected[newCategory];
      }
      style := default;
    }

    /** The callback `init` installs on the category widget: the selector
        reacts first, then the original callback, if there was one, runs and
        sees the new style. */
    method CategoryCallback(value: string)
      modifies this
      ensures Value() == Change(old(Value()), stylesByCategory, value)
      ensures stylesByCategory == old(stylesByCategory) && hasOriginalCallback == old(hasOriginalCallback)
      ensures forwarded == old(forwarded) + if hasOriginalCallback then [(value, style)] else []
    {
      OnCategoryChange(value);
      if hasOriginalCallback {
        forwarded := forwarded + [(value, style)];
      }
    }
  }
}
