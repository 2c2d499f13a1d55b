/** The paint-colour swatch grid: a fixed catalog of eight colours, the test that
    draws a swatch as selected, and the value a swatch hands to `onColorChange`
    when it is clicked. */
module ColorPicker {

  /** One swatch: its display name and the colour value the rest of the app uses.
      The gradient class string is presentation and is not kept. */
  datatype ColorOption = ColorOption(name: string, value: string)

  /** The swatches, in the order they are drawn. */
  const CarColors: seq<ColorOption> := [
    ColorOption("Arctic White", "#ffffff"),
    ColorOption("Midnight Black", "#000000"),
    ColorOption("Racing Red", "#dc2626"),
    ColorOption("Electric Blue", "#2563eb"),
    ColorOption("Forest Green", "#059669"),
    ColorOption("Sunset Orange", "#ea580c"),
    ColorOption("Royal Purple", "#7c3aed"),
    ColorOption("Chrome Silver", "#64748b")
  ]

  predicate IsLowerHexDigit(c: char) {
    ('0' <= c <= '9') || ('a' <= c <= 'f')
  }

  /** `#` followed by six lower-case hexadecimal digits. */
  predicate IsHexColor(s: string) {
    |s| == 7 && s[0] == '#' && forall k :: 1 <= k < 7 ==> IsLowerHexDigit(s[k])
  }

  /** The colour is the value of some swatch. */
  predicate IsCatalogColor(c: string) {
    exists i :: 0 <= i < |CarColors| && CarColors[i].value == c
  }

  /** Swatch `i` is drawn selected (default variant and ring) exactly when the
      current colour is that swatch's value. */
  predicate IsSelected(selectedColor: string, i: nat)
    requires i < |CarColors|
    ensures IsSelected(selectedColor, i) ==> IsCatalogColor(selectedColor) && IsHexColor(selectedColor)
  {
    CatalogWellFormed();
    selectedColor == CarColors[i].value
  }

  /** The catalog holds eight colours, each a `#` and six lower-case hex digits. */
  lemma CatalogWellFormed()
    ensures |CarColors| == 8
    ensures forall i :: 0 <= i < |CarColors| ==> IsHexColor(CarColors[i].value)
  {
    forall i | 0 <= i < |CarColors|
      ensures IsHexColor(CarColors[i].value)
    {
      var s := CarColors[i].value;
      assert i == 0 || i == 1 || i == 2 || i == 3 || i == 4 || i == 5 || i == 6 || i == 7;
      forall k | 1 <= k < 7
        ensures IsLowerHexDigit(s[k])
      {
        assert k == 1 || k == 2 || k == 3 || k == 4 || k == 5 || k == 6;
      }
    }
  }

  /** No two swatches carry the same value. */
  lemma ValuesDistinct()
    ensures forall i, j :: 0 <= i < |CarColors| && 0 <= j < |CarColors| && i != j ==>
              CarColors[i].value != CarColors[j].value
  {
    forall i, j | 0 <= i < |CarColors| && 0 <= j < |CarColors| && i != j
      ensures CarColors[i].value != CarColors[j].value
    {
      var a, b := CarColors[i].value, CarColors[j].value;
      assert i == 0 || i == 1 || i == 2 || i == 3 || i == 4 || i == 5 || i == 6 || i == 7;
      assert j == 0 || j == 1 || j == 2 || j == 3 || j == 4 || j == 5 || j == 6 || j == 7;
      assert a[1..] != b[1..] by {
        assert a[1] != b[1] || a[2] != b[2] || a[3] != b[3] || a[4] != b[4];
      }
    }
  }

  /** Every catalog colour is a `#` and six lower-case hex digits. */
  lemma CatalogColorIsHex(c: string)
    requires IsCatalogColor(c)
    ensures IsHexColor(c)
  {
    CatalogWellFormed();
  }

  /** Whatever the current colour, at most one swatch is drawn selected. */
  lemma AtMostOneSelected(selectedColor: string, i: nat, j: nat)
    requires i < |CarColors| && j < |CarColors|
    requires IsSelected(selectedColor, i) && IsSelected(selectedColor, j)
    ensures i == j
  {
    ValuesDistinct();
  }

  /** Some swatch is selected exactly when the colour is a catalog value; a colour
      outside the catalog selects none. */
  lemma SelectedIffInCatalog(selectedColor: string)
    ensures (exists i :: 0 <= i < |CarColors| && IsSelected(selectedColor, i)) <==> IsCatalogColor(selectedColor)
  {
    if IsCatalogColor(selectedColor) {
      var i :| 0 <= i < |CarColors| && CarColors[i].value == selectedColor;
      assert IsSelected(selectedColor, i);
    }
  }

  /** The value swatch `i` hands to `onColorChange` when it is clicked: a catalog
      colour, and the one that makes swatch `i`, and no other, selected. */
  function OnClick(i: nat): (c: string)
    requires i < |CarColors|
    ensures IsCatalogColor(c) && IsHexColor(c)
    ensures forall j :: 0 <= j < |CarColors| ==> (IsSelected(c, j) <==> j == i)
  {
    CatalogWellFormed();
    ValuesDistinct();
    CarColors[i].value
  }

  /** The customizer's default colour is the Racing Red swatch. */
  lemma DefaultIsRacingRed()
    ensures CarColors[2] == ColorOption("Racing Red", "#dc2626")
    ensures IsCatalogColor("#dc2626")
  {
    assert CarColors[2].value == "#dc2626";
  }
}
