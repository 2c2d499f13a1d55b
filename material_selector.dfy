/** The paint-finish card list: the three finishes, the test that highlights a card,
    and the finish a card hands to `onMaterialChange` when it is clicked. */
module MaterialSelector {

  predicate IsFinishName(s: string) {
    s == "metallic" || s == "matte" || s == "glossy"
  }

  /** The string union `'metallic' | 'matte' | 'glossy'` that types the selected
      finish and the values the selector emits. */
  type FinishName = s: string | IsFinishName(s) witness "metallic"

  /** One card: the finish it stands for (the source's `type` field) and its display
      name. Description, icon and gradient are presentation and are not kept. */
  datatype MaterialOption = MaterialOption(kind: FinishName, name: string)

  /** The cards, in the order they are drawn. */
  const Materials: seq<MaterialOption> := [
    MaterialOption("metallic", "Metallic"),
    MaterialOption("matte", "Matte"),
    MaterialOption("glossy", "Glossy")
  ]

  /** Card `i` is highlighted (ring, tint and pulsing dot) exactly when the selected
      finish is that card's finish. */
  predicate IsHighlighted(selectedMaterial: FinishName, i: nat)
    requires i < |Materials|
    ensures IsHighlighted(selectedMaterial, i) <==>
              || (i == 0 && selectedMaterial == "metallic")
              || (i == 1 && selectedMaterial == "matte")
              || (i == 2 && selectedMaterial == "glossy")
  {
    selectedMaterial == Materials[i].kind
  }

  /** The catalog lists metallic, matte and glossy in that order, and its finishes are
      exactly the members of the union type. */
  lemma CatalogIsTheUnion()
    ensures |Materials| == 3
    ensures Materials[0].kind == "metallic" && Materials[1].kind == "matte" && Materials[2].kind == "glossy"
    ensures forall s: string :: IsFinishName(s) <==> exists i :: 0 <= i < |Materials| && Materials[i].kind == s
  {
    forall s: string | IsFinishName(s)
      ensures exists i :: 0 <= i < |Materials| && Materials[i].kind == s
    {
      if s == "metallic" {
        assert Materials[0].kind == s;
      } else if s == "matte" {
        assert Materials[1].kind == s;
      } else {
        assert Materials[2].kind == s;
      }
    }
  }

  /** No two cards stand for the same finish. */
  lemma KindsDistinct()
    ensures forall i, j :: 0 <= i < |Materials| && 0 <= j < |Materials| && i != j ==>
              Materials[i].kind != Materials[j].kind
  {
    assert Materials[0].kind[1] != Materials[1].kind[1];
    assert Materials[0].kind[1] != Materials[2].kind[1];
    assert Materials[1].kind[1] != Materials[2].kind[1];
  }

  /** For every well-typed selection exactly one card is highlighted. */
  lemma ExactlyOneHighlighted(selectedMaterial: FinishName)
    ensures exists i :: 0 <= i < |Materials| && IsHighlighted(selectedMaterial, i)
    ensures forall i, j | 0 <= i < |Materials| && 0 <= j < |Materials| ::
              IsHighlighted(selectedMaterial, i) && IsHighlighted(selectedMaterial, j) ==> i == j
  {
    CatalogIsTheUnion();
    KindsDistinct();
    var i :| 0 <= i < |Materials| && Materials[i].kind == selectedMaterial;
    assert IsHighlighted(selectedMaterial, i);
  }

  /** The finish card `i` hands to `onMaterialChange` when it is clicked: the one that
      makes card `i`, and no other, highlighted. */
  function OnClick(i: nat): (m: FinishName)
    requires i < |Materials|
    ensures forall j :: 0 <= j < |Materials| ==> (IsHighlighted(m, j) <==> j == i)
  {
    KindsDistinct();
    Materials[i].kind
  }
}
