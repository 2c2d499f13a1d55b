/** The backdrop card grid: four environments, the test that highlights a card, and
    the value a card hands to `onEnvironmentChange` when it is clicked. */
module EnvironmentSelector {

  /** One card: the machine value handed on (also the renderer's preset name) and the
      display name shown on the card. Description, icon and preview gradient are
      presentation and are not kept. */
  datatype EnvironmentOption = EnvironmentOption(value: string, name: string)

  /** The cards, in the order they are drawn. */
  const Environments: seq<EnvironmentOption> := [
    EnvironmentOption("studio", "Studio"),
    EnvironmentOption("city", "Urban"),
    EnvironmentOption("sunset", "Sunset"),
    EnvironmentOption("forest", "Nature")
  ]

  /** The environment is the value of some card. */
  predicate IsCatalogEnvironment(e: string) {
    exists i :: 0 <= i < |Environments| && Environments[i].value == e
  }

  /** Card `i` is highlighted (ring and pulsing dot) exactly when the selected
      environment, an arbitrary string, is that card's value. */
  predicate IsHighlighted(selectedEnvironment: string, i: nat)
    requires i < |Environments|
    ensures IsHighlighted(selectedEnvironment, i) ==>
              IsCatalogEnvironment(selectedEnvironment) && selectedEnvironment != Environments[i].name
  {
    selectedEnvironment == Environments[i].value
  }

  /** The catalog values are exactly studio, city, sunset and forest. */
  lemma CatalogValues()
    ensures |Environments| == 4
    ensures forall e :: IsCatalogEnvironment(e) <==> e in {"studio", "city", "sunset", "forest"}
  {
    forall e | e in {"studio", "city", "sunset", "forest"}
      ensures IsCatalogEnvironment(e)
    {
      if e == "studio" {
        assert Environments[0].value == e;
      } else if e == "city" {
        assert Environments[1].value == e;
      } else if e == "sunset" {
        assert Environments[2].value == e;
      } else {
        assert Environments[3].value == e;
      }
    }
  }

  /** No two cards carry the same value. */
  lemma ValuesDistinct()
    ensures forall i, j :: 0 <= i < |Environments| && 0 <= j < |Environments| && i != j ==>
              Environments[i].value != Environments[j].value
  {
    assert Environments[0].value[0] != Environments[1].value[0];
    assert Environments[0].value[1] != Environments[2].value[1];
    assert Environments[0].value[0] != Environments[3].value[0];
    assert Environments[1].value[0] != Environments[2].value[0];
    assert Environments[1].value[0] != Environments[3].value[0];
    assert Environments[2].value[0] != Environments[3].value[0];
  }

  /** Whatever the selected string, at most one card is highlighted, and a string
      outside the catalog highlights none. */
  lemma AtMostOneHighlighted(selectedEnvironment: string)
    ensures forall i, j | 0 <= i < |Environments| && 0 <= j < |Environments| ::
              IsHighlighted(selectedEnvironment, i) && IsHighlighted(selectedEnvironment, j) ==> i == j
    ensures !IsCatalogEnvironment(selectedEnvironment) ==>
              forall i :: 0 <= i < |Environments| ==> !IsHighlighted(selectedEnvironment, i)
  {
    ValuesDistinct();
  }

  /** The value card `i` hands to `onEnvironmentChange` when it is clicked: a catalog
      value, and the one that makes card `i`, and no other, highlighted. */
  function OnClick(i: nat): (e: string)
    requires i < |Environments|
    ensures IsCatalogEnvironment(e)
    ensures forall j :: 0 <= j < |Environments| ==> (IsHighlighted(e, j) <==> j == i)
  {
    ValuesDistinct();
    Environments[i].value
  }

  /** Clicking emits the machine value, not the display name: the Urban card emits
      `city` and the Nature card `forest`, and on every card the emitted value differs
      from the name shown. */
  lemma EmitsValueNotName()
    ensures Environments[1].name == "Urban" && OnClick(1) == "city"
    ensures Environments[3].name == "Nature" && OnClick(3) == "forest"
    ensures forall i :: 0 <= i < |Environments| ==> OnClick(i) != Environments[i].name
  {
    forall i | 0 <= i < |Environments|
      ensures OnClick(i) != Environments[i].name
    {
      assert OnClick(i)[0] != Environments[i].name[0];
    }
  }
}
