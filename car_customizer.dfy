/** The configurator page: three state cells (colour, finish, environment), the
    actions that write them (the three pickers, Reset and Random), and the two values
    built from them (the saved-configuration record and the share link).

    The actions are specified once, as the pure transition `Step` over a snapshot
    `Config`; the class `Customizer` holds the cells and performs each action in
    place, its methods proved against `Step`. The main theorem, `ReachableIsValid`,
    says that whatever actions run from the initial state, the colour stays in the
    swatch catalog, the finish in the three finishes and the environment in the four
    environments. */
module CarCustomizer {
  import ColorPicker
  import MaterialSelector
  import EnvironmentSelector
  import UriComponent

  type FinishName = MaterialSelector.FinishName

  /** A snapshot of the three state cells. */
  datatype Config = Config(color: string, material: FinishName, environment: string)

  /** The values the three cells start with. */
  const Initial: Config := Config("#dc2626", "metallic", "studio")

  /** The colours and finishes Random draws from: its own five-colour list, not the
      eight-swatch catalog, and the three finishes. */
  const RandomColors: seq<string> := ["#dc2626", "#2563eb", "#059669", "#ea580c", "#7c3aed"]
  const RandomMaterials: seq<FinishName> := ["metallic", "matte", "glossy"]

  /** Every cell holds a value offered by its selector. */
  predicate IsValidConfig(c: Config) {
    && ColorPicker.IsCatalogColor(c.color)
    && MaterialSelector.IsFinishName(c.material)
    && EnvironmentSelector.IsCatalogEnvironment(c.environment)
  }

  /** `Math.floor(r * n)` for a draw `r` of `Math.random()`, in [0, 1): an index into
      a list of `n` entries, the one whose share [i/n, (i+1)/n) of the unit interval
      holds `r`. */
  function RandomIndex(r: real, n: nat): (i: nat)
    requires 0.0 <= r < 1.0 && 0 < n
    ensures i < n
    ensures i as real <= r * n as real < (i + 1) as real
  {
    ScaledDrawBelow(r, n);
    (r * n as real).Floor
  }

  lemma ScaledDrawBelow(r: real, n: nat)
    requires 0.0 <= r < 1.0 && 0 < n
    ensures 0.0 <= r * n as real < n as real
  {
    assert n as real - r * n as real == (1.0 - r) * n as real;
    assert 0.0 < (1.0 - r) * n as real;
  }

  /** Every entry of a list can be drawn: the draw k/n gives index k. */
  lemma RandomIndexReachesAll(k: nat, n: nat)
    requires k < n
    ensures 0.0 <= k as real / n as real < 1.0
    ensures RandomIndex(k as real / n as real, n) == k
  {
    var r := k as real / n as real;
    assert r * n as real == k as real;
    assert k as real < n as real;
  }

  /** A user action: a click on swatch, finish card or environment card `i`, Reset,
      or Random with its two draws of `Math.random()`. */
  datatype Action =
    | PickColor(colorIndex: nat)
    | PickMaterial(materialIndex: nat)
    | PickEnvironment(environmentIndex: nat)
    | Reset
    | Random(colorDraw: real, materialDraw: real)

  /** The action can happen: the clicked card exists, the draws lie in [0, 1). */
  predicate CanHappen(a: Action) {
    match a
    case PickColor(i) => i < |ColorPicker.CarColors|
    case PickMaterial(i) => i < |MaterialSelector.Materials|
    case PickEnvironment(i) => i < |EnvironmentSelector.Environments|
    case Reset => true
    case Random(rc, rm) => 0.0 <= rc < 1.0 && 0.0 <= rm < 1.0
  }

  /** The state after one action. A picker writes what its card emits; Reset writes
      the three initial values; Random writes a drawn colour and a drawn finish and
      leaves the environment alone. */
  function Step(c: Config, a: Action): (r: Config)
    requires CanHappen(a)
    ensures a.PickColor? ==>
              && r.material == c.material && r.environment == c.environment
              && forall j | 0 <= j < |ColorPicker.CarColors| ::
                   ColorPicker.IsSelected(r.color, j) <==> j == a.colorIndex
    ensures a.PickMaterial? ==>
              && r.color == c.color && r.environment == c.environment
              && forall j | 0 <= j < |MaterialSelector.Materials| ::
                   MaterialSelector.IsHighlighted(r.material, j) <==> j == a.materialIndex
    ensures a.PickEnvironment? ==>
              && r.color == c.color && r.material == c.material
              && forall j | 0 <= j < |EnvironmentSelector.Environments| ::
                   EnvironmentSelector.IsHighlighted(r.environment, j) <==> j == a.environmentIndex
    ensures a.Reset? ==> r == Initial
    ensures a.Random? ==>
              r.color in RandomColors && r.material in RandomMaterials && r.environment == c.environment
  {
    match a
    case PickColor(i) => c.(color := ColorPicker.OnClick(i))
    case PickMaterial(i) => c.(material := MaterialSelector.OnClick(i))
    case PickEnvironment(i) => c.(environment := EnvironmentSelector.OnClick(i))
    case Reset => Initial
    case Random(rc, rm) =>
      c.(color := RandomColors[RandomIndex(rc, |RandomColors|)],
         material := RandomMaterials[RandomIndex(rm, |RandomMaterials|)])
  }

  /** The state after a sequence of actions. */
  function Run(c: Config, actions: seq<Action>): (r: Config)
    requires forall k :: 0 <= k < |actions| ==> CanHappen(actions[k])
    ensures actions != [] && actions[|actions| - 1].Reset? ==> r == Initial
    ensures (forall k | 0 <= k < |actions| :: !actions[k].PickEnvironment? && !actions[k].Reset?) ==>
              r.environment == c.environment
    decreases |actions|
  {
    if actions == [] then c else Run(Step(c, actions[0]), actions[1..])
  }

  /** Running two sequences one after the other is running their concatenation. */
  lemma {:induction false} RunAppend(c: Config, first: seq<Action>, second: seq<Action>)
    requires forall k :: 0 <= k < |first| ==> CanHappen(first[k])
    requires forall k :: 0 <= k < |second| ==> CanHappen(second[k])
    ensures forall k :: 0 <= k < |first + second| ==> CanHappen((first + second)[k])
    ensures Run(c, first + second) == Run(Run(c, first), second)
    decreases |first|
  {
    if first == [] {
      assert first + second == second;
    } else {
      assert (first + second)[1..] == first[1..] + second;
      RunAppend(Step(c, first[0]), first[1..], second);
    }
  }

  /** The initial state is valid; its colour is the Racing Red swatch. */
  lemma InitialIsValid()
    ensures IsValidConfig(Initial)
  {
    ColorPicker.DefaultIsRacingRed();
    assert EnvironmentSelector.Environments[0].value == "studio";
  }

  /** All five colours Random can draw are swatches of the catalog. */
  lemma RandomColorsInCatalog()
    ensures forall k :: 0 <= k < |RandomColors| ==> ColorPicker.IsCatalogColor(RandomColors[k])
  {
    assert RandomColors[0] == ColorPicker.CarColors[2].value;
    assert RandomColors[1] == ColorPicker.CarColors[3].value;
    assert RandomColors[2] == ColorPicker.CarColors[4].value;
    assert RandomColors[3] == ColorPicker.CarColors[5].value;
    assert RandomColors[4] == ColorPicker.CarColors[6].value;
  }

  /** Random draws its colour from the five-colour list and its finish from the three
      finishes, and never touches the environment. */
  lemma RandomKeepsEnvironment(c: Config, rc: real, rm: real)
    requires 0.0 <= rc < 1.0 && 0.0 <= rm < 1.0
    ensures Step(c, Random(rc, rm)).color in RandomColors
    ensures Step(c, Random(rc, rm)).material in RandomMaterials
    ensures Step(c, Random(rc, rm)).environment == c.environment
  {
  }

  /** Reset gives the initial state whatever came before. */
  lemma ResetForgetsHistory(c: Config)
    ensures Step(c, Reset) == Initial
  {
  }

  /** Every action keeps every cell within what its selector offers. */
  lemma StepKeepsValid(c: Config, a: Action)
    requires IsValidConfig(c) && CanHappen(a)
    ensures IsValidConfig(Step(c, a))
  {
    match a
    case PickColor(i) =>
    case PickMaterial(i) =>
    case PickEnvironment(i) =>
    case Reset => InitialIsValid();
    case Random(rc, rm) => RandomColorsInCatalog();
  }

  /** Any sequence of actions keeps the state valid. */
  lemma {:induction false} RunKeepsValid(c: Config, actions: seq<Action>)
    requires IsValidConfig(c)
    requires forall k :: 0 <= k < |actions| ==> CanHappen(actions[k])
    ensures IsValidConfig(Run(c, actions))
    decreases |actions|
  {
    if actions != [] {
      StepKeepsValid(c, actions[0]);
      RunKeepsValid(Step(c, actions[0]), actions[1..]);
    }
  }

  /** The closure invariant: whatever actions run from the initial state, the colour
      is one of the eight swatches, the finish one of metallic, matte and glossy, and
      the environment one of studio, city, sunset and forest. */
  lemma ReachableIsValid(actions: seq<Action>)
    requires forall k :: 0 <= k < |actions| ==> CanHappen(actions[k])
    ensures ColorPicker.IsCatalogColor(Run(Initial, actions).color)
    ensures Run(Initial, actions).material in {"metallic", "matte", "glossy"}
    ensures Run(Initial, actions).environment in {"studio", "city", "sunset", "forest"}
  {
    InitialIsValid();
    RunKeepsValid(Initial, actions);
    EnvironmentSelector.CatalogValues();
  }

  /** The record the save handler stores: the three cells and a timestamp. */
  datatype SavedConfiguration =
    SavedConfiguration(color: string, material: FinishName, environment: string, timestamp: string)

  /** The share link: the origin, then the colour percent-encoded and the finish and
      environment as they are, under the parameter names `color`, `material` and
      `env`. */
  function ShareUrl(origin: string, c: Config): (url: string)
    ensures |origin| + 7 <= |url|
    ensures url[..|origin|] == origin && url[|origin|..|origin| + 7] == "?color="
  {
    origin + "?color=" + UriComponent.EncodeUriComponent(c.color)
    + "&material=" + c.material + "&env=" + c.environment
  }

  /** A catalog colour is encoded as `%23` and its six hex digits unchanged. */
  lemma CatalogColorEncoding(color: string)
    requires ColorPicker.IsCatalogColor(color)
    ensures UriComponent.EncodeUriComponent(color) == "%23" + color[1..]
  {
    ColorPicker.CatalogWellFormed();
    var i :| 0 <= i < |ColorPicker.CarColors| && ColorPicker.CarColors[i].value == color;
    assert ColorPicker.IsHexColor(color);
    var digits := color[1..];
    forall k | 0 <= k < |digits|
      ensures UriComponent.IsUnescaped(digits[k])
    {
      assert ColorPicker.IsLowerHexDigit(color[k + 1]);
    }
    assert color == "#" + digits;
    UriComponent.EncodeConcat("#", digits);
    UriComponent.EncodeHash();
    UriComponent.EncodeUnescaped(digits);
  }

  /** For a valid state the link reads `?color=%23` and the six hex digits, then
      `&material=` and the finish, then `&env=` and the environment. */
  lemma ShareUrlOfValid(origin: string, c: Config)
    requires IsValidConfig(c)
    ensures ShareUrl(origin, c) ==
              origin + "?color=%23" + c.color[1..] + "&material=" + c.material + "&env=" + c.environment
  {
    CatalogColorEncoding(c.color);
    var digits := c.color[1..];
    var p := origin + "?color=";
    AppendAssociative(p, "%23", digits);
    AppendAssociative(origin, "?color=", "%23");
    assert "?color=" + "%23" == "?color=%23";
  }

  lemma AppendAssociative(a: string, b: string, c: string)
    ensures a + (b + c) == a + b + c
  {
  }

  /** In `a + key + b`, where `a` holds no first character of `key`, that character
      first occurs right after `a`. */
  lemma FirstOccurrence(a: string, b: string, key: string)
    requires 0 < |key| && key[0] !in a
    ensures (a + key + b)[|a|] == key[0]
    ensures forall k :: 0 <= k < |a| ==> (a + key + b)[k] != key[0]
  {
  }

  /** Two strings that each stop short of the first character of a key, followed by
      that key, can be told apart at it. */
  lemma SplitBeforeKey(a: string, b: string, a': string, b': string, key: string)
    requires 0 < |key| && key[0] !in a && key[0] !in a'
    requires a + key + b == a' + key + b'
    ensures a == a' && b == b'
  {
    var s := a + key + b;
    FirstOccurrence(a, b, key);
    FirstOccurrence(a', b', key);
    assert |a| == |a'|;
    assert a == s[..|a|] == a';
    assert b == s[|a| + |key|..] == b';
  }

  /** A query string `p e k1 m k2 v` whose keys `k1` and `k2` start with `&`, and
      whose values `e` and `m` hold no `&`, gives back its three values. */
  lemma QueryFieldsSeparate(p: string, k1: string, k2: string,
                            e: string, m: string, v: string, e': string, m': string, v': string)
    requires 0 < |k1| && 0 < |k2| && k1[0] == '&' && k2[0] == '&'
    requires '&' !in e && '&' !in e' && '&' !in m && '&' !in m'
    requires p + e + k1 + m + k2 + v == p + e' + k1 + m' + k2 + v'
    ensures e == e' && m == m' && v == v'
  {
    var x := e + k1 + (m + k2 + v);
    var x' := e' + k1 + (m' + k2 + v');
    assert p + e + k1 + m + k2 + v == p + x;
    assert p + e' + k1 + m' + k2 + v' == p + x';
    assert x == (p + x)[|p|..];
    assert x' == (p + x')[|p|..];
    SplitBeforeKey(e, m + k2 + v, e', m' + k2 + v', k1);
    SplitBeforeKey(m, v, m', v', k2);
  }

  /** The link keeps its three fields apart: two states with the same link under
      the same origin have the same encoded colour, finish and environment. */
  lemma ShareUrlFieldsSeparate(origin: string, c: Config, c': Config)
    requires ShareUrl(origin, c) == ShareUrl(origin, c')
    ensures UriComponent.EncodeUriComponent(c.color) == UriComponent.EncodeUriComponent(c'.color)
    ensures c.material == c'.material && c.environment == c'.environment
  {
    var e, e' := UriComponent.EncodeUriComponent(c.color), UriComponent.EncodeUriComponent(c'.color);
    assert '&' !in e by {
      if '&' in e {
        var k :| 0 <= k < |e| && e[k] == '&';
        UriComponent.EncodedHasNoDelimiter(c.color, k);
      }
    }
    assert '&' !in e' by {
      if '&' in e' {
        var k :| 0 <= k < |e'| && e'[k] == '&';
        UriComponent.EncodedHasNoDelimiter(c'.color, k);
      }
    }
    QueryFieldsSeparate(origin + "?color=", "&material=", "&env=",
                        e, c.material, c.environment, e', c'.material, c'.environment);
  }

  /** For valid states the link determines the state: different configurations are
      never shared under the same link. */
  lemma ShareUrlDeterminesConfig(origin: string, c: Config, c': Config)
    requires IsValidConfig(c) && IsValidConfig(c')
    requires ShareUrl(origin, c) == ShareUrl(origin, c')
    ensures c == c'
  {
    ShareUrlFieldsSeparate(origin, c, c');
    CatalogColorEncoding(c.color);
    CatalogColorEncoding(c'.color);
    ColorPicker.CatalogColorIsHex(c.color);
    ColorPicker.CatalogColorIsHex(c'.color);
    var digits, digits' := c.color[1..], c'.color[1..];
    assert digits == ("%23" + digits)[3..];
    assert digits' == ("%23" + digits')[3..];
    assert c.color == [c.color[0]] + digits;
    assert c'.color == [c'.color[0]] + digits';
  }

  /** A worked session: from the initial state, pick Electric Blue and then Glossy. */
  lemma BlueGlossySession()
    ensures Run(Initial, [PickColor(3), PickMaterial(2)]) == Config("#2563eb", "glossy", "studio")
  {
    var actions := [PickColor(3), PickMaterial(2)];
    assert actions[1..] == [PickMaterial(2)];
  }

  /** The link of that session reads `?color=%232563eb&material=glossy&env=studio`
      after the origin (shown in the pieces the link is assembled from). */
  lemma BlueGlossyLink(origin: string)
    ensures ShareUrl(origin, Config("#2563eb", "glossy", "studio")) ==
              origin + "?color=%23" + "2563eb" + "&material=" + "glossy" + "&env=" + "studio"
  {
    var c := Config("#2563eb", "glossy", "studio");
    assert ColorPicker.CarColors[3].value == c.color;
    assert EnvironmentSelector.Environments[0].value == c.environment;
    ShareUrlOfValid(origin, c);
    assert c.color[1..] == "2563eb";
  }

  /** The page's state cells and the handlers that act on them. */
  class Customizer {
    var carColor: string
    var material: FinishName
    var environment: string

    /** The three cells as one value. */
    function State(): Config
      reads this
    {
      Config(carColor, material, environment)
    }

    ghost predicate Valid()
      reads this
    {
      IsValidConfig(State())
    }

    /** The cells start as Racing Red, metallic, studio. */
    constructor ()
      ensures State() == Initial
      ensures Valid()
    {
      carColor := "#dc2626";
      material := "metallic";
      environment := "studio";
      InitialIsValid();
    }

    /** `onColorChange={setCarColor}` fired by swatch `i`. */
    method ChooseColor(i: nat)
      requires Valid() && i < |ColorPicker.CarColors|
      modifies this
      ensures State() == Step(old(State()), PickColor(i))
      ensures Valid()
    {
      carColor := ColorPicker.OnClick(i);
    }

    /** `onMaterialChange={setMaterial}` fired by finish card `i`. */
    method ChooseMaterial(i: nat)
      requires Valid() && i < |MaterialSelector.Materials|
      modifies this
      ensures State() == Step(old(State()), PickMaterial(i))
      ensures Valid()
    {
      material := MaterialSelector.OnClick(i);
    }

    /** `onEnvironmentChange={setEnvironment}` fired by environment card `i`. */
    method ChooseEnvironment(i: nat)
      requires Valid() && i < |EnvironmentSelector.Environments|
      modifies this
      ensures State() == Step(old(State()), PickEnvironment(i))
      ensures Valid()
    {
      environment := EnvironmentSelector.OnClick(i);
    }

    /** The Reset button: the three setters with the initial values. */
    method ResetConfiguration()
      requires Valid()
      modifies this
      ensures State() == Step(old(State()), Reset)
      ensures State() == Initial
      ensures Valid()
    {
      carColor := "#dc2626";
      material := "metallic";
      environment := "studio";
      InitialIsValid();
    }

    /** The Random button, given its two draws of `Math.random()`: a colour from the
        five-colour list, a finish from the three finishes, environment untouched. */
    method Randomize(colorDraw: real, materialDraw: real)
      requires Valid() && 0.0 <= colorDraw < 1.0 && 0.0 <= materialDraw < 1.0
      modifies this
      ensures State() == Step(old(State()), Random(colorDraw, materialDraw))
      ensures carColor in RandomColors && material in RandomMaterials
      ensures environment == old(environment)
      ensures Valid()
    {
      var colors := RandomColors;
      var materials := RandomMaterials;
      carColor := colors[RandomIndex(colorDraw, |colors|)];
      material := materials[RandomIndex(materialDraw, |materials|)];
      RandomColorsInCatalog();
    }

    /** The save handler, up to the record it stores: the current cells and the given
        timestamp. It changes no cell. */
    method HandleSaveConfiguration(timestamp: string) returns (config: SavedConfiguration)
      ensures Config(config.color, config.material, config.environment) == State()
      ensures config.timestamp == timestamp
    {
      config := SavedConfiguration(carColor, material, environment, timestamp);
    }

    /** The share handler, up to the link it copies, for the given origin. It changes
        no cell, and since the cells are valid the colour appears as `%23` and its six
        hex digits. */
    method HandleShare(origin: string) returns (configUrl: string)
      requires Valid()
      ensures configUrl == ShareUrl(origin, State())
      ensures configUrl ==
                origin + "?color=%23" + carColor[1..] + "&material=" + material + "&env=" + environment
    {
      configUrl := ShareUrl(origin, State());
      ShareUrlOfValid(origin, State());
    }
  }
}
