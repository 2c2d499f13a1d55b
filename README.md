# Car paint configurator: a verified model of its decision logic

This project models the part of the car-craft-viz configurator that decides
things rather than draws them. The user picks a body colour, a paint finish and
a backdrop environment. The page keeps these three choices in state cells and
rewrites them through three pickers and the Reset and Random buttons. It builds
a saved-configuration record and a share link from them. The 3D view turns the
finish into standard-material parameters and passes the environment on as a
lighting preset.

Modules, one per source file:

- `ColorPicker` holds the eight-swatch colour catalog. A swatch is selected
  exactly when the current colour equals its value. A click emits that value.
- `MaterialSelector` holds the three finish cards and the string union
  `'metallic' | 'matte' | 'glossy'`, modelled as the subset type `FinishName`.
  A card is highlighted exactly when the selected finish equals its finish.
  A click emits that finish.
- `EnvironmentSelector` holds the four environment cards. The selected
  environment is an arbitrary string. A click emits the card's machine value,
  not its display name.
- `Car3D` holds `getMaterial`, the switch from a finish string to (metalness,
  roughness, envMapIntensity). It also holds the car model, whose body and roof
  get equal materials, and the scene, which passes the environment string on as
  the renderer's preset.
- `UriComponent` models JavaScript's `encodeURIComponent` as ECMA-262 defines
  it (section 19.2.6.5, Encode). Characters outside the unescaped set become
  the percent-escapes of their UTF-8 bytes (RFC 3629, section 3). Section 2.1
  of RFC 3986 defines percent-encoding; section 2.2 makes `#` a reserved
  gen-delim, so it becomes `%23`; section 2.3 leaves letters and digits as
  they are.
- `CarCustomizer` holds the page's state and actions. The function `Step`
  gives the state after one action and `Run` the state after a sequence of
  actions. The class `Customizer` has the three cells as fields and one method
  per action, each proved against `Step`. The main theorem, `ReachableIsValid`,
  covers any sequence of actions from the initial state. After it the colour is
  one of the eight swatches. The finish is metallic, matte or glossy. The
  environment is studio, city, sunset or forest.

`Math.random()`, `window.location.origin` and the save timestamp are
parameters. Random receives its two draws as reals in [0, 1) and computes
`floor(r * n)` as the source does.

Where the code departs from what one might expect, the model follows the code:

- Random draws the colour from its own five-colour list, not from the
  eight-swatch catalog. All five are swatches of the catalog.
- Random never changes the environment.
- The share link names the finish parameter `material`, not `finish`.
- Only the colour is percent-encoded in the share link.
- An unknown finish string gets a material with the colour alone. It gets no
  fallback numbers.
- No code reads a share link or a saved record back. No code validates a hex
  colour. No picker rejects a value. So the model has no parser, no validator
  and no rejecting update.

## Model

| member | source | states |
|---|---|---|
| `ColorPicker.CatalogWellFormed` | src/components/car/ColorPicker.tsx:9-18 | the catalog has exactly eight swatches, each value `#` and six lower-case hex digits |
| `ColorPicker.ValuesDistinct` | src/components/car/ColorPicker.tsx:9-18 | no two swatches share a value |
| `ColorPicker.CatalogColorIsHex` | src/components/car/ColorPicker.tsx:10-17 | every catalog colour is `#` and six lower-case hex digits |
| `ColorPicker.IsSelected` | src/components/car/ColorPicker.tsx:28-30 | a colour that selects a swatch is a catalog colour and a lower-case hex colour |
| `ColorPicker.AtMostOneSelected` | src/components/car/ColorPicker.tsx:28-33 | two swatches drawn selected for the same colour are the same swatch |
| `ColorPicker.SelectedIffInCatalog` | src/components/car/ColorPicker.tsx:28-30 | some swatch is selected iff the colour is a catalog value, so a colour outside the catalog selects none |
| `ColorPicker.OnClick` | src/components/car/ColorPicker.tsx:34 | a click emits a catalog hex colour that selects the clicked swatch and no other |
| `ColorPicker.DefaultIsRacingRed` | src/components/car/ColorPicker.tsx:12 | `#dc2626` is the Racing Red swatch, hence a catalog colour |
| `MaterialSelector.CatalogIsTheUnion` | src/components/car/MaterialSelector.tsx:6-32 | three cards in the order metallic, matte, glossy; a string is a card's finish iff it is a member of the prop's union type |
| `MaterialSelector.KindsDistinct` | src/components/car/MaterialSelector.tsx:10-32 | no two cards stand for the same finish |
| `MaterialSelector.IsHighlighted` | src/components/car/MaterialSelector.tsx:43-57 | card 0 is highlighted iff the finish is metallic, card 1 iff matte, card 2 iff glossy |
| `MaterialSelector.ExactlyOneHighlighted` | src/components/car/MaterialSelector.tsx:43-57 | for any well-typed selected finish, some card is highlighted and any two highlighted cards are the same |
| `MaterialSelector.OnClick` | src/components/car/MaterialSelector.tsx:47 | a click emits the finish that highlights the clicked card and no other |
| `EnvironmentSelector.CatalogValues` | src/components/car/EnvironmentSelector.tsx:10-39 | four cards whose values are exactly studio, city, sunset and forest |
| `EnvironmentSelector.ValuesDistinct` | src/components/car/EnvironmentSelector.tsx:10-39 | no two cards share a value |
| `EnvironmentSelector.IsHighlighted` | src/components/car/EnvironmentSelector.tsx:50-64 | a highlighted card's selection is a catalog value and differs from that card's display name |
| `EnvironmentSelector.AtMostOneHighlighted` | src/components/car/EnvironmentSelector.tsx:50-64 | at most one card is highlighted, and a string outside the catalog highlights none |
| `EnvironmentSelector.OnClick` | src/components/car/EnvironmentSelector.tsx:54 | a click emits a catalog value that highlights the clicked card and no other |
| `EnvironmentSelector.EmitsValueNotName` | src/components/car/EnvironmentSelector.tsx:19-54 | the Urban card emits `city`, the Nature card `forest`; on every card the emitted value differs from the display name shown |
| `Car3D.GetMaterial` | src/components/car/Car3D.tsx:23-51 | the colour passes through; finish parameters are set iff the finish is one of the three names; when set, metalness and roughness lie in [0, 1] and envMapIntensity is positive |
| `Car3D.FinishTable` | src/components/car/Car3D.tsx:27-47 | metallic gets (0.9, 0.1, 1.5), matte (0.1, 0.9, 0.5), glossy (0.3, 0.0, 2.0) |
| `Car3D.UnknownFinishIsColorOnly` | src/components/car/Car3D.tsx:48-49 | any other string yields the material with the colour alone |
| `Car3D.FinishesDistinguishable` | src/components/car/Car3D.tsx:27-47 | two different finishes never get the same parameters |
| `Car3D.CarModel` | src/components/car/Car3D.tsx:53-63 | body and roof get equal materials (two objects with the same parameters), whose colour is the given colour and which is tuned iff the finish is named |
| `Car3D.Car3DScene` | src/components/car/Car3D.tsx:108-129 | the environment string is the renderer's preset unchanged; body equals roof; a well-typed finish always gets plausible parameters |
| `UriComponent.Utf8` | src/components/car/CarCustomizer.tsx:32 | the shortest form: 1 byte below 0x80 (the code point itself), 2 below 0x800, 3 below 0x10000, else 4; the lead byte lies in [0xC0, 0xE0), [0xE0, 0xF0) or [0xF0, 0xF8) for 2, 3 and 4 bytes; continuation bytes lie in [0x80, 0xC0) |
| `UriComponent.Utf8Lossless` | src/components/car/CarCustomizer.tsx:32 | the payload bits of the UTF-8 bytes reassemble the code point |
| `UriComponent.ByteEscape` | src/components/car/CarCustomizer.tsx:32 | one byte becomes three characters: `%` and two upper-case hex digits |
| `UriComponent.PercentEscape` | src/components/car/CarCustomizer.tsx:32 | three characters per byte: the k-th triple is `%` and the k-th byte's two upper-case hex digits |
| `UriComponent.EncodeChar` | src/components/car/CarCustomizer.tsx:32 | an unescaped character stays itself; any other becomes, for each of its UTF-8 bytes in order, `%` and that byte's two upper-case hex digits; the output holds only unescaped characters and `%` |
| `UriComponent.EncodeUriComponent` | src/components/car/CarCustomizer.tsx:32 | the encoding is no shorter than its input and holds only unescaped characters and `%` |
| `UriComponent.EncodeConcat` | src/components/car/CarCustomizer.tsx:32 | encoding distributes over concatenation |
| `UriComponent.EncodeUnescaped` | src/components/car/CarCustomizer.tsx:32 | a string of unescaped characters encodes to itself |
| `UriComponent.EncodeHash` | src/components/car/CarCustomizer.tsx:32 | `#` encodes to `%23` |
| `UriComponent.EncodedHasNoDelimiter` | src/components/car/CarCustomizer.tsx:32 | no character of an encoding is `&`, `=`, `#` or `?` |
| `CarCustomizer.RandomIndex` | src/components/car/CarCustomizer.tsx:148-149 | for a draw in [0, 1), `floor(r * n)` is an index below `n`, the one with `i <= r * n < i + 1` |
| `CarCustomizer.RandomIndexReachesAll` | src/components/car/CarCustomizer.tsx:148-149 | every index below `n` is produced by some draw |
| `CarCustomizer.InitialIsValid` | src/components/car/CarCustomizer.tsx:12-14 | the initial colour, finish and environment are catalog values |
| `CarCustomizer.RandomColorsInCatalog` | src/components/car/CarCustomizer.tsx:146 | all five colours Random draws from are catalog swatches |
| `CarCustomizer.RandomKeepsEnvironment` | src/components/car/CarCustomizer.tsx:145-150 | Random's colour is in its five-colour list, its finish in its three-finish list, and the environment is unchanged |
| `CarCustomizer.ResetForgetsHistory` | src/components/car/CarCustomizer.tsx:133-137 | from any state, Reset gives the initial state |
| `CarCustomizer.Step` | src/components/car/CarCustomizer.tsx:110-150 | a pick changes only its own cell, to the value that selects the clicked card and no other; Reset gives the initial state; Random draws colour and finish from its lists and keeps the environment |
| `CarCustomizer.Run` | src/components/car/CarCustomizer.tsx:110-150 | a run ending in Reset ends in the initial state; a run with no environment pick and no Reset keeps the environment |
| `CarCustomizer.RunAppend` | src/components/car/CarCustomizer.tsx:110-150 | running two action sequences in turn is running their concatenation |
| `CarCustomizer.StepKeepsValid` | src/components/car/CarCustomizer.tsx:110-150 | each action keeps every cell within what its selector offers |
| `CarCustomizer.RunKeepsValid` | src/components/car/CarCustomizer.tsx:110-150 | any sequence of actions keeps every cell within what its selector offers |
| `CarCustomizer.ReachableIsValid` | src/components/car/CarCustomizer.tsx:12-150 | after any actions from the initial state: colour in the eight-swatch catalog, finish in {metallic, matte, glossy}, environment in {studio, city, sunset, forest} |
| `CarCustomizer.ShareUrl` | src/components/car/CarCustomizer.tsx:32 | the link starts with the origin followed by `?color=` |
| `CarCustomizer.CatalogColorEncoding` | src/components/car/CarCustomizer.tsx:32 | a catalog colour encodes to `%23` followed by its six hex digits unchanged |
| `CarCustomizer.ShareUrlOfValid` | src/components/car/CarCustomizer.tsx:32 | for a valid state the link is origin, `?color=%23`, the hex digits, `&material=`, the finish, `&env=`, the environment |
| `CarCustomizer.ShareUrlFieldsSeparate` | src/components/car/CarCustomizer.tsx:32 | equal links under one origin have equal encoded colours, finishes and environments |
| `CarCustomizer.ShareUrlDeterminesConfig` | src/components/car/CarCustomizer.tsx:32 | for valid states, equal links under one origin mean equal states |
| `CarCustomizer.BlueGlossySession` | src/components/car/CarCustomizer.tsx:110-118 | picking Electric Blue and then Glossy from the initial state gives (`#2563eb`, glossy, studio) |
| `CarCustomizer.BlueGlossyLink` | src/components/car/CarCustomizer.tsx:32 | that state's link is the origin followed by `?color=%23`, `2563eb`, `&material=`, `glossy`, `&env=`, `studio` |
| `CarCustomizer.Customizer.constructor` | src/components/car/CarCustomizer.tsx:12-14 | the cells start as `#dc2626`, metallic, studio, a valid state |
| `CarCustomizer.Customizer.ChooseColor` | src/components/car/CarCustomizer.tsx:110-113 | the colour becomes the clicked swatch's value, the other cells are unchanged, the state stays valid |
| `CarCustomizer.Customizer.ChooseMaterial` | src/components/car/CarCustomizer.tsx:115-118 | the finish becomes the clicked card's finish, the other cells are unchanged, the state stays valid |
| `CarCustomizer.Customizer.ChooseEnvironment` | src/components/car/CarCustomizer.tsx:120-123 | the environment becomes the clicked card's value, the other cells are unchanged, the state stays valid |
| `CarCustomizer.Customizer.ResetConfiguration` | src/components/car/CarCustomizer.tsx:133-137 | whatever the prior state, the cells become `#dc2626`, metallic, studio |
| `CarCustomizer.Customizer.Randomize` | src/components/car/CarCustomizer.tsx:145-150 | colour and finish become the drawn entries of Random's lists, the environment is unchanged, the state stays valid |
| `CarCustomizer.Customizer.HandleSaveConfiguration` | src/components/car/CarCustomizer.tsx:16-22 | the record's colour, finish and environment are the current cells and its timestamp the given one; no cell changes |
| `CarCustomizer.Customizer.HandleShare` | src/components/car/CarCustomizer.tsx:31-32 | the link is the share URL of the current state under the given origin, and, the state being valid, reads origin, `?color=%23`, the colour's hex digits, `&material=`, the finish, `&env=`, the environment; no cell changes |

## Left out

- All 3D rendering is left out: canvas, camera, lights, orbit controls, geometry, the ground plane, and the fixed wheel, headlight and window materials (src/components/car/Car3D.tsx:64-150). These are settings handed to an external rendering library.
- The disabled viewport and all JSX layout, CSS classes, gradients, icons and descriptions are presentation. The catalogs keep only each entry's machine value and display name.
- The per-frame `rotation.y += 0.002` is floating-point accumulation driven by the renderer's frame loop.
- `new THREE.Color(color)` is a library parse. The colour is an opaque string that passes through.
- `localStorage.setItem`, `JSON.stringify`, `navigator.clipboard.writeText` and the toasts are I/O. The handlers are modelled up to the record or link they would hand over.
- `window.location.origin`, `new Date().toISOString()` and `Math.random()` are ambient inputs. They are parameters here.
- CarCustomizer.RandomIndex: computes `floor(r * n)` over exact reals, so it does not model IEEE-754 rounding of the product.
- UriComponent.EncodeUriComponent: characters are Unicode scalar values, so the URIError that JavaScript raises for a lone UTF-16 surrogate is not modelled.
- React's re-rendering and the setters' deferred updates are not modelled. Each handler's writes take effect in order.
