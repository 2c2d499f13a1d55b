/** The part of the 3D view that is decided here rather than by the rendering library:
    which standard-material parameters a paint finish gets, that body and roof share
    them, and which environment preset is handed to the renderer. Geometry, camera,
    lights, controls and the per-frame rotation belong to the renderer. */
module Car3D {
  import opened MaterialSelector

  datatype Option<T> = None | Some(value: T)

  /** The finish parameters of a standard (physically based) material, as exact
      decimal constants. */
  datatype Finish = Finish(metalness: real, roughness: real, envMapIntensity: real)

  /** A standard material as built for the car: the colour string, which the renderer
      parses and which is opaque here, and the finish parameters when they are set.
      `None` means that only the colour was given. */
  datatype StandardMaterial = StandardMaterial(color: string, finish: Option<Finish>)

  /** Metalness and roughness are fractions and the environment reflection is
      strictly positive. */
  predicate IsPlausible(f: Finish) {
    0.0 <= f.metalness <= 1.0 && 0.0 <= f.roughness <= 1.0 && 0.0 < f.envMapIntensity
  }

  /** `getMaterial`: a switch on the finish string. The three named finishes get
      fixed parameters; any other string falls to a material with the colour alone.
      The colour passes through untouched on every branch. */
  function GetMaterial(color: string, material: string): (m: StandardMaterial)
    ensures m.color == color
    ensures m.finish.Some? <==> IsFinishName(material)
    ensures m.finish.Some? ==> IsPlausible(m.finish.value)
  {
    if material == "metallic" then
      StandardMaterial(color, Some(Finish(0.9, 0.1, 1.5)))
    else if material == "matte" then
      StandardMaterial(color, Some(Finish(0.1, 0.9, 0.5)))
    else if material == "glossy" then
      StandardMaterial(color, Some(Finish(0.3, 0.0, 2.0)))
    else
      StandardMaterial(color, None)
  }

  /** The parameter table of the three named finishes. */
  lemma FinishTable(color: string)
    ensures GetMaterial(color, "metallic").finish == Some(Finish(0.9, 0.1, 1.5))
    ensures GetMaterial(color, "matte").finish == Some(Finish(0.1, 0.9, 0.5))
    ensures GetMaterial(color, "glossy").finish == Some(Finish(0.3, 0.0, 2.0))
  {
  }

  /** Any string other than the three finishes yields the colour-only material. */
  lemma UnknownFinishIsColorOnly(color: string, material: string)
    requires !IsFinishName(material)
    ensures GetMaterial(color, material) == StandardMaterial(color, None)
  {
  }

  /** Different finishes never get the same parameters, so every card of the finish
      selector renders differently. */
  lemma FinishesDistinguishable(color: string, a: FinishName, b: FinishName)
    requires a != b
    ensures GetMaterial(color, a).finish != GetMaterial(color, b).finish
  {
  }

  /** The two painted meshes of the car. */
  datatype CarMeshes = CarMeshes(body: StandardMaterial, roof: StandardMaterial)

  /** `CarModel`: body and roof each take `getMaterial()` of the same colour and
      finish, so they are painted alike. */
  function CarModel(color: string, material: string): (meshes: CarMeshes)
    ensures meshes.body == meshes.roof
    ensures meshes.body.color == color
    ensures meshes.body.finish.Some? <==> IsFinishName(material)
  {
    CarMeshes(GetMaterial(color, material), GetMaterial(color, material))
  }

  /** What the view hands the renderer: the painted car and the environment preset. */
  datatype Scene = Scene(car: CarMeshes, environmentPreset: string)

  /** `Car3D`: the environment string is passed on as the preset unchanged, and since
      the finish prop is typed by the union, the car never falls to the colour-only
      default. */
  function Car3DScene(carColor: string, material: FinishName, environmentLighting: string): (scene: Scene)
    ensures scene.environmentPreset == environmentLighting
    ensures scene.car.body == scene.car.roof && scene.car.body.color == carColor
    ensures scene.car.body.finish.Some? && IsPlausible(scene.car.body.finish.value)
  {
    Scene(CarModel(carColor, material), environmentLighting)
  }
}
