/** The two shapes of a transform update. */
module Transforms {
  datatype Vec3 = Vec3(x: real, y: real, z: real)

  datatype Transform =
    | Separate(translation: Vec3, rotation: Vec3, scale: Vec3)
    | Matrix(elements: seq<real>)

  const IDENTITY := Separate(Vec3(0.0, 0.0, 0.0), Vec3(0.0, 0.0, 0.0), Vec3(1.0, 1.0, 1.0))
}
