/** Value types shared by every part of the editor: the optional value the
    source writes as `null`, and the (x, y, z) triples it keeps in
    three-element arrays. */
module Common {
  datatype Option<T> = None | Some(value: T)

  /** A point of the scene. Coordinates are modelled as reals. */
  datatype Vec3 = Vec3(x: real, y: real, z: real)
}
