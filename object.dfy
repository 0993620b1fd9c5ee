/** src/object/mod.rs: the object kinds a scene description may name, and the record
    an intersection produces. The `Hittable` trait becomes a function parameter of the
    scene (see Scenes); each object kind's `hit` lives in its own module. */
module Objects {
  import opened Prelude
  import opened VectorConstGenerics

  datatype ObjectType = Sphere | Quad | Plane | Box

  /** `from_str`: exactly the four lower-case tags are recognised. */
  function FromStr(s: string): (r: Option<ObjectType>)
    ensures r.Some? <==> s in {"sphere", "quad", "plane", "box"}
  {
    match s
    case "sphere" => Some(Sphere)
    case "quad" => Some(Quad)
    case "plane" => Some(Plane)
    case "box" => Some(Box)
    case _ => None
  }

  /** The tag each kind is written as. */
  function Tag(o: ObjectType): string
  {
    match o
    case Sphere => "sphere"
    case Quad => "quad"
    case Plane => "plane"
    case Box => "box"
  }

  /** Every kind is produced by its tag, and by no other string: the parser is the
      inverse of `Tag`, so distinct accepted tags give distinct kinds. */
  lemma FromStrInvertsTag(s: string, o: ObjectType)
    ensures FromStr(Tag(o)) == Some(o)
    ensures FromStr(s) == Some(o) <==> s == Tag(o)
  {
  }

  /** Matching is case-sensitive. */
  lemma FromStrRejects()
    ensures FromStr("Sphere") == None && FromStr("BOX") == None && FromStr("") == None
    ensures FromStr("cube") == None
  {
  }

  /** The normal the sphere and the cube store: `normalize(outward)` when the ray meets
      the outward normal head-on (`front_face`), `-normalize(outward)` otherwise. Either
      way it faces against the ray, and it is `±normalize(outward)`. */
  function FacingNormal(direction: Float3, outward: Float3, sqrt: real -> real): (n: Float3)
    requires IsSqrt(sqrt)
    ensures Dot(direction, n) <= 0.0
    ensures Dot(direction, outward) < 0.0 ==> n == Normalize(outward, sqrt)
    ensures Dot(direction, outward) >= 0.0 ==> n == Negated(Normalize(outward, sqrt))
  {
    var unit := Normalize(outward, sqrt);
    NormalizeKeepsDotSign(direction, outward, sqrt);
    if Dot(direction, outward) < 0.0 then unit
    else
      DotNegated(direction, unit);
      Negated(unit)
  }

  /** `HitRecord`: where the ray met the surface, the normal facing the ray, the ray
      parameter, whether the ray arrived from outside, the surface's material and the
      optional texture coordinates. The material type is a parameter so that this module
      does not depend on Materials. */
  datatype HitRecord<M> = HitRecord(
    point: Float3,
    normal: Float3,
    t: real,
    frontFace: bool,
    material: M,
    uv: Option<Float2>)
}
