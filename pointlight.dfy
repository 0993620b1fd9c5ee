/** `PointLight` of src/light/pointlight.rs: a light at a position with a colour whose
    illumination model, for now, is its colour alone. */
module PointLights {
  import opened VectorConstGenerics
  import Objects

  datatype PointLight = PointLight(position: Float3, color: Float3)

  /** `new`: the light with exactly the given position and colour. */
  function New(position: Float3, color: Float3): (l: PointLight)
    ensures l.position == position && l.color == color
  {
    PointLight(position, color)
  }

  /** `illuminate`: the stored colour, whatever the hit. */
  function Illuminate<M>(light: PointLight, hit: Objects.HitRecord<M>): (c: Float3)
    ensures c == light.color
  {
    light.color
  }

  /** The illumination depends on no field of the hit record, and a light made by `new`
      shines its own colour. */
  lemma IlluminateIgnoresHit<M>(position: Float3, color: Float3,
                                h1: Objects.HitRecord<M>, h2: Objects.HitRecord<M>)
    ensures Illuminate(New(position, color), h1) == Illuminate(New(position, color), h2) == color
  {
    var l := New(position, color);
    assert Illuminate(l, h1) == l.color;
  }
}
