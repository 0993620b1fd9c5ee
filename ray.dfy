/** `Ray` of src/ray/mod.rs: an origin and a direction, and the point reached after
    travelling a parameter `t` along it. */
module Rays {
  import opened VectorConstGenerics

  datatype Ray = Ray(origin: Float3, direction: Float3)

  /** `at`: `origin + direction.scale(root)`. */
  function At(ray: Ray, t: real): (p: Float3)
    ensures forall i :: 0 <= i < 3 ==> p[i] == ray.origin[i] + ray.direction[i] * t
  {
    Plus(ray.origin, Scale(ray.direction, t))
  }

  /** The ray starts at its origin. */
  lemma AtZero(ray: Ray)
    ensures At(ray, 0.0) == ray.origin
  {
    var p := At(ray, 0.0);
    forall i | 0 <= i < 3 ensures p[i] == ray.origin[i] { }
  }

  /** Travelling `s + t` is travelling `s`, then `t` more along the same direction. */
  lemma AtShift(ray: Ray, s: real, t: real)
    ensures At(ray, s + t) == Plus(At(ray, s), Scale(ray.direction, t))
  {
    var lhs, rhs := At(ray, s + t), Plus(At(ray, s), Scale(ray.direction, t));
    forall i | 0 <= i < 3 ensures lhs[i] == rhs[i] {
      assert ray.direction[i] * (s + t) == ray.direction[i] * s + ray.direction[i] * t;
    }
  }

  /** A ray with zero direction never leaves its origin. */
  lemma AtZeroDirection(ray: Ray, t: real)
    requires ray.direction == Zero(3)
    ensures At(ray, t) == ray.origin
  {
    var p := At(ray, t);
    forall i | 0 <= i < 3 ensures p[i] == ray.origin[i] {
      assert ray.direction[i] == 0.0;
    }
  }

  /** The offset from the origin is the scaled direction. */
  lemma AtOffset(ray: Ray, t: real)
    ensures Minus(At(ray, t), ray.origin) == Scale(ray.direction, t)
  {
    var lhs := Minus(At(ray, t), ray.origin);
    forall i | 0 <= i < 3 ensures lhs[i] == Scale(ray.direction, t)[i] { }
  }

  /** The parameter `dot(p - origin, n) / dot(direction, n)` used by the plane and the
      quad puts `at(t)` on the plane through `p` with normal `n`. */
  lemma AtMeetsPlane(ray: Ray, p: Float3, n: Float3)
    requires Dot(ray.direction, n) != 0.0
    ensures Dot(Minus(At(ray, Dot(Minus(p, ray.origin), n) / Dot(ray.direction, n)), p), n) == 0.0
  {
    var denom := Dot(ray.direction, n);
    var t := Dot(Minus(p, ray.origin), n) / denom;
    var back := Minus(ray.origin, p);
    assert Minus(At(ray, t), p) == Plus(back, Scale(ray.direction, t)) by {
      var lhs := Minus(At(ray, t), p);
      forall i | 0 <= i < 3 ensures lhs[i] == Plus(back, Scale(ray.direction, t))[i] { }
    }
    DotPlus(back, Scale(ray.direction, t), n);
    DotScale(ray.direction, n, t);
    assert back == Scale(Minus(p, ray.origin), -1.0) by {
      forall i | 0 <= i < 3 ensures back[i] == Scale(Minus(p, ray.origin), -1.0)[i] { }
    }
    DotScale(Minus(p, ray.origin), n, -1.0);
    assert t * denom == Dot(Minus(p, ray.origin), n);
  }
}
