/**
 * ConsoleRayTracer/Ray.cs: the ray of the oldest files of the middle generation. PointAt is
 * the newest generation's (SrcPrimitives); OppositeNormal turns a normal to face against the
 * ray and says whether it already did.
 */
module CrtRay {
  import opened Numerics
  import opened SrcPrimitives

  /** (front face, normal): the normal kept when the ray runs against it, negated otherwise. */
  function OppositeNormal(ray: Ray, normal: Vec3): (r: (bool, Vec3))
    ensures r.0 <==> Dot(ray.direction, normal) < 0.0
    ensures r.0 ==> r.1 == normal
    ensures !r.0 ==> r.1 == Neg(normal)
    ensures Dot(ray.direction, r.1) <= 0.0
    ensures Dot(ray.direction, normal) != 0.0 ==> Dot(ray.direction, r.1) < 0.0
  {
    if Dot(ray.direction, normal) < 0.0 then (true, normal) else (false, Neg(normal))
  }

  /**
   * Away from the grazing case the normal is the one Ray.Opposite of the primitives gives;
   * at a grazing ray OppositeNormal still returns -normal where Opposite gives zero.
   */
  lemma AgreesWithOpposite(ray: Ray, normal: Vec3)
    ensures Dot(ray.direction, normal) != 0.0 ==> OppositeNormal(ray, normal).1 == Opposite(ray, normal)
    ensures Dot(ray.direction, normal) == 0.0 ==> OppositeNormal(ray, normal) == (false, Neg(normal)) && Opposite(ray, normal) == Zero
  {
    assert Dot(normal, ray.direction) == Dot(ray.direction, normal);
  }

  /** Turning an already turned normal keeps it, unless the ray grazes it. */
  lemma OppositeNormalIdempotent(ray: Ray, normal: Vec3)
    requires Dot(ray.direction, normal) != 0.0
    ensures var n := OppositeNormal(ray, normal).1; OppositeNormal(ray, n) == (true, n)
  {
  }
}
