/** src/Primitives.cs: the ray and the three coordinate-axis descriptors. */
module SrcPrimitives {
  import opened Numerics

  datatype Ray = Ray(origin: Vec3, direction: Vec3)

  /** Origin + Direction * t. */
  function PointAt(ray: Ray, t: real): (p: Vec3)
    ensures Sub(p, ray.origin) == Scale(ray.direction, t)
  {
    Add(ray.origin, Scale(ray.direction, t))
  }

  /** -Sign(v . Direction) * v: the vector turned to face against the ray. */
  function Opposite(ray: Ray, v: Vec3): (r: Vec3)
    ensures Dot(r, ray.direction) <= 0.0
    ensures Dot(v, ray.direction) != 0.0 ==> Dot(r, ray.direction) < 0.0
    ensures Dot(v, ray.direction) == 0.0 ==> r == Zero
    ensures r == v || r == Neg(v) || r == Zero
  {
    Scale(v, -(Sign(Dot(v, ray.direction)) as real))
  }

  lemma PointAtStart(ray: Ray)
    ensures PointAt(ray, 0.0) == ray.origin
  {
  }

  /** PointAt is affine in t: moving on by b from PointAt(a) gives PointAt(a + b). */
  lemma PointAtAffine(ray: Ray, a: real, b: real)
    ensures PointAt(ray, a + b) == Add(PointAt(ray, a), Scale(ray.direction, b))
  {
  }

  // ---------------------------------------------------------------- axes

  datatype Axis = AxisX | AxisY | AxisZ

  /** The index of the axis component and of the two in-plane components. */
  function AxisIndex(a: Axis): int { match a case AxisX => 0 case AxisY => 1 case AxisZ => 2 }
  function MainIndex(a: Axis): int { match a case AxisX => 2 case AxisY => 0 case AxisZ => 0 }
  function SecondaryIndex(a: Axis): int { match a case AxisX => 1 case AxisY => 2 case AxisZ => 1 }

  function Unit(a: Axis): Vec3 { match a case AxisX => UnitX case AxisY => UnitY case AxisZ => UnitZ }

  function GetAxis(a: Axis, v: Vec3): real { match a case AxisX => v.x case AxisY => v.y case AxisZ => v.z }
  function GetMain(a: Axis, v: Vec3): real { match a case AxisX => v.z case AxisY => v.x case AxisZ => v.x }
  function GetSecondary(a: Axis, v: Vec3): real { match a case AxisX => v.y case AxisY => v.z case AxisZ => v.y }

  /** Places v.X on the axis, v.Y on the main and v.Z on the secondary component. */
  function Apply(a: Axis, v: Vec3): Vec3 {
    match a
    case AxisX => Vec3(v.x, v.z, v.y)
    case AxisY => Vec3(v.y, v.x, v.z)
    case AxisZ => Vec3(v.y, v.z, v.x)
  }

  /** (Axis, Main, Secondary) is a permutation of {0, 1, 2}. */
  lemma IndicesArePermutation(a: Axis)
    ensures {AxisIndex(a), MainIndex(a), SecondaryIndex(a)} == {0, 1, 2}
  {
  }

  /** The getters read the components at the declared indices, and Unit is 1 exactly on the axis. */
  lemma GettersMatchIndices(a: Axis, v: Vec3)
    ensures GetAxis(a, v) == At(v, AxisIndex(a))
    ensures GetMain(a, v) == At(v, MainIndex(a))
    ensures GetSecondary(a, v) == At(v, SecondaryIndex(a))
    ensures forall i :: 0 <= i < 3 ==> At(Unit(a), i) == if i == AxisIndex(a) then 1.0 else 0.0
  {
  }

  /** Apply and the getters are inverse: Apply((p, q, r)) has p on the axis, q on main, r on secondary. */
  lemma ApplyPlacesComponents(a: Axis, v: Vec3)
    ensures GetAxis(a, Apply(a, v)) == v.x
    ensures GetMain(a, Apply(a, v)) == v.y
    ensures GetSecondary(a, Apply(a, v)) == v.z
  {
  }
}
