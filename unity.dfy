/**
 * `StateFluxTypeConvert` (StateFluxer/Assets/StateFlux/Unity/Convert.cs): conversions between
 * Unity's vectors and colours and the StateFlux records. They only copy components.
 */
module Unity {
  import opened Model

  datatype Vector3 = Vector3(x: Float, y: Float, z: Float)
  datatype Vector2 = Vector2(x: Float, y: Float)
  datatype UnityColor = UnityColor(r: Float, g: Float, b: Float, a: Float)

  /** `Vector3.Convert3d()`: keeps x and y, drops z. */
  function Vector3Convert3d(v: Vector3): (r: Vec2d)
    ensures r.X == v.x && r.Y == v.y
  {
    Vec2d(v.x, v.y)
  }

  /** `Vector3.Convert2d()`: written out separately in the source, with the same body. */
  function Vector3Convert2d(v: Vector3): (r: Vec2d)
    ensures r.X == v.x && r.Y == v.y
  {
    Vec2d(v.x, v.y)
  }

  /** `Vector2.Convert2d()`. */
  function Vector2Convert2d(v: Vector2): (r: Vec2d)
    ensures r.X == v.x && r.Y == v.y
  {
    Vec2d(v.x, v.y)
  }

  /** `Vec2d.Convert3d()`: the object initialiser leaves z at 0. */
  function Vec2dConvert3d(v: Vec2d): (r: Vector3)
    ensures r.x == v.X && r.y == v.Y && r.z == 0.0
  {
    Vector3(v.X, v.Y, 0.0)
  }

  /** `Vec2d.Convert2d()`. */
  function Vec2dConvert2d(v: Vec2d): (r: Vector2)
    ensures r.x == v.X && r.y == v.Y
  {
    Vector2(v.X, v.Y)
  }

  /** `StateFlux.Model.Color.Convert()`. */
  function ToUnityColor(c: Color): (u: UnityColor)
    ensures u.r == c.Red && u.g == c.Green && u.b == c.Blue && u.a == c.Alpha
  {
    UnityColor(c.Red, c.Green, c.Blue, c.Alpha)
  }

  /** `UnityEngine.Color.Convert()`. */
  function FromUnityColor(u: UnityColor): (c: Color)
    ensures c.Red == u.r && c.Green == u.g && c.Blue == u.b && c.Alpha == u.a
  {
    Color(u.r, u.g, u.b, u.a)
  }

  /** Both Vector3 conversions agree. */
  lemma Vector3ConversionsAgree(v: Vector3)
    ensures Vector3Convert3d(v) == Vector3Convert2d(v)
  {
  }

  /** Vec2d -> Vector3 -> Vec2d and Vec2d -> Vector2 -> Vec2d give back the same record. */
  lemma Vec2dRoundTrips(v: Vec2d)
    ensures Vector3Convert3d(Vec2dConvert3d(v)) == v
    ensures Vector2Convert2d(Vec2dConvert2d(v)) == v
  {
  }

  /** Vector3 -> Vec2d -> Vector3 is the projection onto the z = 0 plane. */
  lemma Vector3RoundTrip(v: Vector3)
    ensures Vec2dConvert3d(Vector3Convert3d(v)) == v.(z := 0.0)
  {
  }

  /** The two colour conversions are mutual inverses. */
  lemma ColorRoundTrips(c: Color, u: UnityColor)
    ensures FromUnityColor(ToUnityColor(c)) == c
    ensures ToUnityColor(FromUnityColor(u)) == u
  {
  }
}
