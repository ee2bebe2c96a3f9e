/** The value types of the ingestion pipeline (include/OBJParser.h).
    Single-precision floats are modelled as reals: the pipeline only copies
    them, compares them and computes 1 - t. */
module ObjTypes {

  datatype Vec2 = Vec2(x: real, y: real)
  datatype Vec3 = Vec3(x: real, y: real, z: real)

  const Zero2 := Vec2(0.0, 0.0)
  const Zero3 := Vec3(0.0, 0.0, 0.0)

  /** One decoded texel. The header puts no bound on the channels. */
  datatype Pixel = Pixel(r: int, g: int, b: int)

  /** One output vertex: a missing normal or uv is the zero vector. */
  datatype Vertex = Vertex(position: Vec3, normal: Vec3, uv: Vec2)

  /** A material record of an MTL library, with its decoded diffuse texture. */
  datatype MtlMaterial = MtlMaterial(
    name: string,
    Ka: Vec3, Kd: Vec3, Ks: Vec3,
    Ns: real,
    d: real,
    illum: int,
    mapKd: string,
    textureWidth: int,
    textureHeight: int,
    textureData: seq<Pixel>)

  /** The record `newmtl name` opens: the member initialisers of MTLMaterial. */
  function DefaultMaterial(name: string): MtlMaterial
  {
    MtlMaterial(name, Zero3, Vec3(0.8, 0.8, 0.8), Zero3, 0.0, 1.0, 0, "", 0, 0, [])
  }

  /** The deduplication key of a face corner: 0-based position, texture and
      normal indices, -1 where absent. */
  datatype ObjIndex = ObjIndex(v: int, vt: int, vn: int)

  /** ObjIndex::operator==: component-wise equality, which is exactly the
      identity of the key, so a Dafny map keyed by ObjIndex behaves as the
      source's hash map. */
  function SameIndex(a: ObjIndex, b: ObjIndex): (r: bool)
    ensures r <==> a == b
  {
    a.v == b.v && a.vt == b.vt && a.vn == b.vn
  }

  /** Why a load stops: std::stoi threw on a malformed or out-of-range
      number, or a face referenced an attribute that does not exist. */
  datatype Fault = MalformedNumber | IndexOutOfRange
}
