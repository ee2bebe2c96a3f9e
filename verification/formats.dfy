/** The three input formats, as the loaders see them once a file has been
    split into lines and each line into its directive and arguments. */
module Formats {
  import opened ObjTypes

  /** One line of a Wavefront OBJ file, dispatched on its leading token.
      `MtlLib` keeps the raw rest of the line; `UseMtl` the first word after
      the key ("" when there is none); `Face` the corner tokens. Comments,
      blank lines and every other directive are `Ignored`. */
  datatype ObjLine =
    | Position(p: Vec3)
    | Normal(n: Vec3)
    | TexCoord(uv: Vec2)
    | MtlLib(rest: string)
    | UseMtl(name: string)
    | Face(corners: seq<string>)
    | Ignored

  /** One line of a Wavefront MTL library. `NewMtl` carries the first word
      after the key ("" when there is none), `DiffuseMap` the raw rest of the
      line. Blank lines, comments and unknown keys are `Skip`. */
  datatype MtlLine =
    | NewMtl(name: string)
    | Ambient(c: Vec3)
    | Diffuse(c: Vec3)
    | Specular(c: Vec3)
    | Shininess(ns: real)
    | Dissolve(d: real)
    | Transparency(tr: real)
    | IllumModel(illum: int)
    | DiffuseMap(rest: string)
    | Skip

  /** A plain-text PPM file: its lines, each split into whitespace-separated
      tokens. */
  type PpmText = seq<seq<string>>

  /** The files a load can open, by path; a path that is absent cannot be
      opened. */
  datatype FileSystem = FileSystem(
    objFiles: map<string, seq<ObjLine>>,
    mtlFiles: map<string, seq<MtlLine>>,
    ppmFiles: map<string, PpmText>)
}
