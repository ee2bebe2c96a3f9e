/** The parser object of include/OBJParser.h and src/OBJParser.cpp: its
    fields, `clear`, and the loaders that fill them line by line, each
    proved to end in the state the reading functions of `ObjLoad` and `Mtl`
    describe. */
module Parser {
  import opened Maybe
  import opened ObjTypes
  import opened Formats
  import opened Text
  import opened Faces
  import opened Ppm
  import opened Mtl
  import opened ObjLoad

  class ObjParser {
    var positions: seq<Vec3>
    var normals: seq<Vec3>
    var uvs: seq<Vec2>
    var materials: Materials
    var activeMaterial: string
    var firstUsedMaterial: string
    var boundsMin: Vec3
    var boundsMax: Vec3
    var hasUVs: bool
    var vertices: seq<Vertex>
    var indices: seq<nat>

    /** The fields as one value. */
    function State(): ParserState
      reads this
    {
      ParserState(positions, normals, uvs, materials, activeMaterial, firstUsedMaterial,
                  boundsMin, boundsMax, hasUVs, vertices, indices)
    }

    /** What holds of the fields between calls. */
    ghost predicate Valid()
      reads this
    {
      OutputOk(State())
    }

    /** A new parser holds nothing: empty containers and names, zero bounds,
        no uvs. */
    constructor()
      ensures State() == Cleared() && Valid()
    {
      positions, normals, uvs := [], [], [];
      materials, activeMaterial, firstUsedMaterial := map[], "", "";
      boundsMin, boundsMax, hasUVs := Zero3, Zero3, false;
      vertices, indices := [], [];
    }

    /** clear: every container and name is emptied, the bounds are zeroed
        and hasUVs is reset. */
    method Clear()
      modifies this
      ensures positions == [] && normals == [] && uvs == [] && vertices == [] && indices == []
      ensures materials == map[] && activeMaterial == "" && firstUsedMaterial == ""
      ensures boundsMin == Zero3 && boundsMax == Zero3 && !hasUVs
      ensures State() == Cleared() && Valid()
    {
      positions := [];
      normals := [];
      uvs := [];
      vertices := [];
      indices := [];
      materials := map[];
      activeMaterial := "";
      firstUsedMaterial := "";
      boundsMin := Zero3;
      boundsMax := Zero3;
      hasUVs := false;
    }

    /** getResolvedActiveMaterial: the record stored under the active name,
        or under the first name used when no name is active; none when that
        name is empty or not stored. */
    function ResolvedActiveMaterial(): (r: Option<MtlMaterial>)
      reads this
      ensures var name := if activeMaterial != "" then activeMaterial else firstUsedMaterial;
              (r.Some? <==> name != "" && name in materials) &&
              (r.Some? ==> r.value == materials[name])
    {
      ResolveActive(State())
    }

    /** tryGetActiveDiffuse, with the caller's colour passed in and
        returned: true with the resolved record's Kd, or false with the
        caller's colour untouched. */
    function TryGetActiveDiffuse(outKd: Vec3): (r: (bool, Vec3))
      reads this
      ensures r.0 <==> ResolvedActiveMaterial().Some?
      ensures r.0 ==> r.1 == ResolvedActiveMaterial().value.Kd
      ensures !r.0 ==> r.1 == outKd
    {
      ActiveDiffuse(State(), outKd)
    }

    /** loadFromFile: clears the parser, then reads the file line by line
        until its end or until a malformed number or a missing attribute
        stops it; the outcome and the new state are those of `LoadObj`, and
        the output invariant holds in every case. */
    method LoadFromFile(fs: FileSystem, path: string) returns (outcome: LoadOutcome)
      modifies this
      ensures (State(), outcome) == LoadObj(fs, path)
      ensures Valid()
    {
      Clear();
      if path !in fs.objFiles {
        return OpenFailed;
      }
      var lines := fs.objFiles[path];
      var dir := DirectoryOf(path);
      var index: map<ObjIndex, nat> := map[];
      ClearedValid();
      var i := 0;
      while i < |lines|
        invariant 0 <= i <= |lines|
        invariant RunObj(fs, dir, ObjStart(), lines[..i]) == ObjRun(State(), index, None)
      {
        RunObjNext(fs, dir, ObjStart(), lines, i, ObjRun(State(), index, None));
        var fault;
        index, fault := ReadLine(fs, dir, index, lines[i]);
        if fault.Some? {
          StoppedStays(fs, dir, ObjStart(), lines, i + 1);
          RunObjValid(fs, dir, ObjStart(), lines);
          return Aborted(fault.value);
        }
        i := i + 1;
      }
      assert lines[..i] == lines;
      RunObjValid(fs, dir, ObjStart(), lines);
      return Loaded;
    }

    /** One line of the OBJ file. */
    method ReadLine(fs: FileSystem, dir: string, index: map<ObjIndex, nat>, line: ObjLine)
      returns (index': map<ObjIndex, nat>, fault: Option<Fault>)
      modifies this
      ensures ObjRun(State(), index', fault) == StepLine(fs, dir, old(State()), index, line)
    {
      index', fault := index, None;
      match line
      case Position(p) =>
        AddPosition(p);
      case Normal(n) =>
        normals := normals + [n];
      case TexCoord(uv) =>
        uvs := uvs + [uv];
        hasUVs := true;
      case MtlLib(rest) =>
        var file := Ltrim(rest);
        if file != "" {
          var loaded := LoadMtlFromFile(fs, Join(dir, file));
          if loaded == MtlAborted {
            fault := Some(MalformedNumber);
          }
        }
      case UseMtl(name) =>
        if name != "" {
          activeMaterial := name;
        }
        if firstUsedMaterial == "" {
          firstUsedMaterial := activeMaterial;
        }
      case Face(tokens) =>
        index', fault := AddFace(index, tokens);
      case Ignored =>
    }

    /** A `v` line: the position is appended; the first one becomes both
        bounds and every later one widens them axis by axis. */
    method AddPosition(p: Vec3)
      modifies this
      ensures State() == ObjLoad.AddPosition(old(State()), p)
    {
      positions := positions + [p];
      if |positions| == 1 {
        boundsMin := p;
        boundsMax := p;
      } else {
        var lo, hi := boundsMin, boundsMax;
        if p.x < lo.x { lo := lo.(x := p.x); }
        if p.y < lo.y { lo := lo.(y := p.y); }
        if p.z < lo.z { lo := lo.(z := p.z); }
        if p.x > hi.x { hi := hi.(x := p.x); }
        if p.y > hi.y { hi := hi.(y := p.y); }
        if p.z > hi.z { hi := hi.(z := p.z); }
        assert lo == Lower(boundsMin, p) && hi == Upper(boundsMax, p);
        boundsMin, boundsMax := lo, hi;
      }
    }

    /** An `f` line: its corners are deduplicated into the vertex array,
        which keeps what they appended even when a corner fails; then the
        corners are fanned into triangles. */
    method AddFace(index: map<ObjIndex, nat>, tokens: seq<string>)
      returns (index': map<ObjIndex, nat>, fault: Option<Fault>)
      modifies this
      ensures ObjRun(State(), index', fault) == StepFace(old(State()), index, tokens)
    {
      var run := DedupCorners(Dedup(vertices, index), tokens, positions, normals, uvs);
      vertices := run.d.vertices;
      index' := run.d.indexMap;
      match run {
        case FaceFault(_, f) =>
          fault := Some(f);
        case FaceOk(_, cs) =>
          AppendFan(cs);
          fault := None;
      }
    }

    /** The fan loop: (c0, ci, ci+1) for i = 1 .. k-2. */
    method AppendFan(cs: seq<nat>)
      modifies this
      ensures State() == old(State()).(indices := old(indices) + Fan(cs))
    {
      var i := 1;
      while i + 1 < |cs|
        invariant 1 <= i && (|cs| >= 2 ==> i + 1 <= |cs|)
        invariant State() == old(State()).(indices := indices)
        invariant indices == old(indices) + Fan(cs[..if i + 1 <= |cs| then i + 1 else |cs|])
      {
        var prefix := cs[..i + 2];
        assert prefix[..|prefix| - 1] == cs[..i + 1];
        assert prefix[0] == cs[0] && prefix[|prefix| - 2] == cs[i] && prefix[|prefix| - 1] == cs[i + 1];
        indices := indices + [cs[0], cs[i], cs[i + 1]];
        i := i + 1;
      }
      assert cs[..if i + 1 <= |cs| then i + 1 else |cs|] == cs;
    }

    /** loadMtlFromFile: reads the library line by line into the material
        map; the outcome and the new map are those of `LoadMtl`, and no other
        field changes. */
    method LoadMtlFromFile(fs: FileSystem, path: string) returns (outcome: MtlOutcome)
      modifies this
      ensures (materials, outcome) == LoadMtl(fs, path, old(materials))
      ensures State() == old(State()).(materials := materials)
    {
      if path !in fs.mtlFiles {
        return MtlNotOpened;
      }
      var lines := fs.mtlFiles[path];
      var dir := DirectoryOf(path);
      var current := DefaultMaterial("");
      var hasCurrent := false;
      var i := 0;
      while i < |lines|
        invariant 0 <= i <= |lines|
        invariant State() == old(State()).(materials := materials)
        invariant RunMtl(fs.ppmFiles, dir, MtlStart(old(materials)), lines[..i])
                  == MtlGoing(MtlScan(materials, current, hasCurrent))
      {
        RunMtlNext(fs.ppmFiles, dir, MtlStart(old(materials)), lines, i, MtlScan(materials, current, hasCurrent));
        var line := lines[i];
        if line.NewMtl? {
          if hasCurrent && current.name != "" {
            materials := materials[current.name := current];
          }
          current := DefaultMaterial(line.name);
          hasCurrent := true;
        } else if hasCurrent {
          var refined := ApplyDirective(fs.ppmFiles, dir, current, line);
          if refined.None? {
            ThrownStays(fs.ppmFiles, dir, MtlStart(old(materials)), lines, i + 1);
            return MtlAborted;
          }
          current := refined.value;
        }
        i := i + 1;
      }
      assert lines[..i] == lines;
      if hasCurrent && current.name != "" {
        materials := materials[current.name := current];
      }
      return MtlLoaded;
    }
  }

  /** The corner loop of an `f` line: each token is parsed and resolved,
      a key already in the map reuses its vertex and a new one appends the
      vertex it gathers; the first failing corner ends the loop. */
  method DedupCorners(d: Dedup, tokens: seq<string>, pos: seq<Vec3>, nor: seq<Vec3>, uvs: seq<Vec2>)
    returns (r: FaceRun)
    ensures r == FaceCorners(d, tokens, pos, nor, uvs)
  {
    var verts: seq<Vertex>, index: map<ObjIndex, nat>, corners: seq<nat> := d.vertices, d.indexMap, [];
    var t := 0;
    while t < |tokens|
      invariant 0 <= t <= |tokens|
      invariant FaceCorners(d, tokens[..t], pos, nor, uvs) == FaceOk(Dedup(verts, index), corners)
    {
      var key := CornerKey(tokens[t], |pos|, |uvs|, |nor|);
      if key.None? {
        FaceCornersNext(d, tokens, pos, nor, uvs, t);
        FaceFaultStays(d, tokens, pos, nor, uvs, t + 1);
        return FaceFault(Dedup(verts, index), MalformedNumber);
      }
      var k := key.value;
      if k in index {
        FaceCornersGrow(d, tokens, pos, nor, uvs, t, Dedup(verts, index), corners, k, Dedup(verts, index), index[k]);
        corners := corners + [index[k]];
      } else {
        if !(0 <= k.v < |pos|) || k.vt >= |uvs| || k.vn >= |nor| {
          FaceCornersNext(d, tokens, pos, nor, uvs, t);
          FaceFaultStays(d, tokens, pos, nor, uvs, t + 1);
          return FaceFault(Dedup(verts, index), IndexOutOfRange);
        }
        var vx := Vertex(pos[k.v],
                         if k.vn >= 0 then nor[k.vn] else Zero3,
                         if k.vt >= 0 then uvs[k.vt] else Zero2);
        var n := |verts|;
        FaceCornersGrow(d, tokens, pos, nor, uvs, t, Dedup(verts, index), corners, k, Dedup(verts + [vx], index[k := n]), n);
        verts := verts + [vx];
        index := index[k := n];
        corners := corners + [n];
      }
      t := t + 1;
    }
    assert tokens[..t] == tokens;
    return FaceOk(Dedup(verts, index), corners);
  }

  /** One directive of an open record, decoding the texture a `map_Kd`
      names; `None` is the decoder throwing. */
  method ApplyDirective(ppmFiles: map<string, PpmText>, dir: string, m: MtlMaterial, line: MtlLine)
    returns (r: Option<MtlMaterial>)
    ensures r == Refine(ppmFiles, dir, m, line)
  {
    match line
    case NewMtl(_) => r := Some(m);
    case Ambient(c) => r := Some(m.(Ka := c));
    case Diffuse(c) => r := Some(m.(Kd := c));
    case Specular(c) => r := Some(m.(Ks := c));
    case Shininess(ns) => r := Some(m.(Ns := ns));
    case Dissolve(d) => r := Some(m.(d := d));
    case Transparency(tr) => r := Some(m.(d := 1.0 - tr));
    case IllumModel(illum) => r := Some(m.(illum := illum));
    case DiffuseMap(rest) =>
      var file := Ltrim(rest);
      var named := m.(mapKd := file);
      var image := LoadPpm(ppmFiles, TexturePath(dir, file));
      match image {
        case Decoded(w, h, px) =>
          r := Some(named.(textureWidth := w, textureHeight := h, textureData := px));
        case Failed =>
          r := Some(named);
        case Threw =>
          r := None;
      }
    case Skip => r := Some(m);
  }
}
