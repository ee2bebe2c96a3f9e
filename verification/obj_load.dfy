/** The OBJ reader of src/OBJParser.cpp (`loadFromFile`, lines 318-439) as
    a fold over the lines of the file: positions with their running
    bounds, normals, texture coordinates, material libraries and names,
    and faces deduplicated into output vertices and fanned into
    triangles. Also the resolution of the active material (lines
    228-250). */
module ObjLoad {
  import opened Maybe
  import opened ObjTypes
  import opened Formats
  import opened Text
  import opened Faces
  import opened Mtl

  /** The parser's fields (include/OBJParser.h, lines 62-79). */
  datatype ParserState = ParserState(
    positions: seq<Vec3>,
    normals: seq<Vec3>,
    uvs: seq<Vec2>,
    materials: Materials,
    activeMaterial: string,
    firstUsedMaterial: string,
    boundsMin: Vec3,
    boundsMax: Vec3,
    hasUVs: bool,
    vertices: seq<Vertex>,
    indices: seq<nat>)

  /** The state before any load, and after `clear`. */
  function Cleared(): ParserState
  {
    ParserState([], [], [], map[], "", "", Zero3, Zero3, false, [], [])
  }

  // ---------------------------------------------------------------------
  // Positions and their bounds

  /** One coordinate of a vector: x, y or z. */
  function Comp(v: Vec3, axis: nat): real
    requires axis < 3
  {
    if axis == 0 then v.x else if axis == 1 then v.y else v.z
  }

  /** The running minimum after seeing p: per axis, p where it is smaller. */
  function Lower(m: Vec3, p: Vec3): (r: Vec3)
    ensures forall a :: 0 <= a < 3 ==>
              Comp(r, a) <= Comp(m, a) && Comp(r, a) <= Comp(p, a) &&
              (Comp(r, a) == Comp(m, a) || Comp(r, a) == Comp(p, a))
  {
    Vec3(if p.x < m.x then p.x else m.x,
         if p.y < m.y then p.y else m.y,
         if p.z < m.z then p.z else m.z)
  }

  /** The running maximum after seeing p: per axis, p where it is larger. */
  function Upper(m: Vec3, p: Vec3): (r: Vec3)
    ensures forall a :: 0 <= a < 3 ==>
              Comp(m, a) <= Comp(r, a) && Comp(p, a) <= Comp(r, a) &&
              (Comp(r, a) == Comp(m, a) || Comp(r, a) == Comp(p, a))
  {
    Vec3(if p.x > m.x then p.x else m.x,
         if p.y > m.y then p.y else m.y,
         if p.z > m.z then p.z else m.z)
  }

  /** A `v` line: the position is appended; the first one sets both
      bounds, later ones widen them per axis. */
  function AddPosition(st: ParserState, p: Vec3): ParserState
  {
    if st.positions == [] then st.(positions := [p], boundsMin := p, boundsMax := p)
    else st.(positions := st.positions + [p], boundsMin := Lower(st.boundsMin, p), boundsMax := Upper(st.boundsMax, p))
  }

  /** lo and hi are the tight per-axis bounds of ps: no position lies
      outside them and each is reached by some position; with no position
      both are the zero vector. */
  ghost predicate BoundsOk(ps: seq<Vec3>, lo: Vec3, hi: Vec3)
  {
    if ps == [] then lo == Zero3 && hi == Zero3
    else forall a :: 0 <= a < 3 ==>
      (forall i :: 0 <= i < |ps| ==> Comp(lo, a) <= Comp(ps[i], a) <= Comp(hi, a)) &&
      (exists i :: 0 <= i < |ps| && Comp(ps[i], a) == Comp(lo, a)) &&
      (exists i :: 0 <= i < |ps| && Comp(ps[i], a) == Comp(hi, a))
  }

  /** A `v` line keeps the bounds tight. */
  lemma AddPositionBounds(st: ParserState, p: Vec3)
    requires BoundsOk(st.positions, st.boundsMin, st.boundsMax)
    ensures var st' := AddPosition(st, p);
            BoundsOk(st'.positions, st'.boundsMin, st'.boundsMax)
  {
    var st' := AddPosition(st, p);
    var ps, ps' := st.positions, st'.positions;
    if ps == [] {
      forall a | 0 <= a < 3
        ensures Comp(ps'[0], a) == Comp(st'.boundsMin, a) == Comp(st'.boundsMax, a)
      {
      }
    } else {
      assert ps' == ps + [p];
      var lo, hi := st'.boundsMin, st'.boundsMax;
      assert lo == Lower(st.boundsMin, p) && hi == Upper(st.boundsMax, p);
      forall a | 0 <= a < 3
        ensures (forall i :: 0 <= i < |ps'| ==> Comp(lo, a) <= Comp(ps'[i], a) <= Comp(hi, a)) &&
                (exists i :: 0 <= i < |ps'| && Comp(ps'[i], a) == Comp(lo, a)) &&
                (exists i :: 0 <= i < |ps'| && Comp(ps'[i], a) == Comp(hi, a))
      {
        forall i | 0 <= i < |ps'|
          ensures Comp(lo, a) <= Comp(ps'[i], a) <= Comp(hi, a)
        {
          if i < |ps| {
            assert ps'[i] == ps[i];
            assert Comp(st.boundsMin, a) <= Comp(ps[i], a) <= Comp(st.boundsMax, a);
          } else {
            assert ps'[i] == p;
          }
        }
        var i :| 0 <= i < |ps| && Comp(ps[i], a) == Comp(st.boundsMin, a);
        var j :| 0 <= j < |ps| && Comp(ps[j], a) == Comp(st.boundsMax, a);
        assert ps'[i] == ps[i] && ps'[j] == ps[j] && ps'[|ps|] == p;
        var wl := if Comp(lo, a) == Comp(p, a) then |ps| else i;
        var wh := if Comp(hi, a) == Comp(p, a) then |ps| else j;
        assert Comp(ps'[wl], a) == Comp(lo, a);
        assert Comp(ps'[wh], a) == Comp(hi, a);
      }
    }
  }

  /** Component-wise order. */
  predicate Below(a: Vec3, b: Vec3)
  {
    a.x <= b.x && a.y <= b.y && a.z <= b.z
  }

  /** Tight bounds contain every position. */
  lemma BoundsContain(ps: seq<Vec3>, lo: Vec3, hi: Vec3, i: nat)
    requires BoundsOk(ps, lo, hi) && i < |ps|
    ensures Below(lo, ps[i]) && Below(ps[i], hi)
  {
    assert Comp(lo, 0) <= Comp(ps[i], 0) <= Comp(hi, 0);
    assert Comp(lo, 1) <= Comp(ps[i], 1) <= Comp(hi, 1);
    assert Comp(lo, 2) <= Comp(ps[i], 2) <= Comp(hi, 2);
  }

  // ---------------------------------------------------------------------
  // Material names

  /** A `usemtl` line: a given name overwrites the active one (without a
      name the active one is kept); the first-used name is set only while it
      is empty. */
  function UseMaterial(st: ParserState, name: string): ParserState
  {
    var active := if name == "" then st.activeMaterial else name;
    st.(activeMaterial := active,
        firstUsedMaterial := if st.firstUsedMaterial == "" then active else st.firstUsedMaterial)
  }

  /** `usemtl n` makes n active and records it as first used only when no
      name was recorded before; nothing else changes. */
  lemma UseMaterialEffect(st: ParserState, name: string)
    requires st.activeMaterial == "" <==> st.firstUsedMaterial == ""
    ensures var st' := UseMaterial(st, name);
            (name != "" ==> st'.activeMaterial == name) &&
            (name != "" && st.firstUsedMaterial == "" ==> st'.firstUsedMaterial == name) &&
            (st.firstUsedMaterial != "" ==> st'.firstUsedMaterial == st.firstUsedMaterial) &&
            (name == "" ==> st' == st) &&
            (st'.activeMaterial == "" <==> st'.firstUsedMaterial == "") &&
            st'.materials == st.materials && st'.positions == st.positions &&
            st'.vertices == st.vertices && st'.indices == st.indices
  {
  }

  /** The name resolution looks up: the active one, or the first used one
      when no name is active. */
  function ChosenName(st: ParserState): string
  {
    if st.activeMaterial != "" then st.activeMaterial else st.firstUsedMaterial
  }

  /** getResolvedActiveMaterial: the record of the chosen name, absent when
      that name is empty or has no record. */
  function ResolveActive(st: ParserState): (r: Option<MtlMaterial>)
    ensures r.Some? <==> ChosenName(st) != "" && ChosenName(st) in st.materials
    ensures r.Some? ==> r.value == st.materials[ChosenName(st)] && r.value in st.materials.Values
  {
    var name := ChosenName(st);
    if name == "" || name !in st.materials then None else Some(st.materials[name])
  }

  /** tryGetActiveDiffuse: reports whether the active material resolves and,
      when it does, its diffuse colour; otherwise `outKd` is returned
      untouched. */
  function ActiveDiffuse(st: ParserState, outKd: Vec3): (r: (bool, Vec3))
    ensures r.0 <==> ResolveActive(st).Some?
    ensures r.0 ==> r.1 == ResolveActive(st).value.Kd
    ensures !r.0 ==> r.1 == outKd
  {
    var name := if st.activeMaterial != "" then st.activeMaterial else st.firstUsedMaterial;
    if name == "" then (false, outKd)
    else if name !in st.materials then (false, outKd)
    else (true, st.materials[name].Kd)
  }

  /** In a keyed map, the resolved record carries the chosen name; an active
      name shadows the first-used one. */
  lemma ResolveActiveNamed(st: ParserState)
    requires Keyed(st.materials)
    ensures ResolveActive(st).Some? ==> ResolveActive(st).value.name == ChosenName(st)
    ensures st.activeMaterial != "" ==>
              (ResolveActive(st).Some? <==> st.activeMaterial in st.materials)
    ensures st.activeMaterial == "" && st.firstUsedMaterial == "" ==> ResolveActive(st).None?
  {
  }

  // ---------------------------------------------------------------------
  // The line loop

  /** The loop state: the parser's fields, the local map from resolved key
      to output vertex, and the fault that stopped the load, if any. */
  datatype ObjRun = ObjRun(st: ParserState, index: map<ObjIndex, nat>, fault: Option<Fault>)

  /** An `f` line: its corners are deduplicated into the output vertices and
      fanned into triangles; a failing corner stops the load, keeping the
      vertices its predecessors added and adding no index. */
  function StepFace(st: ParserState, index: map<ObjIndex, nat>, tokens: seq<string>): ObjRun
  {
    match FaceCorners(Dedup(st.vertices, index), tokens, st.positions, st.normals, st.uvs)
    case FaceFault(d, f) => ObjRun(st.(vertices := d.vertices), d.indexMap, Some(f))
    case FaceOk(d, cs) => ObjRun(st.(vertices := d.vertices, indices := st.indices + Fan(cs)), d.indexMap, None)
  }

  /** An `mtllib` line: the trimmed rest of the line names a library beside
      the OBJ file; an empty name is ignored; a library that throws stops the
      load with what it had stored. */
  function StepMtlLib(fs: FileSystem, dir: string, st: ParserState, index: map<ObjIndex, nat>, rest: string): ObjRun
  {
    var file := Ltrim(rest);
    if file == "" then ObjRun(st, index, None)
    else
      var loaded := LoadMtl(fs, Join(dir, file), st.materials);
      ObjRun(st.(materials := loaded.0), index, if loaded.1 == MtlAborted then Some(MalformedNumber) else None)
  }

  /** One line of the file, dispatched on its directive. */
  function StepLine(fs: FileSystem, dir: string, st: ParserState, index: map<ObjIndex, nat>, line: ObjLine): ObjRun
  {
    match line
    case Position(p) => ObjRun(AddPosition(st, p), index, None)
    case Normal(n) => ObjRun(st.(normals := st.normals + [n]), index, None)
    case TexCoord(uv) => ObjRun(st.(uvs := st.uvs + [uv], hasUVs := true), index, None)
    case MtlLib(rest) => StepMtlLib(fs, dir, st, index, rest)
    case UseMtl(name) => ObjRun(UseMaterial(st, name), index, None)
    case Face(tokens) => StepFace(st, index, tokens)
    case Ignored => ObjRun(st, index, None)
  }

  /** A stopped load reads no further line. */
  function ObjStep(fs: FileSystem, dir: string, run: ObjRun, line: ObjLine): ObjRun
  {
    if run.fault.Some? then run else StepLine(fs, dir, run.st, run.index, line)
  }

  /** The read loop over the lines of the file. */
  function RunObj(fs: FileSystem, dir: string, start: ObjRun, lines: seq<ObjLine>): ObjRun
    decreases |lines|
  {
    if lines == [] then start
    else ObjStep(fs, dir, RunObj(fs, dir, start, lines[..|lines| - 1]), lines[|lines| - 1])
  }

  /** The loop state right after `clear`. */
  function ObjStart(): ObjRun
  {
    ObjRun(Cleared(), map[], None)
  }

  /** A load still going after i lines reads line i next. */
  lemma RunObjNext(fs: FileSystem, dir: string, start: ObjRun, lines: seq<ObjLine>, i: nat, run: ObjRun)
    requires i < |lines| && RunObj(fs, dir, start, lines[..i]) == run && run.fault.None?
    ensures RunObj(fs, dir, start, lines[..i + 1]) == StepLine(fs, dir, run.st, run.index, lines[i])
  {
    assert lines[..i + 1][..i] == lines[..i];
  }

  /** Once the load has stopped, no further line is read. */
  lemma {:induction false} StoppedStays(fs: FileSystem, dir: string, start: ObjRun, lines: seq<ObjLine>, k: nat)
    requires k <= |lines| && RunObj(fs, dir, start, lines[..k]).fault.Some?
    ensures RunObj(fs, dir, start, lines) == RunObj(fs, dir, start, lines[..k])
    decreases |lines|
  {
    if k == |lines| {
      assert lines[..k] == lines;
    } else {
      var init := lines[..|lines| - 1];
      assert init[..k] == lines[..k];
      StoppedStays(fs, dir, start, init, k);
    }
  }

  datatype LoadOutcome = Loaded | OpenFailed | Aborted(fault: Fault)

  /** loadFromFile: the state is cleared; a file that cannot be opened
      leaves it so; otherwise every line is read, libraries relative to the
      file's directory, until the end or the first fault. */
  function LoadObj(fs: FileSystem, path: string): (ParserState, LoadOutcome)
  {
    if path !in fs.objFiles then (Cleared(), OpenFailed)
    else
      var r := RunObj(fs, DirectoryOf(path), ObjStart(), fs.objFiles[path]);
      (r.st, if r.fault.Some? then Aborted(r.fault.value) else Loaded)
  }

  // ---------------------------------------------------------------------
  // The invariant of the loop

  /** What holds of the parser's output, with no reference to the local
      vertex map. */
  ghost predicate OutputOk(st: ParserState)
  {
    BoundsOk(st.positions, st.boundsMin, st.boundsMax) &&
    |st.indices| % 3 == 0 &&
    (forall j :: 0 <= j < |st.indices| ==> st.indices[j] < |st.vertices|) &&
    (st.hasUVs <==> st.uvs != []) &&
    (st.activeMaterial == "" <==> st.firstUsedMaterial == "") &&
    Keyed(st.materials)
  }

  /** OutputOk, and the vertices are exactly the distinct keys seen so far,
      each gathered from the attribute pools. */
  ghost predicate Valid(run: ObjRun)
  {
    OutputOk(run.st) &&
    DedupValid(Dedup(run.st.vertices, run.index), run.st.positions, run.st.normals, run.st.uvs)
  }

  lemma ClearedValid()
    ensures Valid(ObjStart())
  {
  }

  /** The fan of corners below n stays below n. */
  lemma FanBelow(cs: seq<nat>, n: nat)
    requires forall i :: 0 <= i < |cs| ==> cs[i] < n
    ensures forall j :: 0 <= j < |Fan(cs)| ==> Fan(cs)[j] < n
  {
    forall j | 0 <= j < |Fan(cs)|
      ensures Fan(cs)[j] < n
    {
      FanFromCorners(cs, j);
    }
  }

  /** Every corner of a face that is read whole names an output vertex. */
  lemma CornersBelow(d: Dedup, tokens: seq<string>, pos: seq<Vec3>, nor: seq<Vec3>, uvs: seq<Vec2>)
    requires DedupValid(d, pos, nor, uvs)
    ensures var fr := FaceCorners(d, tokens, pos, nor, uvs);
            DedupValid(fr.d, pos, nor, uvs) && d.vertices <= fr.d.vertices &&
            (fr.FaceOk? ==> forall i :: 0 <= i < |fr.corners| ==> fr.corners[i] < |fr.d.vertices|)
  {
    FaceCornersValid(d, tokens, pos, nor, uvs);
    var fr := FaceCorners(d, tokens, pos, nor, uvs);
    if fr.FaceOk? {
      forall i | 0 <= i < |fr.corners|
        ensures fr.corners[i] < |fr.d.vertices|
      {
        var k := CornerKey(tokens[i], |pos|, |uvs|, |nor|).value;
        assert fr.d.indexMap[k] == fr.corners[i];
      }
    }
  }

  /** Indices below n, extended by indices below n, stay below n. */
  lemma AppendBelow(xs: seq<nat>, ys: seq<nat>, m: nat, n: nat)
    requires m <= n
    requires forall j :: 0 <= j < |xs| ==> xs[j] < m
    requires forall j :: 0 <= j < |ys| ==> ys[j] < n
    ensures forall j :: 0 <= j < |xs + ys| ==> (xs + ys)[j] < n
  {
  }

  /** A fan added to whole triangles leaves whole triangles. */
  lemma WholeTriangles(xs: seq<nat>, cs: seq<nat>)
    requires |xs| % 3 == 0
    ensures |xs + Fan(cs)| % 3 == 0
  {
    var t := if |cs| < 3 then 0 else |cs| - 2;
    assert |xs + Fan(cs)| == |xs| + 3 * t;
  }

  /** An `f` line keeps the invariant: the old vertices and keys stay, every
      new index names an output vertex, and whole triangles are added. */
  lemma StepFaceValid(st: ParserState, index: map<ObjIndex, nat>, tokens: seq<string>)
    requires Valid(ObjRun(st, index, None))
    ensures Valid(StepFace(st, index, tokens))
    ensures st.vertices <= StepFace(st, index, tokens).st.vertices
  {
    var d := Dedup(st.vertices, index);
    CornersBelow(d, tokens, st.positions, st.normals, st.uvs);
    var fr := FaceCorners(d, tokens, st.positions, st.normals, st.uvs);
    var r := StepFace(st, index, tokens);
    if fr.FaceOk? {
      var fan := Fan(fr.corners);
      FanBelow(fr.corners, |fr.d.vertices|);
      AppendBelow(st.indices, fan, |st.vertices|, |fr.d.vertices|);
      WholeTriangles(st.indices, fr.corners);
      assert r.st == st.(vertices := fr.d.vertices, indices := st.indices + fan);
    } else {
      assert r.st == st.(vertices := fr.d.vertices);
    }
    assert r.index == fr.d.indexMap;
  }

  /** An `mtllib` line keeps the invariant. */
  lemma StepMtlLibValid(fs: FileSystem, dir: string, st: ParserState, index: map<ObjIndex, nat>, rest: string)
    requires Valid(ObjRun(st, index, None))
    ensures Valid(StepMtlLib(fs, dir, st, index, rest))
  {
    var file := Ltrim(rest);
    if file != "" {
      LoadMtlKeyed(fs, Join(dir, file), st.materials);
    }
  }

  /** Every directive keeps the invariant. */
  lemma StepLineValid(fs: FileSystem, dir: string, st: ParserState, index: map<ObjIndex, nat>, line: ObjLine)
    requires Valid(ObjRun(st, index, None))
    ensures Valid(StepLine(fs, dir, st, index, line))
  {
    var d := Dedup(st.vertices, index);
    match line
    case Position(p) =>
      AddPositionBounds(st, p);
      StableValid(d, st.positions, st.normals, st.uvs, AddPosition(st, p).positions, st.normals, st.uvs);
    case Normal(n) =>
      StableValid(d, st.positions, st.normals, st.uvs, st.positions, st.normals + [n], st.uvs);
    case TexCoord(uv) =>
      StableValid(d, st.positions, st.normals, st.uvs, st.positions, st.normals, st.uvs + [uv]);
    case MtlLib(rest) =>
      StepMtlLibValid(fs, dir, st, index, rest);
    case UseMtl(name) =>
      UseMaterialEffect(st, name);
    case Face(tokens) =>
      StepFaceValid(st, index, tokens);
    case Ignored =>
  }

  /** The read loop keeps the invariant. */
  lemma {:induction false} RunObjValid(fs: FileSystem, dir: string, start: ObjRun, lines: seq<ObjLine>)
    requires Valid(start)
    ensures Valid(RunObj(fs, dir, start, lines))
    decreases |lines|
  {
    if lines != [] {
      RunObjValid(fs, dir, start, lines[..|lines| - 1]);
      var prev := RunObj(fs, dir, start, lines[..|lines| - 1]);
      if prev.fault.None? {
        StepLineValid(fs, dir, prev.st, prev.index, lines[|lines| - 1]);
      }
    }
  }

  /** After any load, complete or not: the bounds are tight, every index
      names an output vertex, indices come in whole triangles, hasUVs says
      whether a `vt` was read, an active name implies a first-used one, and
      every material is stored under its own name. */
  lemma LoadObjOutputOk(fs: FileSystem, path: string)
    ensures OutputOk(LoadObj(fs, path).0)
  {
    if path in fs.objFiles {
      RunObjValid(fs, DirectoryOf(path), ObjStart(), fs.objFiles[path]);
    }
  }

  /** After any load, the output vertices correspond one to one with the
      distinct resolved keys of the corners read: each vertex is the one its
      key gathers, and two keys never share one. */
  lemma LoadObjDedup(fs: FileSystem, path: string)
    requires path in fs.objFiles
    ensures var r := RunObj(fs, DirectoryOf(path), ObjStart(), fs.objFiles[path]);
            r.st == LoadObj(fs, path).0 &&
            DedupValid(Dedup(r.st.vertices, r.index), r.st.positions, r.st.normals, r.st.uvs)
  {
    RunObjValid(fs, DirectoryOf(path), ObjStart(), fs.objFiles[path]);
  }

  // ---------------------------------------------------------------------
  // The attribute pools

  /** The positions of the `v` lines, in file order. */
  function PositionsIn(lines: seq<ObjLine>): seq<Vec3>
    decreases |lines|
  {
    if lines == [] then []
    else PositionsIn(lines[..|lines| - 1]) + (if lines[|lines| - 1].Position? then [lines[|lines| - 1].p] else [])
  }

  /** The normals of the `vn` lines, in file order. */
  function NormalsIn(lines: seq<ObjLine>): seq<Vec3>
    decreases |lines|
  {
    if lines == [] then []
    else NormalsIn(lines[..|lines| - 1]) + (if lines[|lines| - 1].Normal? then [lines[|lines| - 1].n] else [])
  }

  /** The coordinates of the `vt` lines, in file order. */
  function UvsIn(lines: seq<ObjLine>): seq<Vec2>
    decreases |lines|
  {
    if lines == [] then []
    else UvsIn(lines[..|lines| - 1]) + (if lines[|lines| - 1].TexCoord? then [lines[|lines| - 1].uv] else [])
  }

  /** One line appends to the pools only what a `v`, `vn` or `vt` carries. */
  lemma StepLinePools(fs: FileSystem, dir: string, st: ParserState, index: map<ObjIndex, nat>, line: ObjLine)
    ensures var r := StepLine(fs, dir, st, index, line);
            r.st.positions == st.positions + (if line.Position? then [line.p] else []) &&
            r.st.normals == st.normals + (if line.Normal? then [line.n] else []) &&
            r.st.uvs == st.uvs + (if line.TexCoord? then [line.uv] else [])
  {
  }

  /** A read that reaches the end appends every `v`, `vn` and `vt` of the
      file, in order, to the pools it started with. */
  lemma {:induction false} RunObjPools(fs: FileSystem, dir: string, start: ObjRun, lines: seq<ObjLine>)
    requires start.fault.None?
    ensures var r := RunObj(fs, dir, start, lines);
            r.fault.None? ==>
              r.st.positions == start.st.positions + PositionsIn(lines) &&
              r.st.normals == start.st.normals + NormalsIn(lines) &&
              r.st.uvs == start.st.uvs + UvsIn(lines)
    decreases |lines|
  {
    if lines != [] {
      var init := lines[..|lines| - 1];
      RunObjPools(fs, dir, start, init);
      var prev := RunObj(fs, dir, start, init);
      if prev.fault.None? {
        StepLinePools(fs, dir, prev.st, prev.index, lines[|lines| - 1]);
      }
    }
  }

  /** A load that reaches the end holds exactly the file's attributes. */
  lemma LoadedPools(fs: FileSystem, path: string)
    requires LoadObj(fs, path).1 == Loaded
    ensures var st := LoadObj(fs, path).0;
            var lines := fs.objFiles[path];
            st.positions == PositionsIn(lines) && st.normals == NormalsIn(lines) && st.uvs == UvsIn(lines)
  {
    RunObjPools(fs, DirectoryOf(path), ObjStart(), fs.objFiles[path]);
  }

  /** The positions (0,0,0), (2,5,-1), (-3,1,1) give the bounds (-3,0,-1)
      and (2,5,1). */
  lemma BoundsExample()
    ensures var lines := [Position(Vec3(0.0, 0.0, 0.0)), Position(Vec3(2.0, 5.0, -1.0)), Position(Vec3(-3.0, 1.0, 1.0))];
            var fs := FileSystem(map["m.obj" := lines], map[], map[]);
            LoadObj(fs, "m.obj").0.boundsMin == Vec3(-3.0, 0.0, -1.0) &&
            LoadObj(fs, "m.obj").0.boundsMax == Vec3(2.0, 5.0, 1.0) &&
            LoadObj(fs, "m.obj").1 == Loaded
  {
    var lines := [Position(Vec3(0.0, 0.0, 0.0)), Position(Vec3(2.0, 5.0, -1.0)), Position(Vec3(-3.0, 1.0, 1.0))];
    var fs := FileSystem(map["m.obj" := lines], map[], map[]);
    var dir := DirectoryOf("m.obj");
    assert fs.objFiles["m.obj"] == lines;
    assert lines[..1][..0] == [];
    assert lines[..2][..1] == lines[..1];
    assert lines[..3][..2] == lines[..2];
    assert RunObj(fs, dir, ObjStart(), []) == ObjStart();
    var r1 := RunObj(fs, dir, ObjStart(), lines[..1]);
    assert r1 == ObjStep(fs, dir, RunObj(fs, dir, ObjStart(), lines[..1][..0]), lines[..1][0]);
    assert r1 == ObjStep(fs, dir, ObjStart(), lines[0]);
    assert r1.st.boundsMin == Vec3(0.0, 0.0, 0.0) && r1.st.positions != [] && r1.fault.None?;
    var r2 := RunObj(fs, dir, ObjStart(), lines[..2]);
    assert r2 == ObjStep(fs, dir, r1, lines[1]);
    assert r2.st.boundsMin == Vec3(0.0, 0.0, -1.0) && r2.st.boundsMax == Vec3(2.0, 5.0, 0.0) && r2.fault.None?;
    assert lines[..3] == lines;
    assert RunObj(fs, dir, ObjStart(), lines) == ObjStep(fs, dir, r2, lines[2]);
  }
}
