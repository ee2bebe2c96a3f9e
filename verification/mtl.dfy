/** The Wavefront MTL reader of src/OBJParser.cpp (`loadMtlFromFile`, lines
    123-225): records opened by `newmtl`, refined by the directives that
    follow, and committed into the material map on the next `newmtl` or at
    the end of the file when their name is not empty. */
module Mtl {
  import opened Maybe
  import opened ObjTypes
  import opened Formats
  import opened Text
  import opened Ppm

  type Materials = map<string, MtlMaterial>

  /** One directive applied to the open record. A `map_Kd` records the
      trimmed file name and decodes the texture: a decoded image replaces
      the texture, a failed decode leaves the record as it was, and a stoi
      exception inside the decoder (`None`) leaves the whole load. */
  function Refine(ppmFiles: map<string, PpmText>, dir: string, m: MtlMaterial, line: MtlLine): Option<MtlMaterial>
  {
    match line
    case NewMtl(_) => Some(m)
    case Ambient(c) => Some(m.(Ka := c))
    case Diffuse(c) => Some(m.(Kd := c))
    case Specular(c) => Some(m.(Ks := c))
    case Shininess(ns) => Some(m.(Ns := ns))
    case Dissolve(d) => Some(m.(d := d))
    case Transparency(tr) => Some(m.(d := 1.0 - tr))
    case IllumModel(illum) => Some(m.(illum := illum))
    case DiffuseMap(rest) =>
      var file := Ltrim(rest);
      var named := m.(mapKd := file);
      (match DecodePpmFile(ppmFiles, TexturePath(dir, file))
       case Decoded(w, h, px) => Some(named.(textureWidth := w, textureHeight := h, textureData := px))
       case Failed => Some(named)
       case Threw => None)
    case Skip => Some(m)
  }

  /** The texture directive: the record keeps its colours; it gets the
      decoded image's width, height and pixels, width * height of them, or
      keeps its old texture when the decode fails. */
  lemma DiffuseMapEffect(ppmFiles: map<string, PpmText>, dir: string, m: MtlMaterial, rest: string)
    ensures var r := Refine(ppmFiles, dir, m, DiffuseMap(rest));
            var path := TexturePath(dir, Ltrim(rest));
            (r.None? <==> DecodePpmFile(ppmFiles, path).Threw?) &&
            (r.Some? ==>
               r.value.name == m.name && r.value.Ka == m.Ka && r.value.Kd == m.Kd && r.value.Ks == m.Ks &&
               r.value.Ns == m.Ns && r.value.d == m.d && r.value.illum == m.illum &&
               r.value.mapKd == Ltrim(rest)) &&
            (DecodePpmFile(ppmFiles, path).Failed? ==>
               r.value.textureWidth == m.textureWidth && r.value.textureHeight == m.textureHeight &&
               r.value.textureData == m.textureData) &&
            (DecodePpmFile(ppmFiles, path).Decoded? ==>
               r.value.textureWidth == DecodePpmFile(ppmFiles, path).width &&
               r.value.textureHeight == DecodePpmFile(ppmFiles, path).height &&
               r.value.textureData == DecodePpmFile(ppmFiles, path).pixels &&
               |r.value.textureData| == r.value.textureWidth * r.value.textureHeight &&
               r.value.textureWidth > 0 && r.value.textureHeight > 0)
  {
    var path := TexturePath(dir, Ltrim(rest));
    if DecodePpmFile(ppmFiles, path).Decoded? {
      DecodedMeans(Stream(ppmFiles[path]));
    }
  }

  /** The record `newmtl` opens carries the defaults of MTLMaterial. */
  lemma NewRecordDefaults(name: string)
    ensures var m := DefaultMaterial(name);
            m.name == name && m.Ka == Zero3 && m.Kd == Vec3(0.8, 0.8, 0.8) && m.Ks == Zero3 &&
            m.Ns == 0.0 && m.d == 1.0 && m.illum == 0 && m.mapKd == "" &&
            m.textureWidth == 0 && m.textureHeight == 0 && m.textureData == []
  {
  }

  /** The state of the reader: the map so far, the open record and whether
      one is open. */
  datatype MtlScan = MtlScan(materials: Materials, current: MtlMaterial, hasCurrent: bool)

  datatype MtlRun = MtlGoing(scan: MtlScan) | MtlThrown(materials: Materials)

  /** Commits a record when one is open and it has a name. */
  function Commit(materials: Materials, current: MtlMaterial, hasCurrent: bool): Materials
  {
    if hasCurrent && current.name != "" then materials[current.name := current] else materials
  }

  /** One line of the file: `newmtl` commits and opens; any other line is
      skipped while no record is open and refines the open one otherwise. */
  function MtlStep(ppmFiles: map<string, PpmText>, dir: string, run: MtlRun, line: MtlLine): MtlRun
  {
    match run
    case MtlThrown(ms) => MtlThrown(ms)
    case MtlGoing(s) =>
      match line
      case NewMtl(name) => MtlGoing(MtlScan(Commit(s.materials, s.current, s.hasCurrent), DefaultMaterial(name), true))
      case _ =>
        if !s.hasCurrent then MtlGoing(s)
        else match Refine(ppmFiles, dir, s.current, line)
          case None => MtlThrown(s.materials)
          case Some(m) => MtlGoing(s.(current := m))
  }

  /** The read loop over the lines of the file. */
  function RunMtl(ppmFiles: map<string, PpmText>, dir: string, start: MtlRun, lines: seq<MtlLine>): MtlRun
    decreases |lines|
  {
    if lines == [] then start
    else MtlStep(ppmFiles, dir, RunMtl(ppmFiles, dir, start, lines[..|lines| - 1]), lines[|lines| - 1])
  }

  /** The state before the first line: the caller's map and a default record
      that is not open. */
  function MtlStart(materials: Materials): MtlRun
  {
    MtlGoing(MtlScan(materials, DefaultMaterial(""), false))
  }

  datatype MtlOutcome = MtlNotOpened | MtlLoaded | MtlAborted

  /** loadMtlFromFile on a file system: a library that cannot be opened
      changes nothing; otherwise the lines are read and the open record is
      committed at the end. An exception leaves the map as it was when it was
      thrown. */
  function LoadMtl(fs: FileSystem, path: string, materials: Materials): (Materials, MtlOutcome)
  {
    if path !in fs.mtlFiles then (materials, MtlNotOpened)
    else match RunMtl(fs.ppmFiles, DirectoryOf(path), MtlStart(materials), fs.mtlFiles[path])
      case MtlThrown(ms) => (ms, MtlAborted)
      case MtlGoing(s) => (Commit(s.materials, s.current, s.hasCurrent), MtlLoaded)
  }

  /** A read still going after i lines takes line i next. */
  lemma RunMtlNext(ppmFiles: map<string, PpmText>, dir: string, start: MtlRun, lines: seq<MtlLine>, i: nat, s: MtlScan)
    requires i < |lines| && RunMtl(ppmFiles, dir, start, lines[..i]) == MtlGoing(s)
    ensures RunMtl(ppmFiles, dir, start, lines[..i + 1]) == MtlStep(ppmFiles, dir, MtlGoing(s), lines[i])
  {
    assert lines[..i + 1][..i] == lines[..i];
  }

  /** Once a directive has thrown, no further line is read. */
  lemma {:induction false} ThrownStays(ppmFiles: map<string, PpmText>, dir: string, start: MtlRun, lines: seq<MtlLine>, k: nat)
    requires k <= |lines| && RunMtl(ppmFiles, dir, start, lines[..k]).MtlThrown?
    ensures RunMtl(ppmFiles, dir, start, lines) == RunMtl(ppmFiles, dir, start, lines[..k])
    decreases |lines|
  {
    if k == |lines| {
      assert lines[..k] == lines;
    } else {
      var init := lines[..|lines| - 1];
      assert init[..k] == lines[..k];
      ThrownStays(ppmFiles, dir, start, init, k);
    }
  }

  // ---------------------------------------------------------------------
  // An independent description: the records of the file, each the defaults
  // of its `newmtl` refined by the lines up to the next one, installed in
  // order.

  /** The directives of one record applied in order. */
  function RefineAll(ppmFiles: map<string, PpmText>, dir: string, m: MtlMaterial, body: seq<MtlLine>): Option<MtlMaterial>
    decreases |body|
  {
    if body == [] then Some(m)
    else match RefineAll(ppmFiles, dir, m, body[..|body| - 1])
      case None => None
      case Some(m') => Refine(ppmFiles, dir, m', body[|body| - 1])
  }

  /** The position of the last `newmtl`. */
  function LastNewMtl(lines: seq<MtlLine>): (r: Option<nat>)
    ensures r.Some? ==> r.value < |lines| && lines[r.value].NewMtl? &&
                        forall i :: r.value < i < |lines| ==> !lines[i].NewMtl?
    ensures r.None? ==> forall i :: 0 <= i < |lines| ==> !lines[i].NewMtl?
  {
    if lines == [] then None
    else if lines[|lines| - 1].NewMtl? then Some(|lines| - 1)
    else LastNewMtl(lines[..|lines| - 1])
  }

  datatype Records = Complete(records: seq<MtlMaterial>) | ThrewAfter(records: seq<MtlMaterial>)

  /** The records of a library in file order, or the ones before the
      record whose texture decode threw. */
  function RecordsOf(ppmFiles: map<string, PpmText>, dir: string, lines: seq<MtlLine>): Records
    decreases |lines|
  {
    match LastNewMtl(lines)
    case None => Complete([])
    case Some(k) =>
      match RecordsOf(ppmFiles, dir, lines[..k])
      case ThrewAfter(rs) => ThrewAfter(rs)
      case Complete(rs) =>
        match RefineAll(ppmFiles, dir, DefaultMaterial(lines[k].name), lines[k + 1..])
        case None => ThrewAfter(rs)
        case Some(m) => Complete(rs + [m])
  }

  /** The records committed in order, each replacing an earlier one of the
      same name; unnamed ones are dropped. */
  function Install(materials: Materials, rs: seq<MtlMaterial>): Materials
    decreases |rs|
  {
    if rs == [] then materials
    else Commit(Install(materials, rs[..|rs| - 1]), rs[|rs| - 1], true)
  }

  /** Directives never rename a record. */
  lemma {:induction false} RefineAllKeepsName(ppmFiles: map<string, PpmText>, dir: string, m: MtlMaterial, body: seq<MtlLine>)
    ensures RefineAll(ppmFiles, dir, m, body).Some? ==> RefineAll(ppmFiles, dir, m, body).value.name == m.name
    decreases |body|
  {
    if body != [] {
      RefineAllKeepsName(ppmFiles, dir, m, body[..|body| - 1]);
    }
  }

  /** The state the read loop is in after `lines`, by the records: before
      the first `newmtl` nothing is open; after it, the records before the
      last `newmtl` are installed and the last one is open. */
  function ScanByRecords(ppmFiles: map<string, PpmText>, dir: string, materials: Materials, lines: seq<MtlLine>): MtlRun
  {
    match LastNewMtl(lines)
    case None => MtlStart(materials)
    case Some(k) =>
      match RecordsOf(ppmFiles, dir, lines[..k])
      case ThrewAfter(done) => MtlThrown(Install(materials, done))
      case Complete(done) =>
        match RefineAll(ppmFiles, dir, DefaultMaterial(lines[k].name), lines[k + 1..])
        case None => MtlThrown(Install(materials, done))
        case Some(m) => MtlGoing(MtlScan(Install(materials, done), m, true))
  }

  /** A `newmtl` line installs the open record and opens a fresh one. */
  lemma ScanNewMtl(ppmFiles: map<string, PpmText>, dir: string, materials: Materials, init: seq<MtlLine>, name: string)
    ensures ScanByRecords(ppmFiles, dir, materials, init + [NewMtl(name)]) ==
            MtlStep(ppmFiles, dir, ScanByRecords(ppmFiles, dir, materials, init), NewMtl(name))
  {
    var lines := init + [NewMtl(name)];
    assert LastNewMtl(lines) == Some(|init|);
    assert lines[..|init|] == init;
    assert lines[|init| + 1..] == [];
    match LastNewMtl(init)
    case None =>
    case Some(k) =>
      assert init[..k] == lines[..k];
      RefineAllKeepsName(ppmFiles, dir, DefaultMaterial(init[k].name), init[k + 1..]);
  }

  /** Any other line refines the open record, if there is one. */
  lemma ScanOther(ppmFiles: map<string, PpmText>, dir: string, materials: Materials, init: seq<MtlLine>, l: MtlLine)
    requires !l.NewMtl?
    ensures ScanByRecords(ppmFiles, dir, materials, init + [l]) ==
            MtlStep(ppmFiles, dir, ScanByRecords(ppmFiles, dir, materials, init), l)
  {
    var lines := init + [l];
    assert lines[..|init|] == init;
    match LastNewMtl(init)
    case None =>
      assert LastNewMtl(lines) == None;
    case Some(k) =>
      assert LastNewMtl(lines) == Some(k);
      assert lines[..k] == init[..k];
      assert lines[k + 1..] == init[k + 1..] + [l];
      assert (init[k + 1..] + [l])[..|init[k + 1..]|] == init[k + 1..];
  }

  lemma {:induction false} RunMtlRecords(ppmFiles: map<string, PpmText>, dir: string, materials: Materials, lines: seq<MtlLine>)
    ensures RunMtl(ppmFiles, dir, MtlStart(materials), lines) == ScanByRecords(ppmFiles, dir, materials, lines)
    decreases |lines|
  {
    if lines != [] {
      var init := lines[..|lines| - 1];
      var l := lines[|lines| - 1];
      assert lines == init + [l];
      RunMtlRecords(ppmFiles, dir, materials, init);
      if l.NewMtl? {
        ScanNewMtl(ppmFiles, dir, materials, init, l.name);
      } else {
        ScanOther(ppmFiles, dir, materials, init, l);
      }
    }
  }

  /** loadMtlFromFile, by the records of the library: the map is the
      caller's with the records installed in order, up to the one whose
      texture decode threw. */
  function LoadByRecords(fs: FileSystem, path: string, materials: Materials): (Materials, MtlOutcome)
    requires path in fs.mtlFiles
  {
    match RecordsOf(fs.ppmFiles, DirectoryOf(path), fs.mtlFiles[path])
    case Complete(rs) => (Install(materials, rs), MtlLoaded)
    case ThrewAfter(rs) => (Install(materials, rs), MtlAborted)
  }

  lemma LoadMtlInstalls(fs: FileSystem, path: string, materials: Materials)
    requires path in fs.mtlFiles
    ensures LoadMtl(fs, path, materials) == LoadByRecords(fs, path, materials)
  {
    var dir := DirectoryOf(path);
    var lines := fs.mtlFiles[path];
    RunMtlRecords(fs.ppmFiles, dir, materials, lines);
    match LastNewMtl(lines)
    case None =>
    case Some(k) =>
      RefineAllKeepsName(fs.ppmFiles, dir, DefaultMaterial(lines[k].name), lines[k + 1..]);
  }

  // ---------------------------------------------------------------------
  // What the description gives.

  /** The last record of a name, if any. */
  function LastNamed(rs: seq<MtlMaterial>, name: string): Option<MtlMaterial>
    decreases |rs|
  {
    if rs == [] then None
    else if rs[|rs| - 1].name == name then Some(rs[|rs| - 1])
    else LastNamed(rs[..|rs| - 1], name)
  }

  /** Last write wins: after installing, a name maps to its last record;
      a name without record keeps what the caller's map had, and the empty
      name is never added. */
  lemma {:induction false} InstallLookup(materials: Materials, rs: seq<MtlMaterial>, name: string)
    ensures var ms := Install(materials, rs);
            ("" in ms <==> "" in materials) &&
            (name != "" && LastNamed(rs, name).Some? ==> name in ms && ms[name] == LastNamed(rs, name).value) &&
            (name == "" || LastNamed(rs, name).None? ==>
               (name in ms <==> name in materials) && (name in materials ==> ms[name] == materials[name]))
    decreases |rs|
  {
    if rs != [] {
      InstallLookup(materials, rs[..|rs| - 1], name);
      InstallLookup(materials, rs[..|rs| - 1], "");
    }
  }

  /** Every entry is stored under its own, non-empty name. */
  ghost predicate Keyed(materials: Materials)
  {
    forall k :: k in materials ==> k != "" && materials[k].name == k
  }

  /** The map a run holds, whether or not it has thrown. */
  function Stored(run: MtlRun): Materials
  {
    match run
    case MtlThrown(ms) => ms
    case MtlGoing(s) => s.materials
  }

  /** The read loop only ever stores a record under its own name. */
  lemma {:induction false} RunMtlKeyed(ppmFiles: map<string, PpmText>, dir: string, materials: Materials, lines: seq<MtlLine>)
    requires Keyed(materials)
    ensures Keyed(Stored(RunMtl(ppmFiles, dir, MtlStart(materials), lines)))
    decreases |lines|
  {
    if lines != [] {
      RunMtlKeyed(ppmFiles, dir, materials, lines[..|lines| - 1]);
      var prev := RunMtl(ppmFiles, dir, MtlStart(materials), lines[..|lines| - 1]);
      var l := lines[|lines| - 1];
      if prev.MtlGoing? && !l.NewMtl? && prev.scan.hasCurrent {
        RefineAllKeepsName(ppmFiles, dir, prev.scan.current, [l]);
        assert [l][..0] == [];
      }
    }
  }

  /** A library load keeps the map keyed by record names. */
  lemma LoadMtlKeyed(fs: FileSystem, path: string, materials: Materials)
    requires Keyed(materials)
    ensures Keyed(LoadMtl(fs, path, materials).0)
  {
    if path in fs.mtlFiles {
      RunMtlKeyed(fs.ppmFiles, DirectoryOf(path), materials, fs.mtlFiles[path]);
    }
  }

  /** Lines before the first `newmtl` are ignored. */
  lemma {:induction false} LeadingLinesIgnored(ppmFiles: map<string, PpmText>, dir: string, materials: Materials,
                                               prefix: seq<MtlLine>)
    requires forall i :: 0 <= i < |prefix| ==> !prefix[i].NewMtl?
    ensures RunMtl(ppmFiles, dir, MtlStart(materials), prefix) == MtlStart(materials)
    decreases |prefix|
  {
    if prefix != [] {
      LeadingLinesIgnored(ppmFiles, dir, materials, prefix[..|prefix| - 1]);
    }
  }

  /** The opacity a record ends with: the last `d` or `Tr` of its lines,
      or the one it started with. */
  function LastOpacity(body: seq<MtlLine>, d0: real): real
    decreases |body|
  {
    if body == [] then d0
    else match body[|body| - 1]
      case Dissolve(d) => d
      case Transparency(tr) => 1.0 - tr
      case _ => LastOpacity(body[..|body| - 1], d0)
  }

  /** `d` and `Tr` write the same field: the last one wins. */
  lemma {:induction false} OpacityLastWins(ppmFiles: map<string, PpmText>, dir: string, m: MtlMaterial, body: seq<MtlLine>)
    ensures RefineAll(ppmFiles, dir, m, body).Some? ==>
              RefineAll(ppmFiles, dir, m, body).value.d == LastOpacity(body, m.d)
    decreases |body|
  {
    if body != [] {
      OpacityLastWins(ppmFiles, dir, m, body[..|body| - 1]);
    }
  }

  /** An example library: a directive before the first `newmtl` is
      skipped, and a second `newmtl A` replaces the first record of that
      name. */
  lemma MtlExample(ppmFiles: map<string, PpmText>)
    ensures var lines := [Diffuse(Zero3), NewMtl("A"), NewMtl("B"), NewMtl("A"), IllumModel(2)];
            var fs := FileSystem(map[], map["lib/m.mtl" := lines], ppmFiles);
            LoadMtl(fs, "lib/m.mtl", map[]) ==
              (map["A" := DefaultMaterial("A").(illum := 2), "B" := DefaultMaterial("B")], MtlLoaded)
  {
    var lines := [Diffuse(Zero3), NewMtl("A"), NewMtl("B"), NewMtl("A"), IllumModel(2)];
    var dir := DirectoryOf("lib/m.mtl");
    var a := DefaultMaterial("A");
    var b := DefaultMaterial("B");
    var s0 := MtlStart(map[]);
    assert lines[..1][..0] == [];
    assert RunMtl(ppmFiles, dir, s0, lines[..1]) == s0;
    assert lines[..2][..1] == lines[..1];
    assert RunMtl(ppmFiles, dir, s0, lines[..2]) == MtlGoing(MtlScan(map[], a, true));
    assert lines[..3][..2] == lines[..2];
    assert RunMtl(ppmFiles, dir, s0, lines[..3]) == MtlGoing(MtlScan(map["A" := a], b, true));
    assert lines[..4][..3] == lines[..3];
    assert RunMtl(ppmFiles, dir, s0, lines[..4]) == MtlGoing(MtlScan(map["A" := a, "B" := b], a, true));
    assert lines[..4] == lines[..|lines| - 1];
    assert RunMtl(ppmFiles, dir, s0, lines) == MtlGoing(MtlScan(map["A" := a, "B" := b], a.(illum := 2), true));
    var fs := FileSystem(map[], map["lib/m.mtl" := lines], ppmFiles);
    assert fs.mtlFiles["lib/m.mtl"] == lines;
    assert map["A" := a, "B" := b]["A" := a.(illum := 2)] == map["A" := a.(illum := 2), "B" := b];
  }

  /** `Tr 0.25` after `d 0.5` leaves d = 0.75. */
  lemma OpacityExample(ppmFiles: map<string, PpmText>, dir: string, m: MtlMaterial)
    ensures RefineAll(ppmFiles, dir, m, [Dissolve(0.5), Transparency(0.25)]) == Some(m.(d := 0.75))
  {
    var body := [Dissolve(0.5), Transparency(0.25)];
    assert body[..1][..0] == [];
    assert RefineAll(ppmFiles, dir, m, body[..1]) == Some(m.(d := 0.5));
  }
}
