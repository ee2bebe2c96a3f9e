/** Faces of a Wavefront OBJ file (src/OBJParser.cpp): splitting a corner
    token (`parseFaceToken`, lines 262-295), index fix-up (`fixIndex`, lines
    253-259), the structural deduplication of corners (lines 399-417) and
    the fan triangulation (lines 423-427). */
module Faces {
  import opened Maybe
  import opened ObjTypes
  import opened Text

  // ---------------------------------------------------------------------
  // Corner tokens

  /** The raw indices of one corner token; a texture or normal index the
      token does not give is `None`. */
  datatype FaceRef = FaceRef(v: int, vt: Option<int>, vn: Option<int>)

  predicate NoSlash(s: string) { forall i :: 0 <= i < |s| ==> s[i] != '/' }

  /** A component the source parses only when `present`: `Some(None)` when it
      is skipped, `Some(Some(n))` when stoi gives n, `None` when stoi throws. */
  function Field(present: bool, text: string): Option<Option<int>>
  {
    if !present then Some(None)
    else match StoI(text)
      case None => None
      case Some(n) => Some(Some(n))
  }

  /** parseFaceToken: split on the first two '/'. No '/' gives the position
      only; one '/' position and texture; two '/' the position, the texture
      when the middle field is non-empty and the normal when the last one is.
      `None` is std::stoi throwing. */
  function ParseFaceToken(token: string): Option<FaceRef>
  {
    match FindFrom(token, '/', 0)
    case None =>
      (match StoI(token)
       case None => None
       case Some(v) => Some(FaceRef(v, None, None)))
    case Some(p1) =>
      match StoI(token[..p1])
      case None => None
      case Some(v) =>
        match FindFrom(token, '/', p1 + 1)
        case None =>
          (match StoI(token[p1 + 1..])
           case None => None
           case Some(t) => Some(FaceRef(v, Some(t), None)))
        case Some(p2) =>
          match Field(p2 > p1 + 1, token[p1 + 1..p2])
          case None => None
          case Some(vt) =>
            match Field(p2 + 1 < |token|, token[p2 + 1..])
            case None => None
            case Some(vn) => Some(FaceRef(v, vt, vn))
  }

  lemma FindFromIs(s: string, c: char, from: nat, k: nat)
    requires from <= k < |s| && s[k] == c
    requires forall i :: from <= i < k ==> s[i] != c
    ensures FindFrom(s, c, from) == Some(k)
  {
  }

  lemma FindFromNone(s: string, c: char, from: nat)
    requires forall i :: from <= i < |s| ==> s[i] != c
    ensures FindFrom(s, c, from) == None
  {
  }

  /** `a`: only the position is set. */
  lemma ParseBare(a: string)
    requires NoSlash(a) && StoI(a).Some?
    ensures ParseFaceToken(a) == Some(FaceRef(StoI(a).value, None, None))
  {
    FindFromNone(a, '/', 0);
  }

  /** `a/b`: position and texture. */
  lemma ParsePositionTexture(a: string, b: string)
    requires NoSlash(a) && NoSlash(b) && StoI(a).Some? && StoI(b).Some?
    ensures ParseFaceToken(a + "/" + b) == Some(FaceRef(StoI(a).value, Some(StoI(b).value), None))
  {
    var s := a + "/" + b;
    FindFromIs(s, '/', 0, |a|);
    FindFromNone(s, '/', |a| + 1);
    assert s[..|a|] == a;
    assert s[|a| + 1..] == b;
  }

  /** `a/b/c`: all three. */
  lemma ParseFull(a: string, b: string, c: string)
    requires NoSlash(a) && NoSlash(b) && NoSlash(c)
    requires StoI(a).Some? && StoI(b).Some? && StoI(c).Some?
    ensures ParseFaceToken(a + "/" + b + "/" + c) ==
              Some(FaceRef(StoI(a).value, Some(StoI(b).value), Some(StoI(c).value)))
  {
    var s := a + "/" + b + "/" + c;
    var p2 := |a| + 1 + |b|;
    FindFromIs(s, '/', 0, |a|);
    FindFromIs(s, '/', |a| + 1, p2);
    assert s[..|a|] == a;
    assert s[|a| + 1..p2] == b;
    assert s[p2 + 1..] == c;
  }

  /** `a//c`: position and normal, the texture stays absent. */
  lemma ParsePositionNormal(a: string, c: string)
    requires NoSlash(a) && NoSlash(c) && StoI(a).Some? && StoI(c).Some?
    ensures ParseFaceToken(a + "//" + c) == Some(FaceRef(StoI(a).value, None, Some(StoI(c).value)))
  {
    var s := a + "//" + c;
    FindFromIs(s, '/', 0, |a|);
    FindFromIs(s, '/', |a| + 1, |a| + 1);
    assert s[..|a|] == a;
    assert s[|a| + 2..] == c;
  }

  /** `a/` and `/b`: an empty field after a single '/' or before the first
      one makes stoi throw. */
  lemma ParseEmptyFieldThrows(a: string)
    requires NoSlash(a)
    ensures ParseFaceToken(a + "/") == None
    ensures ParseFaceToken("/" + a) == None
  {
    var s := a + "/";
    FindFromIs(s, '/', 0, |a|);
    FindFromNone(s, '/', |a| + 1);
    assert s[|a| + 1..] == "";
    var t := "/" + a;
    FindFromIs(t, '/', 0, 0);
    assert t[..0] == "";
  }

  /** The way an exporter writes a corner: the decimal indices separated by
      '/', with an empty middle field for a normal without texture. */
  function FormatFaceToken(f: FaceRef): string
  {
    match (f.vt, f.vn)
    case (None, None) => Decimal(f.v)
    case (Some(t), None) => Decimal(f.v) + "/" + Decimal(t)
    case (Some(t), Some(n)) => Decimal(f.v) + "/" + Decimal(t) + "/" + Decimal(n)
    case (None, Some(n)) => Decimal(f.v) + "//" + Decimal(n)
  }

  lemma DecimalNoSlash(n: int)
    ensures NoSlash(Decimal(n))
  {
    var s := Decimal(n);
    var d := Digits(if n < 0 then -n else n);
    assert AllDigits(d);
    forall i | 0 <= i < |s| ensures s[i] != '/' {
      if n < 0 {
        assert s == "-" + d;
        if i > 0 {
          assert s[i] == d[i - 1];
        }
      }
    }
  }

  predicate InIntRange(n: int) { IntMin <= n <= IntMax }

  /** Every corner whose indices fit in an int reads back as itself. */
  lemma ParseFormatRoundTrip(f: FaceRef)
    requires InIntRange(f.v)
    requires f.vt.Some? ==> InIntRange(f.vt.value)
    requires f.vn.Some? ==> InIntRange(f.vn.value)
    ensures ParseFaceToken(FormatFaceToken(f)) == Some(f)
  {
    StoIDecimal(f.v);
    DecimalNoSlash(f.v);
    if f.vt.Some? {
      StoIDecimal(f.vt.value);
      DecimalNoSlash(f.vt.value);
    }
    if f.vn.Some? {
      StoIDecimal(f.vn.value);
      DecimalNoSlash(f.vn.value);
    }
    match (f.vt, f.vn)
    case (None, None) => ParseBare(Decimal(f.v));
    case (Some(t), None) => ParsePositionTexture(Decimal(f.v), Decimal(t));
    case (Some(t), Some(n)) => ParseFull(Decimal(f.v), Decimal(t), Decimal(n));
    case (None, Some(n)) => ParsePositionNormal(Decimal(f.v), Decimal(n));
  }

  // ---------------------------------------------------------------------
  // Index fix-up

  /** fixIndex: 1-based n > 0 becomes n - 1, a negative n counts back from
      the end (size + n), and 0 becomes the absent sentinel -1. */
  function FixIndex(n: int, size: int): (r: int)
    ensures n == 0 ==> r == -1
    ensures 0 <= size ==> (0 <= r < size <==> 1 <= n <= size || -size <= n <= -1)
    ensures n > 0 ==> r + 1 == n
    ensures n < 0 ==> r - size == n
  {
    if n > 0 then n - 1
    else if n < 0 then size + n
    else -1
  }

  /** Element k of an array of `size` elements is reached both by its
      absolute number k + 1 and by its relative number k - size. */
  lemma FixIndexReaches(k: nat, size: nat)
    requires k < size
    ensures FixIndex(k + 1, size) == k && FixIndex(k - size, size) == k
  {
  }

  /** The worked example: with ten elements, 1 is the first, -1 the last
      and 0 absent. */
  lemma FixIndexExample()
    ensures FixIndex(1, 10) == 0 && FixIndex(-1, 10) == 9 && FixIndex(0, 10) == -1
  {
  }

  /** The resolved key of a corner, against the current array sizes: each
      given index is fixed up, an absent one stays -1. */
  function Resolve(f: FaceRef, nPos: int, nUv: int, nNorm: int): (k: ObjIndex)
    ensures k.v == FixIndex(f.v, nPos)
    ensures f.vt.None? ==> k.vt == -1
    ensures f.vn.None? ==> k.vn == -1
    ensures f.vt.Some? ==> k.vt == FixIndex(f.vt.value, nUv)
    ensures f.vn.Some? ==> k.vn == FixIndex(f.vn.value, nNorm)
  {
    ObjIndex(FixIndex(f.v, nPos), OptFix(f.vt, nUv), OptFix(f.vn, nNorm))
  }

  function OptFix(c: Option<int>, size: int): int
  {
    match c
    case None => -1
    case Some(n) => FixIndex(n, size)
  }

  /** The ObjIndex parseFaceToken returns: -1 for a component the token does
      not give. */
  function AsSentinel(c: Option<int>): int
  {
    match c
    case None => -1
    case Some(n) => n
  }

  /** Lines 399-401 as written: fixIndex is applied to every component, the
      -1 of an absent one included. */
  function ResolveAsWritten(f: FaceRef, nPos: int, nUv: int, nNorm: int): ObjIndex
  {
    ObjIndex(FixIndex(f.v, nPos), FixIndex(AsSentinel(f.vt), nUv), FixIndex(AsSentinel(f.vn), nNorm))
  }

  /** The two agree on every corner that gives all its components. */
  lemma ResolveAgreesWhenComplete(f: FaceRef, nPos: int, nUv: int, nNorm: int)
    requires f.vt.Some? && f.vn.Some?
    ensures ResolveAsWritten(f, nPos, nUv, nNorm) == Resolve(f, nPos, nUv, nNorm)
  {
  }

  /** As written, an absent normal (texture) index becomes the LAST normal
      (texture coordinate) as soon as the file declares any: the sentinel -1
      reads as a relative index. */
  lemma AbsentBecomesLast(f: FaceRef, nPos: int, nUv: int, nNorm: int)
    requires f.vn.None? && nNorm > 0
    requires f.vt.None? && nUv > 0
    ensures ResolveAsWritten(f, nPos, nUv, nNorm).vn == nNorm - 1
    ensures ResolveAsWritten(f, nPos, nUv, nNorm).vt == nUv - 1
    ensures Resolve(f, nPos, nUv, nNorm).vn == -1 && Resolve(f, nPos, nUv, nNorm).vt == -1
  {
  }

  // ---------------------------------------------------------------------
  // Deduplication

  /** The output vertices and the map from resolved key to output index of
      one load. */
  datatype Dedup = Dedup(vertices: seq<Vertex>, indexMap: map<ObjIndex, nat>)

  /** The vertex a new key makes: the position it names, the normal and uv
      it names or zero. `None` when an index it reads is outside its array. */
  function Gather(k: ObjIndex, pos: seq<Vec3>, nor: seq<Vec3>, uvs: seq<Vec2>): Option<Vertex>
  {
    if !(0 <= k.v < |pos|) || k.vt >= |uvs| || k.vn >= |nor| then None
    else Some(Vertex(pos[k.v],
                     if k.vn >= 0 then nor[k.vn] else Zero3,
                     if k.vt >= 0 then uvs[k.vt] else Zero2))
  }

  /** Appending attributes does not change a vertex that could already be
      gathered. */
  lemma GatherStable(k: ObjIndex, pos: seq<Vec3>, nor: seq<Vec3>, uvs: seq<Vec2>,
                     pos': seq<Vec3>, nor': seq<Vec3>, uvs': seq<Vec2>)
    requires Gather(k, pos, nor, uvs).Some?
    requires pos <= pos' && nor <= nor' && uvs <= uvs'
    ensures Gather(k, pos', nor', uvs') == Gather(k, pos, nor, uvs)
  {
  }

  /** The map and the vertex array agree: one vertex per key, each the one
      its key gathers, and no two keys sharing a vertex. */
  ghost predicate DedupValid(d: Dedup, pos: seq<Vec3>, nor: seq<Vec3>, uvs: seq<Vec2>)
  {
    |d.indexMap| == |d.vertices| &&
    (forall k :: k in d.indexMap ==>
       d.indexMap[k] < |d.vertices| && Gather(k, pos, nor, uvs) == Some(d.vertices[d.indexMap[k]])) &&
    (forall k1, k2 :: k1 in d.indexMap && k2 in d.indexMap && d.indexMap[k1] == d.indexMap[k2] ==> k1 == k2)
  }

  /** d' extends d: the old vertices and map entries are all kept. */
  ghost predicate Extends(d: Dedup, d': Dedup)
  {
    d.vertices <= d'.vertices &&
    forall k :: k in d.indexMap ==> k in d'.indexMap && d'.indexMap[k] == d.indexMap[k]
  }

  lemma StableValid(d: Dedup, pos: seq<Vec3>, nor: seq<Vec3>, uvs: seq<Vec2>,
                    pos': seq<Vec3>, nor': seq<Vec3>, uvs': seq<Vec2>)
    requires DedupValid(d, pos, nor, uvs)
    requires pos <= pos' && nor <= nor' && uvs <= uvs'
    ensures DedupValid(d, pos', nor', uvs')
  {
    forall k | k in d.indexMap
      ensures Gather(k, pos', nor', uvs') == Some(d.vertices[d.indexMap[k]])
    {
      GatherStable(k, pos, nor, uvs, pos', nor', uvs');
    }
  }

  datatype CornerResult = CornerOk(d: Dedup, index: nat) | CornerFault(fault: Fault)

  /** One resolved corner: a key already seen reuses its vertex; a new key
      appends its vertex at the end and records it. */
  function AddCorner(d: Dedup, k: ObjIndex, pos: seq<Vec3>, nor: seq<Vec3>, uvs: seq<Vec2>): CornerResult
  {
    if k in d.indexMap then CornerOk(d, d.indexMap[k])
    else match Gather(k, pos, nor, uvs)
      case None => CornerFault(IndexOutOfRange)
      case Some(vx) => CornerOk(Dedup(d.vertices + [vx], d.indexMap[k := |d.vertices|]), |d.vertices|)
  }

  /** A seen key gets its old index back and changes nothing; a new one is
      appended at the previous vertex count; the agreement is kept. */
  lemma AddCornerValid(d: Dedup, k: ObjIndex, pos: seq<Vec3>, nor: seq<Vec3>, uvs: seq<Vec2>)
    requires DedupValid(d, pos, nor, uvs)
    ensures k in d.indexMap ==> AddCorner(d, k, pos, nor, uvs) == CornerOk(d, d.indexMap[k])
    ensures k !in d.indexMap && AddCorner(d, k, pos, nor, uvs).CornerOk? ==>
              AddCorner(d, k, pos, nor, uvs).index == |d.vertices| &&
              |AddCorner(d, k, pos, nor, uvs).d.vertices| == |d.vertices| + 1
    ensures AddCorner(d, k, pos, nor, uvs).CornerFault? <==> k !in d.indexMap && Gather(k, pos, nor, uvs).None?
    ensures match AddCorner(d, k, pos, nor, uvs)
            case CornerOk(d', i) =>
              DedupValid(d', pos, nor, uvs) && Extends(d, d') &&
              k in d'.indexMap && d'.indexMap[k] == i
            case CornerFault(f) => f == IndexOutOfRange
  {
    if k !in d.indexMap && Gather(k, pos, nor, uvs).Some? {
      var n := |d.vertices|;
      var d' := AddCorner(d, k, pos, nor, uvs).d;
      assert d'.indexMap == d.indexMap[k := n];
      forall k1, k2 | k1 in d'.indexMap && k2 in d'.indexMap && d'.indexMap[k1] == d'.indexMap[k2]
        ensures k1 == k2
      {
      }
      forall k1 | k1 in d'.indexMap
        ensures d'.indexMap[k1] < |d'.vertices| && Gather(k1, pos, nor, uvs) == Some(d'.vertices[d'.indexMap[k1]])
      {
        if k1 != k {
          assert d'.vertices[d.indexMap[k1]] == d.vertices[d.indexMap[k1]];
        }
      }
    }
  }

  /** The key of a corner token against the current sizes; `None` is stoi
      throwing. */
  function CornerKey(token: string, nPos: int, nUv: int, nNorm: int): Option<ObjIndex>
  {
    match ParseFaceToken(token)
    case None => None
    case Some(f) => Some(Resolve(f, nPos, nUv, nNorm))
  }

  datatype FaceRun = FaceOk(d: Dedup, corners: seq<nat>) | FaceFault(d: Dedup, fault: Fault)

  /** The corner loop of one `f` line: each token in turn is parsed,
      resolved and deduplicated; the first failure stops the load with what
      was added so far. */
  function FaceCorners(d: Dedup, tokens: seq<string>, pos: seq<Vec3>, nor: seq<Vec3>, uvs: seq<Vec2>): (r: FaceRun)
    ensures r.FaceOk? ==> |r.corners| == |tokens|
    decreases |tokens|
  {
    if tokens == [] then FaceOk(d, [])
    else match FaceCorners(d, tokens[..|tokens| - 1], pos, nor, uvs)
      case FaceFault(d', f) => FaceFault(d', f)
      case FaceOk(d', cs) =>
        match CornerKey(tokens[|tokens| - 1], |pos|, |uvs|, |nor|)
        case None => FaceFault(d', MalformedNumber)
        case Some(k) =>
          match AddCorner(d', k, pos, nor, uvs)
          case CornerFault(f) => FaceFault(d', f)
          case CornerOk(d'', i) => FaceOk(d'', cs + [i])
  }

  /** One more token after a prefix that succeeded: its key is looked up
      or its vertex appended, or the face stops there. */
  lemma FaceCornersNext(d: Dedup, tokens: seq<string>, pos: seq<Vec3>, nor: seq<Vec3>, uvs: seq<Vec2>, t: nat)
    requires t < |tokens| && FaceCorners(d, tokens[..t], pos, nor, uvs).FaceOk?
    ensures var prev := FaceCorners(d, tokens[..t], pos, nor, uvs);
            FaceCorners(d, tokens[..t + 1], pos, nor, uvs) ==
              match CornerKey(tokens[t], |pos|, |uvs|, |nor|)
              case None => FaceFault(prev.d, MalformedNumber)
              case Some(k) =>
                match AddCorner(prev.d, k, pos, nor, uvs)
                case CornerFault(f) => FaceFault(prev.d, f)
                case CornerOk(d', i) => FaceOk(d', prev.corners + [i])
  {
    assert tokens[..t + 1][..t] == tokens[..t];
  }

  /** The same step when the corner is found or appended. */
  lemma FaceCornersGrow(d: Dedup, tokens: seq<string>, pos: seq<Vec3>, nor: seq<Vec3>, uvs: seq<Vec2>, t: nat,
                        prev: Dedup, cs: seq<nat>, k: ObjIndex, next: Dedup, i: nat)
    requires t < |tokens| && FaceCorners(d, tokens[..t], pos, nor, uvs) == FaceOk(prev, cs)
    requires CornerKey(tokens[t], |pos|, |uvs|, |nor|) == Some(k)
    requires AddCorner(prev, k, pos, nor, uvs) == CornerOk(next, i)
    ensures FaceCorners(d, tokens[..t + 1], pos, nor, uvs) == FaceOk(next, cs + [i])
  {
    FaceCornersNext(d, tokens, pos, nor, uvs, t);
  }

  /** Once a corner has failed, the rest of the face is not read. */
  lemma {:induction false} FaceFaultStays(d: Dedup, tokens: seq<string>, pos: seq<Vec3>, nor: seq<Vec3>, uvs: seq<Vec2>, t: nat)
    requires t <= |tokens| && FaceCorners(d, tokens[..t], pos, nor, uvs).FaceFault?
    ensures FaceCorners(d, tokens, pos, nor, uvs) == FaceCorners(d, tokens[..t], pos, nor, uvs)
    decreases |tokens|
  {
    if t == |tokens| {
      assert tokens[..t] == tokens;
    } else {
      var init := tokens[..|tokens| - 1];
      assert init[..t] == tokens[..t];
      FaceFaultStays(d, init, pos, nor, uvs, t);
    }
  }

  /** After a face: the agreement is kept, old entries are kept, and corner
      j got the index its key maps to. */
  lemma {:induction false} FaceCornersValid(d: Dedup, tokens: seq<string>, pos: seq<Vec3>, nor: seq<Vec3>, uvs: seq<Vec2>)
    requires DedupValid(d, pos, nor, uvs)
    ensures DedupValid(FaceCorners(d, tokens, pos, nor, uvs).d, pos, nor, uvs)
    ensures Extends(d, FaceCorners(d, tokens, pos, nor, uvs).d)
    ensures match FaceCorners(d, tokens, pos, nor, uvs)
            case FaceOk(d', cs) =>
              |cs| == |tokens| &&
              forall j :: 0 <= j < |tokens| ==>
                CornerKey(tokens[j], |pos|, |uvs|, |nor|).Some? &&
                CornerKey(tokens[j], |pos|, |uvs|, |nor|).value in d'.indexMap &&
                d'.indexMap[CornerKey(tokens[j], |pos|, |uvs|, |nor|).value] == cs[j]
            case FaceFault(_, _) => true
    decreases |tokens|
  {
    if tokens != [] {
      var init := tokens[..|tokens| - 1];
      FaceCornersValid(d, init, pos, nor, uvs);
      match FaceCorners(d, init, pos, nor, uvs)
      case FaceFault(_, _) =>
      case FaceOk(d', cs) =>
        match CornerKey(tokens[|tokens| - 1], |pos|, |uvs|, |nor|)
        case None =>
        case Some(k) =>
          AddCornerValid(d', k, pos, nor, uvs);
          match AddCorner(d', k, pos, nor, uvs)
          case CornerFault(_) =>
          case CornerOk(d'', i) =>
            forall j | 0 <= j < |tokens|
              ensures CornerKey(tokens[j], |pos|, |uvs|, |nor|).Some? &&
                      CornerKey(tokens[j], |pos|, |uvs|, |nor|).value in d''.indexMap &&
                      d''.indexMap[CornerKey(tokens[j], |pos|, |uvs|, |nor|).value] == (cs + [i])[j]
            {
              if j < |tokens| - 1 {
                assert tokens[j] == init[j];
              }
            }
    }
  }

  /** Two corners of a face get the same output vertex exactly when their
      resolved keys are equal. */
  lemma SameVertexIffSameKey(d: Dedup, tokens: seq<string>, pos: seq<Vec3>, nor: seq<Vec3>, uvs: seq<Vec2>, i: nat, j: nat)
    requires DedupValid(d, pos, nor, uvs)
    requires FaceCorners(d, tokens, pos, nor, uvs).FaceOk?
    requires i < |tokens| && j < |tokens|
    ensures var cs := FaceCorners(d, tokens, pos, nor, uvs).corners;
            CornerKey(tokens[i], |pos|, |uvs|, |nor|).Some? &&
            (cs[i] == cs[j] <==> CornerKey(tokens[i], |pos|, |uvs|, |nor|) == CornerKey(tokens[j], |pos|, |uvs|, |nor|))
  {
    FaceCornersValid(d, tokens, pos, nor, uvs);
  }

  /** Every corner's output vertex is the one its key gathers. */
  lemma CornerVertex(d: Dedup, tokens: seq<string>, pos: seq<Vec3>, nor: seq<Vec3>, uvs: seq<Vec2>, j: nat)
    requires DedupValid(d, pos, nor, uvs)
    requires FaceCorners(d, tokens, pos, nor, uvs).FaceOk?
    requires j < |tokens|
    ensures var r := FaceCorners(d, tokens, pos, nor, uvs);
            match CornerKey(tokens[j], |pos|, |uvs|, |nor|)
            case None => false
            case Some(k) => r.corners[j] < |r.d.vertices| && Gather(k, pos, nor, uvs) == Some(r.d.vertices[r.corners[j]])
  {
    FaceCornersValid(d, tokens, pos, nor, uvs);
  }

  // ---------------------------------------------------------------------
  // Fan triangulation

  /** The triangles (c0, ci, ci+1), i = 1 .. k-2, of a face of k corners. */
  function Fan(cs: seq<nat>): (r: seq<nat>)
    ensures |r| == if |cs| < 3 then 0 else 3 * (|cs| - 2)
    decreases |cs|
  {
    if |cs| < 3 then []
    else Fan(cs[..|cs| - 1]) + [cs[0], cs[|cs| - 2], cs[|cs| - 1]]
  }

  /** Triangle i - 1 of the fan is (c0, ci, ci+1). */
  lemma {:induction false} FanTriangle(cs: seq<nat>, i: nat)
    requires 1 <= i && i + 1 < |cs|
    ensures Fan(cs)[3 * (i - 1)..3 * i] == [cs[0], cs[i], cs[i + 1]]
    decreases |cs|
  {
    var init := cs[..|cs| - 1];
    if i + 1 < |cs| - 1 {
      FanTriangle(init, i);
      assert Fan(cs)[3 * (i - 1)..3 * i] == Fan(init)[3 * (i - 1)..3 * i];
    } else {
      assert |Fan(init)| == 3 * (i - 1);
    }
  }

  /** Every index of the fan is one of the face's corners. */
  lemma {:induction false} FanFromCorners(cs: seq<nat>, j: nat)
    requires j < |Fan(cs)|
    ensures Fan(cs)[j] in cs
    decreases |cs|
  {
    var init := cs[..|cs| - 1];
    if j < |Fan(init)| {
      FanFromCorners(init, j);
      assert Fan(cs)[j] == Fan(init)[j];
    }
  }

  /** A five-corner face gives the three triangles (0,1,2), (0,2,3), (0,3,4). */
  lemma FanExample()
    ensures Fan([10, 11, 12, 13, 14]) == [10, 11, 12, 10, 12, 13, 10, 13, 14]
  {
    assert [10, 11, 12, 13, 14][..4] == [10, 11, 12, 13];
    assert [10, 11, 12, 13][..3] == [10, 11, 12];
    assert [10, 11, 12][..2] == [10, 11];
  }
}
