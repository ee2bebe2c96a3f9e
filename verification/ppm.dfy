/** The plain-text PPM (P3) decoder of src/OBJParser.cpp: `readPpmToken`
    (lines 8-21) and `loadPPM` (lines 66-120). */
module Ppm {
  import opened Maybe
  import opened ObjTypes
  import opened Formats
  import opened Text

  /** A read position: the next token is token `col` of line `line`. */
  datatype Cursor = Cursor(line: nat, col: nat)

  predicate IsComment(tok: string) { |tok| > 0 && tok[0] == '#' }

  /** The token stream the decoder reads from a cursor: `in >> tok` moves
      on over line ends, and a token starting with '#' drops the rest of its
      line. */
  function NextToken(text: PpmText, c: Cursor): (r: Option<(string, Cursor)>)
    ensures r.Some? ==> var (tok, n) := r.value;
                        !IsComment(tok) && c.line <= n.line < |text| &&
                        0 < n.col <= |text[n.line]| && text[n.line][n.col - 1] == tok
    decreases |text| - c.line, if c.line < |text| && c.col <= |text[c.line]| then |text[c.line]| - c.col else 0
  {
    if c.line >= |text| then None
    else if c.col >= |text[c.line]| then NextToken(text, Cursor(c.line + 1, 0))
    else if IsComment(text[c.line][c.col]) then NextToken(text, Cursor(c.line + 1, 0))
    else Some((text[c.line][c.col], Cursor(c.line, c.col + 1)))
  }

  /** readPpmToken: the loop of the source, proved against NextToken. */
  method ReadPpmToken(text: PpmText, c: Cursor) returns (r: Option<(string, Cursor)>)
    requires CursorOk(text, c)
    ensures r == NextToken(text, c)
    ensures r.None? <==> StreamFrom(text, c) == []
    ensures r.Some? ==> CursorOk(text, r.value.1) &&
                        StreamFrom(text, c) == [r.value.0] + StreamFrom(text, r.value.1)
  {
    NextTokenFollowsStream(text, c);
    var cur := c;
    while cur.line < |text|
      invariant NextToken(text, cur) == NextToken(text, c)
      decreases |text| - cur.line, if cur.line < |text| && cur.col <= |text[cur.line]| then |text[cur.line]| - cur.col else 0
    {
      if cur.col >= |text[cur.line]| {
        cur := Cursor(cur.line + 1, 0);
      } else if IsComment(text[cur.line][cur.col]) {
        // getline: the rest of the line is a comment
        cur := Cursor(cur.line + 1, 0);
      } else {
        return Some((text[cur.line][cur.col], Cursor(cur.line, cur.col + 1)));
      }
    }
    return None;
  }

  // ---------------------------------------------------------------------
  // An independent description of the same stream: the tokens of every
  // line up to its first comment, one line after the other.

  /** The tokens of a line that come before its first comment token. */
  function Visible(line: seq<string>): (v: seq<string>)
    ensures |v| <= |line| && v == line[..|v|]
    ensures forall i :: 0 <= i < |v| ==> !IsComment(v[i])
    ensures |v| < |line| ==> IsComment(line[|v|])
  {
    if line == [] || IsComment(line[0]) then []
    else [line[0]] + Visible(line[1..])
  }

  /** The visible tokens of all lines, in order. */
  function Stream(text: PpmText): seq<string>
  {
    StreamFrom(text, Cursor(0, 0))
  }

  function StreamFrom(text: PpmText, c: Cursor): seq<string>
    decreases |text| - c.line
  {
    if c.line >= |text| then []
    else
      var v := Visible(text[c.line]);
      (if c.col <= |v| then v[c.col..] else []) + StreamFrom(text, Cursor(c.line + 1, 0))
  }

  /** The cursor does not stand past a comment of its line. */
  predicate CursorOk(text: PpmText, c: Cursor)
  {
    c.line < |text| ==> c.col <= |Visible(text[c.line])|
  }

  /** Reading one token consumes exactly the head of the visible stream. */
  lemma {:induction false} NextTokenFollowsStream(text: PpmText, c: Cursor)
    requires CursorOk(text, c)
    ensures NextToken(text, c).None? <==> StreamFrom(text, c) == []
    ensures NextToken(text, c).Some? ==>
              CursorOk(text, NextToken(text, c).value.1) &&
              StreamFrom(text, c) == [NextToken(text, c).value.0] + StreamFrom(text, NextToken(text, c).value.1)
    decreases |text| - c.line, if c.line < |text| && c.col <= |text[c.line]| then |text[c.line]| - c.col else 0
  {
    if c.line < |text| {
      var line := text[c.line];
      var v := Visible(line);
      var next := Cursor(c.line + 1, 0);
      if c.col >= |line| {
        assert v[c.col..] == [];
        NextTokenFollowsStream(text, next);
      } else if IsComment(line[c.col]) {
        assert c.col == |v|;
        assert v[c.col..] == [];
        NextTokenFollowsStream(text, next);
      } else {
        assert c.col < |v|;
        assert v[c.col..] == [line[c.col]] + v[c.col + 1..];
      }
    }
  }

  // ---------------------------------------------------------------------
  // Decoding, on the stream of visible tokens.

  /** C++ integer division, which truncates toward zero. */
  function TruncDiv(a: int, b: int): int
    requires b > 0
  {
    if a >= 0 then a / b else -((-a) / b)
  }

  /** A channel value as stored: unchanged when the declared maximum is
      255, otherwise value * 255 / max with truncating division. */
  function Rescale(value: int, max: int): int
    requires max > 0
  {
    if max != 255 then TruncDiv(value * 255, max) else value
  }

  /** The rescale maps [0, max] onto [0, 255], max itself onto 255. */
  lemma RescaleRange(value: int, max: int)
    requires 0 < max && 0 <= value <= max
    ensures 0 <= Rescale(value, max) <= 255
    ensures value == max ==> Rescale(value, max) == 255
  {
    if max != 255 {
      var a := value * 255;
      var q := a / max;
      assert 0 <= a <= 255 * max by { MulLe(value, max, 255); }
      assert max * q <= a < max * q + max;
      if q > 255 {
        MulLe(256, q, max);
        assert false;
      }
      if value == max && q < 255 {
        MulLe(q + 1, 255, max);
        assert false;
      }
    }
  }

  lemma MulLe(a: int, b: int, c: int)
    requires a <= b && c >= 0
    ensures a * c <= b * c
  {
  }

  datatype PixelRead = PixelsOk(pixels: seq<Pixel>) | Truncated | BadNumber

  /** One channel read: the stream ends, stoi throws, or a number. */
  datatype Channel = Number(n: int) | EndOfStream | NotANumber

  /** The channel at position j of the body. */
  function ChannelAt(body: seq<string>, j: nat): Channel
  {
    if j >= |body| then EndOfStream
    else match StoI(body[j])
      case None => NotANumber
      case Some(n) => Number(n)
  }

  /** Reads pixel number `i` from the body: three numbers, each one read
      (the stream may end) and then converted (stoi may throw). */
  function ReadOne(body: seq<string>, i: nat, max: int): PixelRead
    requires max > 0
  {
    match ChannelAt(body, 3 * i)
    case EndOfStream => Truncated
    case NotANumber => BadNumber
    case Number(r) =>
      match ChannelAt(body, 3 * i + 1)
      case EndOfStream => Truncated
      case NotANumber => BadNumber
      case Number(g) =>
        match ChannelAt(body, 3 * i + 2)
        case EndOfStream => Truncated
        case NotANumber => BadNumber
        case Number(b) => PixelsOk([Pixel(Rescale(r, max), Rescale(g, max), Rescale(b, max))])
  }

  /** The first `n` pixels of the body, read in order; the first failure
      decides. */
  function ReadPixels(body: seq<string>, max: int, n: nat): PixelRead
    requires max > 0
  {
    if n == 0 then PixelsOk([])
    else match ReadPixels(body, max, n - 1)
      case PixelsOk(px) =>
        (match ReadOne(body, n - 1, max)
         case PixelsOk(p) => PixelsOk(px + p)
         case other => other)
      case other => other
  }

  datatype PpmResult = Decoded(width: int, height: int, pixels: seq<Pixel>) | Failed | Threw

  datatype HeaderRead = HeaderOk(width: int, height: int, max: int) | HeaderFailed | HeaderThrew

  /** The header of loadPPM: the tag "P3", then width, height and maximum,
      each read and then converted, and all three positive. */
  function ReadHeader(s: seq<string>): (r: HeaderRead)
    ensures r.HeaderOk? ==> |s| >= 4 && s[0] == "P3" &&
                            StoI(s[1]) == Some(r.width) && StoI(s[2]) == Some(r.height) &&
                            StoI(s[3]) == Some(r.max) && r.width > 0 && r.height > 0 && r.max > 0
  {
    if |s| == 0 || s[0] != "P3" then HeaderFailed
    else if |s| == 1 then HeaderFailed
    else match StoI(s[1])
      case None => HeaderThrew
      case Some(w) =>
        if |s| == 2 then HeaderFailed
        else match StoI(s[2])
          case None => HeaderThrew
          case Some(h) =>
            if |s| == 3 then HeaderFailed
            else match StoI(s[3])
              case None => HeaderThrew
              case Some(max) =>
                if w <= 0 || h <= 0 || max <= 0 then HeaderFailed else HeaderOk(w, h, max)
  }

  /** loadPPM on the stream of visible tokens. `Failed` is loadPPM returning
      false, `Threw` stoi throwing out of it. */
  function DecodeTokens(s: seq<string>): (r: PpmResult)
    ensures r.Decoded? ==> ReadHeader(s).HeaderOk? && ReadHeader(s).width == r.width && ReadHeader(s).height == r.height
  {
    match ReadHeader(s)
    case HeaderFailed => Failed
    case HeaderThrew => Threw
    case HeaderOk(w, h, max) =>
      match ReadPixels(s[4..], max, w * h)
      case PixelsOk(px) => Decoded(w, h, px)
      case Truncated => Failed
      case BadNumber => Threw
  }

  /** loadPPM on a path: a file that cannot be opened is a failure. */
  function DecodePpmFile(files: map<string, PpmText>, path: string): PpmResult
  {
    if path in files then DecodeTokens(Stream(files[path])) else Failed
  }

  // ---------------------------------------------------------------------
  // Properties of the decoder.

  /** The pixel read from triple i of the body, when its three channels
      are numbers. */
  function TripleAt(body: seq<string>, i: nat, max: int): Pixel
    requires max > 0 && 3 * i + 2 < |body|
    requires StoI(body[3 * i]).Some? && StoI(body[3 * i + 1]).Some? && StoI(body[3 * i + 2]).Some?
  {
    Pixel(Rescale(StoI(body[3 * i]).value, max),
          Rescale(StoI(body[3 * i + 1]).value, max),
          Rescale(StoI(body[3 * i + 2]).value, max))
  }

  predicate NumbersUpTo(body: seq<string>, n: nat)
  {
    n <= |body| && forall j :: 0 <= j < n ==> StoI(body[j]).Some?
  }

  lemma ReadOneOk(body: seq<string>, i: nat, max: int)
    requires max > 0
    ensures ReadOne(body, i, max).PixelsOk? <==>
              3 * i + 2 < |body| && StoI(body[3 * i]).Some? && StoI(body[3 * i + 1]).Some? && StoI(body[3 * i + 2]).Some?
    ensures ReadOne(body, i, max).PixelsOk? ==> ReadOne(body, i, max).pixels == [TripleAt(body, i, max)]
  {
  }

  /** All of the first n pixels parse exactly when the body holds 3n
      numbers, and pixel i is then triple i of the body, rescaled. */
  lemma ReadPixelsOk(body: seq<string>, max: int, n: nat)
    requires max > 0
    ensures ReadPixels(body, max, n).PixelsOk? <==> NumbersUpTo(body, 3 * n)
    ensures ReadPixels(body, max, n).PixelsOk? ==>
              var px := ReadPixels(body, max, n).pixels;
              |px| == n && forall i :: 0 <= i < n ==> px[i] == TripleAt(body, i, max)
  {
    ReadPixelsOkIff(body, max, n);
    if ReadPixels(body, max, n).PixelsOk? {
      ReadPixelsContents(body, max, n);
    }
  }

  lemma {:induction false} ReadPixelsOkIff(body: seq<string>, max: int, n: nat)
    requires max > 0
    ensures ReadPixels(body, max, n).PixelsOk? <==> NumbersUpTo(body, 3 * n)
  {
    if n > 0 {
      ReadPixelsOkIff(body, max, n - 1);
      ReadOneOk(body, n - 1, max);
      var j := 3 * (n - 1);
      if NumbersUpTo(body, 3 * n) {
        assert NumbersUpTo(body, j);
        assert StoI(body[j]).Some? && StoI(body[j + 1]).Some? && StoI(body[j + 2]).Some?;
      }
      if ReadPixels(body, max, n).PixelsOk? {
        forall k | 0 <= k < 3 * n ensures StoI(body[k]).Some? {
          if k >= j {
            assert k == j || k == j + 1 || k == j + 2;
          }
        }
      }
    }
  }

  lemma {:induction false} ReadPixelsContents(body: seq<string>, max: int, n: nat)
    requires max > 0 && NumbersUpTo(body, 3 * n) && ReadPixels(body, max, n).PixelsOk?
    ensures var px := ReadPixels(body, max, n).pixels;
            |px| == n && forall i :: 0 <= i < n ==> px[i] == TripleAt(body, i, max)
  {
    if n > 0 {
      assert NumbersUpTo(body, 3 * (n - 1));
      ReadPixelsContents(body, max, n - 1);
      ReadOneOk(body, n - 1, max);
      var px := ReadPixels(body, max, n - 1).pixels;
      var all := ReadPixels(body, max, n).pixels;
      assert all == px + [TripleAt(body, n - 1, max)];
      forall i | 0 <= i < n ensures all[i] == TripleAt(body, i, max) {
        if i < n - 1 {
          assert all[i] == px[i];
        }
      }
    }
  }

  /** One more pixel: the decode of i + 1 pixels is that of i pixels
      followed by pixel i, or pixel i's failure. */
  lemma ReadPixelsNext(body: seq<string>, max: int, i: nat, px: seq<Pixel>, p: PixelRead)
    requires max > 0
    requires ReadPixels(body, max, i) == PixelsOk(px) && p == ReadOne(body, i, max)
    ensures p.PixelsOk? ==> p.pixels == [p.pixels[0]] && ReadPixels(body, max, i + 1) == PixelsOk(px + [p.pixels[0]])
    ensures !p.PixelsOk? ==> ReadPixels(body, max, i + 1) == p
  {
  }

  /** A decode that fails in the middle of the pixels fails for every
      larger count too. */
  lemma {:induction false} ReadPixelsStopped(body: seq<string>, max: int, n: nat, m: nat)
    requires max > 0 && n <= m
    requires !ReadPixels(body, max, n).PixelsOk?
    ensures ReadPixels(body, max, m) == ReadPixels(body, max, n)
    decreases m - n
  {
    if n < m {
      ReadPixelsStopped(body, max, n, m - 1);
    }
  }

  /** When the decoder succeeds: the tag, the header numbers and
      width * height well-formed RGB triples, each rescaled. */
  lemma DecodedMeans(s: seq<string>)
    requires DecodeTokens(s).Decoded?
    ensures var r := DecodeTokens(s);
            |r.pixels| == r.width * r.height &&
            NumbersUpTo(s[4..], 3 * (r.width * r.height)) &&
            forall i :: 0 <= i < r.width * r.height ==> r.pixels[i] == TripleAt(s[4..], i, StoI(s[3]).value)
  {
    var r := DecodeTokens(s);
    ReadPixelsOk(s[4..], StoI(s[3]).value, r.width * r.height);
  }

  /** The decoder succeeds exactly when the header is right and every
      channel of the width * height pixels is a number. */
  lemma DecodedExactly(s: seq<string>)
    ensures DecodeTokens(s).Decoded? <==>
      |s| >= 4 && s[0] == "P3" &&
      StoI(s[1]).Some? && StoI(s[2]).Some? && StoI(s[3]).Some? &&
      StoI(s[1]).value > 0 && StoI(s[2]).value > 0 && StoI(s[3]).value > 0 &&
      NumbersUpTo(s[4..], 3 * (StoI(s[1]).value * StoI(s[2]).value))
  {
    if |s| >= 4 && s[0] == "P3" && StoI(s[1]).Some? && StoI(s[2]).Some? && StoI(s[3]).Some? &&
       StoI(s[1]).value > 0 && StoI(s[2]).value > 0 && StoI(s[3]).value > 0 {
      ReadPixelsOk(s[4..], StoI(s[3]).value, StoI(s[1]).value * StoI(s[2]).value);
    }
  }

  /** The example of a 100-maximum texel (50, 100, 0): (127, 255, 0). */
  lemma RescaleExample()
    ensures Rescale(50, 100) == 127 && Rescale(100, 100) == 255 && Rescale(0, 100) == 0
  {
  }

  // ---------------------------------------------------------------------
  // loadPPM itself: the header checks, then a write loop into an array of
  // width * height pixels.

  method LoadPpm(files: map<string, PpmText>, path: string) returns (r: PpmResult)
    ensures r == DecodePpmFile(files, path)
  {
    if path !in files {
      return Failed;
    }
    var text := files[path];
    var header, cur := LoadPpmHeader(text);
    match header {
      case HeaderFailed => return Failed;
      case HeaderThrew => return Threw;
      case HeaderOk(width, height, max) =>
        var pixels := LoadPpmPixels(text, cur, width * height, max, Stream(text)[4..]);
        match pixels {
          case PixelsOk(px) => return Decoded(width, height, px);
          case Truncated => return Failed;
          case BadNumber => return Threw;
        }
    }
  }

  /** The four header reads of loadPPM, leaving the cursor on the pixels. */
  method LoadPpmHeader(text: PpmText) returns (r: HeaderRead, cur: Cursor)
    ensures r == ReadHeader(Stream(text))
    ensures r.HeaderOk? ==> CursorOk(text, cur) && |Stream(text)| >= 4 && StreamFrom(text, cur) == Stream(text)[4..]
  {
    ghost var s := Stream(text);
    var t := ReadPpmToken(text, Cursor(0, 0));
    if t.None? || t.value.0 != "P3" {
      return HeaderFailed, Cursor(0, 0);
    }
    t := ReadPpmToken(text, t.value.1);
    if t.None? {
      return HeaderFailed, Cursor(0, 0);
    }
    var w := StoI(t.value.0);
    if w.None? {
      return HeaderThrew, Cursor(0, 0);
    }
    t := ReadPpmToken(text, t.value.1);
    if t.None? {
      return HeaderFailed, Cursor(0, 0);
    }
    var h := StoI(t.value.0);
    if h.None? {
      return HeaderThrew, Cursor(0, 0);
    }
    t := ReadPpmToken(text, t.value.1);
    if t.None? {
      return HeaderFailed, Cursor(0, 0);
    }
    var mx := StoI(t.value.0);
    if mx.None? {
      return HeaderThrew, Cursor(0, 0);
    }
    if w.value <= 0 || h.value <= 0 || mx.value <= 0 {
      return HeaderFailed, Cursor(0, 0);
    }
    return HeaderOk(w.value, h.value, mx.value), t.value.1;
  }

  /** One channel: a token read, then stoi. */
  method LoadPpmChannel(text: PpmText, cur: Cursor, ghost body: seq<string>, ghost j: nat)
    returns (ch: Channel, next: Cursor)
    requires CursorOk(text, cur) && j <= |body| && StreamFrom(text, cur) == body[j..]
    ensures ch == ChannelAt(body, j)
    ensures ch.Number? ==> CursorOk(text, next) && j + 1 <= |body| && StreamFrom(text, next) == body[j + 1..]
  {
    next := cur;
    var t := ReadPpmToken(text, cur);
    if t.None? {
      return EndOfStream, next;
    }
    assert body[j..] == [body[j]] + body[j + 1..];
    var n := StoI(t.value.0);
    if n.None? {
      return NotANumber, next;
    }
    return Number(n.value), t.value.1;
  }

  /** One pixel: three channels, rescaled when the maximum is not 255. */
  method LoadPpmPixel(text: PpmText, cur: Cursor, max: int, ghost body: seq<string>, ghost i: nat)
    returns (r: PixelRead, next: Cursor)
    requires max > 0
    requires CursorOk(text, cur) && 3 * i <= |body| && StreamFrom(text, cur) == body[3 * i..]
    ensures !r.PixelsOk? ==> r == ReadOne(body, i, max)
    ensures r.PixelsOk? ==>
              3 * i + 2 < |body| &&
              StoI(body[3 * i]).Some? && StoI(body[3 * i + 1]).Some? && StoI(body[3 * i + 2]).Some? &&
              r.pixels == [TripleAt(body, i, max)]
    ensures r.PixelsOk? ==> CursorOk(text, next) && StreamFrom(text, next) == body[3 * (i + 1)..]
  {
    var red, c1 := LoadPpmChannel(text, cur, body, 3 * i);
    if !red.Number? {
      return if red.EndOfStream? then Truncated else BadNumber, cur;
    }
    var green, c2 := LoadPpmChannel(text, c1, body, 3 * i + 1);
    if !green.Number? {
      return if green.EndOfStream? then Truncated else BadNumber, cur;
    }
    var blue, c3 := LoadPpmChannel(text, c2, body, 3 * i + 2);
    if !blue.Number? {
      return if blue.EndOfStream? then Truncated else BadNumber, cur;
    }
    return PixelsOk([Pixel(Rescale(red.n, max), Rescale(green.n, max), Rescale(blue.n, max))]), c3;
  }

  /** image.resize(width * height), then the indexed write loop. */
  method LoadPpmPixels(text: PpmText, cur: Cursor, n: nat, max: int, ghost body: seq<string>)
    returns (r: PixelRead)
    requires max > 0
    requires CursorOk(text, cur) && StreamFrom(text, cur) == body
    ensures r == ReadPixels(body, max, n)
  {
    var image := new Pixel[n];
    var c := cur;
    var i := 0;
    while i < n
      invariant 0 <= i <= n
      invariant CursorOk(text, c) && 3 * i <= |body| && StreamFrom(text, c) == body[3 * i..]
      invariant ReadPixels(body, max, i).PixelsOk? && image[..i] == ReadPixels(body, max, i).pixels
    {
      var p, next := LoadPpmPixel(text, c, max, body, i);
      ReadOneOk(body, i, max);
      ReadPixelsNext(body, max, i, image[..i], ReadOne(body, i, max));
      if !p.PixelsOk? {
        ReadPixelsStopped(body, max, i + 1, n);
        return p;
      }
      image[i] := p.pixels[0];
      assert image[..i + 1] == image[..i] + [p.pixels[0]];
      c := next;
      i := i + 1;
    }
    assert image[..] == image[..n];
    return PixelsOk(image[..]);
  }
}
