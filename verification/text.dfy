/** String helpers of src/OBJParser.cpp and the parts of the C++ library the
    parser relies on: `ltrim`, `directoryOf`, `std::string::find` and
    `std::stoi`. */
module Text {
  import opened Maybe

  /** Removes the longest prefix of `s` made of characters of `cs`. */
  function DropLeading(s: string, cs: set<char>): string
  {
    if |s| > 0 && s[0] in cs then DropLeading(s[1..], cs) else s
  }

  /** What DropLeading removes is a prefix of characters of `cs`, and it
      stops at the first character outside `cs`. */
  lemma {:induction false} DropLeadingSuffix(s: string, cs: set<char>)
    ensures var r := DropLeading(s, cs);
            |r| <= |s| && r == s[|s| - |r|..] &&
            (forall i :: 0 <= i < |s| - |r| ==> s[i] in cs) &&
            (r == [] || r[0] !in cs)
  {
    if |s| > 0 && s[0] in cs {
      DropLeadingSuffix(s[1..], cs);
    }
  }

  /** The characters `ltrim` strips. */
  const TrimChars: set<char> := {' ', '\t', '\r', '\n'}

  /** ltrim: `s` without its leading blanks; a string of blanks becomes "". */
  function Ltrim(s: string): (r: string)
    ensures |r| <= |s| && r == s[|s| - |r|..]
    ensures forall i :: 0 <= i < |s| - |r| ==> s[i] in TrimChars
    ensures r == [] || r[0] !in TrimChars
  {
    DropLeadingSuffix(s, TrimChars);
    DropLeading(s, TrimChars)
  }

  /** std::string::find(c, from): the first position at or after `from`
      holding `c`. */
  function FindFrom(s: string, c: char, from: nat): (r: Option<nat>)
    ensures r.Some? ==> from <= r.value < |s| && s[r.value] == c
    ensures r.Some? ==> forall i :: from <= i < r.value ==> s[i] != c
    ensures r.None? ==> forall i :: from <= i < |s| ==> s[i] != c
    decreases |s| - from
  {
    if from >= |s| then None
    else if s[from] == c then Some(from)
    else FindFrom(s, c, from + 1)
  }

  predicate IsSeparator(c: char) { c == '/' || c == '\\' }

  /** find_last_of("/\\"): the last path separator of `s`. */
  function FindLastSeparator(s: string): (r: Option<nat>)
    ensures r.Some? ==> r.value < |s| && IsSeparator(s[r.value])
    ensures r.Some? ==> forall i :: r.value < i < |s| ==> !IsSeparator(s[i])
    ensures r.None? ==> forall i :: 0 <= i < |s| ==> !IsSeparator(s[i])
  {
    if |s| == 0 then None
    else if IsSeparator(s[|s| - 1]) then Some(|s| - 1)
    else FindLastSeparator(s[..|s| - 1])
  }

  /** directoryOf: "." for a bare file name, "/" for a file of the root, and
      otherwise everything before the last separator. */
  function DirectoryOf(path: string): (r: string)
    ensures (forall i :: 0 <= i < |path| ==> !IsSeparator(path[i])) ==> r == "."
    ensures forall k :: 0 <= k < |path| && IsSeparator(path[k]) &&
                        (forall i :: k < i < |path| ==> !IsSeparator(path[i])) ==>
                        r == if k == 0 then "/" else path[..k]
  {
    match FindLastSeparator(path)
    case None => "."
    case Some(k) => if k == 0 then "/" else path[..k]
  }

  /** The path of a file named in a directive, relative to a directory
      (mtllib always joins; OBJParser.cpp:385). */
  function Join(dir: string, name: string): string
  {
    dir + "/" + name
  }

  /** The path map_Kd loads: a relative name is joined to the library's
      directory, an absolute or empty one is used as it is. */
  function TexturePath(dir: string, file: string): (r: string)
    ensures file != [] && file[0] != '/' ==> r == Join(dir, file)
    ensures file == [] || file[0] == '/' ==> r == file
  {
    if file != [] && file[0] != '/' then Join(dir, file) else file
  }

  // ---------------------------------------------------------------------
  // std::stoi (base 10): leading white space, an optional sign, the longest
  // run of digits; no digit at all, or a value outside the 32-bit int
  // range, makes it throw (None).

  /** The characters isspace accepts in the C locale. */
  const CSpaceChars: set<char> := {' ', '\t', '\n', '\U{0B}', '\U{0C}', '\r'}

  const IntMin: int := -0x8000_0000
  const IntMax: int := 0x7FFF_FFFF

  predicate IsDigit(c: char) { '0' <= c <= '9' }

  predicate AllDigits(s: string) { forall i :: 0 <= i < |s| ==> IsDigit(s[i]) }

  /** The value of the run of digits at the front of `s`, accumulated onto
      `acc`. */
  function DigitsFrom(s: string, acc: int): int
  {
    if |s| > 0 && IsDigit(s[0]) then DigitsFrom(s[1..], acc * 10 + (s[0] as int - '0' as int))
    else acc
  }

  function StoI(s: string): (r: Option<int>)
    ensures r.Some? ==> IntMin <= r.value <= IntMax
  {
    var t := DropLeading(s, CSpaceChars);
    var u := SignStripped(t);
    if u == [] || !IsDigit(u[0]) then None
    else
      var m := DigitsFrom(u, 0);
      var v := if t[0] == '-' then -m else m;
      if IntMin <= v <= IntMax then Some(v) else None
  }

  function SignStripped(t: string): string
  {
    if |t| > 0 && (t[0] == '-' || t[0] == '+') then t[1..] else t
  }

  // The decimal rendering of an integer, and stoi's round trip over it.

  function DigitChar(d: nat): char
    requires d < 10
  {
    ('0' as int + d) as char
  }

  function Digits(n: nat): (s: string)
    ensures |s| > 0 && AllDigits(s)
  {
    if n < 10 then [DigitChar(n)] else Digits(n / 10) + [DigitChar(n % 10)]
  }

  function Decimal(n: int): string
  {
    if n < 0 then "-" + Digits(-n) else Digits(n)
  }

  /** Appending a digit to a run of digits shifts its value one place. */
  lemma {:induction false} DigitsFromSnoc(s: string, c: char, acc: int)
    requires AllDigits(s) && IsDigit(c)
    ensures DigitsFrom(s + [c], acc) == DigitsFrom(s, acc) * 10 + (c as int - '0' as int)
  {
    if |s| == 0 {
      assert (s + [c])[1..] == [];
    } else {
      assert (s + [c])[1..] == s[1..] + [c];
      DigitsFromSnoc(s[1..], c, acc * 10 + (s[0] as int - '0' as int));
    }
  }

  lemma {:induction false} DigitsValue(n: nat)
    ensures DigitsFrom(Digits(n), 0) == n
  {
    if n < 10 {
      assert Digits(n)[1..] == [];
    } else {
      DigitsValue(n / 10);
      DigitsFromSnoc(Digits(n / 10), DigitChar(n % 10), 0);
    }
  }

  /** stoi reads back every int it is given in decimal. */
  lemma StoIDecimal(n: int)
    requires IntMin <= n <= IntMax
    ensures StoI(Decimal(n)) == Some(n)
  {
    var s := Decimal(n);
    assert s[0] !in CSpaceChars;
    assert DropLeading(s, CSpaceChars) == s;
    var ds := Digits(if n < 0 then -n else n);
    assert SignStripped(s) == ds;
    DigitsValue(if n < 0 then -n else n);
  }
}
