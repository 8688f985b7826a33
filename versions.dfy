/**
 * `major.minor.patch` triples as the scripts read and write them:
 * `version.split('.').map(Number)` destructured on the way in and a template
 * string `${major}.${minor}.${patch}` on the way out.
 */
module Versions {
  import opened Wrappers
  import opened Strings

  datatype Version = Version(major: nat, minor: nat, patch: nat)

  /**
   * A JavaScript value met while reading a version: a number, `NaN` (what
   * `Number` makes of a piece that is not a digit string, and what `+ 1`
   * makes of `NaN` or `undefined`), or `undefined` (a piece that
   * destructuring finds missing).
   */
  datatype Num = Num(value: nat) | NaN | Undefined

  /** `Number(piece)` for the pieces of a version: digit strings (the empty one is 0), else `NaN`. */
  function NumberOf(piece: string): (c: Num)
    ensures c.Num? <==> AllDigits(piece)
    ensures c != Undefined
  {
    if AllDigits(piece) then Num(DigitsToNat(piece)) else NaN
  }

  /** The `i`-th element of `pieces.map(Number)`, or `undefined` past its end. */
  function PieceAt(pieces: seq<string>, i: nat): (c: Num)
    ensures c == Undefined <==> i >= |pieces|
  {
    if i < |pieces| then NumberOf(pieces[i]) else Undefined
  }

  /** The three destructured components `[major, minor, patch]`. */
  datatype Reading = Reading(major: Num, minor: Num, patch: Num)

  /** `const [major, minor, patch] = s.split('.').map(Number)`. */
  function Read(s: string): (r: Reading)
    ensures r.major != Undefined
    ensures var p := Split(s, '.');
      && r.major == NumberOf(p[0])
      && (r.minor == Undefined <==> |p| < 2)
      && (r.patch == Undefined <==> |p| < 3)
  {
    var p := Split(s, '.');
    Reading(PieceAt(p, 0), PieceAt(p, 1), PieceAt(p, 2))
  }

  /** `c + 1`: the successor of a number; `NaN` for `NaN` and for `undefined`. */
  function Succ(c: Num): (d: Num)
    ensures d.Num? <==> c.Num?
    ensures c.Num? ==> d.value == c.value + 1
  {
    if c.Num? then Num(c.value + 1) else NaN
  }

  /** `${c}`: decimal digits, `NaN` or `undefined`. */
  function Show(c: Num): (t: string)
    ensures '-' !in t && '+' !in t && '.' !in t
  {
    match c
    case Num(n) => DigitsFree(NatToString(n)); NatToString(n)
    case NaN => "NaN"
    case Undefined => "undefined"
  }

  /** `${major}.${minor}.${patch}`. */
  function Text(r: Reading): (t: string)
    ensures '-' !in t && '+' !in t
  {
    Show(r.major) + "." + Show(r.minor) + "." + Show(r.patch)
  }

  /** The reading of a plain version: three numbers. */
  function Exact(v: Version): (r: Reading)
    ensures r.major.Num? && r.minor.Num? && r.patch.Num?
  {
    Reading(Num(v.major), Num(v.minor), Num(v.patch))
  }

  /** `${major}.${minor}.${patch}` of three numbers: their decimal digits joined by dots. */
  function Render(v: Version): (r: string)
    ensures '-' !in r && '+' !in r
    ensures r == NatToString(v.major) + "." + NatToString(v.minor) + "." + NatToString(v.patch)
  {
    Text(Exact(v))
  }

  /** A decimal rendering has no sign characters and no dots. */
  lemma {:induction false} DigitsFree(s: string)
    requires AllDigits(s)
    ensures '-' !in s && '+' !in s && '.' !in s
  {
    forall i | 0 <= i < |s| ensures s[i] != '-' && s[i] != '+' && s[i] != '.' {
      assert IsDigit(s[i]);
    }
  }

  /**
   * The version whose three destructured components are all numbers; `None`
   * when any of them is `NaN` or `undefined`. `Number("")` is 0 and pieces
   * after the third are ignored.
   */
  function Parse(s: string): (r: Option<Version>)
    ensures r.Some? <==> var p := Split(s, '.'); |p| >= 3 && AllDigits(p[0]) && AllDigits(p[1]) && AllDigits(p[2])
    ensures r.Some? ==> Read(s) == Exact(r.value)
  {
    var c := Read(s);
    if c.major.Num? && c.minor.Num? && c.patch.Num? then
      Some(Version(c.major.value, c.minor.value, c.patch.value))
    else
      None
  }

  /** The leading pieces of a dotted string are read off the text before its dots. */
  lemma {:induction false} ReadDotted(a: string, b: string, rest: string)
    requires '.' !in a && '.' !in b
    ensures Read(a + "." + rest).major == NumberOf(a)
    ensures Read(a + "." + b + "." + rest).major == NumberOf(a)
    ensures Read(a + "." + b + "." + rest).minor == NumberOf(b)
    ensures Read(a + "." + b + "." + rest).patch == NumberOf(Split(rest, '.')[0])
  {
    SplitAfter(a, rest, '.');
    SplitAfter(b, rest, '.');
    assert a + "." + b + "." + rest == a + ['.'] + (b + ['.'] + rest);
    SplitAfter(a, b + ['.'] + rest, '.');
  }

  /** Two dot-free pieces joined by a dot read as a major and a minor, with no patch. */
  lemma {:induction false} ReadPair(a: string, b: string)
    requires '.' !in a && '.' !in b
    ensures Read(a + "." + b) == Reading(NumberOf(a), NumberOf(b), Undefined)
  {
    SplitAfter(a, b, '.');
    SplitFree(b, '.');
    assert a + "." + b == a + ['.'] + b;
  }

  /** Reading back a rendered version gives the version. */
  lemma {:induction false} ParseRender(v: Version)
    ensures Parse(Render(v)) == Some(v)
  {
    var a, b, c := NatToString(v.major), NatToString(v.minor), NatToString(v.patch);
    DigitsFree(a);
    DigitsFree(b);
    DigitsFree(c);
    var parts := [a, b, c];
    assert Join(parts, '.') == Render(v) by {
      assert parts[1..] == [b, c];
      assert [b, c][1..] == [c];
      assert Join([c], '.') == c;
      assert Join([b, c], '.') == b + ['.'] + c;
      assert Join(parts, '.') == a + ['.'] + (b + ['.'] + c);
    }
    SplitJoin(parts, '.');
    NatToStringRoundTrip(v.major);
    NatToStringRoundTrip(v.minor);
    NatToStringRoundTrip(v.patch);
  }

  /** Different versions render differently. */
  lemma RenderInjective(v: Version, w: Version)
    requires Render(v) == Render(w)
    ensures v == w
  {
    ParseRender(v);
    ParseRender(w);
  }

  /** Precedence of plain versions: major, then minor, then patch. */
  predicate Less(v: Version, w: Version)
  {
    v.major < w.major
    || (v.major == w.major && v.minor < w.minor)
    || (v.major == w.major && v.minor == w.minor && v.patch < w.patch)
  }
}
