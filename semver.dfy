/**
 * The tag pattern that create-tag, verify-tags and list-tags all test,
 *
 *     ^v?\d+\.\d+\.\d+(-[a-zA-Z0-9.-]+)?(\+[a-zA-Z0-9.-]+)?$
 *
 * a looser form of Semantic Versioning 2.0.0 (sections 2, 9 and 10): leading
 * zeros and empty dot-separated identifiers are accepted.
 *
 * `Matches` is a left-to-right recogniser; `Decomposes` says what the pattern
 * says (the string is built from those pieces); `MatchesIff` proves them equal.
 */
module SemVer {
  import opened Strings

  /** The class `[a-zA-Z0-9.-]`. */
  predicate IsIdentChar(c: char) { IsAsciiAlnum(c) || c == '.' || c == '-' }

  /** `[a-zA-Z0-9.-]+` */
  predicate Ident1(s: string) { |s| > 0 && forall i :: 0 <= i < |s| ==> IsIdentChar(s[i]) }

  /** An optional group `(<lead>[a-zA-Z0-9.-]+)?`, given the text it matched. */
  predicate OptionalPart(lead: char, part: string)
  {
    part == [] || (part[0] == lead && Ident1(part[1..]))
  }

  /** The regular expression's meaning: the string is `v?`, three digit runs, and the two optional parts. */
  ghost predicate Decomposes(s: string)
  {
    exists p: string, a: string, b: string, c: string, pre: string, build: string ::
      BuiltFrom(s, p, a, b, c, pre, build)
  }

  /** `s` is the concatenation of pieces each matched by its part of the pattern. */
  ghost predicate BuiltFrom(s: string, p: string, a: string, b: string, c: string, pre: string, build: string)
  {
    && (p == "" || p == "v")
    && Digits1(a) && Digits1(b) && Digits1(c)
    && OptionalPart('-', pre) && OptionalPart('+', build)
    && s == p + a + "." + b + "." + c + pre + build
  }

  /** What may follow `X.Y.Z`: nothing, a `-` part (with an optional `+` part), or a `+` part. */
  predicate Tail(r: string)
  {
    r == []
    || (r[0] == '+' && Ident1(r[1..]))
    || (r[0] == '-' && PreThenBuild(r[1..]))
  }

  /** After the `-`: identifier characters up to the first `+`, then an optional `+` part. */
  predicate PreThenBuild(r: string)
  {
    var m := PlusIndex(r);
    Ident1(r[..m]) && (m == |r| || Ident1(r[m + 1..]))
  }

  function PlusIndex(r: string): (m: nat)
    ensures m <= |r|
    ensures m < |r| ==> r[m] == '+'
    ensures forall i :: 0 <= i < m ==> r[i] != '+'
    decreases |r|
  {
    if r == [] then 0 else if r[0] == '+' then 0 else 1 + PlusIndex(r[1..])
  }

  /** `semanticVersionRegex.test(s)`: a single left-to-right scan. */
  predicate Matches(s: string)
  {
    Versioned(if |s| > 0 && s[0] == 'v' then s[1..] else s)
  }

  /** `\d+\.` and the rest, after the optional `v`. */
  predicate Versioned(t: string)
  {
    var i := DigitRun(t);
    0 < i < |t| && t[i] == '.' && MinorOn(t[i + 1..])
  }

  /** `\d+\.` and the rest, after the major component. */
  predicate MinorOn(t: string)
  {
    var j := DigitRun(t);
    0 < j < |t| && t[j] == '.' && PatchOn(t[j + 1..])
  }

  /** `\d+` and the optional parts, after the minor component. */
  predicate PatchOn(t: string)
  {
    var k := DigitRun(t);
    0 < k && Tail(t[k..])
  }

  lemma {:induction false} PlusIndexOf(pre: string, rest: string)
    requires forall i :: 0 <= i < |pre| ==> pre[i] != '+'
    requires rest == [] || rest[0] == '+'
    ensures PlusIndex(pre + rest) == |pre|
    decreases |pre|
  {
    if pre != [] {
      assert (pre + rest)[1..] == pre[1..] + rest;
      PlusIndexOf(pre[1..], rest);
    }
  }

  lemma {:induction false} TailOfParts(pre: string, build: string)
    requires OptionalPart('-', pre) && OptionalPart('+', build)
    ensures Tail(pre + build)
  {
    var r := pre + build;
    if pre == [] {
      assert r == build;
    } else {
      assert r[0] == '-';
      var body := pre[1..];
      assert r[1..] == body + build;
      forall i | 0 <= i < |body| ensures body[i] != '+' {
        assert IsIdentChar(body[i]);
      }
      PlusIndexOf(body, build);
      assert r[1..][..|body|] == body;
      if build != [] {
        assert r[1..][|body| + 1..] == build[1..];
      }
    }
  }

  lemma {:induction false} PartsOfTail(r: string) returns (pre: string, build: string)
    requires Tail(r)
    ensures OptionalPart('-', pre) && OptionalPart('+', build) && r == pre + build
  {
    if r == [] {
      pre, build := [], [];
    } else if r[0] == '+' {
      pre, build := [], r;
    } else {
      var body := r[1..];
      var m := PlusIndex(body);
      pre := [r[0]] + body[..m];
      build := body[m..];
      assert pre[1..] == body[..m];
      if m < |body| {
        assert build[1..] == body[m + 1..];
      }
      assert r == [r[0]] + body;
      assert body == body[..m] + body[m..];
    }
  }

  /** The recogniser accepts exactly the strings the regular expression describes. */
  lemma {:induction false} MatchesIff(s: string)
    ensures Matches(s) <==> Decomposes(s)
  {
    if Matches(s) {
      MatchesDecomposes(s);
    }
    if Decomposes(s) {
      DecomposesMatches(s);
    }
  }

  lemma {:induction false} DecomposesMatches(s: string)
    requires Decomposes(s)
    ensures Matches(s)
  {
    var p: string, a: string, b: string, c: string, pre: string, build: string :|
      BuiltFrom(s, p, a, b, c, pre, build);
    PiecesMatch(p, a, b, c, pre, build);
  }

  lemma {:induction false} MatchesDecomposes(s: string)
    requires Matches(s)
    ensures Decomposes(s)
  {
    var p := if |s| > 0 && s[0] == 'v' then "v" else "";
    var t := s[|p|..];
    assert s == p + t;
    var a, t2 := RunOf(t);
    var b, t3 := RunOf(t2);
    var c, pre, build := PatchParts(t3);
    Regroup(p, a, b, c, pre, build);
    assert BuiltFrom(s, p, a, b, c, pre, build);
  }

  /** Splits `\d+\.` off the front of a string accepted by `Versioned` or `MinorOn`. */
  lemma {:induction false} RunOf(t: string) returns (a: string, rest: string)
    requires Versioned(t) || MinorOn(t)
    ensures Digits1(a) && t == a + ("." + rest)
    ensures Versioned(t) ==> MinorOn(rest)
    ensures MinorOn(t) ==> PatchOn(rest)
  {
    var i := DigitRun(t);
    a, rest := t[..i], t[i + 1..];
    SplitAtDot(t, i);
  }

  lemma {:induction false} SplitAtDot(t: string, i: nat)
    requires i < |t| && t[i] == '.'
    ensures t == t[..i] + ("." + t[i + 1..])
  {
    assert t == t[..i] + ([t[i]] + t[i + 1..]);
  }

  lemma {:induction false} PatchParts(t: string) returns (c: string, pre: string, build: string)
    requires PatchOn(t)
    ensures Digits1(c) && OptionalPart('-', pre) && OptionalPart('+', build)
    ensures t == c + (pre + build)
  {
    var k := DigitRun(t);
    c := t[..k];
    pre, build := PartsOfTail(t[k..]);
    assert t == t[..k] + t[k..];
  }

  lemma {:induction false} PiecesMatch(p: string, a: string, b: string, c: string, pre: string, build: string)
    requires p == "" || p == "v"
    requires Digits1(a) && Digits1(b) && Digits1(c)
    requires OptionalPart('-', pre) && OptionalPart('+', build)
    ensures Matches(p + a + "." + b + "." + c + pre + build)
  {
    TailOfParts(pre, build);
    PatchOnOf(c, pre + build);
    var t3 := c + (pre + build);
    MinorOnOf(b, t3);
    var t2 := b + ("." + t3);
    VersionedOf(a, t2);
    var t := a + ("." + t2);
    Regroup(p, a, b, c, pre, build);
    StripV(p, t);
  }

  lemma {:induction false} Regroup(p: string, a: string, b: string, c: string, pre: string, build: string)
    ensures p + a + "." + b + "." + c + pre + build == p + (a + ("." + (b + ("." + (c + (pre + build))))))
  {
  }

  lemma {:induction false} StripV(p: string, t: string)
    requires p == "" || p == "v"
    requires Versioned(t)
    ensures Matches(p + t)
  {
    var s := p + t;
    if p == "" {
      assert s == t;
      assert t[0] != 'v' by { assert IsDigit(t[0]); }
    } else {
      assert s[1..] == t;
    }
  }

  lemma {:induction false} PatchOnOf(c: string, r: string)
    requires Digits1(c) && Tail(r)
    ensures PatchOn(c + r)
  {
    assert r == [] || !IsDigit(r[0]);
    DigitRunOf(c, r);
    assert (c + r)[|c|..] == r;
  }

  lemma {:induction false} MinorOnOf(b: string, t: string)
    requires Digits1(b) && PatchOn(t)
    ensures MinorOn(b + ("." + t))
  {
    RunMatches(b, t);
  }

  lemma {:induction false} VersionedOf(a: string, t: string)
    requires Digits1(a) && MinorOn(t)
    ensures Versioned(a + ("." + t))
  {
    RunMatches(a, t);
  }

  lemma {:induction false} RunMatches(a: string, rest: string)
    requires Digits1(a)
    ensures DigitRun(a + ("." + rest)) == |a|
    ensures (a + ("." + rest))[|a|] == '.' && (a + ("." + rest))[|a| + 1..] == rest
  {
    DigitRunOf(a, "." + rest);
  }

  // ------------------------------------------------------------- consequences

  /** Semantic Versioning 2.0.0 section 2 forbids leading zeros; the pattern accepts them. */
  lemma {:induction false} AcceptsLeadingZeros()
    ensures Matches("01.0.0")
  {
    assert Tail("");
    PatchOnOf("0", "");
    assert "0" + "" == "0";
    MinorOnOf("0", "0");
    AcceptsTagged("01", "0" + ("." + "0"));
    LeadingZerosText();
  }

  lemma {:induction false} LeadingZerosText()
    ensures "01" + ("." + ("0" + ("." + "0"))) == "01.0.0"
  {
  }

  /**
   * Section 9 forbids empty identifiers; the pattern accepts them, e.g.
   * `1.0.0-a..b`: any `X.Y.Z-x..y` with `x`, `y` from `[a-zA-Z0-9.-]+` matches.
   */
  lemma {:induction false} AcceptsEmptyIdentifiers(a: string, b: string, c: string, x: string, y: string)
    requires Digits1(a) && Digits1(b) && Digits1(c) && Ident1(x) && Ident1(y)
    ensures Matches(a + ("." + (b + ("." + (c + ("-" + (x + ".." + y)))))))
  {
    var z := x + ".." + y;
    IdentDots(x, y);
    var pre := "-" + z;
    assert pre[1..] == z;
    TailOfParts(pre, "");
    assert pre + "" == pre;
    PatchOnOf(c, pre);
    MinorOnOf(b, c + pre);
    AcceptsTagged(a, b + ("." + (c + pre)));
  }

  lemma {:induction false} IdentDots(x: string, y: string)
    requires Ident1(x) && Ident1(y)
    ensures Ident1(x + ".." + y)
  {
    var z := x + ".." + y;
    forall i | 0 <= i < |z| ensures IsIdentChar(z[i]) {
      if i < |x| {
        assert z[i] == x[i];
      } else if i >= |x| + 2 {
        assert z[i] == y[i - |x| - 2];
      }
    }
  }

  /** A digit run, a dot and any text that matches from the minor component on is accepted as it stands. */
  lemma {:induction false} AcceptsTagged(a: string, t: string)
    requires Digits1(a) && MinorOn(t)
    ensures Matches(a + ("." + t))
  {
    VersionedOf(a, t);
    StripV("", a + ("." + t));
    assert "" + (a + ("." + t)) == a + ("." + t);
  }

  /** The `v` prefix is optional: a string that does not start with `v` is accepted with it exactly when it is accepted without it. */
  lemma {:induction false} OptionalV(s: string)
    requires s == [] || s[0] != 'v'
    ensures Matches("v" + s) <==> Matches(s)
  {
    assert ("v" + s)[0] == 'v' && ("v" + s)[1..] == s;
  }

  /** Shapes the pattern turns down: a missing component, an upper-case `V`, an empty `-` part. */
  lemma {:induction false} RejectsMalformed()
    ensures !Matches("v1.0") && !Matches("V1.0.0") && !Matches("1.0.0-")
  {
    RejectsTwoComponents();
    RejectsUpperV();
    RejectsEmptyPre();
  }

  lemma {:induction false} RejectsTwoComponents()
    ensures !Matches("v1.0")
  {
    assert "v1.0"[1..] == "1.0";
    assert DigitRun("1.0") == 1 by { DigitRunOf("1", ".0"); assert "1" + ".0" == "1.0"; }
    assert "1.0"[2..] == "0";
    assert DigitRun("0") == 1 by { DigitRunOf("0", ""); assert "0" + "" == "0"; }
  }

  lemma {:induction false} RejectsUpperV()
    ensures !Matches("V1.0.0")
  {
    assert DigitRun("V1.0.0") == 0;
  }

  lemma {:induction false} RejectsEmptyPre()
    ensures !Matches("1.0.0-")
  {
    assert "1.0.0-"[0] != 'v';
    NoMinorAfterOne();
  }

  lemma {:induction false} NoMinorAfterOne()
    ensures !Versioned("1.0.0-")
  {
    assert DigitRun("1.0.0-") == 1 by { DigitRunOf("1", ".0.0-"); assert "1" + ".0.0-" == "1.0.0-"; }
    assert "1.0.0-"[2..] == "0.0-";
    NoPatchAfterZero();
  }

  lemma {:induction false} NoPatchAfterZero()
    ensures !MinorOn("0.0-")
  {
    assert DigitRun("0.0-") == 1 by { DigitRunOf("0", ".0-"); assert "0" + ".0-" == "0.0-"; }
    assert "0.0-"[2..] == "0-";
    EmptyPreRefused();
  }

  lemma {:induction false} EmptyPreRefused()
    ensures !PatchOn("0-")
  {
    assert DigitRun("0-") == 1 by { DigitRunOf("0", "-"); assert "0" + "-" == "0-"; }
    assert "0-"[1..] == "-";
    assert "-"[1..] == "";
    assert PlusIndex("") == 0;
  }
}
