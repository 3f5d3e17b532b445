/**
 * The PHP string builtins the supervisor relies on, stated over `string`
 * (`seq<char>`): `explode`/`implode` on a separator, `array_filter` on string
 * lists (which drops the falsy strings "" and "0"), `rtrim`/`trim` with a
 * character list, and the decimal rendering of a non-negative integer.
 */
module Text {

  datatype Option<T> = None | Some(value: T)

  /** PHP truthiness of a string: "" and "0" are the only falsy strings. */
  predicate Truthy(s: string) {
    s != "" && s != "0"
  }

  /** The last element of a non-empty sequence, and everything before it. */
  function Last<T>(xs: seq<T>): T
    requires |xs| > 0
  {
    xs[|xs| - 1]
  }

  function Init<T>(xs: seq<T>): seq<T>
    requires |xs| > 0
  {
    xs[..|xs| - 1]
  }

  // ---------------------------------------------------------------------------
  // explode("\n", s) and implode(sep, xs)
  // ---------------------------------------------------------------------------

  /** `explode("\n", s)`: the pieces of `s` between newlines, never empty. */
  function Explode(s: string): (r: seq<string>)
    ensures |r| >= 1
    ensures forall i :: 0 <= i < |r| ==> '\n' !in r[i]
    decreases |s|
  {
    if s == [] then [""]
    else
      var rest := Explode(s[1..]);
      if s[0] == '\n' then [""] + rest
      else [[s[0]] + rest[0]] + rest[1..]
  }

  /** `implode(sep, xs)`: the elements of `xs` with `sep` between neighbours. */
  function Join(xs: seq<string>, sep: string): string
  {
    if |xs| == 0 then ""
    else if |xs| == 1 then xs[0]
    else xs[0] + sep + Join(xs[1..], sep)
  }

  /** Imploding what was exploded gives back the original text. */
  lemma {:induction false} JoinExplode(s: string)
    ensures Join(Explode(s), "\n") == s
    decreases |s|
  {
    if s != [] {
      var rest := Explode(s[1..]);
      JoinExplode(s[1..]);
      if s[0] == '\n' {
        assert ([""] + rest)[1..] == rest;
        assert s == "\n" + s[1..];
      } else if |rest| == 1 {
        assert s == [s[0]] + s[1..];
      } else {
        var r := [[s[0]] + rest[0]] + rest[1..];
        assert r[1..] == rest[1..];
        assert s == [s[0]] + s[1..];
      }
    }
  }

  /** Text without a newline explodes into itself. */
  lemma {:induction false} ExplodeSingle(s: string)
    requires '\n' !in s
    ensures Explode(s) == [s]
    decreases |s|
  {
    if s != [] {
      assert '\n' !in s[1..] by {
        forall i | 0 <= i < |s[1..]| ensures s[1..][i] != '\n' { assert s[1..][i] == s[i + 1]; }
      }
      ExplodeSingle(s[1..]);
      assert s == [s[0]] + s[1..];
    }
  }

  /** How `Explode` treats its first character. */
  lemma ExplodeCons(c: char, t: string)
    ensures Explode([c] + t) ==
      if c == '\n' then [""] + Explode(t) else [[c] + Explode(t)[0]] + Explode(t)[1..]
  {
    assert ([c] + t)[0] == c && ([c] + t)[1..] == t;
  }

  /** The step of `ExplodeAppend` for a first character that is not a newline. */
  lemma ExplodeAppendStep(c: char, T: seq<string>, R: seq<string>, B: seq<string>)
    requires c != '\n' && |T| >= 1 && |B| >= 1
    requires R == Init(T) + [Last(T) + B[0]] + B[1..]
    ensures [[c] + R[0]] + R[1..]
         == Init([[c] + T[0]] + T[1..]) + [Last([[c] + T[0]] + T[1..]) + B[0]] + B[1..]
  {
    if |T| == 1 {
      assert R == [T[0] + B[0]] + B[1..];
      assert [c] + (T[0] + B[0]) == ([c] + T[0]) + B[0];
    } else {
      assert R[0] == T[0];
      assert R[1..] == Init(T)[1..] + [Last(T) + B[0]] + B[1..];
      assert Init([[c] + T[0]] + T[1..]) == [[c] + T[0]] + Init(T)[1..];
    }
  }

  /** The step of `ExplodeAppend` for a leading newline. */
  lemma ExplodeAppendNewlineStep(T: seq<string>, R: seq<string>, B: seq<string>)
    requires |T| >= 1 && |B| >= 1
    requires R == Init(T) + [Last(T) + B[0]] + B[1..]
    ensures [""] + R == Init([""] + T) + [Last([""] + T) + B[0]] + B[1..]
  {
    assert Init([""] + T) == [""] + Init(T);
  }

  /**
   * Exploding a concatenation: the last piece of `a` and the first piece of
   * `b` fuse into one line, everything else is kept.
   */
  lemma {:induction false} ExplodeAppend(a: string, b: string)
    ensures Explode(a + b) == Init(Explode(a)) + [Last(Explode(a)) + Explode(b)[0]] + Explode(b)[1..]
    decreases |a|
  {
    var B := Explode(b);
    if a == [] {
      assert a + b == b;
      assert Explode(a) == [""];
      assert Init(Explode(a)) == [] && Last(Explode(a)) + B[0] == B[0];
      assert B == [B[0]] + B[1..];
    } else {
      var c, t := a[0], a[1..];
      var T := Explode(t);
      ExplodeAppend(t, b);
      assert a == [c] + t;
      assert a + b == [c] + (t + b);
      ExplodeCons(c, t);
      ExplodeCons(c, t + b);
      if c == '\n' {
        ExplodeAppendNewlineStep(T, Explode(t + b), B);
      } else {
        ExplodeAppendStep(c, T, Explode(t + b), B);
      }
    }
  }

  /** A newline between two texts separates their lines. */
  lemma ExplodeJoin(a: string, b: string)
    ensures Explode(a + "\n" + b) == Explode(a) + Explode(b)
  {
    var A := Explode(a);
    assert a + "\n" + b == a + ("\n" + b);
    assert ("\n" + b)[0] == '\n' && ("\n" + b)[1..] == b;
    ExplodeAppend(a, "\n" + b);
    assert Last(A) + "" == Last(A);
    assert Init(A) + [Last(A)] == A;
  }

  /** Exploding an imploded list of newline-free lines gives the list back. */
  lemma {:induction false} ExplodeJoinLines(xs: seq<string>)
    requires |xs| >= 1
    requires forall i :: 0 <= i < |xs| ==> '\n' !in xs[i]
    ensures Explode(Join(xs, "\n")) == xs
    decreases |xs|
  {
    ExplodeSingle(xs[0]);
    if |xs| > 1 {
      ExplodeJoinLines(xs[1..]);
      ExplodeJoin(xs[0], Join(xs[1..], "\n"));
      assert xs == [xs[0]] + xs[1..];
    }
  }

  // ---------------------------------------------------------------------------
  // array_filter on a list of strings
  // ---------------------------------------------------------------------------

  /** `array_filter(xs)`: the truthy elements of `xs`, in their order. */
  function KeepTruthy(xs: seq<string>): (r: seq<string>)
    ensures |r| <= |xs|
    ensures forall i :: 0 <= i < |r| ==> Truthy(r[i])
  {
    if xs == [] then []
    else (if Truthy(xs[0]) then [xs[0]] else []) + KeepTruthy(xs[1..])
  }

  /** Exactly the truthy elements of `xs` survive the filter. */
  lemma {:induction false} KeepTruthyMembers(xs: seq<string>)
    ensures forall x :: x in KeepTruthy(xs) <==> x in xs && Truthy(x)
    decreases |xs|
  {
    if xs != [] {
      KeepTruthyMembers(xs[1..]);
      assert xs == [xs[0]] + xs[1..];
    }
  }

  lemma {:induction false} KeepTruthyConcat(a: seq<string>, b: seq<string>)
    ensures KeepTruthy(a + b) == KeepTruthy(a) + KeepTruthy(b)
    decreases |a|
  {
    if a == [] {
      assert a + b == b;
    } else {
      assert (a + b)[0] == a[0];
      assert (a + b)[1..] == a[1..] + b;
      KeepTruthyConcat(a[1..], b);
    }
  }

  lemma KeepTruthySingle(x: string)
    ensures KeepTruthy([x]) == if Truthy(x) then [x] else []
  {
    assert [x][1..] == [];
  }

  /** Filtering a list that is already truthy changes nothing. */
  lemma {:induction false} KeepTruthyOfTruthy(xs: seq<string>)
    requires forall i :: 0 <= i < |xs| ==> Truthy(xs[i])
    ensures KeepTruthy(xs) == xs
    decreases |xs|
  {
    if xs != [] {
      KeepTruthyOfTruthy(xs[1..]);
      assert xs == [xs[0]] + xs[1..];
    }
  }

  /** Appending text to a truthy string keeps it truthy. */
  lemma TruthyExtend(x: string, y: string)
    requires Truthy(x)
    ensures Truthy(x + y)
  {
    assert (x + y)[..|x|] == x;
  }

  // ---------------------------------------------------------------------------
  // rtrim($s, $chars) and trim($s)
  // ---------------------------------------------------------------------------

  /** The characters PHP's `trim` strips by default: " \t\n\r\0\x0B". */
  const WHITESPACE: set<char> := {' ', '\t', '\n', '\r', '\0', 11 as char}

  /**
   * `rtrim(s, chars)`: the longest prefix of `s` not ending in one of
   * `chars`; everything cut off is made of `chars`.
   */
  function RTrim(s: string, chars: set<char>): (r: string)
    ensures r <= s
    ensures r == [] || Last(r) !in chars
    ensures forall i :: |r| <= i < |s| ==> s[i] in chars
    decreases |s|
  {
    if s != [] && Last(s) in chars then RTrim(Init(s), chars) else s
  }

  /** `ltrim(s, chars)`: the longest suffix of `s` not starting with one of `chars`. */
  function LTrim(s: string, chars: set<char>): (r: string)
    ensures |r| <= |s| && r == s[|s| - |r|..]
    ensures r == [] || r[0] !in chars
    ensures forall i :: 0 <= i < |s| - |r| ==> s[i] in chars
    decreases |s|
  {
    if s != [] && s[0] in chars then LTrim(s[1..], chars) else s
  }

  /** `trim(s)` with PHP's default character list. */
  function Trim(s: string): (r: string)
    ensures r == [] || (r[0] !in WHITESPACE && Last(r) !in WHITESPACE)
    ensures var i := |RTrim(s, WHITESPACE)| - |r|;
      0 <= i && i + |r| <= |s| && r == s[i..i + |r|]
      && (forall k :: 0 <= k < i ==> s[k] in WHITESPACE)
      && (forall k :: i + |r| <= k < |s| ==> s[k] in WHITESPACE)
  {
    var t := RTrim(s, WHITESPACE);
    var r := LTrim(t, WHITESPACE);
    var i := |t| - |r|;
    assert t == s[..|t|];
    assert r == t[i..] == s[i..|t|];
    assert forall k :: 0 <= k < i ==> s[k] == t[k];
    r
  }

  /** `rtrim` is idempotent. */
  lemma RTrimIdempotent(s: string, chars: set<char>)
    ensures RTrim(RTrim(s, chars), chars) == RTrim(s, chars)
  {
  }

  /**
   * The contract of `RTrim` pins down its result: any prefix of `s` that
   * does not end in `chars` and after which only `chars` follow is it.
   */
  lemma RTrimUnique(s: string, chars: set<char>, r: string)
    requires r <= s
    requires r == [] || Last(r) !in chars
    requires forall i :: |r| <= i < |s| ==> s[i] in chars
    ensures r == RTrim(s, chars)
  {
    var t := RTrim(s, chars);
    if |r| < |t| {
      assert false;
    } else if |t| < |r| {
      assert false;
    }
    assert r == s[..|r|] == t;
  }

  /**
   * `trim` recovers a word from the word followed by whitespace (a command's
   * output line with its newline, say).
   */
  lemma TrimPadded(s: string, pad: string)
    requires s != [] && s[0] !in WHITESPACE && Last(s) !in WHITESPACE
    requires forall i :: 0 <= i < |pad| ==> pad[i] in WHITESPACE
    ensures Trim(s + pad) == s
  {
    assert (s + pad)[..|s|] == s;
    RTrimUnique(s + pad, WHITESPACE, s);
  }

  // ---------------------------------------------------------------------------
  // Decimal rendering of a count (PHP's int-to-string conversion)
  // ---------------------------------------------------------------------------

  function Digit(d: nat): (c: char)
    requires d < 10
    ensures '0' <= c <= '9'
  {
    (48 + d) as char
  }

  /** The decimal digits of `n`, most significant first, without leading zeros. */
  function NatToString(n: nat): (r: string)
    ensures |r| >= 1
    ensures forall i :: 0 <= i < |r| ==> '0' <= r[i] <= '9'
    ensures r[0] == '0' <==> n == 0
    decreases n
  {
    if n < 10 then [Digit(n)] else NatToString(n / 10) + [Digit(n % 10)]
  }

  /** Reads a string of decimal digits back as a number. */
  function ParseNat(s: string): nat
    requires forall i :: 0 <= i < |s| ==> '0' <= s[i] <= '9'
  {
    if s == [] then 0 else ParseNat(Init(s)) * 10 + (Last(s) as int - 48)
  }

  lemma {:induction false} ParseNatToString(n: nat)
    ensures ParseNat(NatToString(n)) == n
    decreases n
  {
    if n >= 10 {
      var s := NatToString(n);
      assert Init(s) == NatToString(n / 10);
      ParseNatToString(n / 10);
    }
  }

  lemma NatToStringExamples()
    ensures NatToString(10) == "10"
    ensures NatToString(1000) == "1000"
  {
    assert NatToString(1) == "1";
    assert NatToString(10) == NatToString(1) + [Digit(0)];
    assert NatToString(100) == NatToString(10) + [Digit(0)];
    assert NatToString(1000) == NatToString(100) + [Digit(0)];
  }

}
