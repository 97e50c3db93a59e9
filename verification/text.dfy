/**
 * The parts of Python's `str` behaviour the scripts rely on: `strip()`,
 * `startswith`/`endswith`, the `<` ordering used by `list.sort`, and the way
 * iterating over a text-mode file cuts it into lines.
 */
module Text {

  /** The characters `str.strip()` removes: those for which `str.isspace()` holds. */
  predicate IsSpace(c: char) {
    c == ' ' || ('\t' <= c <= '\r') || ('\U{1C}' <= c <= '\U{1F}')
    || c == '\U{85}' || c == '\U{A0}' || c == '\U{1680}'
    || ('\U{2000}' <= c <= '\U{200A}')
    || c == '\U{2028}' || c == '\U{2029}' || c == '\U{202F}' || c == '\U{205F}' || c == '\U{3000}'
  }

  predicate AllSpace(s: string) {
    forall i :: 0 <= i < |s| ==> IsSpace(s[i])
  }

  /** Neither the first nor the last character is whitespace (so `strip()` leaves it alone). */
  predicate NoSurroundingSpace(s: string) {
    s == [] || (!IsSpace(s[0]) && !IsSpace(s[|s| - 1]))
  }

  /** The number of whitespace characters in `s` from `i` on before the first other one. */
  function SpaceRun(s: string, i: nat): (n: nat)
    requires i <= |s|
    ensures i + n <= |s|
    ensures forall k :: i <= k < i + n ==> IsSpace(s[k])
    ensures i + n == |s| || !IsSpace(s[i + n])
    decreases |s| - i
  {
    if i < |s| && IsSpace(s[i]) then 1 + SpaceRun(s, i + 1) else 0
  }

  /** The number of whitespace characters in `s` before `j` after the last other one. */
  function SpaceRunBack(s: string, j: nat): (n: nat)
    requires j <= |s|
    ensures n <= j
    ensures forall k :: j - n <= k < j ==> IsSpace(s[k])
    ensures n == j || !IsSpace(s[j - n - 1])
  {
    if j > 0 && IsSpace(s[j - 1]) then 1 + SpaceRunBack(s, j - 1) else 0
  }

  /** `s.lstrip()`: the suffix of `s` left after its leading whitespace. */
  function TrimStart(s: string): (r: string)
    ensures |r| <= |s| && r == s[|s| - |r|..]
    ensures AllSpace(s[..|s| - |r|])
    ensures r == [] || !IsSpace(r[0])
    ensures r == [] <==> AllSpace(s)
  {
    var n := SpaceRun(s, 0);
    forall k | 0 <= k < n ensures IsSpace(s[..n][k]) {
      assert s[..n][k] == s[k];
    }
    s[n..]
  }

  /** `s.rstrip()`: the prefix of `s` left before its trailing whitespace. */
  function TrimEnd(s: string): (r: string)
    ensures |r| <= |s| && r == s[..|r|]
    ensures AllSpace(s[|r|..])
    ensures r == [] || !IsSpace(r[|r| - 1])
    ensures r == [] <==> AllSpace(s)
  {
    var n := SpaceRunBack(s, |s|);
    var m := |s| - n;
    var tail := s[m..];
    forall k | 0 <= k < n ensures IsSpace(tail[k]) {
      assert tail[k] == s[m + k];
    }
    s[..m]
  }

  /** `s.strip()`. */
  function Strip(s: string): (r: string)
    ensures NoSurroundingSpace(r)
    ensures |r| <= |s|
    ensures r == [] <==> AllSpace(s)
    ensures exists i, j :: 0 <= i <= j <= |s| && r == s[i..j] && AllSpace(s[..i]) && AllSpace(s[j..])
  {
    var t := TrimStart(s);
    var r := TrimEnd(t);
    assert r != [] ==> r[0] == t[0];
    var i := |s| - |t|;
    var j := i + |r|;
    assert r == s[i..j];
    assert s[j..] == t[|r|..];
    r
  }

  /** `strip()` leaves a string that has no surrounding whitespace unchanged. */
  lemma StripKeeps(s: string)
    requires NoSurroundingSpace(s)
    ensures Strip(s) == s
  {
    if s != [] {
      assert SpaceRun(s, 0) == 0;
      assert SpaceRunBack(s, |s|) == 0;
    }
  }

  predicate StartsWith(s: string, prefix: string) {
    |prefix| <= |s| && s[..|prefix|] == prefix
  }

  predicate EndsWith(s: string, suffix: string) {
    |suffix| <= |s| && s[|s| - |suffix|..] == suffix
  }

  /** Python's `a < b` on `str`: lexicographic by code point, a proper prefix first. */
  predicate Below(a: string, b: string) {
    if a == [] then b != []
    else if b == [] then false
    else if a[0] != b[0] then a[0] < b[0]
    else Below(a[1..], b[1..])
  }

  lemma {:induction false} BelowIrreflexive(a: string)
    ensures !Below(a, a)
  {
    if a != [] {
      BelowIrreflexive(a[1..]);
    }
  }

  lemma {:induction false} BelowTransitive(a: string, b: string, c: string)
    requires Below(a, b) && Below(b, c)
    ensures Below(a, c)
  {
    if a != [] && a[0] == b[0] && b[0] == c[0] {
      BelowTransitive(a[1..], b[1..], c[1..]);
    }
  }

  /** Any two distinct strings are ordered one way or the other. */
  lemma {:induction false} BelowTotal(a: string, b: string)
    requires a != b
    ensures Below(a, b) || Below(b, a)
  {
    if a != [] && b != [] && a[0] == b[0] {
      assert a == [a[0]] + a[1..] && b == [b[0]] + b[1..];
      BelowTotal(a[1..], b[1..]);
    }
  }

  /** `a <= b` as far as a stable sort is concerned: `b < a` does not hold. */
  lemma NotBelowTransitive(a: string, b: string, c: string)
    requires !Below(b, a) && !Below(c, b)
    ensures !Below(c, a)
  {
    if Below(c, a) {
      if a != b {
        BelowTotal(a, b);
        BelowTransitive(c, a, b);
      }
      BelowIrreflexive(b);
      if c == b {
      } else {
        BelowTotal(b, c);
      }
    }
  }

  /** The characters at which a text-mode file read with universal newlines ends a line. */
  predicate IsLineBreak(c: char) {
    c == '\n' || c == '\r'
  }

  predicate HasNoLineBreak(s: string) {
    forall i :: 0 <= i < |s| ==> !IsLineBreak(s[i])
  }

  /**
   * The pieces of `s` between line breaks, in order, breaks removed, cut at
   * every `'\n'` and every `'\r'` separately. These are not the lines a file
   * iterates as: a `"\r\n"` ending leaves an empty piece between its two
   * characters, and a final break leaves an empty piece after it. The extra
   * pieces are blank, the terminators are whitespace, and so keeping the
   * non-blank stripped pieces gives the same tickers as keeping the non-blank
   * stripped lines.
   */
  function Split(s: string): (r: seq<string>)
    ensures |r| == |Breaks(s)| + 1
    ensures forall k :: 0 <= k < |r| ==> HasNoLineBreak(r[k])
    ensures Rejoin(r, Breaks(s)) == s
  {
    if s == [] then [""]
    else
      var rest := Split(s[1..]);
      if IsLineBreak(s[0]) then
        assert s == [s[0]] + s[1..];
        [""] + rest
      else
        RejoinCons(s[0], rest, Breaks(s[1..]));
        assert Breaks(s) == [] + Breaks(s[1..]) == Breaks(s[1..]);
        assert s == [s[0]] + s[1..];
        [[s[0]] + rest[0]] + rest[1..]
  }

  /** The line-break characters of `s`, in order. */
  function Breaks(s: string): (b: string)
    ensures |b| <= |s|
  {
    if s == [] then []
    else (if IsLineBreak(s[0]) then [s[0]] else []) + Breaks(s[1..])
  }

  /** The pieces put back together, the k-th separator between the k-th and the next piece. */
  function Rejoin(pieces: seq<string>, seps: string): string
    requires |pieces| == |seps| + 1
  {
    if seps == [] then pieces[0] else pieces[0] + [seps[0]] + Rejoin(pieces[1..], seps[1..])
  }

  lemma RejoinCons(c: char, pieces: seq<string>, seps: string)
    requires |pieces| == |seps| + 1
    ensures Rejoin([[c] + pieces[0]] + pieces[1..], seps) == [c] + Rejoin(pieces, seps)
  {
    var ps := [[c] + pieces[0]] + pieces[1..];
    assert ps[0] == [c] + pieces[0];
    if seps != [] {
      assert ps[1..] == pieces[1..];
      var tail := Rejoin(pieces[1..], seps[1..]);
      calc {
        Rejoin(ps, seps);
        ps[0] + [seps[0]] + tail;
        [c] + (pieces[0] + [seps[0]] + tail);
        [c] + Rejoin(pieces, seps);
      }
    }
  }

  /** The pieces written one per line: each followed by `"\n"`. */
  function Joined(lines: seq<string>): string {
    if lines == [] then "" else lines[0] + "\n" + Joined(lines[1..])
  }

  lemma {:induction false} JoinedStep(lines: seq<string>, i: nat)
    requires i < |lines|
    ensures Joined(lines[..i + 1]) == Joined(lines[..i]) + lines[i] + "\n"
  {
    if i == 0 {
      assert lines[..1] == [lines[0]];
      assert Joined(lines[..1][1..]) == "" by { assert lines[..1][1..] == []; }
    } else {
      assert lines[..i + 1][1..] == lines[1..][..i];
      assert lines[..i][1..] == lines[1..][..i - 1];
      JoinedStep(lines[1..], i - 1);
    }
  }

  /** A piece without breaks, followed by a break: `Split` peels it off first. */
  lemma {:induction false} SplitLine(w: string, t: string)
    requires HasNoLineBreak(w)
    ensures Split(w + "\n" + t) == [w] + Split(t)
  {
    if w == [] {
      assert w + "\n" + t == "\n" + t;
      assert ("\n" + t)[1..] == t;
    } else {
      assert (w + "\n" + t)[1..] == w[1..] + "\n" + t;
      SplitLine(w[1..], t);
      assert [w[0]] + w[1..] == w;
    }
  }

  /** Splitting what `Joined` wrote gives the pieces back, plus the empty tail after the last break. */
  lemma {:induction false} SplitJoined(lines: seq<string>)
    requires forall k :: 0 <= k < |lines| ==> HasNoLineBreak(lines[k])
    ensures Split(Joined(lines)) == lines + [""]
  {
    if lines != [] {
      SplitLine(lines[0], Joined(lines[1..]));
      SplitJoined(lines[1..]);
      assert lines == [lines[0]] + lines[1..];
    }
  }
}
