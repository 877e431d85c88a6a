/** The directory search pattern matcher: a two-pointer scan over UTF-8 bytes
    that remembers only the latest star, against the declarative meaning of star
    and question mark over decoded characters. */
module Wildcard {
  import opened Bytes

  const STAR: int := 42
  const QUESTION: int := 63
  const RUNE_SELF: int := 0x80

  // ---- decoding ----

  predicate Continues(s: seq<Byte>, i: nat, low: int, high: int) { i < |s| && low <= s[i] <= high }

  function Low(s: seq<Byte>, i: nat): int
    requires i < |s|
  {
    s[i] as int - 0x80
  }

  /** The first character of a string that starts with a non-ASCII byte, and how
      many bytes it takes. A byte that is not valid UTF-8 stands for itself, as a
      negative number. */
  function DecodeRune(s: seq<Byte>): (r: (int, nat))
    requires s != [] && s[0] >= RUNE_SELF
    ensures 1 <= r.1 <= |s|
    ensures r.0 >= RUNE_SELF || r.0 <= -RUNE_SELF
  {
    var b: int := s[0];
    if 0xC2 <= b <= 0xDF && Continues(s, 1, 0x80, 0xBF) then
      ((b - 0xC0) * 0x40 + Low(s, 1), 2)
    else if 0xE0 <= b <= 0xEF && Continues(s, 1, if b == 0xE0 then 0xA0 else 0x80, if b == 0xED then 0x9F else 0xBF)
            && Continues(s, 2, 0x80, 0xBF) then
      ((b - 0xE0) * 0x1000 + Low(s, 1) * 0x40 + Low(s, 2), 3)
    else if 0xF0 <= b <= 0xF4 && Continues(s, 1, if b == 0xF0 then 0x90 else 0x80, if b == 0xF4 then 0x8F else 0xBF)
            && Continues(s, 2, 0x80, 0xBF) && Continues(s, 3, 0x80, 0xBF) then
      ((b - 0xF0) * 0x4_0000 + Low(s, 1) * 0x1000 + Low(s, 2) * 0x40 + Low(s, 3), 4)
    else (-b, 1)
  }

  function First(s: seq<Byte>): (r: (int, nat))
    requires s != []
    ensures 1 <= r.1 <= |s|
    ensures (s[0] == STAR <==> r.0 == STAR) && (r.0 == STAR ==> r.1 == 1)
  {
    if s[0] >= RUNE_SELF then DecodeRune(s) else (s[0], 1)
  }

  /** The characters of a byte string. */
  function Runes(s: seq<Byte>): seq<int> {
    if s == [] then [] else [First(s).0] + Runes(s[First(s).1..])
  }

  /** The bytes of a character: UTF-8, or the byte a negative number stands for. */
  function Encode(r: int): seq<int> {
    if r < 0 then [-r]
    else if r < 0x80 then [r]
    else if r < 0x800 then [0xC0 + r / 0x40, 0x80 + r % 0x40]
    else if r < 0x1_0000 then [0xE0 + r / 0x1000, 0x80 + r / 0x40 % 0x40, 0x80 + r % 0x40]
    else [0xF0 + r / 0x4_0000, 0x80 + r / 0x1000 % 0x40, 0x80 + r / 0x40 % 0x40, 0x80 + r % 0x40]
  }

  function Encoded(rs: seq<int>): seq<int> { if rs == [] then [] else Encode(rs[0]) + Encoded(rs[1..]) }

  lemma Digits(a: int, b: int, c: int, d: int)
    requires 0 <= b < 0x40 && 0 <= c < 0x40 && 0 <= d < 0x40 && a >= 0
    ensures var r := a * 0x4_0000 + b * 0x1000 + c * 0x40 + d;
      r / 0x4_0000 == a && r / 0x1000 % 0x40 == b && r / 0x40 % 0x40 == c && r % 0x40 == d
      && r / 0x1000 == a * 0x40 + b && r / 0x40 == a * 0x1000 + b * 0x40 + c
  {
    var r := a * 0x4_0000 + b * 0x1000 + c * 0x40 + d;
    assert r / 0x40 == a * 0x1000 + b * 0x40 + c;
    assert r / 0x1000 == a * 0x40 + b;
  }

  /** Encoding the first character again gives the bytes it was decoded from. */
  lemma FirstEncodes(s: seq<Byte>)
    requires s != []
    ensures Encode(First(s).0) == s[..First(s).1]
  {
    var (r, n) := First(s);
    if n == 2 {
      Digits(0, 0, s[0] as int - 0xC0, Low(s, 1));
    } else if n == 3 {
      Digits(0, s[0] as int - 0xE0, Low(s, 1), Low(s, 2));
    } else if n == 4 {
      Digits(s[0] as int - 0xF0, Low(s, 1), Low(s, 2), Low(s, 3));
    }
  }

  /** Decoding loses nothing: two names with the same characters are the same
      bytes, invalid UTF-8 included. */
  lemma {:induction false} RunesEncode(s: seq<Byte>)
    ensures Encoded(Runes(s)) == s
  {
    if s != [] {
      FirstEncodes(s);
      RunesEncode(s[First(s).1..]);
      assert Runes(s)[1..] == Runes(s[First(s).1..]);
    }
  }

  lemma RunesInjective(s: seq<Byte>, t: seq<Byte>)
    requires Runes(s) == Runes(t)
    ensures s == t
  {
    RunesEncode(s);
    RunesEncode(t);
  }

  // ---- what a pattern means ----

  /** A star stands for any characters, a question mark for any one, and every
      other character for those it is equal to. */
  ghost predicate Match(ps: seq<int>, ns: seq<int>, same: (int, int) -> bool)
    decreases |ps|
  {
    if ps == [] then ns == []
    else if ps[0] == STAR then exists k :: 0 <= k <= |ns| && Match(ps[1..], ns[k..], same)
    else ns != [] && (ps[0] == QUESTION || same(ps[0], ns[0])) && Match(ps[1..], ns[1..], same)
  }

  function Same(caseSensitive: bool, fold: (int, int) -> bool): (int, int) -> bool {
    (a: int, b: int) => a == b || (!caseSensitive && fold(a, b))
  }

  // ---- a stretch without stars ----

  predicate NoStar(ps: seq<int>, d: nat)
    requires d <= |ps|
  {
    forall i :: 0 <= i < d ==> ps[i] != STAR
  }

  /** A star-free stretch takes exactly its own length of the name. */
  lemma {:induction false} StretchTakes(ps: seq<int>, ns: seq<int>, d: nat, same: (int, int) -> bool)
    requires d <= |ps| && NoStar(ps, d) && Match(ps, ns, same)
    ensures d <= |ns| && Match(ps[d..], ns[d..], same)
  {
    if d == 0 {
      assert ps[0..] == ps && ns[0..] == ns;
    } else {
      assert ps[0] != STAR;
      assert forall i :: 0 <= i < d - 1 ==> ps[1..][i] == ps[i + 1];
      StretchTakes(ps[1..], ns[1..], d - 1, same);
      assert ps[1..][d - 1..] == ps[d..] && ns[1..][d - 1..] == ns[d..];
    }
  }

  /** There is a match if the star before ps takes at least one more character. */
  ghost predicate MoreSwallowed(ps: seq<int>, ns: seq<int>, same: (int, int) -> bool) {
    exists j :: 1 <= j <= |ns| && Match(ps, ns[j..], same)
  }

  /** Only the latest star matters: any match that an earlier star could still
      reach by taking more, the later star can reach as well. */
  lemma LatestStarSuffices(ps: seq<int>, ns: seq<int>, d: nat, same: (int, int) -> bool)
    requires d < |ps| && d <= |ns| && NoStar(ps, d) && ps[d] == STAR && MoreSwallowed(ps, ns, same)
    ensures Match(ps[d..], ns[d..], same)
  {
    var j :| 1 <= j <= |ns| && Match(ps, ns[j..], same);
    StretchTakes(ps, ns[j..], d, same);
    assert ns[j..][d..] == ns[j + d..];
    var k :| 0 <= k <= |ns[j + d..]| && Match(ps[d..][1..], ns[j + d..][k..], same);
    assert ns[j + d..][k..] == ns[d..][j + k..];
  }

  /** At the end of the name an earlier start leaves too little for the stretch. */
  lemma NothingLeftToSwallow(ps: seq<int>, ns: seq<int>, d: nat, same: (int, int) -> bool)
    requires d <= |ps| && d == |ns| && NoStar(ps, d)
    ensures !MoreSwallowed(ps, ns, same)
  {
    if MoreSwallowed(ps, ns, same) {
      var j :| 1 <= j <= |ns| && Match(ps, ns[j..], same);
      StretchTakes(ps, ns[j..], d, same);
      assert false;
    }
  }

  lemma SwallowOne(ps: seq<int>, ns: seq<int>, same: (int, int) -> bool)
    requires ns != []
    ensures MoreSwallowed(ps, ns, same) <==> Match(ps, ns[1..], same) || MoreSwallowed(ps, ns[1..], same)
  {
    assert forall j :: 1 <= j <= |ns| - 1 ==> ns[1..][j..] == ns[j + 1..];
    if MoreSwallowed(ps, ns, same) {
      var j :| 1 <= j <= |ns| && Match(ps, ns[j..], same);
      assert j > 1 ==> ns[1..][j - 1..] == ns[j..];
    }
    if MoreSwallowed(ps, ns[1..], same) {
      var j :| 1 <= j <= |ns[1..]| && Match(ps, ns[1..][j..], same);
      assert Match(ps, ns[j + 1..], same);
    }
  }

  /** A new star: take nothing, or take more later. */
  lemma StarSplits(ps: seq<int>, ns: seq<int>, same: (int, int) -> bool)
    requires ps != [] && ps[0] == STAR
    ensures Match(ps, ns, same) <==> Match(ps[1..], ns, same) || MoreSwallowed(ps[1..], ns, same)
  {
    assert ns[0..] == ns;
  }

  lemma {:induction false} TrailingStars(s: seq<Byte>, same: (int, int) -> bool)
    ensures Match(Runes(s), [], same) <==> forall i :: 0 <= i < |s| ==> s[i] == STAR
  {
    if s != [] {
      var ps := Runes(s);
      assert ps[1..] == Runes(s[First(s).1..]);
      if s[0] == STAR {
        StarSplits(ps, [], same);
        TrailingStars(s[1..], same);
        assert s == [s[0]] + s[1..];
      }
    }
  }

  // ---- the scan ----

  /** The characters from byte offset i on. */
  function From(s: seq<Byte>, i: nat): seq<int>
    requires i <= |s|
  {
    Runes(s[i..])
  }

  lemma FromStep(s: seq<Byte>, i: nat)
    requires i < |s|
    ensures From(s, i) != [] && From(s, i)[0] == First(s[i..]).0
    ensures i + First(s[i..]).1 <= |s| && From(s, i)[1..] == From(s, i + First(s[i..]).1)
  {
    assert s[i..][First(s[i..]).1..] == s[i + First(s[i..]).1..];
  }

  /** What the scan still has to decide: the attempt under way, or more for the
      latest star. */
  ghost predicate Open(pattern: seq<Byte>, name: seq<Byte>, p: nat, n: nat, starP: int, starN: nat, same: (int, int) -> bool)
    requires p <= |pattern| && n <= |name| && starP <= |pattern| && starN <= |name|
  {
    Match(From(pattern, p), From(name, n), same)
    || (starP >= 0 && MoreSwallowed(From(pattern, starP), From(name, starN), same))
  }

  /** Since the latest star the scan has matched d characters, none of them a star. */
  ghost predicate Since(pattern: seq<Byte>, name: seq<Byte>, p: nat, n: nat, starP: nat, starN: nat, d: nat)
    requires p <= |pattern| && n <= |name| && starP <= |pattern| && starN <= |name|
  {
    && d <= |From(pattern, starP)| && d <= |From(name, starN)| && NoStar(From(pattern, starP), d)
    && From(pattern, p) == From(pattern, starP)[d..] && From(name, n) == From(name, starN)[d..]
  }

  lemma AtStar(pattern: seq<Byte>, name: seq<Byte>, p: nat, n: nat, starP: int, starN: nat, d: nat, same: (int, int) -> bool)
    requires p < |pattern| && n <= |name| && starP <= |pattern| && starN <= |name| && pattern[p] == STAR
    requires starP >= 0 ==> Since(pattern, name, p, n, starP, starN, d)
    ensures Open(pattern, name, p, n, starP, starN, same) <==> Open(pattern, name, p + 1, n, p + 1, n, same)
    ensures Since(pattern, name, p + 1, n, p + 1, n, 0)
    ensures p + 1 == |pattern| ==> Open(pattern, name, p, n, starP, starN, same)
  {
    var ps, ns := From(pattern, p), From(name, n);
    FromStep(pattern, p);
    StarSplits(ps, ns, same);
    if starP >= 0 && MoreSwallowed(From(pattern, starP), From(name, starN), same) {
      LatestStarSuffices(From(pattern, starP), From(name, starN), d, same);
    }
    assert ps[1..][0..] == ps[1..] && ns[0..] == ns;
    if p + 1 == |pattern| {
      assert ps[1..] == [] && ns[|ns|..] == [];
    }
  }

  /** The two characters at hand agree. */
  predicate Agree(pattern: seq<Byte>, name: seq<Byte>, p: nat, n: nat, same: (int, int) -> bool)
    requires p < |pattern| && n < |name|
  {
    First(pattern[p..]).0 == QUESTION || same(First(pattern[p..]).0, First(name[n..]).0)
  }

  lemma AtAgreement(pattern: seq<Byte>, name: seq<Byte>, p: nat, n: nat, starP: int, starN: nat, d: nat, same: (int, int) -> bool)
    requires p < |pattern| && n < |name| && starP <= |pattern| && starN <= |name| && pattern[p] != STAR
    requires starP >= 0 ==> Since(pattern, name, p, n, starP, starN, d)
    requires Agree(pattern, name, p, n, same)
    ensures var p', n' := p + First(pattern[p..]).1, n + First(name[n..]).1;
      && p' <= |pattern| && n' <= |name|
      && (Open(pattern, name, p, n, starP, starN, same) <==> Open(pattern, name, p', n', starP, starN, same))
      && (starP >= 0 ==> Since(pattern, name, p', n', starP, starN, d + 1))
  {
    FromStep(pattern, p);
    FromStep(name, n);
    if starP >= 0 {
      var ps, ns := From(pattern, starP), From(name, starN);
      assert ps[d..][1..] == ps[d + 1..] && ns[d..][1..] == ns[d + 1..];
      assert ps[d] == From(pattern, p)[0];
    }
  }

  lemma AtMismatch(pattern: seq<Byte>, name: seq<Byte>, p: nat, n: nat, starP: int, starN: nat, same: (int, int) -> bool)
    requires p <= |pattern| && n < |name| && starP <= |pattern| && starN <= n
    requires p < |pattern| ==> pattern[p] != STAR && !Agree(pattern, name, p, n, same)
    ensures starP < 0 ==> !Open(pattern, name, p, n, starP, starN, same)
    ensures starP >= 0 ==>
      var n' := starN + First(name[starN..]).1;
      && n' <= |name| && Since(pattern, name, starP, n', starP, n', 0)
      && (Open(pattern, name, p, n, starP, starN, same) <==> Open(pattern, name, starP, n', starP, n', same))
  {
    FromStep(name, n);
    if p < |pattern| { FromStep(pattern, p); }
    if starP >= 0 {
      FromStep(name, starN);
      SwallowOne(From(pattern, starP), From(name, starN), same);
      var n' := starN + First(name[starN..]).1;
      assert From(pattern, starP)[0..] == From(pattern, starP) && From(name, n')[0..] == From(name, n');
    }
  }

  lemma AtEnd(pattern: seq<Byte>, name: seq<Byte>, p: nat, starP: int, starN: nat, d: nat, same: (int, int) -> bool)
    requires p <= |pattern| && starP <= |pattern| && starN <= |name|
    requires starP >= 0 ==> Since(pattern, name, p, |name|, starP, starN, d)
    ensures Open(pattern, name, p, |name|, starP, starN, same) <==> forall i :: p <= i < |pattern| ==> pattern[i] == STAR
  {
    assert From(name, |name|) == [];
    TrailingStars(pattern[p..], same);
    assert forall i :: p <= i < |pattern| ==> pattern[i] == pattern[p..][i - p];
    if starP >= 0 {
      NothingLeftToSwallow(From(pattern, starP), From(name, starN), d, same);
    }
  }

  lemma AtStart(pattern: seq<Byte>, name: seq<Byte>, same: (int, int) -> bool)
    ensures Match(Runes(pattern), Runes(name), same) <==> Open(pattern, name, 0, 0, -1, 0, same)
  {
    assert pattern[0..] == pattern && name[0..] == name;
  }

  /** The turns that moving the latest star through taken bytes may cost. */
  ghost function Cost(taken: nat, width: nat): nat { taken * width }

  lemma CostGrows(a: nat, b: nat, width: nat)
    requires a <= b
    ensures Cost(a, width) <= Cost(b, width)
    ensures a < b ==> Cost(a, width) + width <= Cost(b, width)
  {
    if a < b { assert Cost(b, width) == Cost(a, width) + width + (b - a - 1) * width; }
  }

  /** The matcher accepts exactly the names the pattern stands for; the empty
      pattern stands for every name. It takes at most (|pattern| + 1) times
      (|name| + 1) turns of its main loop. */
  method MatchPattern(pattern: seq<Byte>, name: seq<Byte>, caseSensitive: bool, fold: (int, int) -> bool)
      returns (ok: bool, ghost turns: nat)
    ensures ok <==> pattern == [] || Match(Runes(pattern), Runes(name), Same(caseSensitive, fold))
    ensures turns <= Cost(|name| + 1, |pattern| + 1)
  {
    hide Open, Since, Match, Runes, DecodeRune, First, Cost;
    ghost var same, width := Same(caseSensitive, fold), |pattern| + 1;
    turns := 0;
    if pattern == [] {
      return true, 0;
    }
    if pattern == [STAR] {
      AtStart(pattern, name, same);
      AtStar(pattern, name, 0, 0, -1, 0, 0, same);
      return true, 0;
    }
    var p, n, starP, starN := 0, 0, -1, 0;
    ghost var d := 0;
    AtStart(pattern, name, same);
    while n < |name|
      invariant 0 <= p <= |pattern| && 0 <= starN <= n <= |name| && -1 <= starP <= p
      invariant starP >= 0 ==> Since(pattern, name, p, n, starP, starN, d)
      invariant Match(Runes(pattern), Runes(name), same) <==> Open(pattern, name, p, n, starP, starN, same)
      invariant turns <= Cost(starN, width) + p
      decreases |pattern| - starP, |name| - starN, |pattern| - p + |name| - n
    {
      CostGrows(starN, |name| + 1, width);
      turns := turns + 1;
      if p < |pattern| {
        var (pc, psize) := First(pattern[p..]);
        if pc == STAR {
          AtStar(pattern, name, p, n, starP, starN, d, same);
          p := p + psize;
          if p == |pattern| {
            return true, turns;
          }
          CostGrows(starN, n, width);
          starP, starN, d := p, n, 0;
          continue;
        }
        var (nc, nsize) := First(name[n..]);
        if pc == QUESTION || pc == nc || (!caseSensitive && fold(pc, nc)) {
          AtAgreement(pattern, name, p, n, starP, starN, d, same);
          p, n, d := p + psize, n + nsize, d + 1;
          continue;
        }
      }
      AtMismatch(pattern, name, p, n, starP, starN, same);
      if starP < 0 {
        return false, turns;
      }
      var (_, nsize) := First(name[starN..]);
      CostGrows(starN, starN + nsize, width);
      starN := starN + nsize;
      p, n, d := starP, starN, 0;
    }
    AtEnd(pattern, name, p, starP, starN, d, same);
    CostGrows(starN, |name| + 1, width);
    while p < |pattern|
      invariant 0 <= p <= |pattern|
      invariant Match(Runes(pattern), Runes(name), same) <==> forall i :: p <= i < |pattern| ==> pattern[i] == STAR
    {
      if pattern[p] != STAR {
        return false, turns;
      }
      p := p + 1;
    }
    return true, turns;
  }
}
