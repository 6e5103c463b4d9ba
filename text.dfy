/** Strings as the services and the queries use them: ASCII lower-casing,
    substring containment, SQL LIKE patterns, decimal rendering of ids and the
    way `String.formatted` renders a null. */
module Text {
  import opened Wrappers

  function LowerChar(c: char): char {
    if 'A' <= c <= 'Z' then (c as int + 32) as char else c
  }

  /** `toLowerCase(Locale.ROOT)` and SQL `lower(...)`, restricted to ASCII. */
  function ToLower(s: string): (r: string)
    ensures |r| == |s|
    ensures forall i :: 0 <= i < |s| ==> r[i] == LowerChar(s[i])
  {
    if s == [] then [] else [LowerChar(s[0])] + ToLower(s[1..])
  }

  lemma ToLowerAppend(a: string, b: string)
    ensures ToLower(a + b) == ToLower(a) + ToLower(b)
  {
    var l, r := ToLower(a + b), ToLower(a) + ToLower(b);
    forall i | 0 <= i < |l| ensures l[i] == r[i] {
      if i < |a| {
        assert (a + b)[i] == a[i];
      } else {
        assert (a + b)[i] == b[i - |a|];
      }
    }
  }

  predicate IsPrefix(p: string, s: string) {
    |p| <= |s| && s[..|p|] == p
  }

  /** `sub` occurs somewhere in `s`. */
  predicate Contains(s: string, sub: string)
    decreases |s|
  {
    IsPrefix(sub, s) || (s != [] && Contains(s[1..], sub))
  }

  ghost predicate OccursAt(s: string, sub: string, i: int) {
    0 <= i && i + |sub| <= |s| && s[i..i + |sub|] == sub
  }

  lemma {:induction false} OccurrenceContained(s: string, sub: string, i: int)
    requires OccursAt(s, sub, i)
    ensures Contains(s, sub)
    decreases i
  {
    if i == 0 {
      assert s[..|sub|] == s[0..|sub|];
    } else {
      assert s[1..][i - 1..i - 1 + |sub|] == s[i..i + |sub|];
      OccurrenceContained(s[1..], sub, i - 1);
    }
  }

  /** Containment means an occurrence at some index. */
  lemma {:induction false} ContainsIff(s: string, sub: string)
    ensures Contains(s, sub) <==> exists i :: OccursAt(s, sub, i)
    decreases |s|
  {
    forall i | OccursAt(s, sub, i) ensures Contains(s, sub) {
      OccurrenceContained(s, sub, i);
    }
    if IsPrefix(sub, s) {
      assert OccursAt(s, sub, 0);
    } else if s != [] && Contains(s[1..], sub) {
      ContainsIff(s[1..], sub);
      var i :| OccursAt(s[1..], sub, i);
      assert s[i + 1..i + 1 + |sub|] == s[1..][i..i + |sub|];
      assert OccursAt(s, sub, i + 1);
    }
  }

  /** A string contains every piece of a concatenation it is built from. */
  lemma ContainsMiddle(a: string, b: string, c: string)
    ensures Contains(a + b + c, b)
  {
    var s := a + b + c;
    assert s[|a|..|a| + |b|] == b;
    assert OccursAt(s, b, |a|);
    ContainsIff(s, b);
  }

  /** A string never contains a longer one. */
  lemma {:induction false} ContainsNeedsRoom(s: string, sub: string)
    requires |sub| > |s|
    ensures !Contains(s, sub)
    decreases |s|
  {
    if s != [] {
      ContainsNeedsRoom(s[1..], sub);
    }
  }

  /** The characters that SQL LIKE treats as wildcards. */
  predicate IsWildcard(c: char) {
    c == '%' || c == '_'
  }

  predicate NoWildcards(s: string) {
    forall i :: 0 <= i < |s| ==> !IsWildcard(s[i])
  }

  /** SQL `s LIKE p` without an ESCAPE clause: `%` matches any run of
      characters, `_` exactly one, every other character itself. */
  predicate LikeMatch(s: string, p: string)
    decreases |s| + |p|
  {
    if p == [] then s == []
    else if p[0] == '%' then LikeMatch(s, p[1..]) || (s != [] && LikeMatch(s[1..], p))
    else if p[0] == '_' then s != [] && LikeMatch(s[1..], p[1..])
    else s != [] && s[0] == p[0] && LikeMatch(s[1..], p[1..])
  }

  lemma {:induction false} LikeAnything(s: string)
    ensures LikeMatch(s, "%")
    decreases |s|
  {
    assert "%"[1..] == [];
    if s != [] {
      LikeAnything(s[1..]);
    }
  }

  /** `s LIKE v%` with a literal `v` is "s starts with v". */
  lemma {:induction false} LikePrefix(s: string, v: string)
    requires NoWildcards(v)
    ensures LikeMatch(s, v + "%") <==> IsPrefix(v, s)
    decreases |v|
  {
    if v == [] {
      assert v + "%" == "%";
      LikeAnything(s);
    } else {
      var p := v + "%";
      assert p[0] == v[0] && !IsWildcard(v[0]);
      assert p[1..] == v[1..] + "%";
      assert NoWildcards(v[1..]) by {
        forall i | 0 <= i < |v[1..]| ensures !IsWildcard(v[1..][i]) {
          assert v[1..][i] == v[i + 1];
        }
      }
      if s != [] {
        LikePrefix(s[1..], v[1..]);
        if IsPrefix(v, s) {
          assert s[1..][..|v| - 1] == s[..|v|][1..];
        }
        if s[0] == v[0] && IsPrefix(v[1..], s[1..]) {
          assert s[..|v|] == [s[0]] + s[1..][..|v| - 1];
        }
      }
    }
  }

  /** The pattern `%v%` with a literal `v` is plain substring containment. */
  lemma {:induction false} LikeContains(s: string, v: string)
    requires NoWildcards(v)
    ensures LikeMatch(s, "%" + v + "%") <==> Contains(s, v)
    decreases |s|
  {
    var p := "%" + v + "%";
    assert p[0] == '%';
    assert p[1..] == v + "%";
    LikePrefix(s, v);
    if s != [] {
      LikeContains(s[1..], v);
    }
  }

  lemma LowerKeepsNoWildcards(v: string)
    requires NoWildcards(v)
    ensures NoWildcards(ToLower(v))
  {
  }

  function DigitChar(d: int): char
    requires 0 <= d < 10
  {
    "0123456789"[d]
  }

  function NatToString(n: nat): string
    decreases n
  {
    if n < 10 then [DigitChar(n)] else NatToString(n / 10) + [DigitChar(n % 10)]
  }

  /** Decimal rendering of a Java long, as `%s` prints it. */
  function IntToString(n: int): string {
    if n < 0 then "-" + NatToString(-n) else NatToString(n)
  }

  /** `%s` applied to a String that may be null. */
  function OrNull(s: Option<string>): string {
    if s.Some? then s.value else "null"
  }
}
