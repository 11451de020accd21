/** The parts of java.lang.String that the page objects compare with: `equals` is Dafny's `==`;
    `contains`, `equalsIgnoreCase` and `trim` are defined here, each with a declarative partner. */
module JavaStrings {

  /** `s.startsWith(prefix)` */
  predicate StartsWith(s: string, prefix: string) {
    |prefix| <= |s| && s[..|prefix|] == prefix
  }

  /** `s.contains(sub)`: scans s from the left for a position where sub starts.
      The empty string is contained in every string, as in Java. */
  predicate Contains(s: string, sub: string)
    decreases |s|
  {
    StartsWith(s, sub) || (|s| > 0 && Contains(s[1..], sub))
  }

  /** sub occurs in s starting at index i. */
  ghost predicate OccursAt(s: string, sub: string, i: int) {
    0 <= i && i + |sub| <= |s| && s[i..i + |sub|] == sub
  }

  /** Contains finds an occurrence exactly when one exists. */
  lemma {:induction false} ContainsIff(s: string, sub: string)
    ensures Contains(s, sub) <==> exists i :: OccursAt(s, sub, i)
    decreases |s|
  {
    if |s| == 0 {
      if Contains(s, sub) {
        assert OccursAt(s, sub, 0);
      }
      if exists i :: OccursAt(s, sub, i) {
        var i :| OccursAt(s, sub, i);
        assert StartsWith(s, sub);
      }
    } else {
      ContainsIff(s[1..], sub);
      if Contains(s, sub) {
        if StartsWith(s, sub) {
          assert OccursAt(s, sub, 0);
        } else {
          var i :| OccursAt(s[1..], sub, i);
          assert s[1..][i..i + |sub|] == s[i + 1..i + 1 + |sub|];
          assert OccursAt(s, sub, i + 1);
        }
      }
      if exists i :: OccursAt(s, sub, i) {
        var i :| OccursAt(s, sub, i);
        if i == 0 {
          assert StartsWith(s, sub);
        } else {
          assert s[1..][i - 1..i - 1 + |sub|] == s[i..i + |sub|];
          assert OccursAt(s[1..], sub, i - 1);
        }
      }
    }
  }

  /** Text added before or after a string that contains sub does not stop it containing sub. */
  lemma ContainsExtended(s: string, sub: string, before: string, after: string)
    requires Contains(s, sub)
    ensures Contains(before + s + after, sub)
  {
    ContainsIff(s, sub);
    var i :| OccursAt(s, sub, i);
    var t := before + s + after;
    assert t[|before| + i..|before| + i + |sub|] == s[i..i + |sub|];
    assert OccursAt(t, sub, |before| + i);
    ContainsIff(t, sub);
  }

  /** Every string contains itself. */
  lemma ContainsSelf(s: string)
    ensures Contains(s, s)
  {
  }

  /** `Character.toUpperCase`, restricted to the ASCII letters. */
  function UpperAscii(c: char): char {
    if 'a' <= c <= 'z' then (c as int - 'a' as int + 'A' as int) as char else c
  }

  /** `s.equalsIgnoreCase(t)`: equal lengths, and the characters at each index agree once
      upper-cased (for ASCII letters Java's further lower-case comparison adds nothing). */
  predicate EqualsIgnoreCase(s: string, t: string) {
    |s| == |t| && forall i :: 0 <= i < |s| ==> UpperAscii(s[i]) == UpperAscii(t[i])
  }

  /** `s.toUpperCase()` over ASCII letters. */
  function ToUpper(s: string): string {
    if s == [] then [] else [UpperAscii(s[0])] + ToUpper(s[1..])
  }

  lemma {:induction false} ToUpperAt(s: string, i: int)
    requires 0 <= i < |s|
    ensures |ToUpper(s)| == |s| && ToUpper(s)[i] == UpperAscii(s[i])
  {
    if i > 0 {
      ToUpperAt(s[1..], i - 1);
    } else if |s| > 1 {
      ToUpperAt(s[1..], 0);
    } else {
      assert ToUpper(s[1..]) == [];
    }
  }

  /** Two strings are equal ignoring case exactly when their upper-case forms are equal. */
  lemma EqualsIgnoreCaseIff(s: string, t: string)
    ensures EqualsIgnoreCase(s, t) <==> ToUpper(s) == ToUpper(t)
  {
    if s != [] {
      ToUpperAt(s, 0);
    }
    if t != [] {
      ToUpperAt(t, 0);
    }
    if EqualsIgnoreCase(s, t) {
      forall i | 0 <= i < |s| ensures ToUpper(s)[i] == ToUpper(t)[i] {
        ToUpperAt(s, i);
        ToUpperAt(t, i);
      }
    }
    if ToUpper(s) == ToUpper(t) {
      forall i | 0 <= i < |s| ensures UpperAscii(s[i]) == UpperAscii(t[i]) {
        ToUpperAt(s, i);
        ToUpperAt(t, i);
      }
    }
  }

  /** The characters `String.trim` strips from both ends: every code point up to U+0020. */
  predicate IsTrimmable(c: char) {
    c <= ' '
  }

  /** Strips the leading trimmable characters. */
  function TrimStart(s: string): (r: string)
    ensures |r| <= |s| && r == s[|s| - |r|..]
    ensures r == [] || !IsTrimmable(r[0])
    ensures forall k :: 0 <= k < |s| - |r| ==> IsTrimmable(s[k])
    decreases |s|
  {
    if |s| > 0 && IsTrimmable(s[0]) then TrimStart(s[1..]) else s
  }

  /** Strips the trailing trimmable characters. */
  function TrimEnd(s: string): (r: string)
    ensures |r| <= |s| && r == s[..|r|]
    ensures r == [] || !IsTrimmable(r[|r| - 1])
    ensures forall k :: |r| <= k < |s| ==> IsTrimmable(s[k])
    decreases |s|
  {
    if |s| > 0 && IsTrimmable(s[|s| - 1]) then TrimEnd(s[..|s| - 1]) else s
  }

  /** `s.trim()` */
  function Trim(s: string): string {
    TrimEnd(TrimStart(s))
  }

  /** No trimmable character at either end. */
  predicate IsTrimmed(s: string) {
    s == [] || (!IsTrimmable(s[0]) && !IsTrimmable(s[|s| - 1]))
  }

  /** Trim removes exactly the padding: a core without blank ends, surrounded by blanks,
      trims to that core. */
  lemma {:induction false} TrimOfPadded(lead: string, core: string, trail: string)
    requires forall k :: 0 <= k < |lead| ==> IsTrimmable(lead[k])
    requires forall k :: 0 <= k < |trail| ==> IsTrimmable(trail[k])
    requires IsTrimmed(core)
    ensures Trim(lead + core + trail) == core
  {
    if core == [] {
      var blank := lead + trail;
      assert lead + core + trail == blank + [];
      TrimStartOfPadded(blank, []);
    } else {
      assert lead + core + trail == lead + (core + trail);
      TrimStartOfPadded(lead, core + trail);
      TrimEndOfPadded(core, trail);
    }
  }

  lemma {:induction false} TrimStartOfPadded(lead: string, rest: string)
    requires forall k :: 0 <= k < |lead| ==> IsTrimmable(lead[k])
    requires rest == [] || !IsTrimmable(rest[0])
    ensures TrimStart(lead + rest) == rest
    decreases |lead|
  {
    if lead != [] {
      assert (lead + rest)[1..] == lead[1..] + rest;
      TrimStartOfPadded(lead[1..], rest);
    } else {
      assert lead + rest == rest;
    }
  }

  lemma {:induction false} TrimEndOfPadded(rest: string, trail: string)
    requires forall k :: 0 <= k < |trail| ==> IsTrimmable(trail[k])
    requires rest == [] || !IsTrimmable(rest[|rest| - 1])
    ensures TrimEnd(rest + trail) == rest
    decreases |trail|
  {
    if trail != [] {
      var s := rest + trail;
      assert s[..|s| - 1] == rest + trail[..|trail| - 1];
      TrimEndOfPadded(rest, trail[..|trail| - 1]);
    } else {
      assert rest + trail == rest;
    }
  }

  /** The result of trim has no blank ends, and trimming it again changes nothing. */
  lemma TrimIdempotent(s: string)
    ensures IsTrimmed(Trim(s))
    ensures Trim(Trim(s)) == Trim(s)
  {
  }
}
