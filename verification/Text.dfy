/** The string operations the parsers lean on. */
module Text {
  import opened Prelude

  /** Unicode `White_Space`, which is what `str::trim` strips. */
  predicate IsSpace(c: char) {
    || '\t' <= c <= '\r' || c == ' ' || c == '\U{85}' || c == '\U{A0}' || c == '\U{1680}'
    || '\U{2000}' <= c <= '\U{200A}' || c == '\U{2028}' || c == '\U{2029}' || c == '\U{202F}'
    || c == '\U{205F}' || c == '\U{3000}'
  }

  function TrimStart(s: string): string {
    if s != "" && IsSpace(s[0]) then TrimStart(s[1..]) else s
  }

  function TrimEnd(s: string): string {
    if s != "" && IsSpace(s[|s| - 1]) then TrimEnd(s[..|s| - 1]) else s
  }

  function Trim(s: string): string {
    TrimEnd(TrimStart(s))
  }

  /** The parts before and after the first `c`. */
  function SplitOnce(s: string, c: char): Option<(string, string)> {
    if s == "" then None
    else if s[0] == c then Some(("", s[1..]))
    else
      match SplitOnce(s[1..], c)
      case None => None
      case Some((a, b)) => Some(([s[0]] + a, b))
  }

  /** All the parts between occurrences of `c`; never empty. */
  function Split(s: string, c: char): (parts: seq<string>)
    ensures |parts| > 0
  {
    if s == "" then [""]
    else
      var rest := Split(s[1..], c);
      if s[0] == c then [""] + rest else [[s[0]] + rest[0]] + rest[1..]
  }

  lemma {:induction false} SplitOnceAt(a: string, c: char, b: string)
    requires c !in a
    ensures SplitOnce(a + [c] + b, c) == Some((a, b))
  {
    var s := a + [c] + b;
    if a == "" {
      assert s[1..] == b;
    } else {
      assert s[1..] == a[1..] + [c] + b;
      SplitOnceAt(a[1..], c, b);
      assert [s[0]] + a[1..] == a;
    }
  }

  /** `q` goes on from `p`: the same parts up to the last, which it may extend. */
  ghost predicate GoesOn(p: seq<string>, q: seq<string>) {
    && 0 < |p| <= |q|
    && (forall i :: 0 <= i < |p| - 1 ==> p[i] == q[i])
    && p[|p| - 1] <= q[|p| - 1]
  }

  lemma GoesOnAfterPart(p: seq<string>, q: seq<string>)
    requires GoesOn(p, q)
    ensures GoesOn([""] + p, [""] + q)
  {
  }

  lemma GoesOnAfterChar(p: seq<string>, q: seq<string>, ch: char)
    requires GoesOn(p, q)
    ensures GoesOn([[ch] + p[0]] + p[1..], [[ch] + q[0]] + q[1..])
  {
  }

  /** All but the last part of a prefix are parts of the whole. */
  lemma {:induction false} SplitPrefix(a: string, b: string, c: char)
    ensures GoesOn(Split(a, c), Split(a + b, c))
  {
    if a == "" {
      assert a + b == b;
    } else {
      assert (a + b)[1..] == a[1..] + b;
      SplitPrefix(a[1..], b, c);
      GoesOnAfterPart(Split(a[1..], c), Split(a[1..] + b, c));
      GoesOnAfterChar(Split(a[1..], c), Split(a[1..] + b, c), a[0]);
    }
  }

  // ----- What splitting and trimming mean -----------------------------------------------------------

  /** The parts put back together with `c` between them. */
  function Join(parts: seq<string>, c: char): string
    requires |parts| > 0
  {
    if |parts| == 1 then parts[0] else parts[0] + [c] + Join(parts[1..], c)
  }

  /** Splitting cuts at every `c` and loses nothing. */
  lemma {:induction false} SplitJoins(s: string, c: char)
    ensures Join(Split(s, c), c) == s && forall i :: 0 <= i < |Split(s, c)| ==> c !in Split(s, c)[i]
  {
    if s != "" {
      SplitJoins(s[1..], c);
      var rest := Split(s[1..], c);
      assert s == [s[0]] + s[1..];
      if s[0] == c {
        assert ([""] + rest)[1..] == rest;
      } else {
        assert ([[s[0]] + rest[0]] + rest[1..])[1..] == rest[1..];
      }
    }
  }

  /** Splitting at the first `c`, both ways: there is one, or none. */
  lemma {:induction false} SplitOnceIff(s: string, c: char)
    ensures SplitOnce(s, c).None? <==> c !in s
    ensures SplitOnce(s, c).Some? ==> var (a, b) := SplitOnce(s, c).value; c !in a && s == a + [c] + b
  {
    if s != "" && s[0] != c {
      SplitOnceIff(s[1..], c);
      assert s == [s[0]] + s[1..];
    }
  }

  ghost predicate AllSpace(s: string) {
    forall i :: 0 <= i < |s| ==> IsSpace(s[i])
  }

  lemma {:induction false} TrimStartPadded(pad: string, s: string)
    requires AllSpace(pad) && (s != "" ==> !IsSpace(s[0]))
    ensures TrimStart(pad + s) == s
  {
    if pad == "" {
      assert pad + s == s;
    } else {
      assert (pad + s)[1..] == pad[1..] + s;
      TrimStartPadded(pad[1..], s);
    }
  }

  lemma {:induction false} TrimEndPadded(s: string, pad: string)
    requires AllSpace(pad) && (s != "" ==> !IsSpace(s[|s| - 1]))
    ensures TrimEnd(s + pad) == s
    decreases |pad|
  {
    if pad == "" {
      assert s + pad == s;
    } else {
      assert (s + pad)[..|s + pad| - 1] == s + pad[..|pad| - 1];
      TrimEndPadded(s, pad[..|pad| - 1]);
    }
  }

  /** Trimming takes off the white space around, and only that. */
  lemma TrimPadded(before: string, s: string, after: string)
    requires AllSpace(before) && AllSpace(after) && (s != "" ==> !IsSpace(s[0]) && !IsSpace(s[|s| - 1]))
    ensures Trim(before + s + after) == s
  {
    if s == "" {
      TrimStartPadded(before + after, "");
      assert before + s + after == before + after + "";
    } else {
      TrimStartPadded(before, s + after);
      assert before + s + after == before + (s + after);
      TrimEndPadded(s, after);
    }
  }
}
