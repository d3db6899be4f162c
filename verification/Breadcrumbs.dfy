/** The simulator's breadcrumb index: lifetimes of the `_dirty/` markers and `_repl/`
    notes that could have told the system to rebuild a package. */
module Breadcrumbs {
  import opened Prelude

  datatype EffectKind = MarkerPut | MarkerDel | NotePut | NoteDel | OtherEffect

  datatype Effect = Effect(seqNo: nat, kind: EffectKind, node: nat, bucket: nat, att: nat, pkg: string, key: string)

  /** The deletion that ended a lifetime. */
  datatype Del = Del(seqNo: nat, att: nat, node: nat)

  datatype Interval = Interval(putSeq: nat, delSeq: nat, delAtt: nat, delNode: nat, isNote: bool)

  /** Whose breadcrumbs are asked about: a bucket, a package, and markers or notes. */
  datatype Scope = Scope(bucket: nat, pkg: string, isNote: bool)

  predicate IsPut(e: Effect, sc: Scope) {
    e.bucket == sc.bucket && e.pkg == sc.pkg && e.kind == (if sc.isNote then NotePut else MarkerPut)
  }

  predicate IsDel(e: Effect, sc: Scope) {
    e.bucket == sc.bucket && e.pkg == sc.pkg && e.kind == (if sc.isNote then NoteDel else MarkerDel)
  }

  // ----- One key's events, in storage order -------------------------------------------------

  function PutsOf(live: seq<Effect>, sc: Scope, key: string): seq<nat> {
    if live == [] then []
    else
      PutsOf(live[..|live| - 1], sc, key) +
      (var e := live[|live| - 1]; if IsPut(e, sc) && e.key == key then [e.seqNo] else [])
  }

  function DelsOf(live: seq<Effect>, sc: Scope, key: string): seq<Del> {
    if live == [] then []
    else
      DelsOf(live[..|live| - 1], sc, key) +
      (var e := live[|live| - 1]; if IsDel(e, sc) && e.key == key then [Del(e.seqNo, e.att, e.node)] else [])
  }

  /** Appending one effect to a history. */
  lemma EventsAppend(live: seq<Effect>, sc: Scope, key: string)
    requires live != []
    ensures var init := live[..|live| - 1]; var e := live[|live| - 1];
            && PutsOf(live, sc, key)
               == (if IsPut(e, sc) && e.key == key then PutsOf(init, sc, key) + [e.seqNo] else PutsOf(init, sc, key))
            && DelsOf(live, sc, key)
               == (if IsDel(e, sc) && e.key == key then DelsOf(init, sc, key) + [Del(e.seqNo, e.att, e.node)]
                   else DelsOf(init, sc, key))
  {
  }

  function Seqs(dels: seq<Del>): (s: seq<nat>)
    ensures |s| == |dels| && forall i :: 0 <= i < |s| ==> s[i] == dels[i].seqNo
  {
    if dels == [] then [] else [dels[0].seqNo] + Seqs(dels[1..])
  }

  // ----- Replay: the independent meaning ------------------------------------------------------

  /** Is the key's breadcrumb there once every effect numbered below `n` has happened?
      Replays effect numbers one by one, so storage order does not matter. */
  ghost predicate Present(live: seq<Effect>, sc: Scope, key: string, n: nat) {
    if n == 0 then false
    else if n - 1 in PutsOf(live, sc, key) then true
    else if n - 1 in Seqs(DelsOf(live, sc, key)) then false
    else Present(live, sc, key, n - 1)
  }

  /** Distinct effect numbers, and each key's puts and deletes alternate from a put: a key
      is put only while absent and deleted only while present. */
  ghost predicate Alternating(live: seq<Effect>) {
    && (forall i, j :: 0 <= i < j < |live| ==> live[i].seqNo != live[j].seqNo)
    && (forall i :: 0 <= i < |live| ==> live[i].seqNo < U64_MAX)
    && (forall sc: Scope, key: string, n: nat :: n in PutsOf(live, sc, key) ==> !Present(live, sc, key, n))
    && (forall sc: Scope, key: string, n: nat :: n in Seqs(DelsOf(live, sc, key)) ==> Present(live, sc, key, n))
  }

  // ----- Sorting -----------------------------------------------------------------------------

  function InsertNat(x: nat, s: seq<nat>): seq<nat> {
    if s == [] || x <= s[0] then [x] + s else [s[0]] + InsertNat(x, s[1..])
  }

  function SortNats(s: seq<nat>): seq<nat> {
    if s == [] then [] else InsertNat(s[0], SortNats(s[1..]))
  }

  predicate DelLeq(a: Del, b: Del) {
    || a.seqNo < b.seqNo
    || (a.seqNo == b.seqNo && (a.att < b.att || (a.att == b.att && a.node <= b.node)))
  }

  function InsertDel(x: Del, s: seq<Del>): seq<Del> {
    if s == [] || DelLeq(x, s[0]) then [x] + s else [s[0]] + InsertDel(x, s[1..])
  }

  function SortDels(s: seq<Del>): seq<Del> {
    if s == [] then [] else InsertDel(s[0], SortDels(s[1..]))
  }

  ghost predicate Increasing(s: seq<nat>) {
    forall i, j :: 0 <= i < j < |s| ==> s[i] < s[j]
  }

  ghost predicate NoRepeats(s: seq<nat>) {
    forall i, j :: 0 <= i < j < |s| ==> s[i] != s[j]
  }

  ghost predicate SameElements(a: seq<nat>, b: seq<nat>) {
    forall x :: x in a <==> x in b
  }

  lemma {:induction false} InsertNatSorts(x: nat, s: seq<nat>)
    requires Increasing(s) && x !in s
    ensures Increasing(InsertNat(x, s)) && SameElements(InsertNat(x, s), [x] + s)
  {
    if s != [] && x > s[0] {
      InsertNatSorts(x, s[1..]);
      var t := InsertNat(x, s[1..]);
      assert s == [s[0]] + s[1..];
      forall j | 0 <= j < |t| ensures s[0] < t[j] {
        assert t[j] in t && t[j] in [x] + s[1..];
      }
    }
  }

  lemma {:induction false} SortNatsSorts(s: seq<nat>)
    requires NoRepeats(s)
    ensures Increasing(SortNats(s)) && SameElements(SortNats(s), s)
  {
    if s != [] {
      assert s == [s[0]] + s[1..];
      SortNatsSorts(s[1..]);
      assert s[0] !in s[1..];
      InsertNatSorts(s[0], SortNats(s[1..]));
    }
  }

  /** Sorting deletions with distinct numbers sorts their numbers. */
  lemma {:induction false} InsertDelIsInsertNat(x: Del, s: seq<Del>)
    requires x.seqNo !in Seqs(s)
    ensures Seqs(InsertDel(x, s)) == InsertNat(x.seqNo, Seqs(s))
  {
    if s != [] {
      assert x.seqNo != Seqs(s)[0];
      assert Seqs(s) == [s[0].seqNo] + Seqs(s[1..]);
      if DelLeq(x, s[0]) {
        assert ([x] + s)[1..] == s;
      } else {
        InsertDelIsInsertNat(x, s[1..]);
        assert ([s[0]] + InsertDel(x, s[1..]))[1..] == InsertDel(x, s[1..]);
      }
    }
  }

  lemma {:induction false} SortDelsIsSortNats(s: seq<Del>)
    requires NoRepeats(Seqs(s))
    ensures Seqs(SortDels(s)) == SortNats(Seqs(s))
  {
    if s != [] {
      var rest := Seqs(s[1..]);
      assert Seqs(s) == [s[0].seqNo] + rest;
      assert forall i :: 0 <= i < |rest| ==> rest[i] == Seqs(s)[i + 1];
      SortDelsIsSortNats(s[1..]);
      SortNatsSorts(rest);
      InsertDelIsInsertNat(s[0], SortDels(s[1..]));
    }
  }

  // ----- What the sorts do -------------------------------------------------------------------------

  /** Ordered by number, then by attempt, then by node. */
  predicate EndsNoLater(a: Del, b: Del) {
    if a.seqNo != b.seqNo then a.seqNo < b.seqNo else if a.att != b.att then a.att < b.att else a.node <= b.node
  }

  predicate AtMost(a: nat, b: nat) {
    a <= b
  }

  lemma {:induction false} InsertNatAdds(x: nat, s: seq<nat>)
    ensures multiset(InsertNat(x, s)) == multiset(s) + multiset{x}
  {
    if s != [] && x > s[0] {
      assert s == [s[0]] + s[1..];
      InsertNatAdds(x, s[1..]);
    }
  }

  lemma {:induction false} InsertNatPlaces(x: nat, s: seq<nat>)
    requires forall i, j :: 0 <= i < j < |s| ==> AtMost(s[i], s[j])
    ensures var r := InsertNat(x, s); forall i, j :: 0 <= i < j < |r| ==> AtMost(r[i], r[j])
  {
    if s != [] && x > s[0] {
      InsertNatPlaces(x, s[1..]);
      var t := InsertNat(x, s[1..]);
      InsertNatAdds(x, s[1..]);
      forall j | 0 <= j < |t| ensures AtMost(s[0], t[j]) {
        assert t[j] in multiset(t);
        assert t[j] == x || t[j] in s[1..];
      }
    }
  }

  /** The puts sorted: the same numbers as often, none before a smaller one. */
  lemma {:induction false} SortNatsIsSorted(s: seq<nat>)
    ensures multiset(SortNats(s)) == multiset(s)
    ensures var r := SortNats(s); forall i, j :: 0 <= i < j < |r| ==> AtMost(r[i], r[j])
  {
    if s != [] {
      assert s == [s[0]] + s[1..];
      SortNatsIsSorted(s[1..]);
      InsertNatAdds(s[0], SortNats(s[1..]));
      InsertNatPlaces(s[0], SortNats(s[1..]));
    }
  }

  lemma {:induction false} InsertDelAdds(x: Del, s: seq<Del>)
    ensures multiset(InsertDel(x, s)) == multiset(s) + multiset{x}
  {
    if s != [] && !DelLeq(x, s[0]) {
      assert s == [s[0]] + s[1..];
      InsertDelAdds(x, s[1..]);
    }
  }

  lemma {:induction false} InsertDelPlaces(x: Del, s: seq<Del>)
    requires forall i, j :: 0 <= i < j < |s| ==> EndsNoLater(s[i], s[j])
    ensures var r := InsertDel(x, s); forall i, j :: 0 <= i < j < |r| ==> EndsNoLater(r[i], r[j])
  {
    if s != [] && !DelLeq(x, s[0]) {
      InsertDelPlaces(x, s[1..]);
      var t := InsertDel(x, s[1..]);
      InsertDelAdds(x, s[1..]);
      forall j | 0 <= j < |t| ensures EndsNoLater(s[0], t[j]) {
        assert t[j] in multiset(t);
        assert t[j] == x || t[j] in s[1..];
      }
    }
  }

  /** The deletions sorted: the same ones as often, none before an earlier one. */
  lemma {:induction false} SortDelsIsSorted(s: seq<Del>)
    ensures multiset(SortDels(s)) == multiset(s)
    ensures var r := SortDels(s); forall i, j :: 0 <= i < j < |r| ==> EndsNoLater(r[i], r[j])
  {
    if s != [] {
      assert s == [s[0]] + s[1..];
      SortDelsIsSorted(s[1..]);
      InsertDelAdds(s[0], SortDels(s[1..]));
      InsertDelPlaces(s[0], SortDels(s[1..]));
    }
  }

  // ----- The index --------------------------------------------------------------------------------

  /** The i-th put paired with the i-th delete; a put without one is still live. */
  function Pair(puts: seq<nat>, dels: seq<Del>, isNote: bool): (out: seq<Interval>)
    ensures |out| == |puts|
    ensures forall i :: 0 <= i < |puts| ==>
              out[i].putSeq == puts[i] && out[i].delSeq == if i < |dels| then dels[i].seqNo else U64_MAX
  {
    seq(|puts|, i requires 0 <= i < |puts| =>
      if i < |dels| then Interval(puts[i], dels[i].seqNo, dels[i].att, dels[i].node, isNote)
      else Interval(puts[i], U64_MAX, 0, 0, isNote))
  }

  function IntervalsOf(live: seq<Effect>, sc: Scope, key: string): seq<Interval> {
    Pair(SortNats(PutsOf(live, sc, key)), SortDels(DelsOf(live, sc, key)), sc.isNote)
  }

  // ----- The order of the keys ----------------------------------------------------------------------

  /** Strictly before in the order of a `BTreeMap` over strings. */
  predicate Before(a: string, b: string) {
    b != "" && (a == "" || (if a[0] != b[0] then a[0] < b[0] else Before(a[1..], b[1..])))
  }

  /** `a` and `b` agree up to `i`, where `a` ends or has the smaller character. */
  predicate SmallerAt(a: string, b: string, i: nat) {
    i <= |a| && i < |b| && a[..i] == b[..i] && (i == |a| || a[i] < b[i])
  }

  /** That order compares character by character. */
  lemma {:induction false} BeforeIsLexicographic(a: string, b: string)
    ensures Before(a, b) <==> exists i: nat :: SmallerAt(a, b, i)
  {
    if b != "" && a != "" && a[0] == b[0] {
      BeforeIsLexicographic(a[1..], b[1..]);
      if i: nat :| SmallerAt(a[1..], b[1..], i) {
        assert a[..i + 1] == [a[0]] + a[1..][..i] && b[..i + 1] == [b[0]] + b[1..][..i];
        assert SmallerAt(a, b, i + 1);
      }
      if i: nat :| SmallerAt(a, b, i) {
        assert i > 0;
        assert a[1..][..i - 1] == a[..i][1..] && b[1..][..i - 1] == b[..i][1..];
        assert SmallerAt(a[1..], b[1..], i - 1);
      }
    } else if b != "" {
      if i: nat :| SmallerAt(a, b, i) {
        assert i > 0 ==> a[..i][0] == b[..i][0];
      }
      assert Before(a, b) ==> SmallerAt(a, b, 0);
    }
  }

  lemma {:induction false} BeforeTotal(a: string, b: string)
    ensures a == b || Before(a, b) || Before(b, a)
  {
    if a != "" && b != "" && a[0] == b[0] {
      BeforeTotal(a[1..], b[1..]);
      assert a == [a[0]] + a[1..] && b == [b[0]] + b[1..];
    }
  }

  lemma {:induction false} BeforeTransitive(a: string, b: string, c: string)
    requires Before(a, b) && Before(b, c)
    ensures Before(a, c)
  {
    if a != "" && a[0] == b[0] == c[0] {
      BeforeTransitive(a[1..], b[1..], c[1..]);
    }
  }

  /** A non-empty set of keys has a first one. */
  lemma {:induction false} FirstKey(keys: set<string>) returns (first: string)
    requires keys != {}
    ensures first in keys && forall k :: k in keys && k != first ==> Before(first, k)
    decreases |keys|
  {
    first :| first in keys;
    var rest := keys - {first};
    if rest != {} {
      var other := FirstKey(rest);
      BeforeTotal(first, other);
      if Before(other, first) {
        first := other;
      } else {
        forall k | k in rest && k != other ensures Before(first, k) {
          BeforeTransitive(first, other, k);
        }
      }
    }
  }

  ghost predicate InOrder(keys: seq<string>) {
    forall i, j :: 0 <= i < j < |keys| ==> Before(keys[i], keys[j])
  }

  /** Every one of `keys` comes before everything still to do. */
  ghost predicate AllBefore(keys: seq<string>, todo: set<string>) {
    forall i, next :: 0 <= i < |keys| && next in todo ==> Before(keys[i], next)
  }

  /** Taking the first key of what is to do keeps the order. */
  lemma TakeFirst(keys: seq<string>, todo: set<string>, key: string)
    requires InOrder(keys) && AllBefore(keys, todo) && key in todo
    requires forall k :: k in todo && k != key ==> Before(key, k)
    ensures InOrder(keys + [key]) && AllBefore(keys + [key], todo - {key})
  {
  }

  /** The keys with an event in scope, in order. */
  ghost predicate KeysInOrder(keys: seq<string>, live: seq<Effect>, sc: Scope) {
    && InOrder(keys)
    && forall key :: key in keys <==> PutsOf(live, sc, key) != [] || DelsOf(live, sc, key) != []
  }

  /** Their lifetimes, key by key. */
  function Lifetimes(live: seq<Effect>, sc: Scope, keys: seq<string>): seq<Interval> {
    if keys == [] then [] else Lifetimes(live, sc, keys[..|keys| - 1]) + IntervalsOf(live, sc, keys[|keys| - 1])
  }

  lemma LifetimesMore(live: seq<Effect>, sc: Scope, keys: seq<string>, key: string)
    ensures Lifetimes(live, sc, keys + [key]) == Lifetimes(live, sc, keys) + IntervalsOf(live, sc, key)
  {
    assert (keys + [key])[..|keys|] == keys;
  }

  /** The paired lifetimes of every key of the scope, key by key in order. */
  ghost predicate IsScopeIndex(out: seq<Interval>, live: seq<Effect>, sc: Scope) {
    exists keys :: KeysInOrder(keys, live, sc) && out == Lifetimes(live, sc, keys)
  }

  /** The index: the markers' lifetimes, then the notes'. */
  ghost predicate IsIndex(out: seq<Interval>, live: seq<Effect>, bucket: nat, pkg: string) {
    exists markers, notes ::
      && IsScopeIndex(markers, live, Scope(bucket, pkg, false)) && IsScopeIndex(notes, live, Scope(bucket, pkg, true))
      && out == markers + notes
  }

  lemma {:induction false} LifetimesHave(live: seq<Effect>, sc: Scope, keys: seq<string>, i: nat, iv: Interval)
    requires i < |keys| && iv in IntervalsOf(live, sc, keys[i])
    ensures iv in Lifetimes(live, sc, keys)
    decreases |keys|
  {
    if i < |keys| - 1 {
      LifetimesHave(live, sc, keys[..|keys| - 1], i, iv);
    }
  }

  lemma {:induction false} LifetimesFrom(live: seq<Effect>, sc: Scope, keys: seq<string>,
                                         iv: Interval) returns (key: string)
    requires iv in Lifetimes(live, sc, keys)
    ensures iv in IntervalsOf(live, sc, key)
    decreases |keys|
  {
    key := keys[|keys| - 1];
    if iv !in IntervalsOf(live, sc, key) {
      key := LifetimesFrom(live, sc, keys[..|keys| - 1], iv);
    }
  }

  lemma ScopeMembers(out: seq<Interval>, live: seq<Effect>, sc: Scope, iv: Interval)
    requires IsScopeIndex(out, live, sc)
    ensures iv in out <==> exists key: string :: iv in IntervalsOf(live, sc, key)
  {
    var keys :| KeysInOrder(keys, live, sc) && out == Lifetimes(live, sc, keys);
    if iv in out {
      var key := LifetimesFrom(live, sc, keys, iv);
    }
    if key: string :| iv in IntervalsOf(live, sc, key) {
      assert PutsOf(live, sc, key) != [];
      var i :| 0 <= i < |keys| && keys[i] == key;
      LifetimesHave(live, sc, keys, i, iv);
    }
  }

  /** The index holds exactly the lifetimes of every key, markers and notes. */
  lemma IndexMembers(out: seq<Interval>, live: seq<Effect>, bucket: nat, pkg: string, iv: Interval)
    requires IsIndex(out, live, bucket, pkg)
    ensures iv in out <==> exists isNote: bool, key: string :: iv in IntervalsOf(live, Scope(bucket, pkg, isNote), key)
  {
    var markers, notes :|
      && IsScopeIndex(markers, live, Scope(bucket, pkg, false)) && IsScopeIndex(notes, live, Scope(bucket, pkg, true))
      && out == markers + notes;
    ScopeMembers(markers, live, Scope(bucket, pkg, false), iv);
    ScopeMembers(notes, live, Scope(bucket, pkg, true), iv);
  }

  type Groups = map<string, (seq<nat>, seq<Del>)>

  function GroupOf(byKey: Groups, key: string): (seq<nat>, seq<Del>) {
    if key in byKey then byKey[key] else ([], [])
  }

  /** Every key's events, and only keys that have some. */
  ghost predicate Grouped(byKey: Groups, live: seq<Effect>, sc: Scope) {
    && (forall key :: GroupOf(byKey, key) == (PutsOf(live, sc, key), DelsOf(live, sc, key)))
    && (forall key :: key in byKey ==> byKey[key] != ([], []))
  }

  /** Collect the puts and deletes of the scope per key, in storage order. */
  method GroupByKey(live: seq<Effect>, sc: Scope) returns (byKey: Groups)
    ensures Grouped(byKey, live, sc)
  {
    byKey := map[];
    for i := 0 to |live|
      invariant Grouped(byKey, live[..i], sc)
    {
      var e := live[i];
      assert live[..i + 1][..i] == live[..i];
      GroupStep(byKey, live[..i + 1], sc);
      var (puts, dels) := GroupOf(byKey, e.key);
      if IsPut(e, sc) {
        byKey := byKey[e.key := (puts + [e.seqNo], dels)];
      } else if IsDel(e, sc) {
        byKey := byKey[e.key := (puts, dels + [Del(e.seqNo, e.att, e.node)])];
      }
    }
    assert live[..|live|] == live;
  }

  lemma GroupStep(byKey: Groups, live: seq<Effect>, sc: Scope)
    requires live != [] && Grouped(byKey, live[..|live| - 1], sc)
    ensures var e := live[|live| - 1]; var (puts, dels) := GroupOf(byKey, e.key);
            && (IsPut(e, sc) ==> Grouped(byKey[e.key := (puts + [e.seqNo], dels)], live, sc))
            && (IsDel(e, sc) ==> Grouped(byKey[e.key := (puts, dels + [Del(e.seqNo, e.att, e.node)])], live, sc))
            && (!IsPut(e, sc) && !IsDel(e, sc) ==> Grouped(byKey, live, sc))
  {
    forall key { EventsAppend(live, sc, key); }
  }

  /** The lifetimes of one scope, key by key in order. */
  method ScopeIntervals(live: seq<Effect>, sc: Scope) returns (out: seq<Interval>)
    ensures IsScopeIndex(out, live, sc)
  {
    var byKey := GroupByKey(live, sc);
    out := [];
    var todo := byKey.Keys;
    ghost var keys := [];
    while todo != {}
      invariant todo <= byKey.Keys && out == Lifetimes(live, sc, keys)
      invariant forall key :: key in keys <==> key in byKey && key !in todo
      invariant InOrder(keys) && AllBefore(keys, todo)
      decreases |todo|
    {
      ghost var first := FirstKey(todo);
      var key :| key in todo && forall k :: k in todo && k != key ==> Before(key, k);
      TakeFirst(keys, todo, key);
      LifetimesMore(live, sc, keys, key);
      assert GroupOf(byKey, key) == (PutsOf(live, sc, key), DelsOf(live, sc, key));
      todo, keys := todo - {key}, keys + [key];
      out := out + Pair(SortNats(byKey[key].0), SortDels(byKey[key].1), sc.isNote);
    }
    forall key ensures key in keys <==> PutsOf(live, sc, key) != [] || DelsOf(live, sc, key) != [] {
      assert GroupOf(byKey, key) == (PutsOf(live, sc, key), DelsOf(live, sc, key));
    }
  }

  method BreadcrumbIntervals(live: seq<Effect>, bucket: nat, pkg: string) returns (out: seq<Interval>)
    ensures IsIndex(out, live, bucket, pkg)
  {
    var markers := ScopeIntervals(live, Scope(bucket, pkg, false));
    var notes := ScopeIntervals(live, Scope(bucket, pkg, true));
    out := markers + notes;
  }

  function Covering(intervals: seq<Interval>, m: nat): seq<Interval> {
    if intervals == [] then []
    else
      (if intervals[0].putSeq < m < intervals[0].delSeq then [intervals[0]] else []) + Covering(intervals[1..], m)
  }

  lemma {:induction false} CoveringMembers(intervals: seq<Interval>, m: nat)
    ensures forall iv :: iv in Covering(intervals, m) <==> iv in intervals && iv.putSeq < m < iv.delSeq
  {
    if intervals != [] {
      CoveringMembers(intervals[1..], m);
      assert intervals == [intervals[0]] + intervals[1..];
    }
  }

  // ----- Counting ----------------------------------------------------------------------------------

  /** How many of the numbers below `n` occur in `s`. */
  ghost function CountBelow(s: seq<nat>, n: nat): nat {
    if n == 0 then 0 else CountBelow(s, n - 1) + if n - 1 in s then 1 else 0
  }

  lemma {:induction false} CountSame(a: seq<nat>, b: seq<nat>, n: nat)
    requires SameElements(a, b)
    ensures CountBelow(a, n) == CountBelow(b, n)
  {
    if n > 0 {
      CountSame(a, b, n - 1);
    }
  }

  /** In an increasing list, the count splits it into the smaller and the other elements. */
  lemma {:induction false} Rank(s: seq<nat>, n: nat)
    requires Increasing(s)
    ensures CountBelow(s, n) <= |s|
    ensures forall i :: 0 <= i < CountBelow(s, n) ==> s[i] < n
    ensures forall i :: CountBelow(s, n) <= i < |s| ==> s[i] >= n
  {
    if n > 0 {
      Rank(s, n - 1);
      if n - 1 in s {
        var j :| 0 <= j < |s| && s[j] == n - 1;
        var r := CountBelow(s, n - 1);
        assert r <= j && s[r] >= n - 1;
        assert r == j;
      }
    }
  }

  /** Alternation as counting: one more put than deletes exactly while present. */
  lemma {:induction false} PresentCounts(live: seq<Effect>, sc: Scope, key: string, n: nat)
    requires Alternating(live)
    ensures CountBelow(PutsOf(live, sc, key), n) ==
            CountBelow(Seqs(DelsOf(live, sc, key)), n) + if Present(live, sc, key, n) then 1 else 0
  {
    if n > 0 {
      PresentCounts(live, sc, key, n - 1);
    }
  }

  /** Some effect of the history has this number. */
  ghost predicate Numbered(live: seq<Effect>, x: nat) {
    exists i :: 0 <= i < |live| && live[i].seqNo == x
  }

  lemma NumberedLater(live: seq<Effect>, x: nat)
    requires live != [] && (Numbered(live[..|live| - 1], x) || x == live[|live| - 1].seqNo)
    ensures Numbered(live, x)
  {
    if x == live[|live| - 1].seqNo {
      assert live[|live| - 1].seqNo == x;
    } else {
      var i :| 0 <= i < |live| - 1 && live[..|live| - 1][i].seqNo == x;
      assert live[i].seqNo == x;
    }
  }

  lemma {:induction false} NumbersComeFromEffects(live: seq<Effect>, sc: Scope, key: string, x: nat)
    requires x in PutsOf(live, sc, key) || x in Seqs(DelsOf(live, sc, key))
    ensures Numbered(live, x)
  {
    var init, e := live[..|live| - 1], live[|live| - 1];
    EventsAppend(live, sc, key);
    SeqsAppend(DelsOf(init, sc, key), Del(e.seqNo, e.att, e.node));
    if x in PutsOf(init, sc, key) || x in Seqs(DelsOf(init, sc, key)) {
      NumbersComeFromEffects(init, sc, key, x);
    }
    NumberedLater(live, x);
  }

  lemma {:induction false} SeqsAppend(dels: seq<Del>, d: Del)
    ensures Seqs(dels + [d]) == Seqs(dels) + [d.seqNo]
  {
  }

  /** Distinct effect numbers stay distinct among one key's events. */
  lemma {:induction false} NumbersDistinct(live: seq<Effect>, sc: Scope, key: string)
    requires forall i, j :: 0 <= i < j < |live| ==> live[i].seqNo != live[j].seqNo
    ensures NoRepeats(PutsOf(live, sc, key)) && NoRepeats(Seqs(DelsOf(live, sc, key)))
  {
    if live != [] {
      var init := live[..|live| - 1];
      NumbersDistinct(init, sc, key);
      var last := live[|live| - 1];
      EventsAppend(live, sc, key);
      assert forall i :: 0 <= i < |init| ==> init[i] == live[i] && init[i].seqNo != last.seqNo;
      assert !Numbered(init, last.seqNo);
      if last.seqNo in PutsOf(init, sc, key) || last.seqNo in Seqs(DelsOf(init, sc, key)) {
        NumbersComeFromEffects(init, sc, key, last.seqNo);
      }
      SeqsAppend(DelsOf(init, sc, key), Del(last.seqNo, last.att, last.node));
      NoRepeatsAppend(PutsOf(init, sc, key), last.seqNo);
      NoRepeatsAppend(Seqs(DelsOf(init, sc, key)), last.seqNo);
    }
  }

  lemma NoRepeatsAppend(s: seq<nat>, x: nat)
    requires NoRepeats(s) && x !in s
    ensures NoRepeats(s + [x])
  {
  }

  // ----- What the index is made of ---------------------------------------------------------------------

  /** The effect is about this breadcrumb. */
  predicate About(e: Effect, sc: Scope, key: string) {
    e.bucket == sc.bucket && e.pkg == sc.pkg && e.key == key
  }

  /** A key's puts are those of its own effects, of its own kind. */
  lemma {:induction false} PutsAre(live: seq<Effect>, sc: Scope, key: string, x: nat)
    ensures x in PutsOf(live, sc, key) <==>
              exists i :: 0 <= i < |live| && About(live[i], sc, key) && live[i].seqNo == x
                          && live[i].kind == if sc.isNote then NotePut else MarkerPut
  {
    if live != [] {
      var init := live[..|live| - 1];
      PutsAre(init, sc, key, x);
      assert forall i :: 0 <= i < |init| ==> init[i] == live[i];
      EventsAppend(live, sc, key);
    }
  }

  lemma {:induction false} DelsAre(live: seq<Effect>, sc: Scope, key: string, d: Del)
    ensures d in DelsOf(live, sc, key) <==>
              exists i :: 0 <= i < |live| && About(live[i], sc, key)
                          && Del(live[i].seqNo, live[i].att, live[i].node) == d
                          && live[i].kind == if sc.isNote then NoteDel else MarkerDel
  {
    if live != [] {
      var init := live[..|live| - 1];
      DelsAre(init, sc, key, d);
      assert forall i :: 0 <= i < |init| ==> init[i] == live[i];
      EventsAppend(live, sc, key);
    }
  }

  /** A lifetime says of what kind its breadcrumb was, and which deletion ended it, where and
      in which attempt; one still live names none. */
  lemma LifetimeNamesItsEnd(live: seq<Effect>, sc: Scope, key: string, iv: Interval)
    requires iv in IntervalsOf(live, sc, key)
    ensures iv.isNote == sc.isNote
    ensures || (iv.delSeq == 0xFFFF_FFFF_FFFF_FFFF && iv.delAtt == iv.delNode == 0)
            || Del(iv.delSeq, iv.delAtt, iv.delNode) in DelsOf(live, sc, key)
  {
    var dels := SortDels(DelsOf(live, sc, key));
    var i :| 0 <= i < |IntervalsOf(live, sc, key)| && iv == IntervalsOf(live, sc, key)[i];
    if i < |dels| {
      assert dels[i] == Del(iv.delSeq, iv.delAtt, iv.delNode);
      SortDelsIsSorted(DelsOf(live, sc, key));
      assert dels[i] in multiset(dels);
    }
  }

  // ----- The theorem ---------------------------------------------------------------------------------

  /** For one key: some lifetime covers the mutation exactly when replay finds the
      breadcrumb present at it. */
  lemma KeyCoveredIffPresent(live: seq<Effect>, sc: Scope, key: string, m: nat)
    requires Alternating(live) && m < U64_MAX
    requires m !in PutsOf(live, sc, key) && m !in Seqs(DelsOf(live, sc, key))
    ensures (exists iv :: iv in IntervalsOf(live, sc, key) && iv.putSeq < m < iv.delSeq) <==> Present(live, sc, key, m)
  {
    var puts, dels := SortNats(PutsOf(live, sc, key)), SortDels(DelsOf(live, sc, key));
    var ends := Seqs(dels);
    NumbersDistinct(live, sc, key);
    SortNatsSorts(PutsOf(live, sc, key));
    SortDelsIsSortNats(DelsOf(live, sc, key));
    SortNatsSorts(Seqs(DelsOf(live, sc, key)));
    CountSame(puts, PutsOf(live, sc, key), m);
    CountSame(ends, Seqs(DelsOf(live, sc, key)), m);
    Rank(puts, m);
    Rank(ends, m);
    PresentCounts(live, sc, key, m);
    CoveredIffMorePuts(puts, dels, sc.isNote, m);
  }

  lemma CoveredIffMorePuts(puts: seq<nat>, dels: seq<Del>, isNote: bool, m: nat)
    requires Increasing(puts) && Increasing(Seqs(dels)) && m < U64_MAX && m !in Seqs(dels)
    ensures (exists iv :: iv in Pair(puts, dels, isNote) && iv.putSeq < m < iv.delSeq)
            <==> CountBelow(puts, m) > CountBelow(Seqs(dels), m)
  {
    Rank(puts, m);
    Rank(Seqs(dels), m);
    var out := Pair(puts, dels, isNote);
    var q := CountBelow(Seqs(dels), m);
    if CountBelow(puts, m) > q {
      assert q < |dels| ==> Seqs(dels)[q] in Seqs(dels);
      assert out[q] in out && out[q].putSeq < m < out[q].delSeq;
    }
  }

  /** For any history with distinct numbers in which each breadcrumb's puts and deletes
      alternate, in any storage order: a mutation has a covering lifetime in the index
      exactly when replaying the history leaves some breadcrumb present at it. */
  lemma CoveredIffSomePresent(live: seq<Effect>, bucket: nat, pkg: string, out: seq<Interval>, m: nat)
    requires Alternating(live) && IsIndex(out, live, bucket, pkg) && m < U64_MAX
    requires forall isNote: bool, key: string ::
               && m !in PutsOf(live, Scope(bucket, pkg, isNote), key)
               && m !in Seqs(DelsOf(live, Scope(bucket, pkg, isNote), key))
    ensures Covering(out, m) != [] <==>
              exists isNote: bool, key: string :: Present(live, Scope(bucket, pkg, isNote), key, m)
  {
    if Covering(out, m) != [] {
      CoveredHasPresent(live, bucket, pkg, out, m);
    }
    if isNote: bool, key: string :| Present(live, Scope(bucket, pkg, isNote), key, m) {
      PresentIsCovered(live, bucket, pkg, out, m, isNote, key);
    }
  }

  lemma CoveredHasPresent(live: seq<Effect>, bucket: nat, pkg: string, out: seq<Interval>, m: nat)
    requires Alternating(live) && IsIndex(out, live, bucket, pkg) && m < U64_MAX
    requires forall isNote: bool, key: string ::
               && m !in PutsOf(live, Scope(bucket, pkg, isNote), key)
               && m !in Seqs(DelsOf(live, Scope(bucket, pkg, isNote), key))
    requires Covering(out, m) != []
    ensures exists isNote: bool, key: string :: Present(live, Scope(bucket, pkg, isNote), key, m)
  {
    CoveringMembers(out, m);
    var iv := Covering(out, m)[0];
    assert iv in out && iv.putSeq < m < iv.delSeq;
    IndexMembers(out, live, bucket, pkg, iv);
    var isNote: bool, key: string :| iv in IntervalsOf(live, Scope(bucket, pkg, isNote), key);
    KeyCoveredIffPresent(live, Scope(bucket, pkg, isNote), key, m);
  }

  lemma PresentIsCovered(live: seq<Effect>, bucket: nat, pkg: string, out: seq<Interval>, m: nat, isNote: bool,
                         key: string)
    requires Alternating(live) && IsIndex(out, live, bucket, pkg) && m < U64_MAX
    requires m !in PutsOf(live, Scope(bucket, pkg, isNote), key)
             && m !in Seqs(DelsOf(live, Scope(bucket, pkg, isNote), key))
    requires Present(live, Scope(bucket, pkg, isNote), key, m)
    ensures Covering(out, m) != []
  {
    KeyCoveredIffPresent(live, Scope(bucket, pkg, isNote), key, m);
    var iv :| iv in IntervalsOf(live, Scope(bucket, pkg, isNote), key) && iv.putSeq < m < iv.delSeq;
    IndexMembers(out, live, bucket, pkg, iv);
    CoveringMembers(out, m);
    assert iv in Covering(out, m);
  }
}
