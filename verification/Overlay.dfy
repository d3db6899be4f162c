/** The probe overlay: rules laid over the daily baseline, keyed by package name, each
    carrying the id of the advisory that contributed it. */
module Overlay {

  datatype Rule = Rule(id: string, clause: string)

  type Rules = map<string, seq<Rule>>

  /** The advisory ids whose old rules a merge drops: re-applied or withdrawn. */
  function StaleIds(added: seq<(string, Rule)>, withdrawn: set<string>): set<string> {
    withdrawn + set i | 0 <= i < |added| :: added[i].1.id
  }

  /** `rules` without the stale ones, in order. */
  function Keep(rules: seq<Rule>, stale: set<string>): seq<Rule> {
    if rules == [] then []
    else (if rules[0].id in stale then [] else [rules[0]]) + Keep(rules[1..], stale)
  }

  /** The rules added for `name`, in order. */
  function AddedFor(added: seq<(string, Rule)>, name: string): seq<Rule> {
    if added == [] then []
    else (if added[0].0 == name then [added[0].1] else []) + AddedFor(added[1..], name)
  }

  function RulesOf(overlay: Rules, name: string): seq<Rule> {
    if name in overlay then overlay[name] else []
  }

  /** The rules a merge leaves for `name`. */
  function MergedRules(overlay: Rules, added: seq<(string, Rule)>, withdrawn: set<string>, name: string): seq<Rule> {
    Keep(RulesOf(overlay, name), StaleIds(added, withdrawn)) + AddedFor(added, name)
  }

  /** The overlay after a merge: every name that still has a rule. A merge with nothing
      stale touches nothing. */
  function Merged(overlay: Rules, added: seq<(string, Rule)>, withdrawn: set<string>): Rules {
    if StaleIds(added, withdrawn) == {} then overlay
    else
      var names := overlay.Keys + AddedNames(added);
      map name | name in names && MergedRules(overlay, added, withdrawn, name) != []
        :: MergedRules(overlay, added, withdrawn, name)
  }

  /** The names some rule is added for. */
  function AddedNames(added: seq<(string, Rule)>): set<string> {
    set i | 0 <= i < |added| :: added[i].0
  }

  /** Upsert probe results: drop the stale rules and the entries that leaves empty, then
      append the new rules one by one. */
  method MergeOverlay(overlay: Rules, added: seq<(string, Rule)>, withdrawn: set<string>) returns (merged: Rules)
    ensures merged == Merged(overlay, added, withdrawn)
  {
    var stale := withdrawn;
    for i := 0 to |added|
      invariant stale == withdrawn + set j | 0 <= j < i :: added[j].1.id
    {
      stale := stale + {added[i].1.id};
    }
    assert stale == StaleIds(added, withdrawn);
    var kept := overlay;
    if stale != {} {
      kept := map name | name in overlay && Keep(overlay[name], stale) != [] :: Keep(overlay[name], stale);
    }
    merged := PushAll(kept, added);
    if stale != {} {
      PushedIsMerged(overlay, added, withdrawn, kept, merged);
    } else {
      NothingStaleNothingAdded(added, withdrawn);
      PushedIsUnchanged(overlay, merged);
    }
  }

  /** `merged` is `kept` with the rules of `added` appended to their names' entries. */
  ghost predicate Pushed(kept: Rules, added: seq<(string, Rule)>, merged: Rules) {
    && merged.Keys == kept.Keys + AddedNames(added)
    && forall name :: name in merged ==> merged[name] == RulesOf(kept, name) + AddedFor(added, name)
  }

  /** Append each added rule to its name's entry. */
  method PushAll(kept: Rules, added: seq<(string, Rule)>) returns (merged: Rules)
    ensures Pushed(kept, added, merged)
  {
    merged := kept;
    for i := 0 to |added|
      invariant Pushed(kept, added[..i], merged)
    {
      var (name, rule) := added[i];
      assert added[..i + 1] == added[..i] + [added[i]];
      PushStep(kept, added[..i], added[i], merged);
      merged := merged[name := (if name in merged then merged[name] else []) + [rule]];
    }
    assert added[..|added|] == added;
  }

  lemma PushStep(kept: Rules, added: seq<(string, Rule)>, last: (string, Rule), merged: Rules)
    requires Pushed(kept, added, merged)
    ensures Pushed(kept, added + [last], merged[last.0 := RulesOf(merged, last.0) + [last.1]])
  {
    var merged' := merged[last.0 := RulesOf(merged, last.0) + [last.1]];
    AddedNamesAppend(added, last);
    forall name | name in merged'
      ensures merged'[name] == RulesOf(kept, name) + AddedFor(added + [last], name)
    {
      AddedForAppend(added, last, name);
      if name !in merged {
        AddedForAbsent(added, name);
      }
    }
  }

  lemma AddedNamesAppend(added: seq<(string, Rule)>, last: (string, Rule))
    ensures AddedNames(added + [last]) == AddedNames(added) + {last.0}
  {
    var all := added + [last];
    assert all[|added|] == last;
    forall n | n in AddedNames(added)
      ensures n in AddedNames(all)
    {
      var i :| 0 <= i < |added| && added[i].0 == n;
      assert all[i].0 == n;
    }
  }

  lemma NothingStaleNothingAdded(added: seq<(string, Rule)>, withdrawn: set<string>)
    ensures StaleIds(added, withdrawn) == {} ==> added == []
  {
    if added != [] {
      assert added[0].1.id in StaleIds(added, withdrawn);
    }
  }

  lemma PushedIsUnchanged(overlay: Rules, merged: Rules)
    requires Pushed(overlay, [], merged)
    ensures merged == overlay
  {
    assert merged.Keys == overlay.Keys;
    forall name | name in overlay
      ensures merged[name] == overlay[name]
    {
    }
  }

  lemma PushedIsMerged(overlay: Rules, added: seq<(string, Rule)>, withdrawn: set<string>, kept: Rules, merged: Rules)
    requires StaleIds(added, withdrawn) != {}
    requires forall name :: name in kept <==> name in overlay && Keep(overlay[name], StaleIds(added, withdrawn)) != []
    requires forall name :: name in kept ==> kept[name] == Keep(overlay[name], StaleIds(added, withdrawn))
    requires Pushed(kept, added, merged)
    ensures merged == Merged(overlay, added, withdrawn)
  {
    forall name
      ensures name in merged <==> name in Merged(overlay, added, withdrawn)
      ensures name in merged ==> merged[name] == MergedRules(overlay, added, withdrawn, name)
    {
      AddedForPresent(added, name);
      assert RulesOf(kept, name) == Keep(RulesOf(overlay, name), StaleIds(added, withdrawn));
    }
  }

  lemma {:induction false} AddedForAppend(added: seq<(string, Rule)>, last: (string, Rule), name: string)
    ensures AddedFor(added + [last], name) == AddedFor(added, name) + (if last.0 == name then [last.1] else [])
  {
    if added == [] {
      assert added + [last] == [last];
    } else {
      assert (added + [last])[1..] == added[1..] + [last];
      AddedForAppend(added[1..], last, name);
    }
  }

  lemma {:induction false} AddedForAbsent(added: seq<(string, Rule)>, name: string)
    requires forall j :: 0 <= j < |added| ==> added[j].0 != name
    ensures AddedFor(added, name) == []
  {
    if added != [] {
      AddedForAbsent(added[1..], name);
    }
  }

  lemma {:induction false} AddedForPresent(added: seq<(string, Rule)>, name: string)
    ensures AddedFor(added, name) != [] <==> name in AddedNames(added)
  {
    if added != [] {
      AddedForPresent(added[1..], name);
      assert added == [added[0]] + added[1..];
      assert forall j :: 0 < j < |added| ==> added[j] == added[1..][j - 1];
    }
  }

  lemma {:induction false} AddedForMembers(added: seq<(string, Rule)>, name: string, rule: Rule)
    ensures rule in AddedFor(added, name) <==> (name, rule) in added
  {
    if added != [] {
      AddedForMembers(added[1..], name, rule);
      assert added == [added[0]] + added[1..];
    }
  }

  /** A rule being added carries a stale id. */
  lemma AddedIsStale(added: seq<(string, Rule)>, withdrawn: set<string>, name: string, rule: Rule)
    requires rule in AddedFor(added, name)
    ensures rule.id in StaleIds(added, withdrawn)
  {
    AddedForMembers(added, name, rule);
    var i :| 0 <= i < |added| && added[i] == (name, rule);
    assert added[i].1.id == rule.id;
  }

  lemma {:induction false} KeepMembers(rules: seq<Rule>, stale: set<string>)
    ensures forall r :: r in Keep(rules, stale) <==> r in rules && r.id !in stale
  {
    if rules != [] {
      KeepMembers(rules[1..], stale);
      assert rules == [rules[0]] + rules[1..];
    }
  }

  lemma {:induction false} KeepConcat(a: seq<Rule>, b: seq<Rule>, stale: set<string>)
    ensures Keep(a + b, stale) == Keep(a, stale) + Keep(b, stale)
  {
    if a == [] {
      assert a + b == b;
    } else {
      assert (a + b)[1..] == a[1..] + b;
      KeepConcat(a[1..], b, stale);
    }
  }

  lemma {:induction false} KeepTwice(rules: seq<Rule>, s1: set<string>, s2: set<string>)
    ensures Keep(Keep(rules, s1), s2) == Keep(rules, s1 + s2)
  {
    if rules != [] {
      KeepTwice(rules[1..], s1, s2);
      KeepConcat(if rules[0].id in s1 then [] else [rules[0]], Keep(rules[1..], s1), s2);
    }
  }

  lemma {:induction false} KeepNone(rules: seq<Rule>, stale: set<string>)
    requires forall r :: r in rules ==> r.id in stale
    ensures Keep(rules, stale) == []
  {
    if rules != [] {
      KeepNone(rules[1..], stale);
    }
  }

  lemma {:induction false} KeepAll(rules: seq<Rule>, stale: set<string>)
    requires forall r :: r in rules ==> r.id !in stale
    ensures Keep(rules, stale) == rules
  {
    if rules != [] {
      KeepAll(rules[1..], stale);
      assert rules == [rules[0]] + rules[1..];
    }
  }

  /** Outside the map as inside it, a merge leaves exactly `MergedRules`. */
  lemma RulesAfterMerge(overlay: Rules, added: seq<(string, Rule)>, withdrawn: set<string>, name: string)
    ensures RulesOf(Merged(overlay, added, withdrawn), name) == MergedRules(overlay, added, withdrawn, name)
  {
    AddedForPresent(added, name);
    if StaleIds(added, withdrawn) == {} {
      NothingStaleNothingAdded(added, withdrawn);
      KeepAll(RulesOf(overlay, name), {});
    }
  }

  /** A merge replaces exactly the rules whose ids are re-applied or withdrawn. */
  lemma MergeReplacesExactly(overlay: Rules, added: seq<(string, Rule)>, withdrawn: set<string>, name: string,
                             rule: Rule)
    ensures rule in RulesOf(Merged(overlay, added, withdrawn), name) <==>
              || (name, rule) in added
              || (rule in RulesOf(overlay, name) && rule.id !in StaleIds(added, withdrawn))
  {
    RulesAfterMerge(overlay, added, withdrawn, name);
    KeepMembers(RulesOf(overlay, name), StaleIds(added, withdrawn));
    AddedForMembers(added, name, rule);
  }

  ghost predicate NoEmptyEntry(overlay: Rules) {
    forall name :: name in overlay ==> overlay[name] != []
  }

  /** A merge prunes every empty entry, except that one with nothing to do leaves the
      overlay, and any empty entry in it, alone. */
  lemma MergeLeavesNoEmptyEntry(overlay: Rules, added: seq<(string, Rule)>, withdrawn: set<string>)
    ensures NoEmptyEntry(Merged(overlay, added, withdrawn)) <==> NoEmptyEntry(overlay) || added != [] || withdrawn != {}
  {
    if added != [] {
      assert added[0].1.id in StaleIds(added, withdrawn);
    }
  }

  /** Two overlays without empty entries are equal when they give every name the same
      rules. */
  lemma SameRulesSameOverlay(a: Rules, b: Rules)
    requires NoEmptyEntry(a) && NoEmptyEntry(b)
    requires forall name :: RulesOf(a, name) == RulesOf(b, name)
    ensures a == b
  {
    forall name
      ensures name in a <==> name in b
      ensures name in a ==> a[name] == RulesOf(b, name)
    {
      assert RulesOf(a, name) == RulesOf(b, name);
    }
  }

  /** Applying the same probe results twice is applying them once. */
  lemma MergeIsIdempotent(overlay: Rules, added: seq<(string, Rule)>, withdrawn: set<string>)
    ensures Merged(Merged(overlay, added, withdrawn), added, withdrawn) == Merged(overlay, added, withdrawn)
  {
    if StaleIds(added, withdrawn) != {} {
      var once := Merged(overlay, added, withdrawn);
      var twice := Merged(once, added, withdrawn);
      forall name
        ensures RulesOf(twice, name) == RulesOf(once, name)
      {
        IdempotentAt(overlay, added, withdrawn, name);
      }
      SameRulesSameOverlay(twice, once);
    }
  }

  lemma IdempotentAt(overlay: Rules, added: seq<(string, Rule)>, withdrawn: set<string>, name: string)
    ensures var once := Merged(overlay, added, withdrawn);
            RulesOf(Merged(once, added, withdrawn), name) == RulesOf(once, name)
  {
    var stale := StaleIds(added, withdrawn);
    RulesAfterMerge(overlay, added, withdrawn, name);
    RulesAfterMerge(Merged(overlay, added, withdrawn), added, withdrawn, name);
    forall r | r in AddedFor(added, name) ensures r.id in stale {
      AddedIsStale(added, withdrawn, name, r);
    }
    KeepAgain(RulesOf(overlay, name), AddedFor(added, name), stale);
  }

  lemma KeepAgain(rules: seq<Rule>, newer: seq<Rule>, stale: set<string>)
    requires forall r :: r in newer ==> r.id in stale
    ensures Keep(Keep(rules, stale) + newer, stale) == Keep(rules, stale)
  {
    KeepConcat(Keep(rules, stale), newer, stale);
    KeepTwice(rules, stale, stale);
    assert stale + stale == stale;
    KeepNone(newer, stale);
  }

  /** The rules of the stale ids, in order: what `Keep` drops. */
  function Shared(rules: seq<Rule>, stale: set<string>): seq<Rule> {
    if rules == [] then []
    else (if rules[0].id in stale then [rules[0]] else []) + Shared(rules[1..], stale)
  }

  lemma {:induction false} KeepAndShared(rules: seq<Rule>, stale: set<string>)
    ensures multiset(Keep(rules, stale)) + multiset(Shared(rules, stale)) == multiset(rules)
  {
    if rules != [] {
      KeepAndShared(rules[1..], stale);
      assert rules == [rules[0]] + rules[1..];
    }
  }

  /** Two merges give a name the same rules in either order, up to the order of the rules,
      exactly when they add it the same rules for the advisories both of them touch. */
  lemma MergesCommuteIff(overlay: Rules, a1: seq<(string, Rule)>, w1: set<string>, a2: seq<(string, Rule)>,
                         w2: set<string>, name: string)
    ensures multiset(RulesOf(Merged(Merged(overlay, a1, w1), a2, w2), name))
              == multiset(RulesOf(Merged(Merged(overlay, a2, w2), a1, w1), name))
       <==> multiset(Shared(AddedFor(a1, name), StaleIds(a2, w2)))
            == multiset(Shared(AddedFor(a2, name), StaleIds(a1, w1)))
  {
    var s1, s2 := StaleIds(a1, w1), StaleIds(a2, w2);
    var m1, m2 := AddedFor(a1, name), AddedFor(a2, name);
    MergeTwice(overlay, a1, w1, a2, w2, name);
    MergeTwice(overlay, a2, w2, a1, w1, name);
    assert s1 + s2 == s2 + s1;
    KeepAndShared(m1, s2);
    KeepAndShared(m2, s1);
    Cancel(multiset(Keep(RulesOf(overlay, name), s1 + s2)), multiset(Keep(m1, s2)), multiset(m1),
           multiset(Shared(m1, s2)),
           multiset(Keep(m2, s1)), multiset(m2), multiset(Shared(m2, s1)));
  }

  lemma Cancel(o: multiset<Rule>, k1: multiset<Rule>, m1: multiset<Rule>, d1: multiset<Rule>, k2: multiset<Rule>,
               m2: multiset<Rule>, d2: multiset<Rule>)
    requires k1 + d1 == m1 && k2 + d2 == m2
    ensures o + k1 + m2 == o + k2 + m1 <==> d1 == d2
  {
    if o + k1 + m2 == o + k2 + m1 {
      forall r ensures d1[r] == d2[r] {
        assert (o + k1 + m2)[r] == (o + k2 + m1)[r];
        assert m1[r] == (k1 + d1)[r] && m2[r] == (k2 + d2)[r];
      }
      assert d1 == d2;
    }
  }

  lemma MergeTwice(overlay: Rules, a1: seq<(string, Rule)>, w1: set<string>, a2: seq<(string, Rule)>, w2: set<string>,
                   name: string)
    ensures RulesOf(Merged(Merged(overlay, a1, w1), a2, w2), name)
         == Keep(RulesOf(overlay, name), StaleIds(a1, w1) + StaleIds(a2, w2))
            + Keep(AddedFor(a1, name), StaleIds(a2, w2)) + AddedFor(a2, name)
  {
    var s1, s2 := StaleIds(a1, w1), StaleIds(a2, w2);
    RulesAfterMerge(overlay, a1, w1, name);
    RulesAfterMerge(Merged(overlay, a1, w1), a2, w2, name);
    KeepConcat(Keep(RulesOf(overlay, name), s1), AddedFor(a1, name), s2);
    KeepTwice(RulesOf(overlay, name), s1, s2);
  }

  /** Two cycles that carry different versions of one advisory do not commute: the later
      one stands. */
  lemma MergeOrderMatters()
    ensures var older, newer := [("pkg", Rule("MAL-1", "< 2"))], [("pkg", Rule("MAL-1", "< 3"))];
            multiset(RulesOf(Merged(Merged(map[], older, {}), newer, {}), "pkg"))
              != multiset(RulesOf(Merged(Merged(map[], newer, {}), older, {}), "pkg"))
  {
    var older, newer := [("pkg", Rule("MAL-1", "< 2"))], [("pkg", Rule("MAL-1", "< 3"))];
    MergesCommuteIff(map[], older, {}, newer, {}, "pkg");
    assert older[0].1.id in StaleIds(older, {}) && newer[0].1.id in StaleIds(newer, {});
    assert Shared(AddedFor(older, "pkg"), StaleIds(newer, {})) == [Rule("MAL-1", "< 2")];
    assert Shared(AddedFor(newer, "pkg"), StaleIds(older, {})) == [Rule("MAL-1", "< 3")];
    assert multiset([Rule("MAL-1", "< 2")])[Rule("MAL-1", "< 3")] == 0;
  }
}
