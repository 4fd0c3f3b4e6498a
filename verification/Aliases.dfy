/** Following model aliases through a map until a name that is not one. */
module Aliases {
  import opened Text

  type Table = map<string, string>

  /** The name `k` aliases further on; a name that is no alias stays. */
  function Followed(aliases: Table, name: string, k: nat): string {
    if k == 0 then name
    else
      var before := Followed(aliases, name, k - 1);
      if before in aliases then aliases[before] else before
  }

  lemma FollowedFirst(aliases: Table, name: string, k: nat)
    ensures Followed(aliases, name, 0) == name
    ensures var before := Followed(aliases, name, k);
      Followed(aliases, name, k + 1) == if before in aliases then aliases[before] else before
  {
  }

  /** The chain from `name` never leaves the table. */
  ghost predicate Cycles(aliases: Table, name: string) {
    forall k: nat :: Followed(aliases, name, k) in aliases
  }

  lemma {:induction false} FollowedIsPeriodic(aliases: Table, name: string, i: nat, j: nat, d: nat)
    requires Followed(aliases, name, i) == Followed(aliases, name, j)
    ensures Followed(aliases, name, i + d) == Followed(aliases, name, j + d)
  {
    if d > 0 { FollowedIsPeriodic(aliases, name, i, j, d - 1); }
  }

  /** A chain that comes back to a name it has passed goes round for ever. */
  lemma {:induction false} RepeatMeansCycle(aliases: Table, name: string, i: nat, j: nat, k: nat)
    requires i < j && Followed(aliases, name, i) == Followed(aliases, name, j)
    requires forall m | 0 <= m < j :: Followed(aliases, name, m) in aliases
    ensures Followed(aliases, name, k) in aliases
    decreases k
  {
    if k >= j {
      FollowedIsPeriodic(aliases, name, i, j, k - j);
      RepeatMeansCycle(aliases, name, i, j, k - (j - i));
    }
  }

  /** The model a name stands for: the end of its alias chain. An empty name, no name, and a
      name whose chain cycles come back as they are. */
  method ResolveAlias(aliases: Table, model: Option<string>) returns (resolved: Option<string>)
    ensures model in {None, Some("")} || Cycles(aliases, model.value) ==> resolved == model
    ensures model.Some? && model.value != "" && !Cycles(aliases, model.value) ==>
      && resolved.Some? && resolved.value !in aliases
      && resolved.value == Followed(aliases, model.value, |aliases|)
  {
    if model.None? || model.value == "" { return model; }
    FollowedFirst(aliases, model.value, 0);
    hide Followed;
    var current, seen: set<string> := model.value, {};
    ghost var k: nat := 0;
    while current in aliases
      invariant current == Followed(aliases, model.value, k)
      invariant seen <= aliases.Keys
      invariant forall m | 0 <= m < k :: Followed(aliases, model.value, m) in seen
      invariant forall s | s in seen :: exists m | 0 <= m < k :: s == Followed(aliases, model.value, m)
      decreases aliases.Keys - seen
    {
      if current in seen {
        ghost var i :| 0 <= i < k && current == Followed(aliases, model.value, i);
        forall n: nat ensures Followed(aliases, model.value, n) in aliases {
          RepeatMeansCycle(aliases, model.value, i, k, n);
        }
        return model;
      }
      FollowedFirst(aliases, model.value, k);
      seen := seen + {current};
      current := aliases[current];
      k := k + 1;
    }
    FewerNamesThanAliases(aliases, model.value, k);
    EndOfChainIsUnique(aliases, model.value, k, |aliases|);
    resolved := Some(current);
  }

  /** A name no alias follows is the end: looking further changes nothing. */
  lemma {:induction false} EndOfChainIsUnique(aliases: Table, name: string, i: nat, j: nat)
    requires i <= j && Followed(aliases, name, i) !in aliases
    ensures Followed(aliases, name, j) == Followed(aliases, name, i)
    decreases j
  {
    if i < j { EndOfChainIsUnique(aliases, name, i, j - 1); }
  }

  lemma FewerNamesThanAliases(aliases: Table, name: string, k: nat)
    requires forall m | 0 <= m < k :: Followed(aliases, name, m) in aliases
    requires Followed(aliases, name, k) !in aliases
    ensures k <= |aliases|
  {
    forall i, j | 0 <= i < j < k ensures Followed(aliases, name, i) != Followed(aliases, name, j) {
      if Followed(aliases, name, i) == Followed(aliases, name, j) { RepeatMeansCycle(aliases, name, i, j, k); }
    }
    DistinctNamesFit(seq(k, m requires 0 <= m < k => Followed(aliases, name, m)), aliases.Keys);
  }

  /** Distinct names from a set are no more than its elements. */
  lemma {:induction false} DistinctNamesFit(names: seq<string>, all: set<string>)
    requires forall i, j | 0 <= i < j < |names| :: names[i] != names[j]
    requires forall i | 0 <= i < |names| :: names[i] in all
    ensures |names| <= |all|
    decreases |names|
  {
    if names != [] {
      var last := names[|names| - 1];
      DistinctNamesFit(names[..|names| - 1], all - {last});
    }
  }

  /** Whether a chain cycles shows after as many steps as there are aliases. */
  lemma CyclesIff(aliases: Table, name: string)
    ensures Cycles(aliases, name) <==> Followed(aliases, name, |aliases|) in aliases
  {
    if Followed(aliases, name, |aliases|) in aliases && !Cycles(aliases, name) {
      var k: nat :| Followed(aliases, name, k) !in aliases;
      FirstEnd(aliases, name, k);
    }
  }

  lemma {:induction false} FirstEnd(aliases: Table, name: string, k: nat)
    requires Followed(aliases, name, k) !in aliases
    ensures Followed(aliases, name, |aliases|) !in aliases
  {
    if m: nat :| m < k && Followed(aliases, name, m) !in aliases {
      FirstEnd(aliases, name, m);
    } else {
      FewerNamesThanAliases(aliases, name, k);
      EndOfChainIsUnique(aliases, name, k, |aliases|);
    }
  }
}
