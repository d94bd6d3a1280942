/** Pairing of removed and added hooks into rewrites and installs (pairRewrites in
    cli/up_actions.go). */
module UpActions {
  datatype Hook = Hook(event: string, command: string)

  datatype Rewrite = Rewrite(event: string, from: string, to: string)

  /** The hooks that rewrites take away, and those they put in. */
  function Froms(rs: seq<Rewrite>): seq<Hook> {
    seq(|rs|, i requires 0 <= i < |rs| => Hook(rs[i].event, rs[i].from))
  }

  function Tos(rs: seq<Rewrite>): seq<Hook> {
    seq(|rs|, i requires 0 <= i < |rs| => Hook(rs[i].event, rs[i].to))
  }

  type Test = Hook -> bool

  function Is(x: Hook): Test { (h: Hook) => h == x }

  function OfEvent(e: string): Test { (h: Hook) => h.event == e }

  /** How many of the first n hooks pass the test, in all and at used positions. */
  function Tally(hooks: seq<Hook>, p: Test, n: nat): nat
    requires n <= |hooks|
  {
    if n == 0 then 0 else Tally(hooks, p, n - 1) + if p(hooks[n - 1]) then 1 else 0
  }

  function TallyUsed(hooks: seq<Hook>, used: set<nat>, p: Test, n: nat): nat
    requires n <= |hooks|
  {
    if n == 0 then 0 else TallyUsed(hooks, used, p, n - 1) + if n - 1 in used && p(hooks[n - 1]) then 1 else 0
  }

  function Total(hooks: seq<Hook>, p: Test): nat { Tally(hooks, p, |hooks|) }

  function Min(a: nat, b: nat): nat { if a < b then a else b }

  // ----- tallies -----

  lemma {:induction false} TallyPrefix(s: seq<Hook>, t: seq<Hook>, p: Test, n: nat)
    requires n <= |s| && s <= t
    ensures Tally(t, p, n) == Tally(s, p, n)
  {
    if n > 0 {
      TallyPrefix(s, t, p, n - 1);
    }
  }

  lemma TotalAppend(s: seq<Hook>, x: Hook, p: Test)
    ensures Total(s + [x], p) == Total(s, p) + if p(x) then 1 else 0
  {
    TallyPrefix(s, s + [x], p, |s|);
  }

  lemma {:induction false} TallyConcat(s: seq<Hook>, t: seq<Hook>, p: Test, n: nat)
    requires n <= |t|
    ensures Tally(s + t, p, |s| + n) == Total(s, p) + Tally(t, p, n)
  {
    if n == 0 {
      TallyPrefix(s, s + t, p, |s|);
    } else {
      TallyConcat(s, t, p, n - 1);
      assert (s + t)[|s| + n - 1] == t[n - 1];
    }
  }

  lemma {:induction false} TallyIsMultiplicity(s: seq<Hook>, x: Hook, n: nat)
    requires n <= |s|
    ensures multiset(s[..n])[x] == Tally(s, Is(x), n)
  {
    if n > 0 {
      TallyIsMultiplicity(s, x, n - 1);
      assert s[..n] == s[..n - 1] + [s[n - 1]];
    }
  }

  /** Sequences in which every hook comes up equally often are permutations. */
  lemma SameTotals(s: seq<Hook>, t: seq<Hook>)
    requires forall x :: Total(s, Is(x)) == Total(t, Is(x))
    ensures multiset(s) == multiset(t)
  {
    assert s[..|s|] == s && t[..|t|] == t;
    forall x ensures multiset(s)[x] == multiset(t)[x] {
      TallyIsMultiplicity(s, x, |s|);
      TallyIsMultiplicity(t, x, |t|);
      assert Total(s, Is(x)) == Total(t, Is(x));
    }
  }

  lemma {:induction false} UseOne(hooks: seq<Hook>, used: set<nat>, p: Test, n: nat, i: nat)
    requires n <= |hooks| && i < |hooks| && i !in used
    ensures TallyUsed(hooks, used + {i}, p, n) == TallyUsed(hooks, used, p, n) + if i < n && p(hooks[i]) then 1 else 0
  {
    if n > 0 {
      UseOne(hooks, used, p, n - 1, i);
      assert n - 1 in used + {i} <==> n - 1 in used || n - 1 == i;
    }
  }

  lemma {:induction false} UseNone(hooks: seq<Hook>, p: Test, n: nat)
    requires n <= |hooks|
    ensures TallyUsed(hooks, {}, p, n) == 0
  {
    if n > 0 {
      UseNone(hooks, p, n - 1);
    }
  }

  /** All hooks that pass are used exactly when none of them is free. */
  lemma {:induction false} UsedAll(hooks: seq<Hook>, used: set<nat>, p: Test, n: nat)
    requires n <= |hooks|
    ensures TallyUsed(hooks, used, p, n) <= Tally(hooks, p, n)
    ensures TallyUsed(hooks, used, p, n) == Tally(hooks, p, n) <==> forall j | 0 <= j < n :: j in used || !p(hooks[j])
  {
    if n > 0 {
      UsedAll(hooks, used, p, n - 1);
    }
  }

  // ----- the double loop -----

  /** The inner loop: the first unused addition to this event, or |added|. */
  method FindFree(added: seq<Hook>, used: set<nat>, event: string) returns (ai: nat)
    ensures ai <= |added| && (ai < |added| ==> ai !in used && added[ai].event == event)
    ensures forall j | 0 <= j < ai :: j in used || added[j].event != event
  {
    ai := 0;
    while ai < |added| && (ai in used || added[ai].event != event)
      invariant ai <= |added| && forall j | 0 <= j < ai :: j in used || added[j].event != event
    {
      ai := ai + 1;
    }
  }

  /** The pairs are the used positions of both sides. */
  ghost predicate Conserves(removed: seq<Hook>, added: seq<Hook>, pairs: seq<Rewrite>, usedAdds: set<nat>,
      usedRems: set<nat>) {
    && (forall x :: Total(Tos(pairs), Is(x)) == TallyUsed(added, usedAdds, Is(x), |added|))
    && (forall x :: Total(Froms(pairs), Is(x)) == TallyUsed(removed, usedRems, Is(x), |removed|))
  }

  /** Per event, as many pairs as the shorter side allows, one addition each. */
  ghost predicate Greedy(removed: seq<Hook>, ri: nat, added: seq<Hook>, pairs: seq<Rewrite>, usedAdds: set<nat>)
    requires ri <= |removed|
  {
    forall e ::
      && Total(Froms(pairs), OfEvent(e)) == TallyUsed(added, usedAdds, OfEvent(e), |added|)
      && Total(Froms(pairs), OfEvent(e)) == Min(Tally(removed, OfEvent(e), ri), Total(added, OfEvent(e)))
  }

  lemma AppendPair(pairs: seq<Rewrite>, r: Rewrite)
    ensures Froms(pairs + [r]) == Froms(pairs) + [Hook(r.event, r.from)]
    ensures Tos(pairs + [r]) == Tos(pairs) + [Hook(r.event, r.to)]
  {
  }

  lemma ConservesStart(removed: seq<Hook>, added: seq<Hook>)
    ensures Conserves(removed, added, [], {}, {}) && Greedy(removed, 0, added, [], {})
  {
    forall x ensures TallyUsed(added, {}, Is(x), |added|) == 0 && TallyUsed(removed, {}, Is(x), |removed|) == 0 {
      UseNone(added, Is(x), |added|);
      UseNone(removed, Is(x), |removed|);
    }
    forall e ensures TallyUsed(added, {}, OfEvent(e), |added|) == 0 {
      UseNone(added, OfEvent(e), |added|);
    }
  }

  lemma ConservesPair(removed: seq<Hook>, added: seq<Hook>, pairs: seq<Rewrite>, usedAdds: set<nat>,
      usedRems: set<nat>, ri: nat, ai: nat)
    requires Conserves(removed, added, pairs, usedAdds, usedRems)
    requires ri < |removed| && ri !in usedRems && ai < |added| && ai !in usedAdds
      && added[ai].event == removed[ri].event
    ensures var r := Rewrite(removed[ri].event, removed[ri].command, added[ai].command);
      Conserves(removed, added, pairs + [r], usedAdds + {ai}, usedRems + {ri})
  {
    var r := Rewrite(removed[ri].event, removed[ri].command, added[ai].command);
    AppendPair(pairs, r);
    forall x
      ensures Total(Tos(pairs + [r]), Is(x)) == TallyUsed(added, usedAdds + {ai}, Is(x), |added|)
      ensures Total(Froms(pairs + [r]), Is(x)) == TallyUsed(removed, usedRems + {ri}, Is(x), |removed|)
    {
      TotalAppend(Tos(pairs), added[ai], Is(x));
      TotalAppend(Froms(pairs), removed[ri], Is(x));
      UseOne(added, usedAdds, Is(x), |added|, ai);
      UseOne(removed, usedRems, Is(x), |removed|, ri);
    }
  }

  lemma GreedyMiss(removed: seq<Hook>, ri: nat, added: seq<Hook>, pairs: seq<Rewrite>, usedAdds: set<nat>)
    requires ri < |removed| && Greedy(removed, ri, added, pairs, usedAdds)
    requires forall j | 0 <= j < |added| :: j in usedAdds || added[j].event != removed[ri].event
    ensures Greedy(removed, ri + 1, added, pairs, usedAdds)
  {
    UsedAll(added, usedAdds, OfEvent(removed[ri].event), |added|);
  }

  lemma GreedyHit(removed: seq<Hook>, ri: nat, added: seq<Hook>, pairs: seq<Rewrite>, usedAdds: set<nat>, ai: nat,
      r: Rewrite)
    requires ri < |removed| && Greedy(removed, ri, added, pairs, usedAdds)
    requires ai < |added| && ai !in usedAdds && added[ai].event == removed[ri].event == r.event
    ensures Greedy(removed, ri + 1, added, pairs + [r], usedAdds + {ai})
  {
    AppendPair(pairs, r);
    UsedAll(added, usedAdds, OfEvent(r.event), |added|);
    forall e
      ensures Total(Froms(pairs + [r]), OfEvent(e)) == Total(Froms(pairs), OfEvent(e)) + if r.event == e then 1 else 0
      ensures TallyUsed(added, usedAdds + {ai}, OfEvent(e), |added|) ==
        TallyUsed(added, usedAdds, OfEvent(e), |added|) + if r.event == e then 1 else 0
    {
      TotalAppend(Froms(pairs), Hook(r.event, r.from), OfEvent(e));
      UseOne(added, usedAdds, OfEvent(e), |added|, ai);
    }
  }

  /** The first double loop: pairs, with the used positions of both sides. */
  method Match(removed: seq<Hook>, added: seq<Hook>) returns (pairs: seq<Rewrite>, usedAdds: set<nat>,
      usedRems: set<nat>)
    ensures Conserves(removed, added, pairs, usedAdds, usedRems)
    ensures Greedy(removed, |removed|, added, pairs, usedAdds)
  {
    pairs, usedAdds, usedRems := [], {}, {};
    ConservesStart(removed, added);
    for ri := 0 to |removed|
      invariant forall j | j in usedRems :: j < ri
      invariant Conserves(removed, added, pairs, usedAdds, usedRems)
      invariant Greedy(removed, ri, added, pairs, usedAdds)
    {
      var r := removed[ri];
      var ai := FindFree(added, usedAdds, r.event);
      if ai == |added| {
        GreedyMiss(removed, ri, added, pairs, usedAdds);
      } else {
        var pair := Rewrite(r.event, r.command, added[ai].command);
        ConservesPair(removed, added, pairs, usedAdds, usedRems, ri, ai);
        GreedyHit(removed, ri, added, pairs, usedAdds, ai, pair);
        pairs := pairs + [pair];
        usedAdds := usedAdds + {ai};
        usedRems := usedRems + {ri};
      }
    }
  }

  // ----- what is left over -----

  /** The hooks of the positions not used, in order. */
  method Unused(hooks: seq<Hook>, used: set<nat>) returns (rest: seq<Hook>)
    ensures forall x :: Total(rest, Is(x)) + TallyUsed(hooks, used, Is(x), |hooks|) == Total(hooks, Is(x))
  {
    rest := [];
    for i := 0 to |hooks|
      invariant forall x :: Total(rest, Is(x)) + TallyUsed(hooks, used, Is(x), i) == Tally(hooks, Is(x), i)
    {
      if i !in used {
        forall x ensures Total(rest + [hooks[i]], Is(x)) == Total(rest, Is(x)) + if hooks[i] == x then 1 else 0 {
          TotalAppend(rest, hooks[i], Is(x));
        }
        rest := rest + [hooks[i]];
      }
    }
  }

  /** The last loop: removals without a partner become rewrites to nothing. */
  method WithPrunes(pairs: seq<Rewrite>, pruned: seq<Hook>) returns (rewrites: seq<Rewrite>)
    ensures pairs <= rewrites && Froms(rewrites) == Froms(pairs) + pruned
    ensures forall r | r in rewrites[|pairs|..] :: r.to == ""
  {
    rewrites := pairs;
    for i := 0 to |pruned|
      invariant |rewrites| == |pairs| + i && rewrites[..|pairs|] == pairs
      invariant Froms(rewrites) == Froms(pairs) + pruned[..i]
      invariant forall k | |pairs| <= k < |rewrites| :: rewrites[k].to == ""
    {
      assert pruned[..i + 1] == pruned[..i] + [pruned[i]];
      AppendPair(rewrites, Rewrite(pruned[i].event, pruned[i].command, ""));
      rewrites := rewrites + [Rewrite(pruned[i].event, pruned[i].command, "")];
    }
    assert pruned[..|pruned|] == pruned;
  }

  /** A used part and the rest of it make up the whole. */
  lemma UsedAndRest(hooks: seq<Hook>, used: set<nat>, part: seq<Hook>, rest: seq<Hook>)
    requires forall x :: Total(part, Is(x)) == TallyUsed(hooks, used, Is(x), |hooks|)
    requires forall x :: Total(rest, Is(x)) + TallyUsed(hooks, used, Is(x), |hooks|) == Total(hooks, Is(x))
    ensures multiset(part + rest) == multiset(hooks)
  {
    forall x ensures Total(part + rest, Is(x)) == Total(hooks, Is(x)) {
      TallyConcat(part, rest, Is(x), |rest|);
    }
    SameTotals(part + rest, hooks);
  }

  /** pairRewrites; the first `pairs` rewrites are pairs, the others prunes. Nothing
      is lost or invented on either side, a pair stays within its event, and each
      event gets as many pairs as it can. */
  method PairRewrites(removed: seq<Hook>, added: seq<Hook>) returns (rewrites: seq<Rewrite>, installs: seq<Hook>,
      pairs: nat)
    ensures multiset(Froms(rewrites)) == multiset(removed)
    ensures pairs <= |rewrites| && multiset(Tos(rewrites[..pairs]) + installs) == multiset(added)
    ensures forall e ::
      Total(Froms(rewrites[..pairs]), OfEvent(e)) == Min(Total(removed, OfEvent(e)), Total(added, OfEvent(e)))
    ensures forall r | r in rewrites[pairs..] :: r.to == ""
    ensures forall i | 0 <= i < |rewrites| :: Hook(rewrites[i].event, rewrites[i].from) in removed
    ensures forall i | 0 <= i < pairs :: Hook(rewrites[i].event, rewrites[i].to) in added
    ensures forall h | h in installs :: h in added
  {
    var matched, usedAdds, usedRems := Match(removed, added);
    pairs := |matched|;
    installs := Unused(added, usedAdds);
    var pruned := Unused(removed, usedRems);
    rewrites := WithPrunes(matched, pruned);
    assert rewrites[..pairs] == matched;
    UsedAndRest(added, usedAdds, Tos(matched), installs);
    UsedAndRest(removed, usedRems, Froms(matched), pruned);
    forall i | 0 <= i < |rewrites| ensures Hook(rewrites[i].event, rewrites[i].from) in removed {
      assert Froms(rewrites)[i] in multiset(Froms(rewrites));
    }
    forall i | 0 <= i < pairs ensures Hook(rewrites[i].event, rewrites[i].to) in added {
      assert (Tos(matched) + installs)[i] in multiset(Tos(matched) + installs);
    }
    forall h | h in installs ensures h in added {
      assert h in Tos(matched) + installs && h in multiset(Tos(matched) + installs);
    }
  }
}
