/**
 Lists of firewall rules, into which iptables -I inserts at the head and from which iptables -D deletes the
 first equal rule.
 */
module Firewall {
  // Taking the first occurrence of d out of rules; the command fails when there is none.
  function Delete<T(==)>(rules: seq<T>, d: T): seq<T> {
    if rules == [] then [] else if rules[0] == d then rules[1..] else [rules[0]] + Delete(rules[1..], d)
  }

  lemma {:induction false} DeleteTakesOne<T>(rules: seq<T>, d: T)
    ensures multiset(Delete(rules, d)) == multiset(rules) - multiset{d}
    ensures d !in rules ==> Delete(rules, d) == rules
  {
    if rules != [] {
      assert rules == [rules[0]] + rules[1..];
      if rules[0] != d { DeleteTakesOne(rules[1..], d); }
    }
  }

  // Deletions that may fail one by one.
  function DeleteAll<T(==)>(rules: seq<T>, deletions: seq<T>): seq<T>
    decreases |deletions|
  {
    if deletions == [] then rules else DeleteAll(Delete(rules, deletions[0]), deletions[1..])
  }

  function InsertAll<T>(rules: seq<T>, insertions: seq<T>): seq<T>
    decreases |insertions|
  {
    if insertions == [] then rules else InsertAll([insertions[0]] + rules, insertions[1..])
  }

  function Reverse<T>(s: seq<T>): (r: seq<T>)
    ensures multiset(r) == multiset(s)
  {
    if s == [] then []
    else
      assert s == [s[0]] + s[1..];
      Reverse(s[1..]) + [s[0]]
  }

  lemma {:induction false} DeleteAppend<T>(a: seq<T>, b: seq<T>, d: T)
    ensures Delete(a + b, d) == if d in a then Delete(a, d) + b else a + Delete(b, d)
  {
    if a == [] {
      assert a + b == b;
    } else {
      assert (a + b)[0] == a[0] && (a + b)[1..] == a[1..] + b;
      if a[0] != d { DeleteAppend(a[1..], b, d); }
    }
  }

  lemma {:induction false} InsertsInFront<T>(rules: seq<T>, insertions: seq<T>)
    ensures InsertAll(rules, insertions) == Reverse(insertions) + rules
    decreases |insertions|
  {
    if insertions != [] {
      InsertsInFront([insertions[0]] + rules, insertions[1..]);
      assert Reverse(insertions[1..]) + ([insertions[0]] + rules) == Reverse(insertions) + rules;
    }
  }

  lemma {:induction false} OnlyFewer<T>(rules: seq<T>, deletions: seq<T>)
    ensures multiset(DeleteAll(rules, deletions)) <= multiset(rules)
    decreases |deletions|
  {
    if deletions != [] {
      DeleteTakesOne(rules, deletions[0]);
      OnlyFewer(Delete(rules, deletions[0]), deletions[1..]);
    }
  }

  // Every inserted rule is deleted, and a rule that was there before is deleted as often as it was inserted.
  ghost predicate Balanced<T(!new)>(inserted: seq<T>, rules: seq<T>, deletions: seq<T>) {
    forall r ::
      && multiset(inserted)[r] <= multiset(deletions)[r]
      && (r in rules ==> multiset(inserted)[r] == multiset(deletions)[r])
  }

  /** Deletions undo insertions exactly if they are balanced. */
  lemma {:induction false} DeletionsRestore<T(!new)>(inserted: seq<T>, rules: seq<T>, deletions: seq<T>)
    ensures DeleteAll(inserted + rules, deletions) == rules <==> Balanced(inserted, rules, deletions)
    decreases |deletions|
  {
    if deletions == [] {
      if inserted != [] {
        assert multiset(inserted)[inserted[0]] > 0;
        assert |inserted + rules| != |rules|;
      } else {
        assert inserted + rules == rules;
      }
    } else {
      var d, rest := deletions[0], deletions[1..];
      assert deletions == [d] + rest;
      DeleteAppend(inserted, rules, d);
      if d in inserted {
        DeletionsRestore(Delete(inserted, d), rules, rest);
        BalancedStep(inserted, rules, d, rest);
      } else if d !in rules {
        DeleteTakesOne(rules, d);
        DeletionsRestore(inserted, rules, rest);
        BalancedSkip(inserted, rules, d, rest);
      } else {
        var left := DeleteAll(inserted + Delete(rules, d), rest);
        OnlyFewer(inserted + Delete(rules, d), rest);
        DeleteTakesOne(rules, d);
        assert multiset(inserted + Delete(rules, d))[d] < multiset(rules)[d];
        assert left != rules;
        assert multiset(inserted)[d] == 0 && multiset(deletions)[d] > 0;
      }
    }
  }

  lemma BalancedStep<T(!new)>(inserted: seq<T>, rules: seq<T>, d: T, rest: seq<T>)
    requires d in inserted
    ensures Balanced(Delete(inserted, d), rules, rest) <==> Balanced(inserted, rules, [d] + rest)
  {
    var inserted' := Delete(inserted, d);
    DeleteTakesOne(inserted, d);
    forall r
      ensures multiset(inserted)[r] - multiset(inserted')[r] == multiset([d] + rest)[r] - multiset(rest)[r]
    {
    }
  }

  lemma BalancedSkip<T(!new)>(inserted: seq<T>, rules: seq<T>, d: T, rest: seq<T>)
    requires d !in inserted && d !in rules
    ensures Balanced(inserted, rules, rest) <==> Balanced(inserted, rules, [d] + rest)
  {
    forall r ensures multiset([d] + rest)[r] == multiset(rest)[r] + if r == d then 1 else 0 {
    }
  }

  lemma PrefixBalanced<T(!new)>(rules: seq<T>, first: seq<T>, later: seq<T>)
    ensures Balanced(Reverse(first), rules, Reverse(first + later)) <==> forall i | 0 <= i < |later| :: later[i] !in rules
  {
    var a, b := Reverse(first), Reverse(first + later);
    forall r ensures multiset(b)[r] == multiset(a)[r] + multiset(later)[r] {
    }
    if Balanced(a, rules, b) {
      forall i | 0 <= i < |later| ensures later[i] !in rules {
        assert multiset(later)[later[i]] > 0;
      }
    } else {
      var r :| !(multiset(a)[r] <= multiset(b)[r] && (r in rules ==> multiset(a)[r] == multiset(b)[r]));
      assert r in rules && r in multiset(later);
    }
  }

  lemma PrefixRestored<T(!new)>(rules: seq<T>, first: seq<T>, later: seq<T>, state: seq<T>, deletions: seq<T>)
    requires state == Reverse(first) + rules && deletions == Reverse(first + later)
    ensures DeleteAll(state, deletions) == rules <==> forall i | 0 <= i < |later| :: later[i] !in rules
  {
    DeletionsRestore(Reverse(first), rules, deletions);
    PrefixBalanced(rules, first, later);
  }

  /**
   After the first n insertions, all deletions in the opposite order give the list back exactly if no rule
   that was still to be inserted was there already.  After all of them, they always do.
   */
  lemma RulesRestored<T(!new)>(rules: seq<T>, insertions: seq<T>, n: nat)
    requires n <= |insertions|
    ensures DeleteAll(InsertAll(rules, insertions[..n]), Reverse(insertions)) == rules <==>
            forall i | n <= i < |insertions| :: insertions[i] !in rules
  {
    var first, later := insertions[..n], insertions[n..];
    var state, deletions := InsertAll(rules, first), Reverse(insertions);
    assert insertions == first + later;
    InsertsInFront(rules, first);
    PrefixRestored(rules, first, later, state, deletions);
    LaterOnes(insertions, n, rules);
  }

  lemma LaterOnes<T>(insertions: seq<T>, n: nat, rules: seq<T>)
    requires n <= |insertions|
    ensures (forall i | n <= i < |insertions| :: insertions[i] !in rules) <==>
            forall i | 0 <= i < |insertions[n..]| :: insertions[n..][i] !in rules
  {
    assert forall i | n <= i < |insertions| :: insertions[i] == insertions[n..][i - n];
    assert forall i | 0 <= i < |insertions| - n :: insertions[n..][i] == insertions[n + i];
  }
}
