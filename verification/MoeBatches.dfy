/** How MOE::forward cuts a batch into groups: when its loop comes to an end. */
module MoeBatches {

  function Min(a: int, b: int): int {
    if a < b then a else b
  }

  /** What one round of the loop leaves of a batch; a remainder below gmin is done token by token and ends it. */
  function Next(gmin: int, gmax: int, remaining: int): int {
    if remaining <= 0 then remaining else if remaining < gmin then 0 else remaining - Min(gmax, remaining)
  }

  function After(gmin: int, gmax: int, rounds: nat, batch: int): int {
    if rounds == 0 then batch else Next(gmin, gmax, After(gmin, gmax, rounds - 1, batch))
  }

  lemma NextRound(gmin: int, gmax: int, rounds: nat, batch: int)
    ensures After(gmin, gmax, rounds + 1, batch) == Next(gmin, gmax, After(gmin, gmax, rounds, batch))
    ensures After(gmin, gmax, 0, batch) == batch
  {
  }

  ghost predicate Ends(gmin: int, gmax: int, batch: int) {
    exists rounds: nat :: After(gmin, gmax, rounds, batch) <= 0
  }

  lemma {:induction false} FromNext(gmin: int, gmax: int, rounds: nat, batch: int)
    ensures After(gmin, gmax, rounds + 1, batch) == After(gmin, gmax, rounds, Next(gmin, gmax, batch))
  {
    if rounds > 0 { FromNext(gmin, gmax, rounds - 1, batch); }
  }

  lemma {:induction false} Shrinks(gmin: int, gmax: int, batch: int) returns (rounds: nat)
    requires gmax > 0
    ensures After(gmin, gmax, rounds, batch) <= 0
    decreases if batch > 0 then batch else 0
  {
    if batch <= 0 {
      rounds := 0;
    } else {
      rounds := Shrinks(gmin, gmax, Next(gmin, gmax, batch));
      FromNext(gmin, gmax, rounds, batch);
      rounds := rounds + 1;
    }
  }

  /** With no room in a group, a batch that reaches gmin never gets smaller. */
  lemma {:induction false} NeverSmaller(gmin: int, gmax: int, rounds: nat, batch: int)
    requires gmax <= 0 && batch >= gmin && batch > 0
    ensures After(gmin, gmax, rounds, batch) >= batch
  {
    if rounds > 0 { NeverSmaller(gmin, gmax, rounds - 1, batch); }
  }

  /** The loop ends if and only if groups have room, or the batch is below the grouping threshold, or empty. */
  lemma ForwardEndsIff(gmin: int, gmax: int, batch: int)
    ensures Ends(gmin, gmax, batch) <==> gmax > 0 || batch < gmin || batch <= 0
  {
    if gmax > 0 {
      var rounds := Shrinks(gmin, gmax, batch);
    } else if batch <= 0 {
      assert After(gmin, gmax, 0, batch) <= 0;
    } else if batch < gmin {
      assert After(gmin, gmax, 0, batch) == batch;
      assert After(gmin, gmax, 1, batch) <= 0;
    } else {
      forall rounds: nat ensures After(gmin, gmax, rounds, batch) > 0 { NeverSmaller(gmin, gmax, rounds, batch); }
    }
  }

  /** Ten tokens, grouping from ten on, groups of length zero: every round leaves all ten. */
  lemma {:induction false} TenForever(rounds: nat)
    ensures After(10, 0, rounds, 10) == 10
  {
    if rounds > 0 { TenForever(rounds - 1); }
  }
}
