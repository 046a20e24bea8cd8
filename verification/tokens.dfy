/** Tokens of online users, drawn from a wrapping counter that skips the ones in use. */
module Tokens {
  import opened WrappingId

  class OnlineUsers {
    var users: map<Id, nat>
    var tokenSeq: Id

    constructor ()
      ensures users == map[] && tokenSeq == 0
    {
      users, tokenSeq := map[], 0;
    }

    /**
     The first free token at or after the counter, in wrapping order. The search
     ends exactly if there is a free token; otherwise the source never returns.
     */
    method NewToken() returns (token: Id)
      requires exists t: Id :: t !in users
      modifies this`tokenSeq
      ensures token !in users && tokenSeq == Next(token)
      ensures exists d: nat :: FirstFree(users.Keys, old(tokenSeq), d) && token == Nth(old(tokenSeq), d)
    {
      ghost var start := tokenSeq;
      ghost var free := FreeWithin(users.Keys, start);
      ghost var d: nat := 0;
      while tokenSeq in users
        invariant d <= free && tokenSeq == Nth(start, d)
        invariant forall i: nat | i < d :: Nth(start, i) in users
        decreases free - d
      {
        NextOfNth(start, d);
        tokenSeq := Next(tokenSeq);
        d := d + 1;
      }
      token := tokenSeq;
      tokenSeq := Next(tokenSeq);
      assert FirstFree(users.Keys, start, d);
    }

    /** A login takes a new token and displaces nobody. */
    method Login(user: nat) returns (token: Id)
      requires exists t: Id :: t !in users
      modifies this
      ensures token !in old(users) && users == old(users)[token := user] && |users| == |old(users)| + 1
      ensures tokenSeq == Next(token)
    {
      token := NewToken();
      users := users[token := user];
    }
  }

  /** `d` steps on from `start` is the nearest free token. */
  ghost predicate FirstFree(used: set<Id>, start: Id, d: nat) {
    Nth(start, d) !in used && forall i: nat | i < d :: Nth(start, i) in used
  }

  lemma FreeWithin(used: set<Id>, start: Id) returns (d: nat)
    requires exists t: Id :: t !in used
    ensures d < MODULUS && Nth(start, d) !in used
  {
    var t: Id :| t !in used;
    d := if start <= t then (t - start) as int else (t as int + MODULUS) - start as int;
  }

  /** There is one nearest free token, and it is less than 2^32 steps away. */
  lemma FirstFreeIsUnique(used: set<Id>, start: Id, d: nat, e: nat)
    requires FirstFree(used, start, d) && FirstFree(used, start, e)
    ensures d == e && d < MODULUS
  {
    assert !(e < d) && !(d < e);
    var f := FreeWithin(used, start);
    assert !(f < d);
  }
}
