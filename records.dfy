/** The records the GraphQL query returns, with timestamps as integers. */
module Records {
  import opened Wrappers

  /** One XP transaction. `name` is `object.name`; `None` stands for a
      missing `object` as well as a missing or null `name`, which every
      code path treats alike. */
  datatype Transaction = Transaction(amount: int, createdAt: int, name: Option<string>)

  /** One grading of a project. A pass is `grade > 0`. */
  datatype Progress = Progress(grade: real, createdAt: int, name: Option<string>)

  /** `transactions.reduce((sum, tx) => sum + tx.amount, 0)`: the amounts
      added from the left, starting from 0. */
  function TotalXp(txs: seq<Transaction>): (total: int)
    ensures txs == [] ==> total == 0
    ensures |txs| == 1 ==> total == txs[0].amount
  {
    if txs == [] then 0 else TotalXp(txs[..|txs| - 1]) + txs[|txs| - 1].amount
  }

  /** The XP of a concatenation is the sum of the XP of its parts. */
  lemma {:induction false} TotalXpAppend(a: seq<Transaction>, b: seq<Transaction>)
    ensures TotalXp(a + b) == TotalXp(a) + TotalXp(b)
  {
    if b == [] {
      assert a + b == a;
    } else {
      assert (a + b)[..|a + b| - 1] == a + b[..|b| - 1];
      TotalXpAppend(a, b[..|b| - 1]);
    }
  }

  /** Non-negative amounts give a non-negative total. */
  lemma {:induction false} TotalXpNonNegative(txs: seq<Transaction>)
    requires forall i :: 0 <= i < |txs| ==> txs[i].amount >= 0
    ensures TotalXp(txs) >= 0
  {
    if txs != [] {
      TotalXpNonNegative(txs[..|txs| - 1]);
    }
  }
}
