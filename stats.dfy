/**
  The statistics fold behind the `/api/stats/:userId` endpoint of the money bot.

  A user's stored transaction records are folded into four wallet balances
  (`main`, `deposit`, `borrowed`, `lent`), a map from category to the total
  amount spent in it, and the history of records as received.

  The specification is given column by column: every balance and every
  category total is the sum, over the records, of one per-record
  contribution (`Term`).  `Summary` assembles those sums into the result
  the endpoint returns, and `Aggregate` is the imperative fold, proved to
  compute exactly `Summary`.
 */
module StatsAggregator {

  /** One stored transaction record as the fold reads it.  `amount` is signed
      (negative is money going out); `wallet` is the tag the record was stored
      with.  A record whose wallet is missing or not one of the three transfer
      wallets is represented by any other string, e.g. "main" or "". */
  datatype Tx = Tx(amount: int, category: string, wallet: string)

  /** The JSON object the endpoint answers with. */
  datatype Stats = Stats(
    main: int,
    deposit: int,
    borrowed: int,
    lent: int,
    categories: map<string, int>,
    history: seq<Tx>)

  /** The balances and categories of the empty fold. */
  const Empty := Stats(0, 0, 0, 0, map[], [])

  function Abs(v: int): nat
  {
    if v < 0 then -v else v
  }

  /** The wallets that move money out of or into `main` instead of adding
      the signed amount to it. */
  predicate IsTransfer(wallet: string)
  {
    wallet == "deposit" || wallet == "borrowed" || wallet == "lent"
  }

  /** The value of a category in the map, 0 when the category is absent. */
  function Lookup(m: map<string, int>, c: string): int
  {
    if c in m then m[c] else 0
  }

  /** A quantity accumulated over the records. */
  datatype Column =
    | MainWallet           // the record's effect on the main wallet
    | DepositWallet        // |amount| of records tagged "deposit"
    | BorrowedWallet       // |amount| of records tagged "borrowed"
    | LentWallet           // |amount| of records tagged "lent"
    | Direct               // signed amount of records with no transfer wallet
    | Outflow(category: string)  // |amount| of negative records of that category

  /** Columns whose every contribution is non-negative. */
  predicate Unsigned(col: Column)
  {
    !col.MainWallet? && !col.Direct?
  }

  /** What one record contributes to a column. */
  function Term(t: Tx, col: Column): int
  {
    match col
    case MainWallet =>
      if t.wallet == "deposit" then 0 - Abs(t.amount)
      else if t.wallet == "borrowed" then Abs(t.amount)
      else if t.wallet == "lent" then 0 - Abs(t.amount)
      else t.amount
    case DepositWallet => if t.wallet == "deposit" then Abs(t.amount) else 0
    case BorrowedWallet => if t.wallet == "borrowed" then Abs(t.amount) else 0
    case LentWallet => if t.wallet == "lent" then Abs(t.amount) else 0
    case Direct => if IsTransfer(t.wallet) then 0 else t.amount
    case Outflow(c) => if t.amount < 0 && t.category == c then Abs(t.amount) else 0
  }

  /** The sum of a column over a sequence of records. */
  function Total(txs: seq<Tx>, col: Column): (r: int)
    ensures Unsigned(col) ==> r >= 0
  {
    if txs == [] then 0 else Term(txs[0], col) + Total(txs[1..], col)
  }

  /** The categories that occur on at least one negative record. */
  function SpentCategories(txs: seq<Tx>): set<string>
  {
    set t | t in txs && t.amount < 0 :: t.category
  }

  /** Total outflow per category, for every category that has any. */
  function CategoryTotals(txs: seq<Tx>): map<string, int>
  {
    map c | c in SpentCategories(txs) :: Total(txs, Outflow(c))
  }

  /** The statistics of a sequence of records: every field is a column sum
      over all the records, and the history is the records themselves. */
  function Summary(txs: seq<Tx>): Stats
  {
    Stats(
      Total(txs, MainWallet),
      Total(txs, DepositWallet),
      Total(txs, BorrowedWallet),
      Total(txs, LentWallet),
      CategoryTotals(txs),
      txs)
  }

  // ---------------------------------------------------------------------
  // Column sums
  // ---------------------------------------------------------------------

  /** Summing a column distributes over concatenation. */
  lemma {:induction false} TotalAppend(a: seq<Tx>, b: seq<Tx>, col: Column)
    ensures Total(a + b, col) == Total(a, col) + Total(b, col)
    decreases |a|
  {
    if a == [] {
      assert a + b == b;
    } else {
      assert (a + b)[1..] == a[1..] + b;
      TotalAppend(a[1..], b, col);
    }
  }

  /** Adding one record at the end adds its contribution. */
  lemma {:induction false} TotalSnoc(txs: seq<Tx>, t: Tx, col: Column)
    ensures Total(txs + [t], col) == Total(txs, col) + Term(t, col)
  {
    TotalAppend(txs, [t], col);
    assert Total([t], col) == Term(t, col) + Total([t][1..], col);
  }

  /** The balance identity: the main wallet is the signed amount of the
      untagged records, minus what went to deposits, plus what was borrowed,
      minus what was lent out. */
  lemma {:induction false} BalanceIdentity(txs: seq<Tx>)
    ensures Total(txs, MainWallet)
         == Total(txs, Direct) - Total(txs, DepositWallet)
          + Total(txs, BorrowedWallet) - Total(txs, LentWallet)
  {
    if txs != [] {
      BalanceIdentity(txs[1..]);
    }
  }

  /** A category's outflow is positive exactly when some negative record
      carries that category (and it is 0 otherwise). */
  lemma {:induction false} OutflowPositive(txs: seq<Tx>, c: string)
    ensures Total(txs, Outflow(c)) > 0 <==> exists t :: t in txs && t.amount < 0 && t.category == c
  {
    if txs != [] {
      OutflowPositive(txs[1..], c);
      assert forall t :: t in txs <==> t == txs[0] || t in txs[1..];
    }
  }

  /** The category map holds exactly the categories with outflow, each with
      its total outflow, which is positive. */
  lemma {:induction false} CategoryTotalsMeaning(txs: seq<Tx>)
    ensures forall c :: c in CategoryTotals(txs) <==> exists t :: t in txs && t.amount < 0 && t.category == c
    ensures forall c :: c in CategoryTotals(txs) ==> CategoryTotals(txs)[c] == Total(txs, Outflow(c)) > 0
  {
    forall c
      ensures c in CategoryTotals(txs) <==> exists t :: t in txs && t.amount < 0 && t.category == c
      ensures c in CategoryTotals(txs) ==> Total(txs, Outflow(c)) > 0
    {
      OutflowPositive(txs, c);
      if c in SpentCategories(txs) {
        var t :| t in txs && t.amount < 0 && t.category == c;
      }
    }
  }

  // ---------------------------------------------------------------------
  // The effect of one more record
  // ---------------------------------------------------------------------

  /** A "deposit" record moves |amount| from main to deposit. */
  lemma {:induction false} DepositRecord(txs: seq<Tx>, t: Tx)
    requires t.wallet == "deposit"
    ensures Summary(txs + [t]).deposit == Summary(txs).deposit + Abs(t.amount)
    ensures Summary(txs + [t]).main == Summary(txs).main - Abs(t.amount)
    ensures Summary(txs + [t]).borrowed == Summary(txs).borrowed
    ensures Summary(txs + [t]).lent == Summary(txs).lent
  {
    TotalSnoc(txs, t, MainWallet);
    TotalSnoc(txs, t, DepositWallet);
    TotalSnoc(txs, t, BorrowedWallet);
    TotalSnoc(txs, t, LentWallet);
  }

  /** A "borrowed" record adds |amount| to both borrowed and main. */
  lemma {:induction false} BorrowedRecord(txs: seq<Tx>, t: Tx)
    requires t.wallet == "borrowed"
    ensures Summary(txs + [t]).borrowed == Summary(txs).borrowed + Abs(t.amount)
    ensures Summary(txs + [t]).main == Summary(txs).main + Abs(t.amount)
    ensures Summary(txs + [t]).deposit == Summary(txs).deposit
    ensures Summary(txs + [t]).lent == Summary(txs).lent
  {
    TotalSnoc(txs, t, MainWallet);
    TotalSnoc(txs, t, DepositWallet);
    TotalSnoc(txs, t, BorrowedWallet);
    TotalSnoc(txs, t, LentWallet);
  }

  /** A "lent" record moves |amount| from main to lent. */
  lemma {:induction false} LentRecord(txs: seq<Tx>, t: Tx)
    requires t.wallet == "lent"
    ensures Summary(txs + [t]).lent == Summary(txs).lent + Abs(t.amount)
    ensures Summary(txs + [t]).main == Summary(txs).main - Abs(t.amount)
    ensures Summary(txs + [t]).deposit == Summary(txs).deposit
    ensures Summary(txs + [t]).borrowed == Summary(txs).borrowed
  {
    TotalSnoc(txs, t, MainWallet);
    TotalSnoc(txs, t, DepositWallet);
    TotalSnoc(txs, t, BorrowedWallet);
    TotalSnoc(txs, t, LentWallet);
  }

  /** Any other record, whatever its wallet tag, changes only main, by its
      signed amount. */
  lemma {:induction false} DirectRecord(txs: seq<Tx>, t: Tx)
    requires !IsTransfer(t.wallet)
    ensures Summary(txs + [t]).main == Summary(txs).main + t.amount
    ensures Summary(txs + [t]).deposit == Summary(txs).deposit
    ensures Summary(txs + [t]).borrowed == Summary(txs).borrowed
    ensures Summary(txs + [t]).lent == Summary(txs).lent
  {
    TotalSnoc(txs, t, MainWallet);
    TotalSnoc(txs, t, DepositWallet);
    TotalSnoc(txs, t, BorrowedWallet);
    TotalSnoc(txs, t, LentWallet);
  }

  /** Whatever its wallet, a negative record adds |amount| to its category
      (starting from 0 when the category is new); any other record leaves
      the category map alone. */
  lemma {:induction false} CategoryRecord(txs: seq<Tx>, t: Tx)
    ensures Summary(txs + [t]).categories
         == if t.amount < 0
            then Summary(txs).categories[t.category := Lookup(Summary(txs).categories, t.category) + Abs(t.amount)]
            else Summary(txs).categories
  {
    var before, after := CategoryTotals(txs), CategoryTotals(txs + [t]);
    var expected := if t.amount < 0
                    then before[t.category := Lookup(before, t.category) + Abs(t.amount)]
                    else before;
    assert forall u :: u in txs + [t] <==> u in txs || u == t;
    assert after.Keys == expected.Keys;
    forall c | c in after
      ensures after[c] == expected[c]
    {
      TotalSnoc(txs, t, Outflow(c));
      OutflowPositive(txs, c);
      if c !in before {
        assert Total(txs, Outflow(c)) == 0;
      }
    }
  }

  // ---------------------------------------------------------------------
  // Order independence
  // ---------------------------------------------------------------------

  /** Taking one record out of the middle of a sequence takes away its
      contribution. */
  lemma {:induction false} TotalRemove(b: seq<Tx>, j: nat, col: Column)
    requires j < |b|
    ensures Total(b, col) == Term(b[j], col) + Total(b[..j] + b[j + 1..], col)
  {
    assert b == b[..j] + ([b[j]] + b[j + 1..]);
    TotalAppend(b[..j], [b[j]] + b[j + 1..], col);
    assert ([b[j]] + b[j + 1..])[1..] == b[j + 1..];
    TotalAppend(b[..j], b[j + 1..], col);
  }

  /** A column sum depends only on the multiset of records. */
  lemma {:induction false} TotalPermutation(a: seq<Tx>, b: seq<Tx>, col: Column)
    requires multiset(a) == multiset(b)
    ensures Total(a, col) == Total(b, col)
    decreases |a|
  {
    if a == [] {
      assert |b| == |multiset(b)| == 0;
    } else {
      var x := a[0];
      assert x in multiset(b) by {
        assert a == [x] + a[1..];
      }
      var j :| 0 <= j < |b| && b[j] == x;
      var rest := b[..j] + b[j + 1..];
      RestMultiset(a, b, j);
      TotalPermutation(a[1..], rest, col);
      TotalRemove(b, j, col);
    }
  }

  /** Removing equal elements from sequences with equal multisets leaves
      equal multisets. */
  lemma RestMultiset(a: seq<Tx>, b: seq<Tx>, j: nat)
    requires multiset(a) == multiset(b) && a != [] && j < |b| && b[j] == a[0]
    ensures multiset(a[1..]) == multiset(b[..j] + b[j + 1..])
  {
    var x, rest := a[0], b[..j] + b[j + 1..];
    assert a == [x] + a[1..];
    assert b == b[..j] + [x] + b[j + 1..];
    calc {
      multiset(a[1..]);
      multiset(a) - multiset{x};
      multiset(b) - multiset{x};
      (multiset(b[..j]) + multiset{x} + multiset(b[j + 1..])) - multiset{x};
      multiset(b[..j]) + multiset(b[j + 1..]);
      multiset(rest);
    }
  }

  /** The four balances and the category map do not depend on the order of
      the records; only the history does. */
  lemma {:induction false} OrderIndependent(a: seq<Tx>, b: seq<Tx>)
    requires multiset(a) == multiset(b)
    ensures Summary(a).main == Summary(b).main
    ensures Summary(a).deposit == Summary(b).deposit
    ensures Summary(a).borrowed == Summary(b).borrowed
    ensures Summary(a).lent == Summary(b).lent
    ensures Summary(a).categories == Summary(b).categories
  {
    TotalPermutation(a, b, MainWallet);
    TotalPermutation(a, b, DepositWallet);
    TotalPermutation(a, b, BorrowedWallet);
    TotalPermutation(a, b, LentWallet);
    assert forall t :: t in a <==> t in multiset(a);
    assert forall t :: t in b <==> t in multiset(b);
    assert SpentCategories(a) == SpentCategories(b);
    forall c | c in SpentCategories(a)
      ensures Total(a, Outflow(c)) == Total(b, Outflow(c))
    {
      TotalPermutation(a, b, Outflow(c));
    }
  }

  // ---------------------------------------------------------------------
  // The fold
  // ---------------------------------------------------------------------

  /** The stats endpoint's fold: starts from zero balances, an empty category
      map and an empty history, and applies the records in the order given. */
  method Aggregate(txs: seq<Tx>) returns (s: Stats)
    ensures s == Summary(txs)
    ensures txs == [] ==> s == Empty
    ensures s.main == Total(txs, Direct) - Total(txs, DepositWallet)
                    + Total(txs, BorrowedWallet) - Total(txs, LentWallet)
    ensures s.deposit >= 0 && s.borrowed >= 0 && s.lent >= 0
    ensures forall c :: c in s.categories <==> exists t :: t in txs && t.amount < 0 && t.category == c
    ensures forall c :: c in s.categories ==> s.categories[c] == Total(txs, Outflow(c)) > 0
    ensures s.history == txs
  {
    var main, deposit, borrowed, lent := 0, 0, 0, 0;
    var categories: map<string, int> := map[];
    var history: seq<Tx> := [];
    for i := 0 to |txs|
      invariant Stats(main, deposit, borrowed, lent, categories, history) == Summary(txs[..i])
    {
      var t := txs[i];
      var v := t.amount;
      assert txs[..i + 1] == txs[..i] + [t];
      if t.wallet == "deposit" {
        DepositRecord(txs[..i], t);
        deposit := deposit + Abs(v);
        main := main - Abs(v);
      } else if t.wallet == "borrowed" {
        BorrowedRecord(txs[..i], t);
        borrowed := borrowed + Abs(v);
        main := main + Abs(v);
      } else if t.wallet == "lent" {
        LentRecord(txs[..i], t);
        lent := lent + Abs(v);
        main := main - Abs(v);
      } else {
        DirectRecord(txs[..i], t);
        main := main + v;
      }
      CategoryRecord(txs[..i], t);
      if v < 0 {
        categories := categories[t.category := Lookup(categories, t.category) + Abs(v)];
      }
      history := history + [t];
    }
    assert txs[..|txs|] == txs;
    s := Stats(main, deposit, borrowed, lent, categories, history);
    BalanceIdentity(txs);
    CategoryTotalsMeaning(txs);
  }

  /** The worked example of the design documentation, as the code computes
      it: the "deposit" record also takes 1000 out of main (so main is
      -500 - 1000 + 2000 = 500), and being negative it is outflow too, so its
      category appears in the map beside "Food". */
  lemma WorkedExample()
    ensures var txs := [Tx(-500, "Food", "main"), Tx(-1000, "Deposit", "deposit"), Tx(2000, "Took debt", "borrowed")];
            Summary(txs) == Stats(500, 1000, 2000, 0, map["Food" := 500, "Deposit" := 1000], txs)
  {
    var txs := [Tx(-500, "Food", "main"), Tx(-1000, "Deposit", "deposit"), Tx(2000, "Took debt", "borrowed")];
    forall col
      ensures Total(txs, col) == Term(txs[0], col) + Term(txs[1], col) + Term(txs[2], col)
    {
      var s1 := txs[1..];
      var s2 := s1[1..];
      assert s2[1..] == [];
      assert Total(s2, col) == Term(s2[0], col) + Total(s2[1..], col);
      assert Total(s1, col) == Term(s1[0], col) + Total(s2, col);
    }
    assert SpentCategories(txs) == {"Food", "Deposit"} by {
      assert forall t :: t in txs <==> t == txs[0] || t == txs[1] || t == txs[2];
    }
    var m := map["Food" := 500, "Deposit" := 1000];
    assert Total(txs, Outflow("Food")) == 500;
    assert Total(txs, Outflow("Deposit")) == 1000;
    assert CategoryTotals(txs).Keys == m.Keys;
    assert CategoryTotals(txs) == m;
  }
}
