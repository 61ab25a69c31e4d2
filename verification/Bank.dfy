/**
  * The bank the keeper moves coins in: one ledger per denom, transfers that succeed or report an error.
  * Reserve accounts are derived from a module name, a kind and an auction id; they are distinct from each
  * other and from every account that signs messages.
  */
module Bank {
  import opened Types
  import opened Sums

  datatype ReserveKind = SellingReserve | PayingReserve | VestingReserve

  datatype Account = User(addr: Addr) | CommunityPool | Reserve(kind: ReserveKind, auction: nat)

  type Ledger = map<Account, nat>
  type Bank = map<Denom, Ledger>

  function LedgerOf(b: Bank, d: Denom): Ledger {
    if d in b then b[d] else map[]
  }

  function Bal(b: Bank, x: Account, d: Denom): nat {
    Get(LedgerOf(b, d), x)
  }

  function Put(b: Bank, x: Account, d: Denom, n: nat): Bank {
    b[d := LedgerOf(b, d)[x := n]]
  }

  function Debit(b: Bank, x: Account, d: Denom, n: nat): Result<Bank> {
    if n == 0 then Ok(b)
    else if Bal(b, x, d) < n then Err(InsufficientFunds)
    else Ok(Put(b, x, d, Bal(b, x, d) - n))
  }

  function Credit(b: Bank, x: Account, d: Denom, n: nat): Bank {
    if n == 0 then b else Put(b, x, d, Bal(b, x, d) + n)
  }

  /** `+n` for one account in one denom, nothing for all others. */
  function At(x: Account, d: Denom, y: Account, e: Denom, n: nat): nat {
    if x == y && d == e then n else 0
  }

  /** `SendCoins` with one coin. */
  function Send(b: Bank, src: Account, dst: Account, d: Denom, n: nat): (r: Result<Bank>)
    ensures r.Ok? <==> n <= Bal(b, src, d)
    ensures r.Ok? ==> forall x, e {:trigger Bal(r.value, x, e)} ::
              Bal(r.value, x, e) == Bal(b, x, e) - At(x, e, src, d, n) + At(x, e, dst, d, n)
  {
    var b1 :- Debit(b, src, d, n);
    Ok(Credit(b1, dst, d, n))
  }

  /** `SendCoins` with several coins, all or nothing: the first that is not covered fails the transfer. */
  function SendAll(b: Bank, src: Account, dst: Account, coins: seq<Coin>): Result<Bank> {
    if coins == [] then Ok(b) else
      var b1 :- SendAll(b, src, dst, coins[..|coins| - 1]);
      Send(b1, src, dst, coins[|coins| - 1].denom, coins[|coins| - 1].amount)
  }

  /** What a user is owed under both texts of the address. */
  function OwedTo(amounts: map<Text, nat>, x: Account): nat {
    if x.User? then Get(amounts, Text(x.addr, false)) + Get(amounts, Text(x.addr, true)) else 0
  }

  function Payees(amounts: map<Text, nat>): set<Account> {
    set t | t in amounts && amounts[t] > 0 :: User(t.addr)
  }

  function CreditUsers(l: Ledger, amounts: map<Text, nat>): Ledger {
    map x | x in l.Keys + Payees(amounts) :: Get(l, x) + OwedTo(amounts, x)
  }

  /**
    * `InputOutputCoins` from one account to many users: all inputs are debited before any output is credited,
    * and users who are owed nothing are skipped. The result does not depend on the order of the users.
    */
  ghost function PayOut(b: Bank, src: Account, d: Denom, amounts: map<Text, nat>): (r: Result<Bank>)
    requires !src.User?
    ensures r.Ok? <==> SumMap(amounts) <= Bal(b, src, d)
    ensures r.Ok? ==> forall x, e {:trigger Bal(r.value, x, e)} ::
              Bal(r.value, x, e) == Bal(b, x, e) - At(x, e, src, d, SumMap(amounts))
                                  + (if e == d then OwedTo(amounts, x) else 0)
  {
    if SumMap(amounts) == 0 then
      SumMapZero(amounts);
      Ok(b)
    else if Bal(b, src, d) < SumMap(amounts) then Err(InsufficientFunds)
    else Ok(b[d := CreditUsers(LedgerOf(b, d)[src := Bal(b, src, d) - SumMap(amounts)], amounts)])
  }

  // ----- Conservation

  ghost function Supply(b: Bank, d: Denom): nat {
    SumMap(LedgerOf(b, d))
  }

  ghost predicate Conserves(b: Bank, b': Bank) {
    forall d :: Supply(b', d) == Supply(b, d)
  }

  lemma PutSupply(b: Bank, x: Account, d: Denom, n: nat)
    ensures forall e :: Supply(Put(b, x, d, n), e) == if e == d then Supply(b, d) - Bal(b, x, d) + n else Supply(b, e)
  {
    SumMapUpdate(LedgerOf(b, d), x, n);
  }

  /** A transfer moves coins; it neither makes nor destroys any. */
  lemma SendConserves(b: Bank, src: Account, dst: Account, d: Denom, n: nat)
    requires Send(b, src, dst, d, n).Ok?
    ensures Conserves(b, Send(b, src, dst, d, n).value)
  {
    if n > 0 {
      var b1 := Put(b, src, d, Bal(b, src, d) - n);
      PutSupply(b, src, d, Bal(b, src, d) - n);
      PutSupply(b1, dst, d, Bal(b1, dst, d) + n);
    }
  }

  lemma PayeesWithout(amounts: map<Text, nat>, t: Text)
    requires t in amounts
    ensures Payees(amounts) == Payees(amounts - {t}) + if amounts[t] > 0 then {User(t.addr)} else {}
    ensures forall x :: OwedTo(amounts, x) == OwedTo(amounts - {t}, x) + if x == User(t.addr) then amounts[t] else 0
  {
    var rest := amounts - {t};
    forall x ensures OwedTo(amounts, x) == OwedTo(rest, x) + if x == User(t.addr) then amounts[t] else 0 {
      if x.User? {
        assert Get(rest, Text(x.addr, !t.upper)) == Get(amounts, Text(x.addr, !t.upper));
      }
    }
  }

  /** Only a payee is owed anything. */
  lemma OwedToPayee(amounts: map<Text, nat>, x: Account)
    ensures x in Payees(amounts) <==> OwedTo(amounts, x) > 0
  {
    if x.User? {
      var lower, upper := Text(x.addr, false), Text(x.addr, true);
      assert lower in amounts && amounts[lower] > 0 ==> User(lower.addr) in Payees(amounts);
      assert upper in amounts && amounts[upper] > 0 ==> User(upper.addr) in Payees(amounts);
      if x in Payees(amounts) {
        var t :| t in amounts && amounts[t] > 0 && x == User(t.addr);
        assert t == lower || t == upper;
      }
    }
  }

  lemma CreditGet(l: Ledger, amounts: map<Text, nat>, x: Account)
    ensures Get(CreditUsers(l, amounts), x) == Get(l, x) + OwedTo(amounts, x)
  {
    OwedToPayee(amounts, x);
  }

  /** Paying one text after the others gives the same ledger as paying everyone at once. */
  lemma CreditOneMore(l: Ledger, amounts: map<Text, nat>, t: Text)
    requires t in amounts && amounts[t] > 0
    ensures var before := CreditUsers(l, amounts - {t});
            CreditUsers(l, amounts) == before[User(t.addr) := Get(before, User(t.addr)) + amounts[t]]
  {
    PayeesWithout(amounts, t);
    CreditGet(l, amounts - {t}, User(t.addr));
  }

  lemma CreditNothing(l: Ledger, amounts: map<Text, nat>, t: Text)
    requires t in amounts && amounts[t] == 0
    ensures CreditUsers(l, amounts) == CreditUsers(l, amounts - {t})
  {
    PayeesWithout(amounts, t);
  }

  lemma AddedToOne(before: Ledger, after: Ledger, x: Account, n: nat)
    requires after == before[x := Get(before, x) + n]
    ensures SumMap(after) == SumMap(before) + n
  {
    SumMapUpdate(before, x, Get(before, x) + n);
  }

  lemma CreditStepSum(l: Ledger, amounts: map<Text, nat>, t: Text)
    requires t in amounts
    ensures SumMap(CreditUsers(l, amounts)) == SumMap(CreditUsers(l, amounts - {t})) + amounts[t]
  {
    var before := CreditUsers(l, amounts - {t});
    if amounts[t] > 0 {
      CreditOneMore(l, amounts, t);
      AddedToOne(before, CreditUsers(l, amounts), User(t.addr), amounts[t]);
    } else {
      CreditNothing(l, amounts, t);
    }
  }

  lemma {:induction false} CreditUsersSum(l: Ledger, amounts: map<Text, nat>)
    ensures SumMap(CreditUsers(l, amounts)) == SumMap(l) + SumMap(amounts)
    decreases |amounts|
  {
    if amounts == map[] {
      assert CreditUsers(l, map[]) == l;
    } else {
      var a :| a in amounts;
      SumMapRemove(amounts, a);
      CreditStepSum(l, amounts, a);
      CreditUsersSum(l, amounts - {a});
    }
  }

  lemma PayOutConserves(b: Bank, src: Account, d: Denom, amounts: map<Text, nat>)
    requires !src.User? && PayOut(b, src, d, amounts).Ok?
    ensures Conserves(b, PayOut(b, src, d, amounts).value)
  {
    if SumMap(amounts) > 0 {
      var l := LedgerOf(b, d);
      SumMapUpdate(l, src, Bal(b, src, d) - SumMap(amounts));
      CreditUsersSum(l[src := Bal(b, src, d) - SumMap(amounts)], amounts);
    }
  }

  /** Fees leave every reserve account alone. */
  lemma {:induction false} SendAllEffect(b: Bank, src: Account, dst: Account, coins: seq<Coin>)
    requires !src.Reserve? && !dst.Reserve? && SendAll(b, src, dst, coins).Ok?
    ensures var b' := SendAll(b, src, dst, coins).value;
            && Conserves(b, b')
            && forall x: Account, d {:trigger Bal(b', x, d)} :: x.Reserve? ==> Bal(b', x, d) == Bal(b, x, d)
  {
    if coins != [] {
      var n, c := |coins| - 1, coins[|coins| - 1];
      SendAllEffect(b, src, dst, coins[..n]);
      SendConserves(SendAll(b, src, dst, coins[..n]).value, src, dst, c.denom, c.amount);
    }
  }

  function InDenom(e: Denom): Coin -> nat {
    (c: Coin) => if c.denom == e then c.amount else 0
  }

  /** What a list of coins comes to in one denom. */
  function CoinsIn(coins: seq<Coin>, e: Denom): nat {
    SumBy(coins, InDenom(e))
  }

  ghost predicate AllSent(b: Bank, b': Bank, src: Account, dst: Account, coins: seq<Coin>) {
    forall x: Account, e {:trigger Bal(b', x, e)} ::
      Bal(b', x, e) == Bal(b, x, e) - (if x == src then CoinsIn(coins, e) else 0)
                                    + (if x == dst then CoinsIn(coins, e) else 0)
  }

  ghost predicate HasAll(b: Bank, src: Account, coins: seq<Coin>) {
    forall e :: CoinsIn(coins, e) <= Bal(b, src, e)
  }

  lemma CoinsNext(coins: seq<Coin>, e: Denom)
    requires coins != []
    ensures var n := |coins| - 1;
            CoinsIn(coins, e) == CoinsIn(coins[..n], e) + if coins[n].denom == e then coins[n].amount else 0
  {
  }

  lemma HasOneMore(b: Bank, src: Account, coins: seq<Coin>)
    requires coins != []
    ensures var n := |coins| - 1;
            HasAll(b, src, coins)
            <==> HasAll(b, src, coins[..n]) && CoinsIn(coins, coins[n].denom) <= Bal(b, src, coins[n].denom)
  {
    var n := |coins| - 1;
    forall e ensures CoinsIn(coins, e) == CoinsIn(coins[..n], e) + if coins[n].denom == e then coins[n].amount else 0 {
      CoinsNext(coins, e);
    }
  }

  lemma SentOneMore(b: Bank, b1: Bank, src: Account, dst: Account, coins: seq<Coin>)
    requires src != dst && coins != [] && AllSent(b, b1, src, dst, coins[..|coins| - 1])
    ensures var c := coins[|coins| - 1];
            var r := Send(b1, src, dst, c.denom, c.amount);
            && (r.Ok? <==> CoinsIn(coins, c.denom) <= Bal(b, src, c.denom))
            && (r.Ok? ==> AllSent(b, r.value, src, dst, coins))
  {
    var c := coins[|coins| - 1];
    CoinsNext(coins, c.denom);
    assert Bal(b1, src, c.denom) == Bal(b, src, c.denom) - CoinsIn(coins[..|coins| - 1], c.denom);
    var r := Send(b1, src, dst, c.denom, c.amount);
    if r.Ok? {
      forall x: Account, e
        ensures Bal(r.value, x, e) == Bal(b, x, e) - (if x == src then CoinsIn(coins, e) else 0)
                                                   + (if x == dst then CoinsIn(coins, e) else 0)
      {
        CoinsNext(coins, e);
      }
    }
  }

  /** A transfer of several coins succeeds exactly when the sender has them in every denom; it moves just those. */
  lemma {:induction false} SendAllIff(b: Bank, src: Account, dst: Account, coins: seq<Coin>)
    requires src != dst
    ensures SendAll(b, src, dst, coins).Ok? <==> HasAll(b, src, coins)
    ensures SendAll(b, src, dst, coins).Ok? ==> AllSent(b, SendAll(b, src, dst, coins).value, src, dst, coins)
  {
    if coins != [] {
      var n := |coins| - 1;
      SendAllIff(b, src, dst, coins[..n]);
      HasOneMore(b, src, coins);
      if SendAll(b, src, dst, coins[..n]).Ok? {
        SentOneMore(b, SendAll(b, src, dst, coins[..n]).value, src, dst, coins);
      }
    }
  }
}
