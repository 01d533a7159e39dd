/**
 * The wallet entity and its ledger arithmetic.
 *
 * A loaded wallet is a value: `Debit` and `Credit` give the wallet with its
 * reassigned balance, which the caller saves back to the store.
 */
module WalletEntity {
  import opened Base

  datatype Wallet = Wallet(
    id: Option<int>,
    userId: int,
    isActive: bool,
    currency: string,
    balance: Money)

  /** A wallet as `new Wallet()` leaves it before any setter runs: no id, currency "USD", balance zero. */
  function NewWallet(userId: int, isActive: bool): (w: Wallet)
    ensures w.id.None? && w.currency == "USD" && w.balance == 0.0
    ensures w.userId == userId && w.isActive == isActive
  {
    Wallet(None, userId, isActive, "USD", 0.0)
  }

  /** `hasSufficientBalance`: the balance covers `amount`. */
  predicate HasSufficientBalance(w: Wallet, amount: Money)
    ensures HasSufficientBalance(w, amount) <==> w.balance - amount >= 0.0
    ensures amount <= 0.0 && w.balance >= 0.0 ==> HasSufficientBalance(w, amount)
  {
    w.balance >= amount
  }

  /**
   * `debit`: subtract `amount`, or throw IllegalArgumentException when the
   * balance does not cover it (the wallet is then left as it was).
   */
  function Debit(w: Wallet, amount: Money): (r: Result<Wallet>)
    ensures r.Ok? <==> HasSufficientBalance(w, amount)
    ensures r.Ok? ==> r.value.balance == w.balance - amount && r.value.balance >= 0.0
    ensures r.Ok? ==> r.value == w.(balance := r.value.balance)
    ensures r.Err? ==> r.error == IllegalArgument("Insufficient balance in wallet")
  {
    if !HasSufficientBalance(w, amount) then Err(IllegalArgument("Insufficient balance in wallet"))
    else Ok(w.(balance := w.balance - amount))
  }

  /** `credit`: add `amount`, with no check of any kind. */
  function Credit(w: Wallet, amount: Money): (r: Wallet)
    ensures r.balance - w.balance == amount
    ensures r == w.(balance := r.balance)
  {
    w.(balance := w.balance + amount)
  }

  /** `equals`: the same object, or both carry the same non-null id. */
  predicate Equals(a: Wallet, b: Wallet, sameObject: bool)
    ensures sameObject ==> Equals(a, b, sameObject)
    ensures a.id.Some? && a.id == b.id ==> Equals(a, b, sameObject)
    ensures !sameObject && a.id.None? ==> !Equals(a, b, sameObject)
    ensures !sameObject && a.id != b.id ==> !Equals(a, b, sameObject)
  {
    sameObject || (a.id.Some? && a.id == b.id)
  }

  /** Two distinct wallet objects are equal iff they have equal non-null ids. */
  lemma EqualsById(a: Wallet, b: Wallet)
    ensures Equals(a, b, false) <==> a.id.Some? && b.id.Some? && a.id.value == b.id.value
  {
  }

  /** Equality of distinct objects is symmetric (unsaved wallets equal nothing but themselves). */
  lemma EqualsSymmetric(a: Wallet, b: Wallet)
    ensures Equals(a, b, false) == Equals(b, a, false)
    ensures a.id.None? ==> !Equals(a, a, false)
  {
  }

  /**
   * credit(a) followed by debit(a) gives back the original wallet; the debit
   * succeeds exactly when the original balance was not negative.
   */
  lemma CreditThenDebitRestores(w: Wallet, amount: Money)
    ensures Debit(Credit(w, amount), amount).Ok? <==> w.balance >= 0.0
    ensures w.balance >= 0.0 ==> Debit(Credit(w, amount), amount) == Ok(w)
  {
    var c := Credit(w, amount);
    assert c.balance - amount == w.balance;
    assert c.(balance := c.balance - amount) == w;
  }

  /** A successful debit(a) followed by credit(a) gives back the original wallet. */
  lemma DebitThenCreditRestores(w: Wallet, amount: Money)
    requires HasSufficientBalance(w, amount)
    ensures Credit(Debit(w, amount).value, amount) == w
  {
  }

  /** Debiting one wallet and crediting another by the same amount conserves the sum of the two balances. */
  lemma DebitCreditConservesSum(src: Wallet, dst: Wallet, amount: Money)
    requires HasSufficientBalance(src, amount)
    ensures Debit(src, amount).value.balance + Credit(dst, amount).balance == src.balance + dst.balance
  {
  }
}
