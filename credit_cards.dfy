/**
 * Collection of the credit-card payment amounts still set aside in the
 * budget: `get_cc_payment_amounts` (monitor.py:199-244), over the
 * already-fetched accounts and category groups and the filter setting.
 */
module CreditCards {
  import opened Wrappers
  import opened Dicts

  /** An account record; `kind` is the service's `type` field. */
  datatype Account = Account(id: string, name: string, kind: string, deleted: bool, closed: bool)

  /** A budget category; `balance` is its available amount in milliunits. */
  datatype Category = Category(id: string, name: string, deleted: bool, hidden: bool, balance: int)

  datatype CategoryGroup = CategoryGroup(name: string, categories: seq<Category>)

  /** A card's outstanding payment: the category name and the amount in milliunits. */
  datatype Pending = Pending(name: string, amount: int)

  const PaymentsGroup: string := "Credit Card Payments"

  // ---------------------------------------------------------------------
  // Card accounts by name (monitor.py:207-210)
  // ---------------------------------------------------------------------

  predicate IsOpenCard(a: Account)
  {
    a.kind == "creditCard" && !a.deleted && !a.closed
  }

  /** `cc_accounts`: each open card account's id under its name. */
  function CardAccounts(accounts: seq<Account>): (cards: Dict<string, string>)
    ensures UniqueKeys(cards)
  {
    if accounts == [] then []
    else
      var n := |accounts| - 1;
      var a := accounts[n];
      if IsOpenCard(a) then Put(CardAccounts(accounts[..n]), a.name, a.id)
      else CardAccounts(accounts[..n])
  }

  /** `accounts[i]` is the last open card account named `name`. */
  predicate LastOpenCardNamed(accounts: seq<Account>, i: int, name: string)
  {
    0 <= i < |accounts| && IsOpenCard(accounts[i]) && accounts[i].name == name
    && forall j :: i < j < |accounts| ==> !(IsOpenCard(accounts[j]) && accounts[j].name == name)
  }

  /** A name that maps to an id got it from the last open card account with that name. */
  lemma {:induction false} CardAccountsSource(accounts: seq<Account>, name: string) returns (i: int)
    requires Get(CardAccounts(accounts), name).Some?
    ensures LastOpenCardNamed(accounts, i, name)
    ensures Get(CardAccounts(accounts), name) == Some(accounts[i].id)
  {
    var n := |accounts| - 1;
    var init := accounts[..n];
    var a := accounts[n];
    if IsOpenCard(a) && a.name == name {
      i := n;
    } else {
      assert Get(CardAccounts(accounts), name) == Get(CardAccounts(init), name);
      i := CardAccountsSource(init, name);
      assert accounts[i] == init[i];
      forall j | i < j < |accounts|
        ensures !(IsOpenCard(accounts[j]) && accounts[j].name == name)
      {
        if j < n { assert accounts[j] == init[j]; }
      }
    }
  }

  /** The last open card account with a name supplies that name's id. */
  lemma {:induction false} CardAccountsLastWins(accounts: seq<Account>, i: int, name: string)
    requires LastOpenCardNamed(accounts, i, name)
    ensures Get(CardAccounts(accounts), name) == Some(accounts[i].id)
  {
    var n := |accounts| - 1;
    var init := accounts[..n];
    if i < n {
      assert !(IsOpenCard(accounts[n]) && accounts[n].name == name);
      assert Get(CardAccounts(accounts), name) == Get(CardAccounts(init), name);
      assert init[i] == accounts[i];
      forall j | i < j < |init|
        ensures !(IsOpenCard(init[j]) && init[j].name == name)
      {
        assert init[j] == accounts[j];
      }
      CardAccountsLastWins(init, i, name);
    }
  }

  // ---------------------------------------------------------------------
  // The category filter (monitor.py:216-218)
  // ---------------------------------------------------------------------

  /** `s.split(sep)`: the pieces between separators, empty ones included. */
  function Split(s: string, sep: char): (parts: seq<string>)
    ensures |parts| >= 1
    ensures forall p :: p in parts ==> sep !in p
  {
    if s == [] then [""]
    else
      var n := |s| - 1;
      var parts := Split(s[..n], sep);
      if s[n] == sep then parts + [""]
      else parts[..|parts| - 1] + [parts[|parts| - 1] + [s[n]]]
  }

  /** `sep.join(parts)`. */
  function Join(parts: seq<string>, sep: char): string
    requires |parts| >= 1
  {
    if |parts| == 1 then parts[0]
    else Join(parts[..|parts| - 1], sep) + [sep] + parts[|parts| - 1]
  }

  /** Splitting loses nothing: joining the pieces back gives the text. */
  lemma {:induction false} SplitJoin(s: string, sep: char)
    ensures Join(Split(s, sep), sep) == s
  {
    if s != [] {
      var n := |s| - 1;
      SplitJoin(s[..n], sep);
      var parts := Split(s[..n], sep);
      var k := |parts| - 1;
      if s[n] == sep {
        assert (parts + [""])[..k + 1] == parts;
      } else {
        var r := parts[..k] + [parts[k] + [s[n]]];
        assert r[..k] == parts[..k];
        if k > 0 {
          assert Join(parts, sep) == Join(parts[..k], sep) + [sep] + parts[k];
        }
      }
      assert s == s[..n] + [s[n]];
    }
  }

  /** The characters `str.isspace()` accepts. */
  predicate IsSpace(c: char)
  {
    var n := c as int;
    (9 <= n <= 13) || (28 <= n <= 32) || n == 0x85 || n == 0xA0 || n == 0x1680
    || (0x2000 <= n <= 0x200A) || n == 0x2028 || n == 0x2029 || n == 0x202F
    || n == 0x205F || n == 0x3000
  }

  /** The text after its leading whitespace. */
  function StripLeading(s: string): (r: string)
    ensures |r| <= |s| && r == s[|s| - |r|..]
    ensures forall k :: 0 <= k < |s| - |r| ==> IsSpace(s[k])
    ensures r == [] || !IsSpace(r[0])
  {
    if s != [] && IsSpace(s[0]) then StripLeading(s[1..]) else s
  }

  /** The text before its trailing whitespace. */
  function StripTrailing(s: string): (r: string)
    ensures |r| <= |s| && r == s[..|r|]
    ensures forall k :: |r| <= k < |s| ==> IsSpace(s[k])
    ensures r == [] || !IsSpace(r[|r| - 1])
  {
    if s != [] && IsSpace(s[|s| - 1]) then StripTrailing(s[..|s| - 1]) else s
  }

  /** `s.strip()`. */
  function Strip(s: string): (r: string)
    ensures |r| <= |s|
    ensures r == [] || !IsSpace(r[|r| - 1])
    ensures forall k :: 0 <= k < |s| ==> !IsSpace(s[k]) ==> r != []
  {
    StripTrailing(StripLeading(s))
  }

  /** `strip` keeps a slice of the text and drops only whitespace around it. */
  lemma StripSlice(s: string)
    ensures exists i, j :: (0 <= i <= j <= |s| && Strip(s) == s[i..j]
      && (forall k :: 0 <= k < i ==> IsSpace(s[k]))
      && (forall k :: j <= k < |s| ==> IsSpace(s[k])))
  {
    var i, j := StripBounds(s);
  }

  /** Where the slice kept by `strip` starts and ends. */
  lemma StripBounds(s: string) returns (i: int, j: int)
    ensures 0 <= i <= j <= |s| && Strip(s) == s[i..j]
    ensures forall k :: 0 <= k < i ==> IsSpace(s[k])
    ensures forall k :: j <= k < |s| ==> IsSpace(s[k])
  {
    var l := StripLeading(s);
    i := |s| - |l|;
    var r := StripTrailing(l);
    j := i + |r|;
    TrailingOfSuffix(s, l, r, i);
  }

  /** Stripping the end of the suffix `s[i..]` keeps `s[i..j]` and drops only whitespace after it. */
  lemma TrailingOfSuffix(s: string, l: string, r: string, i: int)
    requires 0 <= i <= |s| && l == s[i..]
    requires |r| <= |l| && r == l[..|r|]
    requires forall k :: |r| <= k < |l| ==> IsSpace(l[k])
    ensures r == s[i..i + |r|]
    ensures forall k :: i + |r| <= k < |s| ==> IsSpace(s[k])
  {
    forall k | i + |r| <= k < |s|
      ensures IsSpace(s[k])
    {
      assert s[k] == l[k - i];
    }
  }

  /** `strip` leaves no whitespace at either end, so stripping twice changes nothing. */
  lemma StripEnds(s: string)
    ensures Strip(s) == [] || (!IsSpace(Strip(s)[0]) && !IsSpace(Strip(s)[|Strip(s)| - 1]))
    ensures Strip(Strip(s)) == Strip(s)
  {
    var l := StripLeading(s);
    var r := StripTrailing(l);
    if r != [] {
      assert r[0] == l[0];
      assert StripLeading(r) == r;
    }
  }

  /** `cc_filter`: empty when the setting is empty, else its stripped comma-separated pieces. */
  function CcFilter(config: string): (filter: set<string>)
    ensures config == "" <==> filter == {}
  {
    if config == "" then {}
    else
      var parts := Split(config, ',');
      var filter := set p | p in parts :: Strip(p);
      assert parts[0] in parts;
      assert Strip(parts[0]) in filter;
      filter
  }

  // ---------------------------------------------------------------------
  // Payments by card account (monitor.py:220-238)
  // ---------------------------------------------------------------------

  /** The categories of every group named exactly "Credit Card Payments", in order. */
  function PaymentCategories(groups: seq<CategoryGroup>): seq<Category>
  {
    if groups == [] then []
    else
      var n := |groups| - 1;
      PaymentCategories(groups[..n]) + (if groups[n].name == PaymentsGroup then groups[n].categories else [])
  }

  /** A non-empty filter admits a category by its id or by its name. */
  predicate Admitted(c: Category, filter: set<string>)
  {
    filter == {} || c.id in filter || c.name in filter
  }

  /**
   * `c` yields a payment for account `accountId`: it is live and visible,
   * admitted, named like an open card whose id is `accountId` (non-empty),
   * and has money available.
   */
  predicate Eligible(c: Category, cards: Dict<string, string>, filter: set<string>, accountId: string)
  {
    !c.deleted && !c.hidden && Admitted(c, filter)
    && Get(cards, c.name) == Some(accountId) && accountId != "" && c.balance > 0
  }

  /** The loop body for one category. */
  function RecordPayment(payments: Dict<string, Pending>, c: Category,
                         cards: Dict<string, string>, filter: set<string>): (r: Dict<string, Pending>)
    ensures c.deleted || c.hidden || c.balance <= 0 ==> r == payments
    ensures r == payments
      || (Get(cards, c.name).Some? && Get(cards, c.name).value != ""
          && r == Put(payments, Get(cards, c.name).value, Pending(c.name, c.balance)))
  {
    if c.deleted || c.hidden then payments
    else if filter != {} && c.id !in filter && c.name !in filter then payments
    else
      match Get(cards, c.name)
      case Some(accountId) =>
        if accountId != "" && c.balance > 0 then Put(payments, accountId, Pending(c.name, c.balance))
        else payments
      case None => payments
  }

  /** `cc_payments` after the given categories. */
  function Payments(cats: seq<Category>, cards: Dict<string, string>, filter: set<string>)
    : (payments: Dict<string, Pending>)
    ensures UniqueKeys(payments)
    ensures forall k :: k in Keys(payments) ==> Get(payments, k).value.amount > 0
  {
    if cats == [] then []
    else
      var n := |cats| - 1;
      RecordPayment(Payments(cats[..n], cards, filter), cats[n], cards, filter)
  }

  /** `cats[i]` is the last category eligible for `accountId`. */
  predicate LastEligible(cats: seq<Category>, i: int, cards: Dict<string, string>,
                         filter: set<string>, accountId: string)
  {
    0 <= i < |cats| && Eligible(cats[i], cards, filter, accountId)
    && forall j :: i < j < |cats| ==> !Eligible(cats[j], cards, filter, accountId)
  }

  lemma PaymentsAppend(cats: seq<Category>, c: Category, cards: Dict<string, string>, filter: set<string>)
    ensures Payments(cats + [c], cards, filter) == RecordPayment(Payments(cats, cards, filter), c, cards, filter)
  {
    assert (cats + [c])[..|cats|] == cats;
  }

  /** One category changes at most the entry of the account it is eligible for. */
  lemma RecordPaymentEffect(payments: Dict<string, Pending>, c: Category, cards: Dict<string, string>,
                            filter: set<string>, accountId: string)
    ensures Eligible(c, cards, filter, accountId) ==>
      Get(RecordPayment(payments, c, cards, filter), accountId) == Some(Pending(c.name, c.balance))
    ensures !Eligible(c, cards, filter, accountId) ==>
      Get(RecordPayment(payments, c, cards, filter), accountId) == Get(payments, accountId)
  {
  }

  /** An account with an entry got it from the last category eligible for it. */
  lemma {:induction false} PaymentsSource(cats: seq<Category>, cards: Dict<string, string>,
                                          filter: set<string>, accountId: string) returns (i: int)
    requires Get(Payments(cats, cards, filter), accountId).Some?
    ensures LastEligible(cats, i, cards, filter, accountId)
    ensures Get(Payments(cats, cards, filter), accountId) == Some(Pending(cats[i].name, cats[i].balance))
  {
    var n := |cats| - 1;
    var init := cats[..n];
    RecordPaymentEffect(Payments(init, cards, filter), cats[n], cards, filter, accountId);
    if Eligible(cats[n], cards, filter, accountId) {
      i := n;
    } else {
      i := PaymentsSource(init, cards, filter, accountId);
      assert cats[i] == init[i];
      forall j | i < j < |cats|
        ensures !Eligible(cats[j], cards, filter, accountId)
      {
        if j < n { assert cats[j] == init[j]; }
      }
    }
  }

  /** The last category eligible for an account supplies that account's entry. */
  lemma {:induction false} PaymentsLastWins(cats: seq<Category>, i: int, cards: Dict<string, string>,
                                            filter: set<string>, accountId: string)
    requires LastEligible(cats, i, cards, filter, accountId)
    ensures Get(Payments(cats, cards, filter), accountId) == Some(Pending(cats[i].name, cats[i].balance))
  {
    var n := |cats| - 1;
    var init := cats[..n];
    RecordPaymentEffect(Payments(init, cards, filter), cats[n], cards, filter, accountId);
    if i < n {
      assert !Eligible(cats[n], cards, filter, accountId);
      assert init[i] == cats[i];
      forall j | i < j < |init|
        ensures !Eligible(init[j], cards, filter, accountId)
      {
        assert init[j] == cats[j];
      }
      PaymentsLastWins(init, i, cards, filter, accountId);
    }
  }

  /** A category counts only when it sits in a group named exactly "Credit Card Payments". */
  lemma {:induction false} PaymentCategoriesMembers(groups: seq<CategoryGroup>, c: Category)
    ensures c in PaymentCategories(groups) <==>
      exists g :: g in groups && g.name == PaymentsGroup && c in g.categories
  {
    if groups != [] {
      var n := |groups| - 1;
      PaymentCategoriesMembers(groups[..n], c);
      assert groups == groups[..n] + [groups[n]];
    }
  }

  lemma PaymentCategoriesAppend(groups: seq<CategoryGroup>, g: CategoryGroup)
    ensures PaymentCategories(groups + [g])
      == PaymentCategories(groups) + (if g.name == PaymentsGroup then g.categories else [])
  {
    assert (groups + [g])[..|groups|] == groups;
  }

  /** `cc_payments` for the fetched accounts, groups and filter setting. */
  function CcPayments(accounts: seq<Account>, groups: seq<CategoryGroup>, config: string)
    : Dict<string, Pending>
  {
    Payments(PaymentCategories(groups), CardAccounts(accounts), CcFilter(config))
  }

  /**
   * Every entry of `cc_payments` comes from a live, visible, admitted
   * category with money available, in a group named exactly "Credit Card
   * Payments", whose name is that of an open card account with the entry's
   * (non-empty) id.
   */
  lemma CcPaymentsEntry(accounts: seq<Account>, groups: seq<CategoryGroup>, config: string, accountId: string)
    requires Get(CcPayments(accounts, groups, config), accountId).Some?
    ensures exists g, c, a :: (g in groups && g.name == PaymentsGroup && c in g.categories
      && !c.deleted && !c.hidden && Admitted(c, CcFilter(config)) && c.balance > 0
      && a in accounts && IsOpenCard(a) && a.name == c.name && a.id == accountId && accountId != ""
      && Get(CcPayments(accounts, groups, config), accountId) == Some(Pending(c.name, c.balance)))
  {
    var cats := PaymentCategories(groups);
    var cards := CardAccounts(accounts);
    var i := PaymentsSource(cats, cards, CcFilter(config), accountId);
    var c := cats[i];
    PaymentCategoriesMembers(groups, c);
    var g :| g in groups && g.name == PaymentsGroup && c in g.categories;
    var k := CardAccountsSource(accounts, c.name);
    var a := accounts[k];
    assert a in accounts;
  }

  // ---------------------------------------------------------------------
  // The total (monitor.py:240)
  // ---------------------------------------------------------------------

  /** The sum of the amounts, in insertion order. */
  function Total(payments: Dict<string, Pending>): (t: int)
    ensures (forall i :: 0 <= i < |payments| ==> payments[i].1.amount >= 0) ==> t >= 0
    ensures payments == [] ==> t == 0
  {
    if payments == [] then 0 else payments[0].1.amount + Total(payments[1..])
  }

  /** With positive amounts the total is never negative, and zero only for no entries. */
  lemma {:induction false} TotalPositive(payments: Dict<string, Pending>)
    requires UniqueKeys(payments)
    requires forall k :: k in Keys(payments) ==> Get(payments, k).value.amount > 0
    ensures Total(payments) >= 0
    ensures Total(payments) == 0 <==> payments == []
  {
    if payments != [] {
      var k := payments[0].0;
      assert k in Keys(payments) && Get(payments, k) == Some(payments[0].1);
      forall k' | k' in Keys(payments[1..])
        ensures Get(payments[1..], k').value.amount > 0
      {
        assert k' != k;
        assert Get(payments, k') == Get(payments[1..], k');
      }
      TotalPositive(payments[1..]);
    }
  }

  // ---------------------------------------------------------------------
  // The function itself
  // ---------------------------------------------------------------------

  /**
   * `get_cc_payment_amounts()` over the fetched records and the filter
   * setting: the payments by card account id and their total.
   */
  method GetCcPaymentAmounts(accounts: seq<Account>, groups: seq<CategoryGroup>, config: string)
    returns (payments: Dict<string, Pending>, total: int)
    ensures payments == CcPayments(accounts, groups, config)
    ensures total == Total(payments)
  {
    var cards := CollectCardAccounts(accounts);
    var filter := CcFilter(config);
    payments := CollectPayments(groups, cards, filter);
    total := Total(payments);
  }

  /** The account loop (monitor.py:207-210). */
  method CollectCardAccounts(accounts: seq<Account>) returns (cards: Dict<string, string>)
    ensures cards == CardAccounts(accounts)
  {
    cards := [];
    for i := 0 to |accounts|
      invariant cards == CardAccounts(accounts[..i])
    {
      var acct := accounts[i];
      assert accounts[..i + 1][..i] == accounts[..i];
      if acct.kind == "creditCard" && !acct.deleted && !acct.closed {
        cards := Put(cards, acct.name, acct.id);
      }
    }
    assert accounts[..|accounts|] == accounts;
  }

  /** The loop over category groups (monitor.py:220-238). */
  method CollectPayments(groups: seq<CategoryGroup>, cards: Dict<string, string>, filter: set<string>)
    returns (payments: Dict<string, Pending>)
    ensures payments == Payments(PaymentCategories(groups), cards, filter)
  {
    payments := [];
    for g := 0 to |groups|
      invariant payments == Payments(PaymentCategories(groups[..g]), cards, filter)
    {
      var group := groups[g];
      assert groups[..g + 1] == groups[..g] + [group];
      PaymentCategoriesAppend(groups[..g], group);
      if group.name != PaymentsGroup {
        assert PaymentCategories(groups[..g + 1]) == PaymentCategories(groups[..g]);
        continue;
      }
      payments := CollectGroup(payments, group.categories, PaymentCategories(groups[..g]), cards, filter);
    }
    assert groups[..|groups|] == groups;
  }

  /** The loop over one group's categories (monitor.py:224-238). */
  method CollectGroup(payments0: Dict<string, Pending>, categories: seq<Category>, ghost seen: seq<Category>,
                      cards: Dict<string, string>, filter: set<string>)
    returns (payments: Dict<string, Pending>)
    requires payments0 == Payments(seen, cards, filter)
    ensures payments == Payments(seen + categories, cards, filter)
  {
    payments := payments0;
    assert seen + categories[..0] == seen;
    for c := 0 to |categories|
      invariant PaidThrough(payments, seen + categories[..c], cards, filter)
    {
      assert seen + categories[..c + 1] == (seen + categories[..c]) + [categories[c]];
      payments := CollectCategory(payments, categories[c], seen + categories[..c], cards, filter);
    }
    assert categories[..|categories|] == categories;
  }

  /** `payments` holds the payments recorded from the categories `cats`. */
  predicate PaidThrough(payments: Dict<string, Pending>, cats: seq<Category>,
                        cards: Dict<string, string>, filter: set<string>)
  {
    payments == Payments(cats, cards, filter)
  }

  /** One pass of the category loop (monitor.py:225-238). */
  method CollectCategory(payments0: Dict<string, Pending>, cat: Category, ghost done: seq<Category>,
                         cards: Dict<string, string>, filter: set<string>)
    returns (payments: Dict<string, Pending>)
    requires PaidThrough(payments0, done, cards, filter)
    ensures PaidThrough(payments, done + [cat], cards, filter)
  {
    PaymentsAppend(done, cat, cards, filter);
    payments := payments0;
    if cat.deleted || cat.hidden {
      return;
    }
    if filter != {} && cat.id !in filter && cat.name !in filter {
      return;
    }
    var accountId := Get(cards, cat.name);
    if accountId.Some? && accountId.value != "" && cat.balance > 0 {
      payments := Put(payments, accountId.value, Pending(cat.name, cat.balance));
    }
  }
}
