/** What no run of transactions can change: the coins there are, and the order in which tickets are redeemed. */
module Conservation {
  import opened Polling
  import opened Ledgers

  // Sums.

  ghost function Sum<K>(m: map<K, nat>): nat {
    if m == map[] then 0
    else
      var k :| k in m;
      m[k] + Sum(m - {k})
  }

  /** It does not matter which key is counted first. */
  lemma {:induction false} SumSplit<K>(m: map<K, nat>, k: K)
    requires k in m
    ensures Sum(m) == m[k] + Sum(m - {k})
    decreases |m|
  {
    var j :| j in m && Sum(m) == m[j] + Sum(m - {j});
    if j != k {
      SumSplit(m - {j}, k);
      SumSplit(m - {k}, j);
      assert m - {j} - {k} == m - {k} - {j};
    }
  }

  lemma SumWrite<K>(m: map<K, nat>, k: K, v: nat)
    ensures Sum(m[k := v]) == Sum(m) + v - (if k in m then m[k] else 0)
  {
    SumSplit(m[k := v], k);
    if k in m {
      SumSplit(m, k);
      assert m[k := v] - {k} == m - {k};
    } else {
      assert m[k := v] - {k} == m;
    }
  }

  ghost function Stakes(channels: map<ChannelId, Channel>): map<ChannelId, nat> {
    map id | id in channels :: channels[id].balance
  }

  ghost function InChannels(channels: map<ChannelId, Channel>): nat {
    Sum(Stakes(channels))
  }

  lemma ChannelWrite(channels: map<ChannelId, Channel>, id: ChannelId, c: Channel)
    ensures InChannels(channels[id := c]) ==
      InChannels(channels) + c.balance - (if id in channels then channels[id].balance else 0)
  {
    assert Stakes(channels[id := c]) == Stakes(channels)[id := c.balance];
    SumWrite(Stakes(channels), id, c.balance);
  }

  /** All wxHOPR: what addresses hold, and what channels hold. */
  ghost function Tokens(l: Ledger): nat {
    Sum(l.tokens) + InChannels(l.channels)
  }

  /** All xDai: what addresses hold, and what counted transactions were charged. */
  ghost function Coins(l: Ledger): nat {
    Sum(l.natives) + Sum(l.txCounts) * EMULATED_TX_PRICE
  }

  // Conservation.

  lemma PaymentKeepsSum(m: map<Address, nat>, from: Option<Address>, to: Address, amount: nat)
    requires Paid(m, from, to, amount).Some?
    ensures Sum(Paid(m, from, to, amount).value) == Sum(m)
  {
    var debited := m[from.value := m[from.value] - amount];
    SumWrite(m, from.value, m[from.value] - amount);
    SumWrite(debited, to, Balance(debited, to) + amount);
  }

  /** A stake that the sender's safe can afford is more than its allowance covers. */
  ghost predicate Overdrawn(l: Ledger, sender: Address, to: Address, stake: nat) {
    var safe := SafeOf(l.accounts, sender);
    && AccountOf(l.accounts, to).Some? && safe.Some?
    && Balance(l.allowances, safe.value) < stake <= Balance(l.tokens, safe.value)
  }

  /**
   * The wxHOPR a transaction destroys: the value of a redeemed ticket that neither a channel back nor a funded safe
   * receives, and a stake that was taken from the safe before its allowance turned out too low.
   */
  ghost function Destroyed(l: Ledger, tx: Tx): nat {
    match tx.action
    case RedeemTicket(id, index, amount) =>
      if Redeemable(l, id, index, amount) && PayeeOf(l.(channels := Drawn(l.channels, id, index, amount)), id).Nobody?
      then amount else 0
    case FundChannel(to, stake) =>
      if Overdrawn(l, tx.sender, to, stake) then stake else 0
    case _ => 0
  }

  lemma StakingKeepsTokens(l: Ledger, sender: Address, to: Address, stake: nat)
    requires WellFormed(l)
    ensures Tokens(Funded(l, sender, to, stake).ledger) + Destroyed(l, Tx(sender, FundChannel(to, stake))) == Tokens(l)
  {
    var safe := SafeOf(l.accounts, sender);
    if safe.Some? && AccountOf(l.accounts, to).Some? && 0 < stake <= Balance(l.tokens, safe.value) {
      SumWrite(l.tokens, safe.value, Balance(l.tokens, safe.value) - stake);
      if stake <= Balance(l.allowances, safe.value) {
        OpensOnlyNew(l, sender, to);
        var id := ChannelId(sender, to);
        ChannelWrite(l.channels, id, Funded(l, sender, to, stake).ledger.channels[id]);
      }
    }
  }

  lemma RedeemingKeepsTokens(l: Ledger, sender: Address, id: ChannelId, index: nat, amount: nat)
    ensures
      Tokens(Redeemed(l, id, index, amount).ledger) + Destroyed(l, Tx(sender, RedeemTicket(id, index, amount))) == Tokens(l)
  {
    hide ChannelBetween, Counted, Sum, InChannels;
    if Redeemable(l, id, index, amount) {
      var drawn := l.(channels := Drawn(l.channels, id, index, amount));
      ChannelWrite(l.channels, id, drawn.channels[id]);
      var payee := PayeeOf(drawn, id);
      if payee.Opposite? {
        var c := drawn.channels[payee.id];
        ChannelWrite(drawn.channels, payee.id, c.(balance := c.balance + amount));
      } else if payee.SafeBalance? {
        SumWrite(l.tokens, payee.safe, l.tokens[payee.safe] + amount);
      }
    }
  }

  lemma StatusKeepsTokens(l: Ledger, id: ChannelId, status: Status)
    ensures Tokens(WithStatus(l, id, status).ledger) == Tokens(l)
  {
    if id in l.channels {
      ChannelWrite(l.channels, id, l.channels[id].(status := status));
    }
  }

  lemma ActionKeepsTokens(l: Ledger, tx: Tx)
    requires WellFormed(l)
    ensures Tokens(Acted(l, tx).ledger) + Destroyed(l, tx) == Tokens(l)
  {
    hide Register, Announced, NativeWithdrawn, Approved, Funded, Redeemed, WithStatus;
    hide Tokens, WellFormed, PayeeOf, Redeemable;
    match tx.action
    case FundChannel(to, stake) => StakingKeepsTokens(l, tx.sender, to, stake);
    case RedeemTicket(id, index, amount) => RedeemingKeepsTokens(l, tx.sender, id, index, amount);
    case InitializeChannelClosure(id) => StatusKeepsTokens(l, id, PendingToClose);
    case FinalizeChannelClosure(id) => StatusKeepsTokens(l, id, Closed);
    case IncomingChannelClosure(id) => StatusKeepsTokens(l, id, Closed);
    case WithdrawToken(to, amount, payer) => WithdrawingKeepsTokens(l, tx.sender, to, amount, payer);
    case _ => SameTokens(l, Acted(l, tx).ledger);
  }

  lemma SameTokens(l: Ledger, l': Ledger)
    requires l.tokens == l'.tokens && l.channels == l'.channels
    ensures Tokens(l) == Tokens(l')
  {
  }

  lemma WithdrawingKeepsTokens(l: Ledger, sender: Address, to: Address, amount: nat, payer: Payer)
    ensures Tokens(TokenWithdrawn(l, sender, to, amount, payer).ledger) == Tokens(l)
  {
    hide Paid;
    var from := Source(l.accounts, sender, payer);
    if Paid(l.tokens, from, to, amount).Some? {
      PaymentKeepsSum(l.tokens, from, to, amount);
    }
  }

  /** One transaction, succeed or fail, destroys exactly what `Destroyed` says and creates nothing. */
  lemma TokensKept(l: Ledger, tx: Tx)
    requires WellFormed(l)
    ensures Tokens(Apply(l, tx).ledger) + Destroyed(l, tx) == Tokens(l)
  {
    hide Acted, Destroyed, Tokens, WellFormed;
    ActionKeepsTokens(l, tx);
    SameTokens(Acted(l, tx).ledger, Apply(l, tx).ledger);
  }

  ghost function DestroyedBy(l: Ledger, txs: seq<Tx>): nat {
    if txs == [] then 0
    else DestroyedBy(l, txs[..|txs| - 1]) + Destroyed(After(l, txs[..|txs| - 1]), txs[|txs| - 1])
  }

  lemma {:induction false} TokensConserved(l: Ledger, txs: seq<Tx>)
    requires WellFormed(l)
    ensures Tokens(After(l, txs)) + DestroyedBy(l, txs) == Tokens(l)
  {
    hide Apply, Tokens, Destroyed, WellFormed;
    if txs != [] {
      TokensConserved(l, txs[..|txs| - 1]);
      StaysWellFormed(l, txs[..|txs| - 1]);
      TokensKept(After(l, txs[..|txs| - 1]), txs[|txs| - 1]);
    }
  }

  /** A successful transaction destroys wxHOPR only where a redeemed ticket has no payee. */
  lemma OnlyRedemptionsDestroy(l: Ledger, tx: Tx)
    requires Apply(l, tx).ok && Destroyed(l, tx) > 0
    ensures tx.action.RedeemTicket? && Destroyed(l, tx) == tx.action.amount
    ensures Apply(l, tx).ledger.tokens == l.tokens
    ensures forall c :: c in l.channels && c != tx.action.id ==> Apply(l, tx).ledger.channels[c] == l.channels[c]
  {
    hide PayeeOf;
  }

  /** Nobody can be credited for a ticket of this channel: no channel leads back, and no funded safe belongs to its end. */
  ghost predicate PaysNobody(l: Ledger, id: ChannelId)
    requires id in l.channels
  {
    var c := l.channels[id];
    && (forall i :: i in l.channels ==> !(l.channels[i].source == c.destination && l.channels[i].destination == c.source))
    && (c.destination !in l.accounts || l.accounts[c.destination].safe.None?
        || l.accounts[c.destination].safe.value !in l.tokens)
  }

  /** A ticket drawn from a channel leaves every channel's ends alone, so the search for the channel back finds as much. */
  lemma DrawnKeepsEnds(channels: map<ChannelId, Channel>, id: ChannelId, index: nat, amount: nat, s: KeyId, d: KeyId)
    requires id in channels && amount <= channels[id].balance
    ensures ChannelBetween(Drawn(channels, id, index, amount), s, d).None? <==>
      forall i :: i in channels ==> !(channels[i].source == s && channels[i].destination == d)
  {
    var back := ChannelBetween(Drawn(channels, id, index, amount), s, d);
    if back.Some? {
      assert back.value in channels;
    } else {
      forall i | i in channels ensures !(channels[i].source == s && channels[i].destination == d) {
        assert i in Drawn(channels, id, index, amount);
      }
    }
  }

  lemma NobodyIff(l: Ledger, id: ChannelId, index: nat, amount: nat)
    requires Redeemable(l, id, index, amount)
    ensures PayeeOf(l.(channels := Drawn(l.channels, id, index, amount)), id).Nobody? <==> PaysNobody(l, id)
  {
    hide ChannelBetween;
    DrawnKeepsEnds(l.channels, id, index, amount, l.channels[id].destination, l.channels[id].source);
  }

  /** The only two ways for wxHOPR to disappear, told from the ledger before the transaction. */
  lemma TokensShrinkIff(l: Ledger, tx: Tx)
    requires WellFormed(l)
    ensures Tokens(Apply(l, tx).ledger) <= Tokens(l)
    ensures Tokens(Apply(l, tx).ledger) < Tokens(l) <==>
      match tx.action
      case RedeemTicket(id, index, amount) => Redeemable(l, id, index, amount) && amount > 0 && PaysNobody(l, id)
      case FundChannel(to, stake) => Overdrawn(l, tx.sender, to, stake)
      case _ => false
    ensures Apply(l, tx).ok && Tokens(Apply(l, tx).ledger) < Tokens(l) ==> tx.action.RedeemTicket?
  {
    hide Tokens, PaysNobody, PayeeOf, WellFormed, SafeOf, AccountOf, Staked, Redeemed;
    TokensKept(l, tx);
    match tx.action
    case RedeemTicket(id, index, amount) =>
      if Redeemable(l, id, index, amount) {
        NobodyIff(l, id, index, amount);
      }
    case _ =>
  }

  lemma ActionKeepsCoins(l: Ledger, tx: Tx)
    ensures Coins(Acted(l, tx).ledger) == Coins(l)
  {
    hide Register, Announced, TokenWithdrawn, Approved, Funded, Redeemed, WithStatus, Paid;
    match tx.action
    case WithdrawNative(to, amount, payer) =>
      var from := Source(l.accounts, tx.sender, payer);
      if Paid(l.natives, from, to, amount).Some? {
        PaymentKeepsSum(l.natives, from, to, amount);
      }
    case _ =>
  }

  lemma ChargingKeepsCoins(l: Ledger, sender: Address)
    ensures Coins(Charged(l, sender).ledger) == Coins(l) + if Charged(l, sender).ok then 0 else EMULATED_TX_PRICE
  {
    var o := Charged(l, sender);
    SumWrite(l.txCounts, sender, Balance(l.txCounts, sender) + 1);
    if o.ok {
      SumWrite(l.natives, sender, l.natives[sender] - EMULATED_TX_PRICE);
      assert Sum(o.ledger.natives) == Sum(l.natives) - EMULATED_TX_PRICE;
    }
    assert Sum(o.ledger.txCounts) == Sum(l.txCounts) + 1;
  }

  /** A transaction that acted but whose fee its sender could not pay is counted without being charged. */
  ghost predicate Unpaid(l: Ledger, tx: Tx) {
    Acted(l, tx).ok && Balance(Acted(l, tx).ledger.natives, tx.sender) < EMULATED_TX_PRICE
  }

  lemma CoinsKept(l: Ledger, tx: Tx)
    ensures Coins(Apply(l, tx).ledger) == Coins(l) + if Unpaid(l, tx) then EMULATED_TX_PRICE else 0
  {
    hide Acted, Coins;
    ActionKeepsCoins(l, tx);
    ChargingKeepsCoins(Acted(l, tx).ledger, tx.sender);
  }

  ghost function UnpaidIn(l: Ledger, txs: seq<Tx>): nat {
    if txs == [] then 0
    else UnpaidIn(l, txs[..|txs| - 1]) + if Unpaid(After(l, txs[..|txs| - 1]), txs[|txs| - 1]) then EMULATED_TX_PRICE else 0
  }

  lemma {:induction false} CoinsConserved(l: Ledger, txs: seq<Tx>)
    ensures Coins(After(l, txs)) == Coins(l) + UnpaidIn(l, txs)
  {
    hide Apply, Coins, Unpaid;
    if txs != [] {
      CoinsConserved(l, txs[..|txs| - 1]);
      CoinsKept(After(l, txs[..|txs| - 1]), txs[|txs| - 1]);
    }
  }

  // A ticket destroyed.

  lemma AfterOneMore(l: Ledger, txs: seq<Tx>, tx: Tx)
    ensures After(l, txs + [tx]) == Apply(After(l, txs), tx).ledger
  {
    assert (txs + [tx])[..|txs|] == txs;
  }

  /** A chain on which nothing has happened yet: a safe with five wxHOPR and an allowance, and two keys with some xDai. */
  function Fresh(a: Address, b: Address, safe: Address, contract: Address): Ledger {
    Ledger(contract, map[], map[], map[safe := 5], map[a := 9, b := 9], map[safe := 5], map[], map[], map[])
  }

  lemma EmptyIsWellFormed(a: Address, b: Address, safe: Address, contract: Address)
    ensures WellFormed(Fresh(a, b, safe, contract))
  {
  }

  lemma TwoAnnounce(a: Address, b: Address, safe: Address, contract: Address)
    requires a != b
    ensures var first := Apply(Fresh(a, b, safe, contract), Tx(a, Announce(None, Some(safe))));
      var second := Apply(first.ledger, Tx(b, Announce(None, None)));
      && first.ok && second.ok
      && second.ledger == Fresh(a, b, safe, contract).(
           accounts := map[1 := Account(a, 1, [], Some(safe)), 2 := Account(b, 2, [], None)],
           natives := map[a := 8, b := 8], txCounts := map[a := 1, b := 1])
  {
  }

  lemma Stake(l: Ledger, a: Address, b: Address, safe: Address)
    requires a != b
    requires l.accounts == map[1 := Account(a, 1, [], Some(safe)), 2 := Account(b, 2, [], None)]
    requires l.natives == map[a := 8, b := 8] && l.tokens == map[safe := 5] && l.allowances == map[safe := 5]
    requires l.channels == map[]
    ensures var o := Apply(l, Tx(a, FundChannel(b, 5)));
      && o.ok && Destroyed(l, Tx(a, FundChannel(b, 5))) == 0
      && o.ledger.accounts == l.accounts && o.ledger.natives == map[a := 7, b := 8]
      && o.ledger.channels == map[ChannelId(a, b) := Channel(1, 2, Open, 5, 1, 0)]
  {
    assert 1 in l.accounts && l.accounts[1].chainKey == a;
    assert 2 in l.accounts && l.accounts[2].chainKey == b;
    assert AccountOf(l.accounts, a) == Some(1) && AccountOf(l.accounts, b) == Some(2);
  }

  lemma RedeemWithoutPayee(l: Ledger, a: Address, b: Address, safe: Address)
    requires a != b
    requires l.accounts == map[1 := Account(a, 1, [], Some(safe)), 2 := Account(b, 2, [], None)]
    requires l.natives == map[a := 7, b := 8]
    requires l.channels == map[ChannelId(a, b) := Channel(1, 2, Open, 5, 1, 0)]
    ensures var ticket := Tx(b, RedeemTicket(ChannelId(a, b), 0, 5)); Apply(l, ticket).ok && Destroyed(l, ticket) == 5
  {
    var id := ChannelId(a, b);
    assert Redeemable(l, id, 0, 5);
    NobodyIff(l, id, 0, 5);
    assert PaysNobody(l, id);
  }

  /** From a chain without accounts, four transactions that all succeed destroy the whole stake. */
  lemma ATicketDestroyed(a: Address, b: Address, safe: Address, contract: Address)
    requires a != b
    ensures var l := Fresh(a, b, safe, contract);
      var txs := [Tx(a, Announce(None, Some(safe))), Tx(b, Announce(None, None)), Tx(a, FundChannel(b, 5)),
                  Tx(b, RedeemTicket(ChannelId(a, b), 0, 5))];
      && WellFormed(l) && Tokens(After(l, txs)) + 5 == Tokens(l)
      && (forall i :: 0 <= i < |txs| ==> Apply(After(l, txs[..i]), txs[i]).ok)
  {
    hide Apply, Tokens, WellFormed, AccountOf, PayeeOf, Redeemable;
    var l := Fresh(a, b, safe, contract);
    EmptyIsWellFormed(a, b, safe, contract);
    var t0, t1 := Tx(a, Announce(None, Some(safe))), Tx(b, Announce(None, None));
    assert Destroyed(l, t0) == Destroyed(After(l, [t0]), t1) == 0;
    var t2, t3 := Tx(a, FundChannel(b, 5)), Tx(b, RedeemTicket(ChannelId(a, b), 0, 5));
    var txs := [t0, t1, t2, t3];
    assert txs[..0] == [] && txs[..1] == [] + [t0] && txs[..2] == [t0] + [t1];
    assert txs[..3] == [t0, t1] + [t2] && txs == [t0, t1, t2] + [t3];
    AfterOneMore(l, [], t0);
    AfterOneMore(l, [t0], t1);
    AfterOneMore(l, [t0, t1], t2);
    AfterOneMore(l, [t0, t1, t2], t3);
    TwoAnnounce(a, b, safe, contract);
    Stake(After(l, [t0, t1]), a, b, safe);
    RedeemWithoutPayee(After(l, [t0, t1, t2]), a, b, safe);
    WellFormedKept(l, t0);
    WellFormedKept(After(l, [t0]), t1);
    WellFormedKept(After(l, [t0, t1]), t2);
    TokensKept(l, t0);
    TokensKept(After(l, [t0]), t1);
    TokensKept(After(l, [t0, t1]), t2);
    TokensKept(After(l, [t0, t1, t2]), t3);
  }

  // Whose funds a transaction can touch.

  /** No address but `from` loses by a payment. */
  lemma PaymentTakesFromOne(m: map<Address, nat>, from: Option<Address>, to: Address, amount: nat, a: Address)
    requires from != Some(a) && Paid(m, from, to, amount).Some?
    ensures Balance(m, a) <= Balance(Paid(m, from, to, amount).value, a)
  {
  }

  lemma NativeWithdrawalsTakeFromPayer(l: Ledger, sender: Address, to: Address, amount: nat, payer: Payer, a: Address)
    requires a != sender && SafeOf(l.accounts, sender) != Some(a)
    ensures Balance(l.natives, a) <= Balance(NativeWithdrawn(l, sender, to, amount, payer).ledger.natives, a)
  {
    hide Paid, SafeOf, Balance;
    var from := Source(l.accounts, sender, payer);
    if Paid(l.natives, from, to, amount).Some? {
      PaymentTakesFromOne(l.natives, from, to, amount, a);
    }
  }

  lemma TokenWithdrawalsTakeFromPayer(l: Ledger, sender: Address, to: Address, amount: nat, payer: Payer, a: Address)
    requires a != sender && SafeOf(l.accounts, sender) != Some(a)
    ensures Balance(l.tokens, a) <= Balance(TokenWithdrawn(l, sender, to, amount, payer).ledger.tokens, a)
  {
    hide Paid, SafeOf, Balance;
    var from := Source(l.accounts, sender, payer);
    if Paid(l.tokens, from, to, amount).Some? {
      PaymentTakesFromOne(l.tokens, from, to, amount, a);
    }
  }

  lemma StakesComeFromSafe(l: Ledger, sender: Address, to: Address, stake: nat, a: Address)
    requires SafeOf(l.accounts, sender) != Some(a)
    ensures Balance(l.tokens, a) <= Balance(Funded(l, sender, to, stake).ledger.tokens, a)
  {
    hide SafeOf, AccountOf, Staked;
  }

  lemma RedemptionsOnlyPay(l: Ledger, id: ChannelId, index: nat, amount: nat, a: Address)
    ensures Balance(l.tokens, a) <= Balance(Redeemed(l, id, index, amount).ledger.tokens, a)
  {
    hide PayeeOf, Redeemable, Counted;
  }

  lemma FeesComeFromSender(l: Ledger, sender: Address, a: Address)
    requires a != sender
    ensures Balance(l.natives, a) == Balance(Charged(l, sender).ledger.natives, a)
  {
  }

  /** No balance shrinks but the sender's and that of the sender's safe. */
  lemma OnlyTheSenderPays(l: Ledger, tx: Tx, a: Address)
    requires a != tx.sender && SafeOf(l.accounts, tx.sender) != Some(a)
    ensures Balance(Apply(l, tx).ledger.tokens, a) >= Balance(l.tokens, a)
    ensures Balance(Apply(l, tx).ledger.natives, a) >= Balance(l.natives, a)
  {
    hide Register, Announced, NativeWithdrawn, TokenWithdrawn, Approved, Funded, Redeemed, WithStatus;
    hide Charged, SafeOf, Balance;
    var o := Acted(l, tx).ledger;
    assert Balance(o.tokens, a) >= Balance(l.tokens, a) && Balance(o.natives, a) >= Balance(l.natives, a) by {
      match tx.action
      case WithdrawNative(to, amount, payer) => NativeWithdrawalsTakeFromPayer(l, tx.sender, to, amount, payer, a);
      case WithdrawToken(to, amount, payer) => TokenWithdrawalsTakeFromPayer(l, tx.sender, to, amount, payer, a);
      case FundChannel(to, stake) => StakesComeFromSafe(l, tx.sender, to, stake, a);
      case RedeemTicket(id, index, amount) => RedemptionsOnlyPay(l, id, index, amount, a);
      case _ =>
    }
    FeesComeFromSender(o, tx.sender, a);
  }

  // Where the value goes.

  ghost function StakesOf(channels: map<ChannelId, Channel>, k: KeyId): map<ChannelId, nat> {
    map id | id in channels && channels[id].source == k :: channels[id].balance
  }

  /** All wxHOPR in the channels that lead away from account `k`. */
  ghost function Outgoing(channels: map<ChannelId, Channel>, k: KeyId): nat {
    Sum(StakesOf(channels, k))
  }

  /** What account `k` disposes of: its outgoing channels and its safe. */
  ghost function Disposes(l: Ledger, k: KeyId): nat
    requires k in l.accounts
  {
    var safe := l.accounts[k].safe;
    Outgoing(l.channels, k) + if safe.None? then 0 else Balance(l.tokens, safe.value)
  }

  lemma OutgoingWrite(channels: map<ChannelId, Channel>, id: ChannelId, c: Channel, k: KeyId)
    requires id in channels ==> channels[id].source == c.source
    ensures Outgoing(channels[id := c], k) == Outgoing(channels, k)
      + if c.source == k then c.balance - (if id in channels then channels[id].balance else 0) else 0
  {
    var before, after := StakesOf(channels, k), StakesOf(channels[id := c], k);
    if c.source == k {
      assert after == before[id := c.balance];
      SumWrite(before, id, c.balance);
    } else {
      assert after == before;
    }
  }

  /** A stake leaves the sender's safe and its allowance, and arrives in the sender's outgoing channels and no others. */
  lemma StakesFillOutgoing(l: Ledger, sender: Address, to: Address, stake: nat, k: KeyId)
    requires WellFormed(l) && Funded(l, sender, to, stake).ok
    ensures var after, safe := Funded(l, sender, to, stake).ledger, SafeOf(l.accounts, sender);
      && safe.Some?
      && Balance(l.tokens, safe.value) == Balance(after.tokens, safe.value) + stake
      && Balance(l.allowances, safe.value) == Balance(after.allowances, safe.value) + stake
      && Outgoing(after.channels, k) ==
           Outgoing(l.channels, k) + if AccountOf(l.accounts, sender) == Some(k) then stake else 0
  {
    OpensOnlyNew(l, sender, to);
    var id := ChannelId(sender, to);
    OutgoingWrite(l.channels, id, Funded(l, sender, to, stake).ledger.channels[id], k);
  }

  lemma CreditReaches(l: Ledger, payee: Payee, amount: nat, k: KeyId, other: KeyId)
    requires k in l.accounts
    requires payee.Opposite? ==> payee.id in l.channels && l.channels[payee.id].source == k
    requires payee.SafeBalance? ==> payee.safe in l.tokens && l.accounts[k].safe == Some(payee.safe)
    ensures Disposes(Credited(l, payee, amount), k) == Disposes(l, k) + if payee.Nobody? then 0 else amount
    ensures other != k ==> Outgoing(Credited(l, payee, amount).channels, other) == Outgoing(l.channels, other)
  {
    var after := Credited(l, payee, amount);
    if payee.Opposite? {
      OutgoingWrite(l.channels, payee.id, after.channels[payee.id], k);
      OutgoingWrite(l.channels, payee.id, after.channels[payee.id], other);
    }
  }

  /** Taking a ticket out of a channel takes its value from that channel's source. */
  lemma DrawnFromSource(channels: map<ChannelId, Channel>, id: ChannelId, index: nat, amount: nat, k: KeyId)
    requires id in channels && amount <= channels[id].balance
    ensures Outgoing(Drawn(channels, id, index, amount), k) ==
      Outgoing(channels, k) - if channels[id].source == k then amount else 0
  {
    OutgoingWrite(channels, id, Drawn(channels, id, index, amount)[id], k);
  }

  /**
   A redeemed ticket moves its value from the outgoing channels of the account that issued it to the account that
   receives it, unless nobody is there to be credited. A ticket to oneself moves nothing.
  */
  lemma TicketsPayTheReceiver(l: Ledger, id: ChannelId, index: nat, amount: nat)
    requires WellFormed(l) && Redeemable(l, id, index, amount)
    ensures var after, c := Redeemed(l, id, index, amount).ledger, l.channels[id];
      var destroyed := Destroyed(l, Tx(id.source, RedeemTicket(id, index, amount)));
      && after.accounts == l.accounts && c.source in l.accounts && c.destination in l.accounts
      && (c.source != c.destination ==>
            && Outgoing(after.channels, c.source) == Outgoing(l.channels, c.source) - amount
            && Disposes(after, c.destination) == Disposes(l, c.destination) + amount - destroyed)
      && (c.source == c.destination ==> Disposes(after, c.source) == Disposes(l, c.source))
  {
    hide Outgoing, Credited, Distinct, AccountOf, SafeOf;
    var c := l.channels[id];
    assert Joins(l.accounts, id, c);
    var drawn := l.(channels := Drawn(l.channels, id, index, amount));
    DrawnFromSource(l.channels, id, index, amount, c.source);
    DrawnFromSource(l.channels, id, index, amount, c.destination);
    var payee := PayeeOf(drawn, id);
    assert drawn.channels[id].source == c.source && drawn.channels[id].destination == c.destination;
    assert c.source == c.destination ==> payee.Opposite?;
    assert payee.Opposite? ==> drawn.channels[payee.id].source == c.destination;
    CreditReaches(drawn, payee, amount, c.destination, c.source);
  }

  // Tickets.

  /** The next ticket a channel accepts; a channel that does not exist yet is before any that does. */
  datatype Position = Position(epoch: int, index: int) {
    predicate AtMost(other: Position) {
      epoch < other.epoch || (epoch == other.epoch && index <= other.index)
    }
  }

  function NextTicket(l: Ledger, id: ChannelId): Position {
    if id in l.channels then Position(l.channels[id].epoch, l.channels[id].ticketIndex) else Position(-1, 0)
  }

  function StakeIn(l: Ledger, id: ChannelId): nat {
    if id in l.channels then l.channels[id].balance else 0
  }

  lemma StakingOnlyAdvances(l: Ledger, sender: Address, to: Address, stake: nat, id: ChannelId)
    requires WellFormed(l)
    ensures NextTicket(l, id).AtMost(NextTicket(Funded(l, sender, to, stake).ledger, id))
    ensures StakeIn(l, id) <= StakeIn(Funded(l, sender, to, stake).ledger, id)
  {
    hide SafeOf, Joins;
    if AccountOf(l.accounts, sender).Some? && AccountOf(l.accounts, to).Some? {
      OpensOnlyNew(l, sender, to);
    }
  }

  lemma CreditingKeepsTickets(l: Ledger, payee: Payee, amount: nat, id: ChannelId)
    requires payee.Opposite? ==> payee.id in l.channels
    requires payee.SafeBalance? ==> payee.safe in l.tokens
    ensures NextTicket(Credited(l, payee, amount), id) == NextTicket(l, id)
    ensures StakeIn(l, id) <= StakeIn(Credited(l, payee, amount), id)
  {
  }

  lemma RedeemingOnlyAdvances(l: Ledger, redeemed: ChannelId, index: nat, amount: nat, id: ChannelId)
    ensures NextTicket(l, id).AtMost(NextTicket(Redeemed(l, redeemed, index, amount).ledger, id))
    ensures StakeIn(l, id) <=
      StakeIn(Redeemed(l, redeemed, index, amount).ledger, id) + if id == redeemed then amount else 0
    ensures Redeemed(l, redeemed, index, amount).ok ==>
      NextTicket(Redeemed(l, redeemed, index, amount).ledger, redeemed)
        == Position(l.channels[redeemed].epoch, index + 1)
  {
    hide PayeeOf, Credited;
    if Redeemable(l, redeemed, index, amount) {
      var drawn := l.(channels := Drawn(l.channels, redeemed, index, amount));
      CreditingKeepsTickets(drawn, PayeeOf(drawn, redeemed), amount, id);
      CreditingKeepsTickets(drawn, PayeeOf(drawn, redeemed), amount, redeemed);
    }
  }

  lemma StatusKeepsTickets(l: Ledger, closed: ChannelId, status: Status, id: ChannelId)
    ensures NextTicket(WithStatus(l, closed, status).ledger, id) == NextTicket(l, id)
    ensures StakeIn(WithStatus(l, closed, status).ledger, id) == StakeIn(l, id)
  {
  }

  /** Whatever a transaction does, no channel goes back to an earlier epoch or, within one, to an earlier ticket. */
  lemma TicketsAdvance(l: Ledger, tx: Tx, id: ChannelId)
    requires WellFormed(l)
    ensures NextTicket(l, id).AtMost(NextTicket(Apply(l, tx).ledger, id))
  {
    hide Register, Announced, NativeWithdrawn, TokenWithdrawn, Approved, Funded, Redeemed, WithStatus, Charged, WellFormed;
    match tx.action
    case InitializeChannelClosure(c) => StatusKeepsTickets(l, c, PendingToClose, id);
    case FinalizeChannelClosure(c) => StatusKeepsTickets(l, c, Closed, id);
    case IncomingChannelClosure(c) => StatusKeepsTickets(l, c, Closed, id);
    case FundChannel(to, stake) => StakingOnlyAdvances(l, tx.sender, to, stake, id);
    case RedeemTicket(c, index, amount) => RedeemingOnlyAdvances(l, c, index, amount, id);
    case _ =>
  }

  /** No channel loses anything but the value of its own tickets. */
  lemma OnlyTicketsDrainChannels(l: Ledger, tx: Tx, id: ChannelId)
    requires WellFormed(l)
    ensures StakeIn(l, id) <= StakeIn(Apply(l, tx).ledger, id)
      + if tx.action.RedeemTicket? && tx.action.id == id then tx.action.amount else 0
  {
    hide Register, Announced, NativeWithdrawn, TokenWithdrawn, Approved, Funded, Redeemed, WithStatus, Charged, WellFormed;
    match tx.action
    case InitializeChannelClosure(c) => StatusKeepsTickets(l, c, PendingToClose, id);
    case FinalizeChannelClosure(c) => StatusKeepsTickets(l, c, Closed, id);
    case IncomingChannelClosure(c) => StatusKeepsTickets(l, c, Closed, id);
    case FundChannel(to, stake) => StakingOnlyAdvances(l, tx.sender, to, stake, id);
    case RedeemTicket(c, index, amount) => RedeemingOnlyAdvances(l, c, index, amount, id);
    case _ =>
  }

  lemma {:induction false} TicketsOnlyAdvance(l: Ledger, txs: seq<Tx>, from: nat, id: ChannelId)
    requires WellFormed(l) && from <= |txs|
    ensures NextTicket(After(l, txs[..from]), id).AtMost(NextTicket(After(l, txs), id))
  {
    hide Apply, WellFormed, NextTicket;
    if from < |txs| {
      var init := txs[..|txs| - 1];
      assert init[..from] == txs[..from];
      TicketsOnlyAdvance(l, init, from, id);
      StaysWellFormed(l, init);
      TicketsAdvance(After(l, init), txs[|txs| - 1], id);
    } else {
      assert txs[..from] == txs;
    }
  }

  /** Transaction `i` of the run redeems a ticket of channel `id`, even if its sender then cannot pay the fee. */
  ghost predicate Redeems(l: Ledger, txs: seq<Tx>, i: nat, id: ChannelId)
    requires i < |txs|
  {
    txs[i].action.RedeemTicket? && txs[i].action.id == id && Acted(After(l, txs[..i]), txs[i]).ok
  }

  /** The epoch of the channel and the index of the ticket that transaction `i` redeems. */
  ghost function Ticket(l: Ledger, txs: seq<Tx>, i: nat, id: ChannelId): Position
    requires i < |txs| && Redeems(l, txs, i, id)
  {
    Position(NextTicket(After(l, txs[..i]), id).epoch, txs[i].action.index)
  }

  lemma RedeemedIsPast(l: Ledger, tx: Tx)
    requires tx.action.RedeemTicket? && Acted(l, tx).ok
    ensures NextTicket(Apply(l, tx).ledger, tx.action.id) ==
      Position(NextTicket(l, tx.action.id).epoch, tx.action.index + 1)
    ensures NextTicket(l, tx.action.id).index <= tx.action.index
  {
    hide Charged, PayeeOf;
    RedeemingOnlyAdvances(l, tx.action.id, tx.action.index, tx.action.amount, tx.action.id);
  }

  /** Of two redemptions of one channel, the later one is of a later ticket: no ticket is ever redeemed twice. */
  lemma NoTicketTwice(l: Ledger, txs: seq<Tx>, i: nat, j: nat, id: ChannelId)
    requires WellFormed(l)
    requires i < j < |txs| && Redeems(l, txs, i, id) && Redeems(l, txs, j, id)
    ensures Ticket(l, txs, i, id).AtMost(Ticket(l, txs, j, id))
    ensures Ticket(l, txs, i, id) != Ticket(l, txs, j, id)
  {
    hide Apply, Acted, WellFormed, NextTicket;
    RedeemedIsPast(After(l, txs[..i]), txs[i]);
    RedeemedIsPast(After(l, txs[..j]), txs[j]);
    assert txs[..i + 1][..i] == txs[..i];
    assert txs[..j][..i + 1] == txs[..i + 1];
    TicketsOnlyAdvance(l, txs[..j], i + 1, id);
  }
}
